// Quoting for the shell and for XML attributes, read back by the rules of the shell and of XML.
module Quoting {
  import opened Common
  import opened Strings

  /** strings.ReplaceAll of one character. */
  function Replace(s: string, c: char, mark: string): string {
    if s == "" then "" else (if s[0] == c then mark else [s[0]]) + Replace(s[1..], c, mark)
  }

  /** shellQuote */
  function ShellQuote(value: string): string {
    "'" + Replace(value, '\'', "'\\''") + "'"
  }

  /** shellSingleQuote */
  function ShellSingleQuote(value: string): string {
    "'" + Replace(value, '\'', "'\"'\"'") + "'"
  }

  // ---------- The shell's reading of a command ----------

  datatype Token = Word(text: string) | Operator(sign: char)

  datatype Mode = Plain | Single | Double

  predicate IsOperator(c: char) { c in {'|', '&', ';', '<', '>', '(', ')', '\n'} }

  predicate IsBlankChar(c: char) { c == ' ' || c == '\t' }

  /** Characters that do not stand for themselves where they are not quoted. */
  predicate IsSpecial(c: char) {
    IsOperator(c) || IsBlankChar(c) || c in {'\'', '"', '\\', '$', '`', '#'}
  }

  function Grown(word: Option<string>, more: string): Option<string> {
    Some((if word.Some? then word.value else "") + more)
  }

  function Ended(word: Option<string>, done: seq<Token>): seq<Token> {
    if word.Some? then done + [Word(word.value)] else done
  }

  /** Token recognition and quote removal, POSIX.1-2017 Shell Command Language, sections 2.2.1 to 2.2.3 and 2.3,
      each operator character being a token of its own. None is for an unfinished quotation and for expansions
      and comments, which are not modelled. */
  function Lex(s: string, mode: Mode, word: Option<string>, done: seq<Token>): Option<seq<Token>>
    decreases |s|
  {
    if s == "" then if mode.Plain? then Some(Ended(word, done)) else None
    else
      var c, rest := s[0], s[1..];
      match mode
      case Single => if c == '\'' then Lex(rest, Plain, word, done) else Lex(rest, Single, Grown(word, [c]), done)
      case Double =>
        if c == '"' then Lex(rest, Plain, word, done)
        else if c == '$' || c == '`' then None
        else if c == '\\' && rest != "" && rest[0] in {'$', '`', '"', '\\', '\n'} then
          Lex(rest[1..], Double, if rest[0] == '\n' then word else Grown(word, [rest[0]]), done)
        else Lex(rest, Double, Grown(word, [c]), done)
      case Plain =>
        if c == '\'' then Lex(rest, Single, Grown(word, ""), done)
        else if c == '"' then Lex(rest, Double, Grown(word, ""), done)
        else if c == '\\' then
          if rest == "" then None
          else Lex(rest[1..], Plain, if rest[0] == '\n' then word else Grown(word, [rest[0]]), done)
        else if c == '$' || c == '`' then None
        else if IsOperator(c) then Lex(rest, Plain, None, Ended(word, done) + [Operator(c)])
        else if IsBlankChar(c) then Lex(rest, Plain, None, Ended(word, done))
        else if c == '#' && word.None? then None
        else Lex(rest, Plain, Grown(word, [c]), done)
  }

  function Read(command: string): Option<seq<Token>> { Lex(command, Plain, None, []) }

  // ---------- One step ----------

  lemma SingleStep(c: char, s: string, w: string, done: seq<Token>)
    requires c != '\''
    ensures Lex([c] + s, Single, Some(w), done) == Lex(s, Single, Some(w + [c]), done)
  {
    assert ([c] + s)[1..] == s;
  }

  lemma QuoteStep(s: string, word: Option<string>, done: seq<Token>)
    ensures Lex("'" + s, Single, word, done) == Lex(s, Plain, word, done)
    ensures Lex("'" + s, Plain, word, done) == Lex(s, Single, Grown(word, ""), done)
  {
    assert ("'" + s)[1..] == s;
  }

  lemma DoubleQuoteStep(s: string, word: Option<string>, done: seq<Token>)
    ensures Lex("\"" + s, Double, word, done) == Lex(s, Plain, word, done)
    ensures Lex("\"" + s, Plain, word, done) == Lex(s, Double, Grown(word, ""), done)
    ensures Lex("'" + s, Double, word, done) == Lex(s, Double, Grown(word, "'"), done)
  {
    assert ("\"" + s)[1..] == s && ("'" + s)[1..] == s;
  }

  lemma BackslashStep(s: string, word: Option<string>, done: seq<Token>)
    ensures Lex("\\" + "'" + s, Plain, word, done) == Lex(s, Plain, Grown(word, "'"), done)
  {
    var t := "\\" + "'" + s;
    assert t[1..] == "'" + s && t[1..][1..] == s;
  }

  // ---------- Quoting is undone ----------

  /** '\'' inside single quotes is one quote. */
  lemma EscapedQuote(s: string, w: string, done: seq<Token>)
    ensures Lex("'\\''" + s, Single, Some(w), done) == Lex(s, Single, Some(w + "'"), done)
  {
    var t := "'" + s;
    assert "'\\''" + s == "'" + ("\\" + "'" + t);
    hide Lex;
    QuoteStep("\\" + "'" + t, Some(w), done);
    BackslashStep(t, Some(w), done);
    QuoteStep(s, Some(w + "'"), done);
    assert w + "'" + "" == w + "'";
  }

  /** '"'"' inside single quotes is one quote. */
  lemma DoublyQuoted(s: string, w: string, done: seq<Token>)
    ensures Lex("'\"'\"'" + s, Single, Some(w), done) == Lex(s, Single, Some(w + "'"), done)
  {
    var t := "'" + s;
    var u := "\"" + t;
    var v := "'" + u;
    assert "'\"'\"'" + s == "'" + ("\"" + v);
    hide Lex;
    QuoteStep("\"" + v, Some(w), done);
    DoubleQuoteStep(v, Some(w), done);
    DoubleQuoteStep(u, Some(w + ""), done);
    DoubleQuoteStep(t, Some(w + "" + "'"), done);
    QuoteStep(s, Some(w + "" + "'"), done);
    assert w + "" + "'" + "" == w + "'";
  }

  /** How a quotation writes a quote. */
  predicate WritesQuote(mark: string) { mark == "'\\''" || mark == "'\"'\"'" }

  lemma {:induction false} Body(value: string, mark: string, rest: string, w: string, done: seq<Token>)
    requires WritesQuote(mark)
    ensures Lex(Replace(value, '\'', mark) + ("'" + rest), Single, Some(w), done)
              == Lex(rest, Plain, Some(w + value), done)
  {
    var tail := "'" + rest;
    if value == "" {
      BodyEnd(rest, w, done);
    } else {
      var c := value[0];
      var more := Replace(value[1..], '\'', mark);
      ReplaceFirst(value, mark, tail);
      hide Lex, Replace;
      Body(value[1..], mark, rest, w + [c], done);
      assert w + [c] + value[1..] == w + value;
      if c == '\'' {
        if mark == "'\\''" {
          EscapedQuote(more + tail, w, done);
        } else {
          DoublyQuoted(more + tail, w, done);
        }
      } else {
        SingleStep(c, more + tail, w, done);
      }
    }
  }

  lemma BodyEnd(rest: string, w: string, done: seq<Token>)
    ensures Replace("", '\'', "") == ""
    ensures forall mark ::
              Lex(Replace("", '\'', mark) + ("'" + rest), Single, Some(w), done) == Lex(rest, Plain, Some(w + ""), done)
  {
    QuoteStep(rest, Some(w), done);
    assert w + "" == w && "" + ("'" + rest) == "'" + rest;
    hide Lex;
  }

  lemma ReplaceFirst(value: string, mark: string, tail: string)
    requires value != ""
    ensures Replace(value, '\'', mark) + tail
              == (if value[0] == '\'' then mark else [value[0]]) + (Replace(value[1..], '\'', mark) + tail)
  {
  }

  /** The shell reads a quotation, wherever it stands, as exactly its value. */
  lemma QuotationReads(value: string, rest: string, word: Option<string>, done: seq<Token>)
    ensures Lex(ShellQuote(value) + rest, Plain, word, done) == Lex(rest, Plain, Grown(word, value), done)
    ensures Lex(ShellSingleQuote(value) + rest, Plain, word, done) == Lex(rest, Plain, Grown(word, value), done)
  {
    hide Lex;
    Quotation(value, "'\\''", rest, word, done);
    Quotation(value, "'\"'\"'", rest, word, done);
  }

  lemma Quotation(value: string, mark: string, rest: string, word: Option<string>, done: seq<Token>)
    requires WritesQuote(mark)
    ensures Lex(("'" + Replace(value, '\'', mark) + "'") + rest, Plain, word, done)
              == Lex(rest, Plain, Grown(word, value), done)
  {
    hide Lex;
    var w := Grown(word, "").value;
    assert ("'" + Replace(value, '\'', mark) + "'") + rest == "'" + (Replace(value, '\'', mark) + ("'" + rest));
    QuoteStep(Replace(value, '\'', mark) + ("'" + rest), word, done);
    Body(value, mark, rest, w, done);
    GrownTwice(word, "", value);
    assert "" + value == value;
  }

  /** A quoted value alone is one word, the value. */
  lemma QuotedIsOneWord(value: string)
    ensures Read(ShellQuote(value)) == Some([Word(value)]) && Read(ShellSingleQuote(value)) == Some([Word(value)])
  {
    QuotationReads(value, "", None, []);
    assert ShellQuote(value) + "" == ShellQuote(value) && ShellSingleQuote(value) + "" == ShellSingleQuote(value);
    hide ShellQuote, ShellSingleQuote, Lex;
    assert "" + value == value;
    LastReads(value, []);
    assert [] + [Word(value)] == [Word(value)];
  }

  // ---------- Whole commands ----------

  predicate PlainText(w: string) {
    forall i :: 0 <= i < |w| ==> !IsSpecial(w[i])
  }

  lemma {:induction false} PlainReads(w: string, rest: string, word: Option<string>, done: seq<Token>)
    requires PlainText(w) && w != ""
    ensures Lex(w + rest, Plain, word, done) == Lex(rest, Plain, Grown(word, w), done)
  {
    assert !IsSpecial(w[0]);
    var more := w[1..] + rest;
    assert w + rest == [w[0]] + more && ([w[0]] + more)[1..] == more;
    assert Lex([w[0]] + more, Plain, word, done) == Lex(more, Plain, Grown(word, [w[0]]), done);
    hide Lex;
    assert w == [w[0]] + w[1..];
    if |w| > 1 {
      PlainReads(w[1..], rest, Grown(word, [w[0]]), done);
      GrownTwice(word, [w[0]], w[1..]);
    } else {
      assert more == rest;
    }
  }

  lemma GrownTwice(word: Option<string>, s: string, t: string)
    ensures Grown(Grown(word, s), t) == Grown(word, s + t)
  {
    var w := if word.Some? then word.value else "";
    assert w + s + t == w + (s + t);
  }

  lemma SpaceReads(rest: string, word: Option<string>, done: seq<Token>)
    ensures Lex(" " + rest, Plain, word, done) == Lex(rest, Plain, None, Ended(word, done))
  {
    assert (" " + rest)[1..] == rest;
  }

  lemma OperatorReads(c: char, rest: string, done: seq<Token>)
    requires IsOperator(c)
    ensures Lex([c] + rest, Plain, None, done) == Lex(rest, Plain, None, done + [Operator(c)])
  {
    assert ([c] + rest)[1..] == rest;
  }

  /** A plain word and a blank. */
  lemma WordReads(w: string, rest: string, done: seq<Token>)
    requires PlainText(w) && w != ""
    ensures Lex(w + (" " + rest), Plain, None, done) == Lex(rest, Plain, None, done + [Word(w)])
  {
    hide Lex;
    PlainReads(w, " " + rest, None, done);
    SpaceReads(rest, Grown(None, w), done);
    assert "" + w == w;
  }

  /** A quotation and a blank. */
  lemma QuotedReads(value: string, rest: string, done: seq<Token>)
    ensures Lex(ShellQuote(value) + (" " + rest), Plain, None, done) == Lex(rest, Plain, None, done + [Word(value)])
  {
    hide Lex, ShellQuote, ShellSingleQuote;
    QuotationReads(value, " " + rest, None, done);
    SpaceReads(rest, Grown(None, value), done);
    assert "" + value == value;
  }

  /** The last word of a command. */
  lemma LastReads(word: string, done: seq<Token>)
    ensures Lex("", Plain, Some(word), done) == Some(done + [Word(word)])
  {
  }

  /** migrationRemoteShellArgs: the command ssh hands to the remote shell. */
  function RemoteCommand(command: string): string { "sh -c " + ShellQuote(command) }

  lemma RemoteReads(command: string)
    ensures Read(RemoteCommand(command)) == Some([Word("sh"), Word("-c"), Word(command)])
  {
    hide Lex, ShellQuote, ShellSingleQuote;
    var q := ShellQuote(command);
    assert RemoteCommand(command) == "sh" + (" " + ("-c" + (" " + (q + ""))));
    WordReads("sh", "-c" + (" " + (q + "")), []);
    WordReads("-c", q + "", [Word("sh")]);
    QuotationReads(command, "", None, [Word("sh"), Word("-c")]);
    assert "" + command == command;
    LastReads(command, [Word("sh"), Word("-c")]);
    assert [] + [Word("sh")] == [Word("sh")] && [Word("sh")] + [Word("-c")] == [Word("sh"), Word("-c")];
    assert [Word("sh"), Word("-c")] + [Word(command)] == [Word("sh"), Word("-c"), Word(command)];
  }

  /** The command of checkRemoteHostnameResolution. */
  function GetentCommand(hostname: string): string { "getent hosts " + ShellQuote(hostname) + " || true" }

  lemma GetentReads(hostname: string)
    ensures Read(GetentCommand(hostname))
              == Some([Word("getent"), Word("hosts"), Word(hostname), Operator('|'), Operator('|'), Word("true")])
  {
    hide Lex, ShellQuote, ShellSingleQuote;
    var q := ShellQuote(hostname);
    GetentText(q);
    var done := [Word("getent"), Word("hosts"), Word(hostname)];
    WordReads("getent", "hosts" + (" " + (q + (" " + "|| true"))), []);
    WordReads("hosts", q + (" " + "|| true"), [Word("getent")]);
    QuotedReads(hostname, "|| true", [Word("getent"), Word("hosts")]);
    OrTrue(done);
    assert [] + [Word("getent")] == [Word("getent")]
      && [Word("getent")] + [Word("hosts")] == [Word("getent"), Word("hosts")];
    assert [Word("getent"), Word("hosts")] + [Word(hostname)] == done;
    assert done + [Operator('|'), Operator('|'), Word("true")]
      == [Word("getent"), Word("hosts"), Word(hostname), Operator('|'), Operator('|'), Word("true")];
  }

  lemma GetentText(q: string)
    ensures "getent hosts " + q + " || true" == "getent" + (" " + ("hosts" + (" " + (q + (" " + "|| true")))))
  {
  }

  lemma OrTrue(done: seq<Token>)
    ensures Lex("|| true", Plain, None, done) == Some(done + [Operator('|'), Operator('|'), Word("true")])
  {
    hide Lex;
    assert "|| true" == ['|'] + (['|'] + (" " + ("true" + "")));
    OperatorReads('|', ['|'] + (" " + ("true" + "")), done);
    OperatorReads('|', " " + ("true" + ""), done + [Operator('|')]);
    SpaceReads("true" + "", None, done + [Operator('|')] + [Operator('|')]);
    PlainReads("true", "", None, done + [Operator('|')] + [Operator('|')]);
    assert "" + "true" == "true";
    LastReads("true", done + [Operator('|')] + [Operator('|')]);
    assert done + [Operator('|')] + [Operator('|')] + [Word("true")]
      == done + [Operator('|'), Operator('|'), Word("true")];
  }

  /** Twice nested: the remote shell is given a command that in turn reads the host name as it was. */
  lemma NestedReads(hostname: string)
    ensures var outer := Read(RemoteCommand(GetentCommand(hostname)));
            && outer.Some? && |outer.value| == 3 && outer.value[2].Word?
            && var inner := Read(outer.value[2].text);
               inner.Some? && |inner.value| > 2 && inner.value[2] == Word(hostname)
  {
    RemoteReads(GetentCommand(hostname));
    GetentReads(hostname);
    hide Read, RemoteCommand, GetentCommand;
  }

  // ---------- A line for the hosts file ----------

  /** migrationHostsEntryCommand */
  function HostsCommand(ip: string, hostname: string): string {
    "sed -i.bak -E " + ShellQuote(HostsScript(hostname)) + " /etc/hosts && printf '%s\\n' "
      + ShellQuote(HostsEntry(ip, hostname)) + " >> /etc/hosts"
  }

  function HostsScript(hostname: string): string { "/(^|[[:space:]])" + TrimSpace(hostname) + "([[:space:]]|$)/d" }

  function HostsEntry(ip: string, hostname: string): string { TrimSpace(ip) + " " + TrimSpace(hostname) }

  lemma HostsText(script: string, entry: string)
    ensures "sed -i.bak -E " + script + " /etc/hosts && printf '%s\\n' " + entry + " >> /etc/hosts"
         == "sed" + (" " + ("-i.bak" + (" " +
              ("-E" + (" " + (script + (" " + ("/etc/hosts" + (" " + AndPrintf(entry))))))))))
  {
    assert " /etc/hosts && printf '%s\\n' " == " " + ("/etc/hosts" + (" " + "&& printf '%s\\n' "));
  }

  function AndPrintf(entry: string): string { "&& printf '%s\\n' " + entry + " >> /etc/hosts" }

  lemma AndPrintfText(entry: string)
    ensures AndPrintf(entry)
              == ['&'] + (['&'] + (" " + ("printf" + (" " +
                   (ShellQuote("%s\\n") + (" " + (entry + (" " + ">> /etc/hosts"))))))))
  {
    FormatQuoted();
    hide ShellQuote;
    var tail := entry + (" " + ">> /etc/hosts");
    assert "&& printf '%s\\n' " == "&& printf " + ("'%s\\n'" + " ");
    assert "&& printf " == "&&" + (" " + ("printf" + " "));
    assert AndPrintf(entry) == "&& printf '%s\\n' " + tail;
    PrintfText("'%s\\n'", tail);
  }

  lemma PrintfText(format: string, tail: string)
    ensures ("&&" + (" " + ("printf" + " "))) + (format + " ") + tail
              == ['&'] + (['&'] + (" " + ("printf" + (" " + (format + (" " + tail))))))
  {
  }

  lemma FormatQuoted()
    ensures ShellQuote("%s\\n") == "'%s\\n'"
  {
    Untouched("%s\\n", '\'', "'\\''");
    hide Replace;
  }

  lemma AppendHosts(done: seq<Token>)
    ensures Lex(">> /etc/hosts", Plain, None, done) == Some(done + [Operator('>'), Operator('>'), Word("/etc/hosts")])
  {
    hide Lex;
    var two := done + [Operator('>')] + [Operator('>')];
    assert ">> /etc/hosts" == ['>'] + (['>'] + (" " + ("/etc/hosts" + "")));
    OperatorReads('>', ['>'] + (" " + ("/etc/hosts" + "")), done);
    OperatorReads('>', " " + ("/etc/hosts" + ""), done + [Operator('>')]);
    SpaceReads("/etc/hosts" + "", None, two);
    PlainReads("/etc/hosts", "", None, two);
    assert "" + "/etc/hosts" == "/etc/hosts";
    LastReads("/etc/hosts", two);
    assert two + [Word("/etc/hosts")] == done + [Operator('>'), Operator('>'), Word("/etc/hosts")];
  }

  lemma PrintfReads(entry: string, done: seq<Token>)
    ensures Lex(AndPrintf(ShellQuote(entry)), Plain, None, done)
         == Some(done
                 + [Operator('&'), Operator('&'), Word("printf"), Word("%s\\n"), Word(entry), Operator('>'),
                    Operator('>'), Word("/etc/hosts")])
  {
    var q := ShellQuote(entry);
    AndPrintfText(q);
    hide Lex, ShellQuote, ShellSingleQuote, AndPrintf;
    var tail := q + (" " + ">> /etc/hosts");
    var format := ShellQuote("%s\\n") + (" " + tail);
    var two := done + [Operator('&')] + [Operator('&')];
    OperatorReads('&', ['&'] + (" " + ("printf" + (" " + format))), done);
    OperatorReads('&', " " + ("printf" + (" " + format)), done + [Operator('&')]);
    SpaceReads("printf" + (" " + format), None, two);
    WordReads("printf", format, two);
    QuotedReads("%s\\n", tail, two + [Word("printf")]);
    QuotedReads(entry, ">> /etc/hosts", two + [Word("printf")] + [Word("%s\\n")]);
    AppendHosts(two + [Word("printf")] + [Word("%s\\n")] + [Word(entry)]);
    assert two + [Word("printf")] + [Word("%s\\n")] + [Word(entry)] + [Operator('>'), Operator('>'), Word("/etc/hosts")]
        == done + [Operator('&'), Operator('&'), Word("printf"), Word("%s\\n"), Word(entry), Operator('>'),
                   Operator('>'), Word("/etc/hosts")];
  }

  lemma FiveWords(script: string, more: seq<Token>)
    requires |more| == 8
    ensures [] + [Word("sed")] + [Word("-i.bak")] + [Word("-E")] + [Word(script)] + [Word("/etc/hosts")] + more
         == [Word("sed"), Word("-i.bak"), Word("-E"), Word(script), Word("/etc/hosts"), more[0], more[1], more[2],
             more[3], more[4], more[5], more[6], more[7]]
  {
  }

  lemma ScriptAndEntry(ip: string, hostname: string)
    ensures HostsScript(hostname) == "/(^|[[:space:]])" + TrimSpace(hostname) + "([[:space:]]|$)/d"
    ensures HostsEntry(ip, hostname) == TrimSpace(ip) + " " + TrimSpace(hostname)
  {
  }

  /** The shell gets the script and the entry as one word each, whatever the host name holds. */
  lemma HostsReads(ip: string, hostname: string)
    ensures Read(HostsCommand(ip, hostname))
         == Some([Word("sed"), Word("-i.bak"), Word("-E"),
                  Word("/(^|[[:space:]])" + TrimSpace(hostname) + "([[:space:]]|$)/d"), Word("/etc/hosts"),
                  Operator('&'), Operator('&'), Word("printf"), Word("%s\\n"),
                  Word(TrimSpace(ip) + " " + TrimSpace(hostname)), Operator('>'), Operator('>'), Word("/etc/hosts")])
  {
    ScriptAndEntry(ip, hostname);
    hide Lex, ShellQuote, ShellSingleQuote, HostsScript, HostsEntry, AndPrintf;
    var script, entry := HostsScript(hostname), HostsEntry(ip, hostname);
    HostsText(ShellQuote(script), ShellQuote(entry));
    var t1 := AndPrintf(ShellQuote(entry));
    var t2 := "/etc/hosts" + (" " + t1);
    var t3 := ShellQuote(script) + (" " + t2);
    var t4 := "-E" + (" " + t3);
    var t5 := "-i.bak" + (" " + t4);
    WordReads("sed", t5, []);
    WordReads("-i.bak", t4, [] + [Word("sed")]);
    WordReads("-E", t3, [] + [Word("sed")] + [Word("-i.bak")]);
    QuotedReads(script, t2, [] + [Word("sed")] + [Word("-i.bak")] + [Word("-E")]);
    var four := [] + [Word("sed")] + [Word("-i.bak")] + [Word("-E")] + [Word(script)];
    WordReads("/etc/hosts", t1, four);
    PrintfReads(entry, four + [Word("/etc/hosts")]);
    FiveWords(script,
              [Operator('&'), Operator('&'), Word("printf"), Word("%s\\n"), Word(entry), Operator('>'), Operator('>'),
               Word("/etc/hosts")]);
  }

  // ---------- XML attributes ----------

  /** xmlEscapeAttr: five replacements, the ampersand first. */
  function XmlEscape(value: string): string {
    Replace(Replace(Replace(Replace(Replace(value, '&', "&amp;"), '\'', "&apos;"), '"', "&quot;"), '<', "&lt;"), '>',
            "&gt;")
  }

  /** What one character is written as. */
  function Entity(c: char): string {
    if c == '&' then "&amp;" else if c == '\'' then "&apos;" else if c == '"' then "&quot;"
    else if c == '<' then "&lt;" else if c == '>' then "&gt;" else [c]
  }

  function EscapeEach(value: string): string {
    if value == "" then "" else Entity(value[0]) + EscapeEach(value[1..])
  }

  /** Reading an attribute value: the predefined entities of section 4.6 of XML 1.0, other references being
      refused, and no bare markup or quotation mark. */
  function Unescape(text: string): Option<string>
    decreases |text|
  {
    if text == "" then Some("")
    else if "&amp;" <= text then Prepend('&', Unescape(text[5..]))
    else if "&apos;" <= text then Prepend('\'', Unescape(text[6..]))
    else if "&quot;" <= text then Prepend('"', Unescape(text[6..]))
    else if "&lt;" <= text then Prepend('<', Unescape(text[4..]))
    else if "&gt;" <= text then Prepend('>', Unescape(text[4..]))
    else if text[0] in {'&', '\'', '"', '<', '>'} then None
    else Prepend(text[0], Unescape(text[1..]))
  }

  function Prepend(c: char, s: Option<string>): Option<string> {
    if s.Some? then Some([c] + s.value) else None
  }

  lemma {:induction false} ReplaceConcat(s: string, t: string, c: char, mark: string)
    ensures Replace(s + t, c, mark) == Replace(s, c, mark) + Replace(t, c, mark)
  {
    if s == "" {
      assert s + t == t;
    } else {
      assert (s + t)[1..] == s[1..] + t;
      ReplaceConcat(s[1..], t, c, mark);
    }
  }

  lemma EscapeConcat(s: string, t: string)
    ensures XmlEscape(s + t) == XmlEscape(s) + XmlEscape(t)
  {
    hide Replace;
    ReplaceConcat(s, t, '&', "&amp;");
    var s1, t1 := Replace(s, '&', "&amp;"), Replace(t, '&', "&amp;");
    ReplaceConcat(s1, t1, '\'', "&apos;");
    var s2, t2 := Replace(s1, '\'', "&apos;"), Replace(t1, '\'', "&apos;");
    ReplaceConcat(s2, t2, '"', "&quot;");
    var s3, t3 := Replace(s2, '"', "&quot;"), Replace(t2, '"', "&quot;");
    ReplaceConcat(s3, t3, '<', "&lt;");
    ReplaceConcat(Replace(s3, '<', "&lt;"), Replace(t3, '<', "&lt;"), '>', "&gt;");
  }

  lemma {:induction false} Untouched(s: string, c: char, mark: string)
    requires c !in s
    ensures Replace(s, c, mark) == s
  {
    if s != "" {
      Untouched(s[1..], c, mark);
    }
  }

  lemma ReplaceOne(c: char, d: char, mark: string)
    ensures Replace([c], d, mark) == if c == d then mark else [c]
  {
    assert [c][1..] == "" && Replace("", d, mark) == "";
  }

  lemma EscapeOne(c: char)
    ensures XmlEscape([c]) == Entity(c)
  {
    hide Replace;
    var e1 := if c == '&' then "&amp;" else [c];
    ReplaceOne(c, '&', "&amp;");
    ReplaceOne(c, '\'', "&apos;");
    ReplaceOne(c, '"', "&quot;");
    ReplaceOne(c, '<', "&lt;");
    ReplaceOne(c, '>', "&gt;");
    Untouched("&amp;", '\'', "&apos;");
    Untouched("&amp;", '"', "&quot;");
    Untouched("&amp;", '<', "&lt;");
    Untouched("&amp;", '>', "&gt;");
    Untouched("&apos;", '"', "&quot;");
    Untouched("&apos;", '<', "&lt;");
    Untouched("&apos;", '>', "&gt;");
    Untouched("&quot;", '<', "&lt;");
    Untouched("&quot;", '>', "&gt;");
    Untouched("&lt;", '>', "&gt;");
  }

  /** The five replacements in a row write every character on its own. */
  lemma {:induction false} EscapesEach(value: string)
    ensures XmlEscape(value) == EscapeEach(value)
  {
    if value != "" {
      EscapesEach(value[1..]);
      EscapeOne(value[0]);
      assert value == [value[0]] + value[1..];
      hide XmlEscape, Entity;
      EscapeConcat([value[0]], value[1..]);
    }
  }

  /** What the entities and other characters begin with. */
  lemma UnescapeEntity(c: char, rest: string)
    ensures Unescape(Entity(c) + rest) == Prepend(c, Unescape(rest))
  {
    if c == '&' {
      Reads(c, "&amp;", rest);
    } else if c == '\'' {
      Reads(c, "&apos;", rest);
    } else if c == '"' {
      Reads(c, "&quot;", rest);
    } else if c == '<' {
      Reads(c, "&lt;", rest);
    } else if c == '>' {
      Reads(c, "&gt;", rest);
    } else {
      ReadsBare(c, rest);
    }
  }

  lemma Reads(c: char, entity: string, rest: string)
    requires (c == '&' && entity == "&amp;") || (c == '\'' && entity == "&apos;") || (c == '"' && entity == "&quot;")
             || (c == '<' && entity == "&lt;") || (c == '>' && entity == "&gt;")
    ensures Unescape(entity + rest) == Prepend(c, Unescape(rest))
  {
    var text := entity + rest;
    assert text[|entity|..] == rest && entity <= text;
    assert text[1] == entity[1] && text[2] == entity[2];
    assert entity != "&amp;" ==> !("&amp;" <= text) by {
      assert "&amp;"[1] == 'a' && "&amp;"[2] == 'm';
    }
    assert entity != "&apos;" ==> !("&apos;" <= text) by {
      assert "&apos;"[1] == 'a' && "&apos;"[2] == 'p';
    }
    assert "&quot;"[1] == 'q' && "&lt;"[1] == 'l' && "&gt;"[1] == 'g';
    assert text != "";
    hide Prepend;
  }

  lemma ReadsBare(c: char, rest: string)
    requires c !in {'&', '\'', '"', '<', '>'}
    ensures Unescape([c] + rest) == Prepend(c, Unescape(rest))
  {
    var text := [c] + rest;
    assert text[0] == c && text[1..] == rest;
    assert "&amp;"[0] == '&' && "&apos;"[0] == '&' && "&quot;"[0] == '&' && "&lt;"[0] == '&' && "&gt;"[0] == '&';
    hide Prepend;
  }

  /** Reading an escaped value gives it back. */
  lemma {:induction false} EscapeRoundTrip(value: string)
    ensures Unescape(XmlEscape(value)) == Some(value)
  {
    EscapesEach(value);
    if value != "" {
      EscapeRoundTrip(value[1..]);
      EscapesEach(value[1..]);
      UnescapeEntity(value[0], EscapeEach(value[1..]));
      hide Unescape, XmlEscape, Entity;
      assert value == [value[0]] + value[1..];
    }
  }
}

// The rewrite of the DNS lines of an ifcfg file.
module Ifcfg {
  import opened Strings
  import opened Pieces

  /** strings.ReplaceAll of CRLF by LF. */
  function Uncrlf(s: string): string {
    if s == "" then ""
    else if |s| > 1 && s[0] == '\r' && s[1] == '\n' then "\n" + Uncrlf(s[2..])
    else [s[0]] + Uncrlf(s[1..])
  }

  function TrimNewlines(s: string): string {
    if s != "" && s[|s| - 1] == '\n' then TrimNewlines(s[..|s| - 1]) else s
  }

  /** The text in front of the first equals sign. */
  function Key(s: string): string {
    if s == "" || s[0] == '=' then "" else [s[0]] + Key(s[1..])
  }

  /** isIFCFGDNSKey */
  predicate IsDnsKey(key: string) {
    "DNS" <= key && |key| > 3 && forall i :: 3 <= i < |key| ==> IsDigit(key[i])
  }

  predicate IsDnsText(trimmed: string) {
    "DNS" <= trimmed && '=' in trimmed && IsDnsKey(Key(trimmed))
  }

  /** The line is neither blank nor a numbered DNS key. */
  predicate IsKept(line: string) {
    var trimmed := TrimSpace(line);
    trimmed != "" && !IsDnsText(trimmed)
  }

  function Kept(lines: seq<string>): seq<string> {
    if lines == [] then []
    else
      var n := |lines| - 1;
      Kept(lines[..n]) + if IsKept(lines[n]) then [lines[n]] else []
  }

  function DnsLine(i: nat, value: string): string { "DNS" + Decimal(i + 1) + "=" + value }

  function DnsLines(dns: seq<string>): (r: seq<string>)
    ensures |r| == |dns| && forall i :: 0 <= i < |dns| ==> r[i] == DnsLine(i, dns[i])
  {
    seq(|dns|, i requires 0 <= i < |dns| => DnsLine(i, dns[i]))
  }

  function Lines(content: string): seq<string> { Split(Uncrlf(content), '\n') }

  function Update(content: string, dns: seq<string>): string {
    TrimNewlines(Join(Kept(Lines(content)) + DnsLines(dns), '\n')) + "\n"
  }

  /** updateIFCFGDNS */
  method UpdateIfcfgDns(content: string, dns: seq<string>) returns (next: string)
    ensures next == Update(content, dns)
  {
    hide IsDnsText, TrimSpace, DnsLine, Join, TrimNewlines;
    var lines := Split(Uncrlf(content), '\n');
    var kept: seq<string> := [];
    for i := 0 to |lines|
      invariant kept == Kept(lines[..i])
    {
      assert lines[..i + 1][..i] == lines[..i];
      var trimmed := TrimSpace(lines[i]);
      if trimmed == "" || IsDnsText(trimmed) {
        continue;
      }
      kept := kept + [lines[i]];
    }
    assert lines[..|lines|] == lines;
    for i := 0 to |dns|
      invariant kept == Kept(lines) + DnsLines(dns[..i])
    {
      assert DnsLines(dns[..i + 1]) == DnsLines(dns[..i]) + [DnsLine(i, dns[i])];
      kept := kept + [DnsLine(i, dns[i])];
    }
    assert dns[..|dns|] == dns;
    next := TrimNewlines(Join(kept, '\n')) + "\n";
  }

  // ---------- What counts as a DNS key ----------

  lemma {:induction false} KeyEnds(s: string, k: nat)
    requires k < |s| && s[k] == '=' && '=' !in s[..k]
    ensures Key(s) == s[..k]
  {
    if k > 0 {
      assert s[..k][0] == s[0] && s[1..][..k - 1] == s[..k][1..];
      KeyEnds(s[1..], k - 1);
    }
  }

  lemma {:induction false} KeyBefore(s: string)
    requires '=' in s
    ensures |Key(s)| < |s| && s[|Key(s)|] == '=' && Key(s) == s[..|Key(s)|] && '=' !in Key(s)
  {
    if s[0] != '=' {
      assert s == [s[0]] + s[1..];
      KeyBefore(s[1..]);
      var k := |Key(s[1..])|;
      assert s[..k + 1] == [s[0]] + s[1..][..k];
    }
  }

  /** DNS, a number of k - 3 digits, and an equals sign. */
  predicate StartsNumbered(s: string, k: nat) {
    && 3 < k < |s| && s[..3] == "DNS" && s[k] == '=' && forall i :: 3 <= i < k ==> IsDigit(s[i])
  }

  /** A line counts as a DNS entry exactly if it starts with a numbered DNS key. */
  lemma DnsTextMeans(s: string)
    ensures IsDnsText(s) <==> exists k :: StartsNumbered(s, k)
  {
    if IsDnsText(s) {
      KeyBefore(s);
      var k := |Key(s)|;
      assert forall i :: 3 <= i < k ==> s[i] == Key(s)[i];
      assert StartsNumbered(s, k);
    }
    forall k | StartsNumbered(s, k) ensures IsDnsText(s) {
      NumberedKey(s, k);
    }
  }

  lemma NumberedKey(s: string, k: nat)
    requires StartsNumbered(s, k)
    ensures IsDnsText(s)
  {
    assert "DNS"[0] == 'D' && "DNS"[1] == 'N' && "DNS"[2] == 'S';
    assert s[..3][0] == s[0] && s[..3][1] == s[1] && s[..3][2] == s[2];
    KeyEnds(s, k);
    assert Key(s)[..3] == s[..3];
  }

  // ---------- Lines that are kept ----------

  lemma {:induction false} KeptMember(lines: seq<string>, line: string)
    ensures line in Kept(lines) <==> line in lines && IsKept(line)
  {
    hide IsKept;
    if lines != [] {
      var n := |lines| - 1;
      KeptMember(lines[..n], line);
      assert lines == lines[..n] + [lines[n]];
    }
  }

  lemma {:induction false} KeptConcat(s: seq<string>, t: seq<string>)
    ensures Kept(s + t) == Kept(s) + Kept(t)
  {
    hide IsKept;
    if t == [] {
      assert s + t == s;
    } else {
      var n := |t| - 1;
      assert (s + t)[..|s| + n] == s + t[..n] && (s + t)[|s| + n] == t[n];
      KeptConcat(s, t[..n]);
    }
  }

  lemma {:induction false} KeptAll(lines: seq<string>)
    requires forall i :: 0 <= i < |lines| ==> IsKept(lines[i])
    ensures Kept(lines) == lines
  {
    hide IsKept;
    if lines != [] {
      var n := |lines| - 1;
      KeptAll(lines[..n]);
      assert lines == lines[..n] + [lines[n]];
    }
  }

  lemma {:induction false} KeptNone(lines: seq<string>)
    requires forall i :: 0 <= i < |lines| ==> !IsKept(lines[i])
    ensures Kept(lines) == []
  {
    hide IsKept;
    if lines != [] {
      KeptNone(lines[..|lines| - 1]);
    }
  }

  // ---------- Carriage returns at line ends ----------

  predicate EndsInCR(line: string) { line != "" && line[|line| - 1] == '\r' }

  /** What is left of a line once its end was read as CRLF. */
  function StripCR(line: string): string {
    if EndsInCR(line) then line[..|line| - 1] else line
  }

  function StripAll(lines: seq<string>): (r: seq<string>)
    ensures |r| == |lines| && forall i :: 0 <= i < |lines| ==> r[i] == StripCR(lines[i])
  {
    seq(|lines|, i requires 0 <= i < |lines| => StripCR(lines[i]))
  }

  lemma {:induction false} UncrlfLine(line: string, rest: string)
    requires '\n' !in line
    ensures Uncrlf(line + "\n" + rest) == StripCR(line) + "\n" + Uncrlf(rest)
  {
    var text := line + "\n" + rest;
    if line == "" {
      assert text == "\n" + rest && text[1..] == rest;
    } else if line == "\r" {
      assert text == "\r\n" + rest && text[2..] == rest;
    } else {
      assert text[1..] == line[1..] + "\n" + rest;
      assert line[0] in line;
      UncrlfLine(line[1..], rest);
      assert |line| == 1 ==> line[0] != '\r';
      assert |line| > 1 ==> text[1] == line[1] && line[1] in line;
      StripTail(line);
    }
  }

  lemma StripTail(line: string)
    requires line != "" && line != "\r"
    ensures StripCR(line) == [line[0]] + StripCR(line[1..])
  {
    if |line| == 1 {
      assert line == [line[0]];
    }
  }

  lemma {:induction false} FirstMore(s: string, i: nat)
    requires i <= |s|
    ensures var n := FirstSolid(s, i); FirstSolid(s + "\r", i) == if n < |s| then n else |s| + 1
    decreases |s| - i
  {
    ReturnIsSpace();
    hide IsSpace;
    var line := s + "\r";
    if i == |s| {
      assert line[i] == '\r' && FirstSolid(line, i + 1) == i + 1;
    } else {
      assert line[i] == s[i];
      if IsSpace(s[i]) {
        FirstMore(s, i + 1);
      }
    }
  }

  lemma {:induction false} EndMore(s: string, t: string, i: nat, n: nat)
    requires i <= n <= |s|
    ensures SolidEnd(s + t, i, n) == SolidEnd(s, i, n)
  {
    hide IsSpace;
    if i < n {
      assert (s + t)[n - 1] == s[n - 1];
      if IsSpace(s[n - 1]) {
        EndMore(s, t, i, n - 1);
      }
    }
  }

  lemma ReturnIsSpace()
    ensures IsSpace('\r')
  {
  }

  /** White space at the end does not matter to a trimmed line. */
  lemma TrimStripped(line: string)
    ensures TrimSpace(StripCR(line)) == TrimSpace(line)
  {
    if EndsInCR(line) {
      ReturnIsSpace();
      hide IsSpace;
      var s := StripCR(line);
      assert line == s + "\r";
      FirstMore(s, 0);
      var i := FirstSolid(s, 0);
      if i < |s| {
        EndMore(s, "\r", i, |s|);
      }
      hide FirstSolid;
      assert line[|s|] == '\r';
    }
  }

  lemma KeptStripped(line: string)
    ensures IsKept(StripCR(line)) == IsKept(line)
  {
    TrimStripped(line);
    hide TrimSpace, StripCR;
  }

  // ---------- The text of a list of lines ----------

  function Text(lines: seq<string>): string {
    Join(lines, '\n') + "\n"
  }

  /** Reading a text again gives its lines without the carriage returns at their ends, and an empty line. */
  lemma {:induction false} UncrlfText(lines: seq<string>)
    requires lines != [] && AllFree(lines, '\n')
    ensures Uncrlf(Text(lines)) == Text(StripAll(lines))
  {
    var first := lines[0];
    hide StripCR;
    if |lines| == 1 {
      UncrlfLine(first, "");
      assert first + "\n" + "" == first + "\n";
      assert Uncrlf("") == "";
      hide Uncrlf;
      assert StripCR(first) + "\n" + "" == StripCR(first) + "\n";
    } else {
      UncrlfText(lines[1..]);
      UncrlfLine(first, Text(lines[1..]));
      hide Uncrlf;
      assert Text(lines) == first + "\n" + Text(lines[1..]);
      assert StripAll(lines)[1..] == StripAll(lines[1..]);
      assert Text(StripAll(lines)) == StripCR(first) + "\n" + Text(StripAll(lines[1..]));
    }
  }

  lemma LinesOfText(lines: seq<string>)
    requires lines != [] && AllFree(lines, '\n')
    ensures Lines(Text(lines)) == StripAll(lines) + [""]
  {
    UncrlfText(lines);
    StrippedFree(lines);
    hide Uncrlf, StripAll;
    var stripped := StripAll(lines);
    SplitAt(Join(stripped, '\n'), "", '\n');
    SplitJoin(stripped, '\n');
    assert Join(stripped, '\n') + ['\n'] + "" == Text(stripped);
  }

  lemma StrippedFree(lines: seq<string>)
    requires AllFree(lines, '\n')
    ensures AllFree(StripAll(lines), '\n')
  {
  }

  lemma BlankText()
    ensures Lines(Text([])) == ["", ""]
  {
    assert Text([]) == "\n" && "\n"[1..] == "";
    SplitWord("", "", '\n');
    assert "" + ['\n'] + "" == "\n" && Uncrlf("\n") == "\n";
  }

  lemma LinesOfNothing()
    ensures Kept(Lines(Text([]))) == []
  {
    BlankText();
    BlankLine();
    hide Lines, Text, IsKept;
    KeptNone(["", ""]);
  }

  // ---------- DNS lines ----------

  lemma {:induction false} KeyOf(key: string, value: string)
    requires '=' !in key
    ensures Key(key + "=" + value) == key
  {
    var line := key + "=" + value;
    if key == "" {
      assert line[0] == '=';
    } else {
      KeyOf(key[1..], value);
      assert line[0] == key[0] && key[0] in key && line[1..] == key[1..] + "=" + value;
    }
  }

  function DnsKey(i: nat): string { "DNS" + Decimal(i + 1) }

  lemma DnsKeyPlain(i: nat)
    ensures IsDnsKey(DnsKey(i)) && '=' !in DnsKey(i) && '\n' !in DnsKey(i)
  {
    hide Decimal;
    var key := DnsKey(i);
    forall k | 0 <= k < |key| ensures key[k] != '=' && key[k] != '\n' && (k >= 3 ==> IsDigit(key[k])) {
      if k >= 3 {
        assert key[k] == Decimal(i + 1)[k - 3];
      }
    }
  }

  /** A line with a DNS key at its start has it after trimming. */
  lemma TrimDns(i: nat, value: string)
    ensures DnsKey(i) + "=" <= TrimSpace(DnsLine(i, value))
  {
    hide Decimal;
    var line := DnsLine(i, value);
    var front := DnsKey(i) + "=";
    assert line == front + value;
    assert line[0] == 'D' && line[|front| - 1] == '=' && !IsSpace(line[0]) && !IsSpace(line[|front| - 1]);
    hide IsSpace, DnsKey, DnsLine;
    SolidWithin(line, 0, |front|, |line|);
  }

  lemma DnsDropped(i: nat, value: string)
    ensures !IsKept(DnsLine(i, value))
  {
    TrimDns(i, value);
    DnsKeyPlain(i);
    hide TrimSpace, DnsLine, IsDnsKey;
    var trimmed := TrimSpace(DnsLine(i, value));
    var front := DnsKey(i) + "=";
    var rest := trimmed[|front|..];
    assert trimmed == DnsKey(i) + "=" + rest;
    KeyOf(DnsKey(i), rest);
    hide Key;
    assert trimmed[|front| - 1] == '=';
    assert "DNS" <= trimmed;
  }

  lemma DnsLinesDropped(dns: seq<string>)
    ensures Kept(DnsLines(dns)) == []
  {
    hide IsKept;
    forall i | 0 <= i < |dns| ensures !IsKept(DnsLines(dns)[i]) {
      DnsDropped(i, dns[i]);
    }
    KeptNone(DnsLines(dns));
  }

  // ---------- Rewriting twice ----------

  lemma {:induction false} TrimNothing(s: string)
    requires s != "" ==> s[|s| - 1] != '\n'
    ensures TrimNewlines(s) == s
  {
  }

  lemma {:induction false} JoinEnd(lines: seq<string>)
    requires AllFree(lines, '\n') && forall i :: 0 <= i < |lines| ==> lines[i] != ""
    ensures var s := Join(lines, '\n'); s != "" ==> s[|s| - 1] != '\n'
    ensures lines != [] ==> Join(lines, '\n') != ""
  {
    if |lines| == 1 {
      assert lines[0][|lines[0]| - 1] in lines[0];
    } else if lines != [] {
      JoinEnd(lines[1..]);
      var s, rest := Join(lines, '\n'), Join(lines[1..], '\n');
      assert s == lines[0] + ['\n'] + rest;
      assert s[|s| - 1] == rest[|rest| - 1];
    }
  }

  /** The lines the rewrite writes. */
  function NextLines(content: string, dns: seq<string>): seq<string> {
    Kept(Lines(content)) + DnsLines(dns)
  }

  lemma NextLinesPlain(content: string, dns: seq<string>)
    requires AllFree(dns, '\n')
    ensures AllFree(NextLines(content, dns), '\n')
    ensures forall i :: 0 <= i < |NextLines(content, dns)| ==> NextLines(content, dns)[i] != ""
  {
    hide Lines;
    var kept, lines := Kept(Lines(content)), NextLines(content, dns);
    forall i | 0 <= i < |lines| ensures '\n' !in lines[i] && lines[i] != "" {
      if i < |kept| {
        KeptPlain(content, lines[i]);
      } else {
        DnsLinePlain(i - |kept|, dns[i - |kept|]);
      }
    }
  }

  lemma KeptPlain(content: string, line: string)
    requires line in Kept(Lines(content))
    ensures '\n' !in line && line != ""
  {
    KeptMember(Lines(content), line);
    BlankLine();
    hide Kept, IsKept;
  }

  lemma BlankLine()
    ensures !IsKept("")
  {
  }

  lemma DnsLinePlain(i: nat, value: string)
    requires '\n' !in value
    ensures '\n' !in DnsLine(i, value) && DnsLine(i, value) != ""
  {
    DnsKeyPlain(i);
    assert DnsLine(i, value) == DnsKey(i) + "=" + value;
    hide DnsLine, DnsKey, IsDnsKey;
  }

  lemma UpdateIsText(content: string, dns: seq<string>)
    requires AllFree(dns, '\n')
    ensures Update(content, dns) == Text(NextLines(content, dns))
  {
    NextLinesPlain(content, dns);
    JoinEnd(NextLines(content, dns));
    hide Lines, Kept, DnsLines;
    TrimNothing(Join(NextLines(content, dns), '\n'));
    hide TrimNewlines, Join;
  }

  lemma {:induction false} KeptStripAll(lines: seq<string>)
    ensures Kept(StripAll(lines)) == StripAll(Kept(lines))
  {
    hide IsKept, StripCR;
    if lines != [] {
      var n := |lines| - 1;
      KeptStripAll(lines[..n]);
      KeptStripped(lines[n]);
      assert StripAll(lines)[..n] == StripAll(lines[..n]);
    }
  }

  /** The rewrite keeps every line that is neither blank nor a DNS line, in order, but reads a carriage
      return at the end of a kept line as part of the line end. */
  lemma OtherLinesKept(content: string, dns: seq<string>)
    requires AllFree(dns, '\n')
    ensures Kept(Lines(Update(content, dns))) == StripAll(Kept(Lines(content)))
  {
    UpdateIsText(content, dns);
    var kept, lines := Kept(Lines(content)), NextLines(content, dns);
    NextLinesPlain(content, dns);
    DnsLinesDropped(dns);
    KeptOfKept(Lines(content));
    hide Lines, Text, IsKept, StripAll, DnsLines;
    KeptConcat(kept, DnsLines(dns));
    assert Kept(lines) == kept;
    if lines == [] {
      LinesOfNothing();
      NoneStripped();
    } else {
      LinesOfText(lines);
      KeptConcat(StripAll(lines), [""]);
      KeptStripAll(lines);
      EmptyDropped();
    }
  }

  lemma NoneStripped()
    ensures StripAll([]) == []
  {
  }

  lemma EmptyDropped()
    ensures Kept([""]) == []
  {
    BlankLine();
    hide IsKept;
  }

  lemma {:induction false} KeptOfKept(lines: seq<string>)
    ensures Kept(Kept(lines)) == Kept(lines)
  {
    hide IsKept;
    forall i | 0 <= i < |Kept(lines)| ensures IsKept(Kept(lines)[i]) {
      KeptMember(lines, Kept(lines)[i]);
    }
    KeptAll(Kept(lines));
  }

  predicate NoneEndsInCR(lines: seq<string>) {
    forall i :: 0 <= i < |lines| ==> !EndsInCR(lines[i])
  }

  lemma StripNothing(lines: seq<string>)
    ensures StripAll(lines) == lines <==> NoneEndsInCR(lines)
  {
    forall i | 0 <= i < |lines| ensures StripCR(lines[i]) == lines[i] <==> !EndsInCR(lines[i]) {
    }
    hide StripCR, EndsInCR;
  }

  lemma TextInjective(s: seq<string>, t: seq<string>)
    requires |s| == |t| && AllFree(s, '\n') && AllFree(t, '\n') && Text(s) == Text(t)
    ensures s == t
  {
    var a, b := Join(s, '\n'), Join(t, '\n');
    hide Join;
    assert a == Text(s)[..|Text(s)| - 1] == Text(t)[..|Text(t)| - 1] == b;
    if s != [] {
      SplitJoin(s, '\n');
      SplitJoin(t, '\n');
    }
  }

  /** The last rewrite wins, exactly if no kept line of the content ends in a carriage return. */
  lemma LastRewriteWins(content: string, first: seq<string>, second: seq<string>)
    requires AllFree(first, '\n') && AllFree(second, '\n')
    ensures Update(Update(content, first), second) == Update(content, second) <==> NoneEndsInCR(Kept(Lines(content)))
  {
    OtherLinesKept(content, first);
    UpdateIsText(content, second);
    UpdateIsText(Update(content, first), second);
    NextLinesPlain(content, second);
    NextLinesPlain(Update(content, first), second);
    StripNothing(Kept(Lines(content)));
    hide *;
    var kept := Kept(Lines(content));
    NextLinesParts(content, second);
    NextLinesParts(Update(content, first), second);
    if Text(StripAll(kept) + DnsLines(second)) == Text(kept + DnsLines(second)) {
      TextInjective(StripAll(kept) + DnsLines(second), kept + DnsLines(second));
      assert StripAll(kept) == (StripAll(kept) + DnsLines(second))[..|kept|];
    }
  }

  lemma NextLinesParts(content: string, dns: seq<string>)
    ensures NextLines(content, dns) == Kept(Lines(content)) + DnsLines(dns)
  {
  }

  /** Carriage returns occur only in front of line feeds. */
  predicate OnlyCrlf(content: string) {
    forall i :: 0 <= i < |content| && content[i] == '\r' ==> i + 1 < |content| && content[i + 1] == '\n'
  }

  lemma {:induction false} NoReturns(content: string)
    requires OnlyCrlf(content)
    ensures '\r' !in Uncrlf(content)
  {
    if content != "" {
      assert content[0] == '\r' ==> |content| > 1 && content[1] == '\n';
      if content[0] == '\r' {
        OnlyCrlfFrom(content, 2);
        NoReturns(content[2..]);
      } else {
        OnlyCrlfFrom(content, 1);
        NoReturns(content[1..]);
      }
    }
  }

  lemma OnlyCrlfFrom(content: string, k: nat)
    requires OnlyCrlf(content) && k <= |content|
    ensures OnlyCrlf(content[k..])
  {
    var rest := content[k..];
    forall i | 0 <= i < |rest| && rest[i] == '\r' ensures i + 1 < |rest| && rest[i + 1] == '\n' {
      assert content[k + i] == '\r';
      assert content[k + i + 1] == '\n';
    }
  }

  lemma {:induction false} SplitWithout(s: string, sep: char, c: char)
    requires c !in s
    ensures AllFree(Split(s, sep), c)
  {
    if s != "" {
      SplitWithout(s[1..], sep, c);
      assert s[0] in s;
    }
  }

  /** For a file with only CRLF line ends, or none, the last rewrite always wins. */
  lemma OrdinaryFile(content: string)
    requires OnlyCrlf(content)
    ensures NoneEndsInCR(Kept(Lines(content)))
  {
    NoReturns(content);
    SplitWithout(Uncrlf(content), '\n', '\r');
    var lines, kept := Lines(content), Kept(Lines(content));
    hide Uncrlf, Kept, Lines, IsKept;
    forall i | 0 <= i < |kept| ensures !EndsInCR(kept[i]) {
      KeptMember(lines, kept[i]);
      assert kept[i] != "" ==> kept[i][|kept[i]| - 1] in kept[i];
    }
  }

  // ---------- Reading the servers back ----------

  function AfterKey(s: string): string {
    if s == "" then "" else if s[0] == '=' then s[1..] else AfterKey(s[1..])
  }

  /** The numbered DNS keys of the lines with their values, in order. */
  function DnsEntries(lines: seq<string>): seq<(string, string)> {
    if lines == [] then []
    else
      var n := |lines| - 1;
      var trimmed := TrimSpace(lines[n]);
      DnsEntries(lines[..n]) + if IsDnsText(trimmed) then [(Key(trimmed), AfterKey(trimmed))] else []
  }

  lemma {:induction false} EntriesConcat(s: seq<string>, t: seq<string>)
    ensures DnsEntries(s + t) == DnsEntries(s) + DnsEntries(t)
  {
    hide *;
    if t == [] {
      assert s + t == s;
      EmptyRead();
    } else {
      var n := |t| - 1;
      assert (s + t)[..|s| + n] == s + t[..n] && (s + t)[|s| + n] == t[n];
      EntriesConcat(s, t[..n]);
      EntriesLast(t);
      EntriesLast(s + t);
    }
  }

  function LastEntry(line: string): seq<(string, string)> {
    var trimmed := TrimSpace(line);
    if IsDnsText(trimmed) then [(Key(trimmed), AfterKey(trimmed))] else []
  }

  lemma EntriesLast(lines: seq<string>)
    requires lines != []
    ensures DnsEntries(lines) == DnsEntries(lines[..|lines| - 1]) + LastEntry(lines[|lines| - 1])
  {
  }

  lemma {:induction false} NoEntries(lines: seq<string>)
    requires forall i :: 0 <= i < |lines| ==> !IsDnsText(TrimSpace(lines[i]))
    ensures DnsEntries(lines) == []
  {
    hide IsDnsText, TrimSpace;
    if lines != [] {
      NoEntries(lines[..|lines| - 1]);
    }
  }

  lemma {:induction false} EntriesStripped(lines: seq<string>)
    ensures DnsEntries(StripAll(lines)) == DnsEntries(lines)
  {
    hide StripCR;
    if lines != [] {
      var n := |lines| - 1;
      EntriesStripped(lines[..n]);
      TrimStripped(lines[n]);
      hide TrimSpace, IsDnsText;
      assert StripAll(lines)[..n] == StripAll(lines[..n]);
      EntriesLast(lines);
      EntriesLast(StripAll(lines));
      hide DnsEntries;
    }
  }

  lemma {:induction false} AfterKeyOf(key: string, value: string)
    requires '=' !in key
    ensures AfterKey(key + "=" + value) == value
  {
    var line := key + "=" + value;
    if key == "" {
      assert line[0] == '=' && line[1..] == value;
    } else {
      AfterKeyOf(key[1..], value);
      assert line[0] == key[0] && key[0] in key && line[1..] == key[1..] + "=" + value;
    }
  }

  lemma DnsEntry(i: nat, value: string)
    requires IsTrimmed(value)
    ensures LastEntry(DnsLine(i, value)) == [(DnsKey(i), value)]
  {
    hide TrimSpace, IsDnsKey, IsDnsText, Key, AfterKey, DnsKey, IsTrimmed;
    DnsKeyPlain(i);
    TrimmedDns(i, value);
    DnsTextOf(DnsKey(i), value);
    DnsLineParts(i, value);
  }

  lemma DnsLineParts(i: nat, value: string)
    ensures DnsLine(i, value) == DnsKey(i) + "=" + value
  {
  }

  lemma DnsTextOf(key: string, value: string)
    requires IsDnsKey(key) && '=' !in key
    ensures var line := key + "=" + value; IsDnsText(line) && Key(line) == key && AfterKey(line) == value
  {
    var line := key + "=" + value;
    KeyOf(key, value);
    AfterKeyOf(key, value);
    assert "DNS" <= key;
    hide Key, AfterKey, IsDnsKey;
    assert line[|key|] == '=' && "DNS" <= line;
  }

  lemma TrimmedDns(i: nat, value: string)
    requires IsTrimmed(value)
    ensures TrimSpace(DnsLine(i, value)) == DnsLine(i, value)
  {
    hide Decimal;
    var line := DnsLine(i, value);
    assert line[0] == 'D';
    assert line[|line| - 1] == if value == "" then '=' else value[|value| - 1];
    assert IsTrimmed(line);
  }

  function Numbered(dns: seq<string>): (r: seq<(string, string)>)
    ensures |r| == |dns| && forall i :: 0 <= i < |dns| ==> r[i] == (DnsKey(i), dns[i])
  {
    seq(|dns|, i requires 0 <= i < |dns| => (DnsKey(i), dns[i]))
  }

  lemma {:induction false} DnsLinesRead(dns: seq<string>)
    requires forall i :: 0 <= i < |dns| ==> IsTrimmed(dns[i])
    ensures DnsEntries(DnsLines(dns)) == Numbered(dns)
  {
    hide *;
    if dns == [] {
      assert DnsLines(dns) == [] && Numbered(dns) == [];
      EmptyRead();
    } else {
      var n := |dns| - 1;
      DnsLinesRead(dns[..n]);
      LastDns(dns);
      EntriesLast(DnsLines(dns));
      DnsEntry(n, dns[n]);
    }
  }

  lemma LastDns(dns: seq<string>)
    requires dns != []
    ensures var n := |dns| - 1;
            DnsLines(dns)[..n] == DnsLines(dns[..n]) && DnsLines(dns)[n] == DnsLine(n, dns[n])
            && Numbered(dns) == Numbered(dns[..n]) + [(DnsKey(n), dns[n])]
  {
    hide DnsLine, DnsKey;
  }

  /** Reading the file back gives exactly the servers written, numbered from 1, in order. */
  lemma ServersReadBack(content: string, dns: seq<string>)
    requires AllFree(dns, '\n') && forall i :: 0 <= i < |dns| ==> IsTrimmed(dns[i])
    ensures DnsEntries(Lines(Update(content, dns))) == Numbered(dns)
  {
    hide *;
    UpdateIsText(content, dns);
    NextLinesPlain(content, dns);
    NextLinesParts(content, dns);
    var kept, lines := Kept(Lines(content)), NextLines(content, dns);
    DnsLinesRead(dns);
    KeptHasNone(Lines(content));
    EntriesConcat(kept, DnsLines(dns));
    assert [] + Numbered(dns) == Numbered(dns);
    if lines == [] {
      NothingRead();
    } else {
      LinesOfText(lines);
      EntriesConcat(StripAll(lines), [""]);
      EntriesStripped(lines);
      EmptyRead();
    }
  }

  lemma KeptHasNone(lines: seq<string>)
    ensures DnsEntries(Kept(lines)) == []
  {
    hide IsDnsText, TrimSpace, Kept;
    forall i | 0 <= i < |Kept(lines)| ensures !IsDnsText(TrimSpace(Kept(lines)[i])) {
      KeptMember(lines, Kept(lines)[i]);
    }
    NoEntries(Kept(lines));
  }

  lemma BlankIsNoDns()
    ensures !IsDnsText(TrimSpace(""))
  {
    assert TrimSpace("") == "";
  }

  lemma EmptyRead()
    ensures DnsEntries([""]) == [] && DnsEntries([]) == []
  {
    BlankIsNoDns();
    hide IsDnsText, TrimSpace;
    NoEntries([""]);
    NoEntries([]);
  }

  lemma NothingRead()
    ensures DnsEntries(Lines(Text([]))) == [] && DnsEntries([]) == []
  {
    BlankText();
    BlankIsNoDns();
    hide Lines, Text, IsDnsText, TrimSpace;
    NoEntries(["", ""]);
    NoEntries([]);
  }
}

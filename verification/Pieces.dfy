// Strings cut at a separator character, and joined again.
module Pieces {

  predicate AllFree(pieces: seq<string>, sep: char) {
    forall i :: 0 <= i < |pieces| ==> sep !in pieces[i]
  }

  /** The pieces between separators. */
  function Split(s: string, sep: char): (r: seq<string>)
    ensures |r| > 0 && AllFree(r, sep)
  {
    if s == "" then [""]
    else
      var rest := Split(s[1..], sep);
      if s[0] == sep then [""] + rest else [[s[0]] + rest[0]] + rest[1..]
  }

  function Join(pieces: seq<string>, sep: char): string {
    if pieces == [] then "" else if |pieces| == 1 then pieces[0] else pieces[0] + [sep] + Join(pieces[1..], sep)
  }

  lemma {:induction false} SplitWord(w: string, t: string, sep: char)
    requires sep !in w
    ensures Split(w + [sep] + t, sep) == [w] + Split(t, sep)
    ensures Split(w, sep) == [w]
  {
    if w == "" {
      assert w + [sep] + t == [sep] + t && ([sep] + t)[1..] == t;
    } else {
      SplitWord(w[1..], t, sep);
      assert (w + [sep] + t)[1..] == w[1..] + [sep] + t;
      assert [w[0]] + w[1..] == w;
    }
  }

  lemma {:induction false} SplitJoin(pieces: seq<string>, sep: char)
    requires pieces != [] && AllFree(pieces, sep)
    ensures Split(Join(pieces, sep), sep) == pieces
  {
    if |pieces| == 1 {
      SplitWord(pieces[0], "", sep);
    } else {
      SplitJoin(pieces[1..], sep);
      SplitWord(pieces[0], Join(pieces[1..], sep), sep);
      assert [pieces[0]] + pieces[1..] == pieces;
    }
  }

  lemma {:induction false} SplitAt(s: string, t: string, sep: char)
    ensures Split(s + [sep] + t, sep) == Split(s, sep) + Split(t, sep)
  {
    if s == "" {
      SplitWord("", t, sep);
      assert s + [sep] + t == "" + [sep] + t;
    } else {
      SplitAt(s[1..], t, sep);
      SplitCons(s[0], s[1..], sep);
      SplitCons(s[0], s[1..] + [sep] + t, sep);
      hide Split;
      assert s == [s[0]] + s[1..];
      assert s + [sep] + t == [s[0]] + (s[1..] + [sep] + t);
      AddCharFirst(s[0], Split(s[1..], sep), Split(t, sep), sep);
    }
  }

  /** Put a character in front of a string that was split. */
  function AddChar(c: char, pieces: seq<string>, sep: char): seq<string>
    requires pieces != []
  {
    if c == sep then [""] + pieces else [[c] + pieces[0]] + pieces[1..]
  }

  lemma SplitCons(c: char, s: string, sep: char)
    ensures Split([c] + s, sep) == AddChar(c, Split(s, sep), sep)
  {
    assert ([c] + s)[1..] == s;
  }

  lemma AddCharFirst(c: char, s: seq<string>, t: seq<string>, sep: char)
    requires s != []
    ensures AddChar(c, s, sep) + t == AddChar(c, s + t, sep)
  {
    assert (s + t)[1..] == s[1..] + t;
  }

  lemma {:induction false} JoinConcat(s: seq<string>, t: seq<string>, sep: char)
    requires s != [] && t != []
    ensures Join(s + t, sep) == Join(s, sep) + [sep] + Join(t, sep)
  {
    assert (s + t)[1..] == s[1..] + t;
    if |s| > 1 {
      JoinConcat(s[1..], t, sep);
    } else {
      assert s[1..] + t == t;
    }
  }
}

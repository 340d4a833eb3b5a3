/** Splitting a text into lines, joining pieces, stripping. */
module Lines {
  function Join(sep: string, pieces: seq<string>): string {
    if |pieces| == 0 then ""
    else if |pieces| == 1 then pieces[0]
    else pieces[0] + sep + Join(sep, pieces[1..])
  }

  function Concat(pieces: seq<string>): string {
    if pieces == [] then "" else pieces[0] + Concat(pieces[1..])
  }

  lemma {:induction false} ConcatSnoc(pieces: seq<string>, p: string)
    ensures Concat(pieces + [p]) == Concat(pieces) + p
  {
    if pieces == [] {
      assert Concat([p]) == p + Concat([]);
    } else {
      assert (pieces + [p])[1..] == pieces[1..] + [p];
      ConcatSnoc(pieces[1..], p);
    }
  }

  /** Splits at every newline; the result is never empty. */
  function Split(s: string): (lines: seq<string>)
    ensures |lines| >= 1
  {
    if s == "" then [""]
    else if s[0] == '\n' then [""] + Split(s[1..])
    else var rest := Split(s[1..]); [[s[0]] + rest[0]] + rest[1..]
  }

  predicate OneLine(s: string) {
    '\n' !in s
  }

  lemma {:induction false} SplitGivesLines(s: string)
    ensures forall l | l in Split(s) :: OneLine(l)
  {
    if s != "" {
      SplitGivesLines(s[1..]);
      assert Split(s[1..])[0] in Split(s[1..]);
    }
  }

  lemma {:induction false} JoinSplit(s: string)
    ensures Join("\n", Split(s)) == s
  {
    if s != "" {
      var rest := Split(s[1..]);
      JoinSplit(s[1..]);
      if s[0] == '\n' {
        assert Split(s)[1..] == rest;
      } else {
        assert Split(s)[1..] == rest[1..];
      }
    }
  }

  lemma {:induction false} SplitFirst(l: string, s: string)
    requires OneLine(l)
    ensures Split(l + "\n" + s) == [l] + Split(s)
    ensures Split(l) == [l]
  {
    var t := l + "\n" + s;
    if l == "" {
      assert t == ['\n'] + s;
    } else {
      SplitFirst(l[1..], s);
      assert t[1..] == l[1..] + "\n" + s;
      assert l == [l[0]] + l[1..];
    }
  }

  /** Lines joined by newlines are recovered by splitting; with none, splitting gives one empty line. */
  lemma {:induction false} SplitJoin(lines: seq<string>)
    requires forall l | l in lines :: OneLine(l)
    ensures Split(Join("\n", lines)) == if lines == [] then [""] else lines
  {
    if |lines| == 1 {
      SplitFirst(lines[0], "");
    } else if lines != [] {
      SplitJoin(lines[1..]);
      SplitFirst(lines[0], Join("\n", lines[1..]));
    }
  }

  // ----- whitespace -----

  /** The characters Python's `str.isspace` and `\s` accept. */
  predicate IsSpace(c: char) {
    || '\U{9}' <= c <= '\U{D}' || '\U{1C}' <= c <= '\U{20}' || c == '\U{85}' || c == '\U{A0}'
    || c == '\U{1680}' || '\U{2000}' <= c <= '\U{200A}' || c == '\U{2028}' || c == '\U{2029}'
    || c == '\U{202F}' || c == '\U{205F}' || c == '\U{3000}'
  }

  /** The number of leading characters that satisfy `p`. */
  function Span(s: string, p: char -> bool): (n: nat)
    ensures n <= |s|
    ensures forall i | 0 <= i < n :: p(s[i])
    ensures n < |s| ==> !p(s[n])
  {
    if s == "" || !p(s[0]) then 0 else 1 + Span(s[1..], p)
  }

  function Lstrip(s: string): string {
    s[Span(s, IsSpace)..]
  }

  function Rstrip(s: string): string {
    if s != "" && IsSpace(s[|s| - 1]) then Rstrip(s[..|s| - 1]) else s
  }

  function Strip(s: string): string {
    Rstrip(Lstrip(s))
  }
}

/** Character data sections: how the converter writes a text into them and how an XML reader, by section 2.7
    of XML 1.0, reads it back. */
module Cdata {
  import opened Options

  const SECTION_START := "<![CDATA["
  const SECTION_END := "]]>"

  predicate AtEnd(s: string) {
    |s| >= 3 && s[0] == ']' && s[1] == ']' && s[2] == '>'
  }

  /** Replaces every occurrence, from the left, without overlaps. */
  function Replace(s: string, pattern: string, replacement: string): string
    requires pattern != ""
  {
    if s == "" then ""
    else if pattern <= s then replacement + Replace(s[|pattern|..], pattern, replacement)
    else [s[0]] + Replace(s[1..], pattern, replacement)
  }

  /** Ends the section in the middle of every section end of the text and starts another one. */
  function Escape(body: string): string {
    Replace(body, SECTION_END, "]]]]><![CDATA[>")
  }

  /** A text as one or more consecutive sections. */
  function Write(body: string): string {
    SECTION_START + Escape(body) + SECTION_END
  }

  // ----- the reader -----

  /** What was read and what is left. */
  datatype Reading = Reading(content: string, rest: string)

  /** Inside a section: everything up to the first section end. */
  function ReadSection(s: string): Option<Reading> {
    if AtEnd(s) then Some(Reading("", s[3..]))
    else if s == "" then None
    else match ReadSection(s[1..])
      case None => None
      case Some(r) => Some(Reading([s[0]] + r.content, r.rest))
  }

  lemma {:induction false} ReadSectionEndsFirst(s: string)
    ensures match ReadSection(s)
            case None => forall i | 0 <= i <= |s| :: !AtEnd(s[i..])
            case Some(r) =>
              && s == r.content + SECTION_END + r.rest
              && |r.rest| < |s|
              && forall i | 0 <= i < |r.content| :: !AtEnd(s[i..])
  {
    if AtEnd(s) {
      assert s == "" + SECTION_END + s[3..];
    } else if s != "" {
      ReadSectionEndsFirst(s[1..]);
      match ReadSection(s[1..])
      case None =>
        forall i | 0 <= i <= |s|
          ensures !AtEnd(s[i..])
        {
          if i > 0 {
            assert s[i..] == s[1..][i - 1..];
          }
        }
      case Some(r) =>
        assert s == [s[0]] + s[1..] == [s[0]] + r.content + SECTION_END + r.rest;
        forall i | 0 <= i < |r.content| + 1
          ensures !AtEnd(s[i..])
        {
          if i > 0 {
            assert s[i..] == s[1..][i - 1..];
          }
        }
    }
  }

  /** Consecutive sections are one run of character data. */
  function ReadSections(s: string): Option<Reading>
    decreases |s|
  {
    if !(SECTION_START <= s) then None
    else match ReadSection(s[9..])
      case None => None
      case Some(r) =>
        ReadSectionEndsFirst(s[9..]);
        if SECTION_START <= r.rest then
          match ReadSections(r.rest)
          case None => None
          case Some(more) => Some(Reading(r.content + more.content, more.rest))
        else Some(r)
  }

  // ----- round trip -----

  /** The text as it stands inside its section, up to and including the end and what follows. */
  function Tail(body: string, rest: string): string {
    Escape(body) + SECTION_END + rest
  }

  lemma AtEndIsPrefix(s: string)
    ensures AtEnd(s) <==> SECTION_END <= s
  {
    if AtEnd(s) {
      assert s[..3] == SECTION_END;
    }
  }

  lemma EscapeUnfold(body: string)
    ensures AtEnd(body) ==> Escape(body) == "]]" + SECTION_END + SECTION_START + ">" + Escape(body[3..])
    ensures body != "" && !AtEnd(body) ==> Escape(body) == [body[0]] + Escape(body[1..])
  {
    AtEndIsPrefix(body);
    assert "]]]]><![CDATA[>" == "]]" + SECTION_END + SECTION_START + ">";
  }

  lemma FirstChar(body: string, rest: string)
    ensures var t := Tail(body, rest); |t| >= 3 && t[0] == if body == "" then ']' else body[0]
    ensures body == "" || AtEnd(body) ==> Tail(body, rest)[1] == ']'
  {
    EscapeUnfold(body);
  }

  /** Escaping never makes a section end out of the characters it leaves alone. */
  lemma NoEarlyEnd(body: string, rest: string)
    requires body != "" && !AtEnd(body)
    ensures Tail(body, rest) == [body[0]] + Tail(body[1..], rest)
    ensures !AtEnd(Tail(body, rest))
  {
    EscapeUnfold(body);
    assert Tail(body, rest) == [body[0]] + Tail(body[1..], rest);
    FirstChar(body[1..], rest);
    if |body| > 1 && !AtEnd(body[1..]) {
      EscapeUnfold(body[1..]);
      assert Tail(body[1..], rest) == [body[1]] + Tail(body[1..][1..], rest);
      FirstChar(body[1..][1..], rest);
    }
  }

  lemma ReadOne(c: char, s: string)
    requires !AtEnd([c] + s)
    ensures ReadSection([c] + s)
         == match ReadSection(s) case None => None case Some(r) => Some(Reading([c] + r.content, r.rest))
  {
    assert ([c] + s)[1..] == s;
  }

  lemma ReadEnd(s: string)
    ensures ReadSection(SECTION_END + s) == Some(Reading("", s))
    ensures ReadSection("]]" + SECTION_END + s) == Some(Reading("]]", s))
  {
    assert (SECTION_END + s)[3..] == s;
    assert "]]" + SECTION_END + s == [']'] + ([']'] + (SECTION_END + s));
    ReadOne(']', SECTION_END + s);
    ReadOne(']', [']'] + (SECTION_END + s));
    assert [']'] + ([']'] + "") == "]]";
  }

  /** The reader has `body` as content, in one section or more, and stops before `rest`. */
  predicate ReadsAs(r: Option<Reading>, body: string, rest: string) {
    r.Some?
    && if SECTION_START <= r.value.rest
       then ReadSections(r.value.rest) != None
            && r.value.content + ReadSections(r.value.rest).value.content == body
            && ReadSections(r.value.rest).value.rest == rest
       else r.value == Reading(body, rest)
  }

  lemma PrependReadsAs(c: char, s: string, body: string, rest: string)
    requires ReadsAs(ReadSection(s), body, rest) && !AtEnd([c] + s)
    ensures ReadsAs(ReadSection([c] + s), [c] + body, rest)
  {
    ReadOne(c, s);
    var r := ReadSection(s).value;
    if SECTION_START <= r.rest {
      var more := ReadSections(r.rest).value.content;
      assert [c] + r.content + more == [c] + (r.content + more);
    }
  }

  lemma ReadsAsSections(s: string, body: string, rest: string)
    requires ReadsAs(ReadSection(s), body, rest)
    ensures ReadSections(SECTION_START + s) == Some(Reading(body, rest))
  {
    assert (SECTION_START + s)[9..] == s;
  }

  lemma ReadsAsTwo(first: string, s: string, body: string, rest: string)
    requires SECTION_START <= s && ReadSections(s) == Some(Reading(body, rest))
    ensures ReadsAs(Some(Reading(first, s)), first + body, rest)
  {
  }

  lemma NextSectionReads(more: string, tail: string, rest: string)
    requires ReadsAs(ReadSection(tail), more, rest)
    ensures ReadSections(SECTION_START + (['>'] + tail)) == Some(Reading(['>'] + more, rest))
  {
    PrependReadsAs('>', tail, more, rest);
    ReadsAsSections(['>'] + tail, ['>'] + more, rest);
  }

  lemma EndInTwo(more: string)
    ensures "]]" + (['>'] + more) == SECTION_END + more
  {
  }

  /** The split inside a section end reads as the two characters before it, then a section with the third. */
  lemma SplitReadsAs(more: string, tail: string, rest: string)
    requires ReadsAs(ReadSection(tail), more, rest)
    ensures ReadsAs(ReadSection("]]" + SECTION_END + (SECTION_START + (['>'] + tail))), SECTION_END + more, rest)
  {
    var next := SECTION_START + (['>'] + tail);
    ReadEnd(next);
    NextSectionReads(more, tail, rest);
    ReadsAsTwo("]]", next, ['>'] + more, rest);
    EndInTwo(more);
  }

  lemma EmptyTail(rest: string)
    requires !(SECTION_START <= rest)
    ensures ReadsAs(ReadSection(Tail("", rest)), "", rest)
  {
    ReadEnd(rest);
    assert Tail("", rest) == SECTION_END + rest;
  }

  lemma Regroup(a: string, b: string, c: string, d: string, e: string, f: string)
    ensures a + b + c + d + e + f == a + b + (c + (d + (e + f)))
  {
  }

  lemma TailAtEnd(body: string, rest: string)
    requires AtEnd(body)
    ensures Tail(body, rest) == "]]" + SECTION_END + (SECTION_START + (['>'] + Tail(body[3..], rest)))
    ensures body == SECTION_END + body[3..]
  {
    EscapeUnfold(body);
    var e := Escape(body[3..]);
    Regroup("]]", SECTION_END, SECTION_START, ">", e, SECTION_END + rest);
    assert Tail(body, rest) == Escape(body) + (SECTION_END + rest);
    assert Tail(body[3..], rest) == e + (SECTION_END + rest);
  }

  lemma SplitTail(body: string, rest: string)
    requires AtEnd(body) && ReadsAs(ReadSection(Tail(body[3..], rest)), body[3..], rest)
    ensures ReadsAs(ReadSection(Tail(body, rest)), body, rest)
  {
    SplitReadsAs(body[3..], Tail(body[3..], rest), rest);
    TailAtEnd(body, rest);
  }

  lemma PlainTail(body: string, rest: string)
    requires body != "" && !AtEnd(body) && ReadsAs(ReadSection(Tail(body[1..], rest)), body[1..], rest)
    ensures ReadsAs(ReadSection(Tail(body, rest)), body, rest)
  {
    NoEarlyEnd(body, rest);
    PrependReadsAs(body[0], Tail(body[1..], rest), body[1..], rest);
    assert body == [body[0]] + body[1..];
  }

  lemma {:induction false} ReadTail(body: string, rest: string)
    requires !(SECTION_START <= rest)
    ensures ReadsAs(ReadSection(Tail(body, rest)), body, rest)
    decreases |body|
  {
    if body == "" {
      EmptyTail(rest);
    } else if AtEnd(body) {
      ReadTail(body[3..], rest);
      SplitTail(body, rest);
    } else {
      ReadTail(body[1..], rest);
      PlainTail(body, rest);
    }
  }

  /** Every text, whatever section ends it contains, is read back from its sections exactly. */
  lemma ReadBack(body: string, rest: string)
    requires !(SECTION_START <= rest)
    ensures ReadSections(Write(body) + rest) == Some(Reading(body, rest))
  {
    ReadTail(body, rest);
    ReadsAsSections(Tail(body, rest), body, rest);
    assert Write(body) + rest == SECTION_START + Tail(body, rest);
  }

  // ----- when the escape is needed -----

  predicate HasEnd(body: string) {
    exists i | 0 <= i <= |body| :: AtEnd(body[i..])
  }

  lemma {:induction false} SectionsLength(s: string)
    ensures ReadSections(s).Some? ==>
              12 + |ReadSections(s).value.content| + |ReadSections(s).value.rest| <= |s|
    decreases |s|
  {
    if ReadSections(s).Some? {
      ReadSectionEndsFirst(s[9..]);
      var r := ReadSection(s[9..]).value;
      if SECTION_START <= r.rest {
        SectionsLength(r.rest);
      }
    }
  }

  lemma {:induction false} NothingToEscape(body: string)
    requires !HasEnd(body)
    ensures Escape(body) == body
  {
    if body != "" {
      assert !AtEnd(body[0..]) && body[0..] == body;
      EscapeUnfold(body);
      forall i | 0 <= i <= |body[1..]|
        ensures !AtEnd(body[1..][i..])
      {
        assert body[1..][i..] == body[i + 1..];
      }
      NothingToEscape(body[1..]);
    }
  }

  lemma FirstSectionShort(body: string, rest: string)
    requires HasEnd(body)
    ensures var r := ReadSection(body + SECTION_END + rest); r.Some? ==> |r.value.content| < |body|
  {
    var inside := body + SECTION_END + rest;
    ReadSectionEndsFirst(inside);
    var i :| 0 <= i <= |body| && AtEnd(body[i..]);
    assert inside[i..][0] == body[i] && inside[i..][1] == body[i + 1] && inside[i..][2] == body[i + 2];
    AtEndIsPrefix(inside[i..]);
  }

  lemma EndCutsShort(body: string, rest: string)
    requires HasEnd(body)
    ensures var r := ReadSections(SECTION_START + body + SECTION_END + rest); r != Some(Reading(body, rest))
  {
    var s := SECTION_START + body + SECTION_END + rest;
    var inside := body + SECTION_END + rest;
    assert s[9..] == inside;
    FirstSectionShort(body, rest);
    ReadSectionEndsFirst(inside);
    var r := ReadSection(inside);
    if r.Some? && SECTION_START <= r.value.rest {
      SectionsLength(r.value.rest);
    }
  }

  /** Written without the escape, a text is read back exactly iff it contains no section end. */
  lemma EscapeNeeded(body: string, rest: string)
    requires !(SECTION_START <= rest)
    ensures ReadSections(SECTION_START + body + SECTION_END + rest) == Some(Reading(body, rest)) <==> !HasEnd(body)
  {
    if HasEnd(body) {
      EndCutsShort(body, rest);
    } else {
      NothingToEscape(body);
      ReadBack(body, rest);
    }
  }
}

/** What the inline rewriting keeps: the text.  A reader who passes over its tags and marks finds exactly the escaped
    text without marks, however the marks overlap. */
module InlineProofs {
  import opened InlineMarkup
  import opened Options
  import opened PageTokens

  predicate IsMark(c: char) {
    c == '*' || c == '`'
  }

  /** The tags of the rewriting. */
  predicate IsInlineTag(name: string) {
    exists k: Mark :: name == Name(k) || name == "/" + Name(k)
  }

  predicate PassedOver(t: Token) {
    match t
    case Char(c) => IsMark(c)
    case Tag(name) => IsInlineTag(name)
    case Data(_) => false
  }

  /** The tokens a reader does not pass over. */
  function Bare(ts: seq<Token>): seq<Token> {
    if ts == [] then [] else (if PassedOver(ts[0]) then [] else [ts[0]]) + Bare(ts[1..])
  }

  function BareText(s: string, open: Option<string>): seq<Token> {
    Bare(TagLex(s, open))
  }

  /** No mark stands inside a tag. */
  predicate MarksOutside(s: string, open: Option<string>) {
    s == "" || (!(open.Some? && IsMark(s[0])) && MarksOutside(s[1..], Next(s[0], open)))
  }

  /** A text as a sequence of characters. */
  function Chars(s: string): seq<Token> {
    if s == "" then [] else [Char(s[0])] + Chars(s[1..])
  }

  /** What a reader shows for the entities. */
  function Unescape(s: string): string {
    if s == "" then ""
    else if "&amp;" <= s then "&" + Unescape(s[5..])
    else if "&lt;" <= s then "<" + Unescape(s[4..])
    else if "&gt;" <= s then ">" + Unescape(s[4..])
    else [s[0]] + Unescape(s[1..])
  }

  function WithoutMarks(s: string): string {
    if s == "" then "" else (if IsMark(s[0]) then "" else [s[0]]) + WithoutMarks(s[1..])
  }

  // ----- reading in parts -----

  lemma {:induction false} BareParts(ts: seq<Token>, us: seq<Token>)
    ensures Bare(ts + us) == Bare(ts) + Bare(us)
  {
    if ts == [] {
      assert ts + us == us;
    } else {
      assert (ts + us)[1..] == ts[1..] + us;
      BareParts(ts[1..], us);
    }
  }

  lemma {:induction false} MarksAppend(s: string, t: string, open: Option<string>)
    ensures MarksOutside(s + t, open) <==> MarksOutside(s, open) && MarksOutside(t, After(s, open))
  {
    if s == "" {
      assert s + t == t;
    } else {
      assert (s + t)[1..] == s[1..] + t;
      MarksAppend(s[1..], t, Next(s[0], open));
    }
  }

  lemma BareAppend(s: string, t: string, open: Option<string>)
    ensures BareText(s + t, open) == BareText(s, open) + BareText(t, After(s, open))
    ensures After(s + t, open) == After(t, After(s, open))
    ensures MarksOutside(s + t, open) <==> MarksOutside(s, open) && MarksOutside(t, After(s, open))
  {
    LexAppend(s, t, open);
    BareParts(TagLex(s, open), TagLex(t, After(s, open)));
    MarksAppend(s, t, open);
  }

  /** Complete, with marks only outside its tags, and nothing but tags and marks. */
  predicate ShowsNothing(s: string) {
    BareText(s, None) == [] && After(s, None) == None && MarksOutside(s, None)
  }

  lemma {:induction false} NoMarksInside(name: string, open: Option<string>)
    requires forall i | 0 <= i < |name| :: !IsMark(name[i])
    ensures MarksOutside(name, open)
  {
    if name != "" {
      NoMarksInside(name[1..], Next(name[0], open));
    }
  }

  lemma TagShowsNothing(name: string)
    requires TagName(name) && IsInlineTag(name) && forall i | 0 <= i < |name| :: !IsMark(name[i])
    ensures ShowsNothing("<" + name + ">")
  {
    TagIsRead(name);
    NoMarksInside("<" + name + ">", None);
    assert Bare([Tag(name)]) == Bare([Tag(name)][1..]);
  }

  /** The tags of the rewriting show nothing and are complete. */
  lemma TagsShowNothing(k: Mark)
    ensures ShowsNothing(Open(k)) && ShowsNothing(Shut(k))
  {
    TagShowsNothing(Name(k));
    TagShowsNothing("/" + Name(k));
    assert "<" + ("/" + Name(k)) + ">" == Shut(k);
  }

  lemma {:induction false} MarksShowNothing(m: string)
    requires forall i | 0 <= i < |m| :: IsMark(m[i])
    ensures ShowsNothing(m)
  {
    if m != "" {
      MarksShowNothing(m[1..]);
      assert TagLex(m, None) == [Char(m[0])] + TagLex(m[1..], None);
      BareParts([Char(m[0])], TagLex(m[1..], None));
    }
  }

  // ----- one pass -----

  /** To a reader the two texts are the same. */
  predicate ReadsAlike(r: string, s: string, open: Option<string>) {
    BareText(r, open) == BareText(s, open) && MarksOutside(r, open) && After(r, open) == After(s, open)
  }

  lemma ReadsAlikeFront(c: char, r: string, s: string, open: Option<string>)
    requires MarksOutside([c] + s, open) && ReadsAlike(r, s, Next(c, open))
    ensures ReadsAlike([c] + r, [c] + s, open)
  {
    BareAppend([c], r, open);
    BareAppend([c], s, open);
    assert After([c], open) == Next(c, open) by { assert [c][1..] == ""; }
  }

  /** A pass takes marks away and adds tags; to a reader the output is the input. */
  lemma {:induction false} SubKeepsText(k: Mark, after: bool, s: string, open: Option<string>)
    requires MarksOutside(s, open)
    ensures ReadsAlike(Sub(k, after, s), s, open)
    decreases |s|, 1
  {
    if s != "" {
      if Find(k, after, s) == 0 {
        SubKeepsText(k, s[0] == '*', s[1..], Next(s[0], open));
        assert s == [s[0]] + s[1..];
        ReadsAlikeFront(s[0], Sub(k, s[0] == '*', s[1..]), s[1..], open);
      } else {
        MatchKeepsText(k, after, s, open);
      }
    }
  }

  predicate AllMarks(m: string) {
    m != "" && forall c | c in m :: IsMark(c)
  }

  lemma MarkIsOutside(m: string, t: string, open: Option<string>)
    requires AllMarks(m) && MarksOutside(m + t, open)
    ensures open == None
  {
    assert m[0] in m && (m + t)[0] == m[0];
  }

  lemma MarksThenText(m: string, t: string, open: Option<string>)
    requires AllMarks(m) && MarksOutside(m + t, open)
    ensures open == None && MarksOutside(t, None)
    ensures BareText(m + t, None) == BareText(t, None) && After(m + t, None) == After(t, None)
  {
    MarkIsOutside(m, t, open);
    MarksShowNothing(m);
    JoinParts(m, t);
    assert [] + BareText(t, None) == BareText(t, None);
  }

  lemma MatchedParts(m: string, body: string, m': string, rest: string, open: Option<string>)
    requires AllMarks(m) && AllMarks(m')
    requires MarksOutside(m + (body + (m' + rest)), open)
    ensures open == None && MarksOutside(body, None) && After(body, None) == None && MarksOutside(rest, None)
    ensures var s := m + (body + (m' + rest));
            BareText(s, open) == BareText(body, None) + BareText(rest, None) && After(s, open) == After(rest, None)
  {
    MarksThenText(m, body + (m' + rest), open);
    BareAppend(body, m' + rest, None);
    MarksThenText(m', rest, After(body, None));
  }

  lemma JoinParts(s: string, t: string)
    requires After(s, None) == None && MarksOutside(s, None)
    ensures BareText(s + t, None) == BareText(s, None) + BareText(t, None)
    ensures After(s + t, None) == After(t, None)
    ensures MarksOutside(s + t, None) <==> MarksOutside(t, None)
  {
    BareAppend(s, t, None);
  }

  lemma NothingInFront(a: string, t: string)
    requires ShowsNothing(a) && MarksOutside(t, None)
    ensures BareText(a + t, None) == BareText(t, None) && After(a + t, None) == After(t, None)
    ensures MarksOutside(a + t, None)
  {
    JoinParts(a, t);
    assert [] + BareText(t, None) == BareText(t, None);
  }

  lemma BetweenTags(open: string, body: string, shut: string, rest: string)
    requires ShowsNothing(open) && ShowsNothing(shut)
    requires MarksOutside(body, None) && After(body, None) == None && MarksOutside(rest, None)
    ensures var s := open + (body + (shut + rest));
            && BareText(s, None) == BareText(body, None) + BareText(rest, None)
            && After(s, None) == After(rest, None) && MarksOutside(s, None)
  {
    NothingInFront(shut, rest);
    JoinParts(body, shut + rest);
    NothingInFront(open, body + (shut + rest));
  }

  lemma TaggedParts(k: Mark, body: string, rest: string)
    requires MarksOutside(body, None) && After(body, None) == None && MarksOutside(rest, None)
    ensures var s := Open(k) + body + Shut(k) + rest;
            && BareText(s, None) == BareText(body, None) + BareText(rest, None)
            && After(s, None) == After(rest, None) && MarksOutside(s, None)
  {
    TagsShowNothing(k);
    BetweenTags(Open(k), body, Shut(k), rest);
    Grouped(Open(k), body, Shut(k), rest);
  }

  lemma Grouped(a: string, b: string, c: string, d: string)
    ensures a + b + c + d == a + (b + (c + d))
  {
  }

  lemma MarkCut(k: Mark, s: string, i: nat)
    requires MarkAt(k, s, i)
    ensures i + Width(k) <= |s| && AllMarks(s[i..i + Width(k)])
  {
    assert s[i..i + Width(k)] == if k == Bold then [s[i], s[i + 1]] else [s[i]];
  }

  lemma MatchKeepsText(k: Mark, after: bool, s: string, open: Option<string>)
    requires MarksOutside(s, open) && Find(k, after, s) > 0
    ensures ReadsAlike(Sub(k, after, s), s, open)
    decreases |s|, 0
  {
    var n, w := Find(k, after, s), Width(k);
    MarkCut(k, s, 0);
    MarkCut(k, s, w + n);
    SubUnfold(k, after, s);
    PartsKeepText(k, s, w, n, s[w + n] == '*', open);
  }

  lemma PartsKeepText(k: Mark, s: string, w: nat, n: nat, next: bool, open: Option<string>)
    requires 0 < w && w + n + w <= |s| && AllMarks(s[..w]) && AllMarks(s[w + n..w + n + w]) && MarksOutside(s, open)
    ensures ReadsAlike(Open(k) + s[w..w + n] + Shut(k) + Sub(k, next, s[w + n + w..]), s, open)
    decreases |s| - 1, 2
  {
    var m, body, m', rest := s[..w], s[w..w + n], s[w + n..w + n + w], s[w + n + w..];
    assert s == m + (body + (m' + rest));
    MatchedParts(m, body, m', rest, open);
    SubKeepsText(k, next, rest, None);
    TaggedParts(k, body, Sub(k, next, rest));
  }

  // ----- escaping -----

  lemma {:induction false} NoTags(s: string)
    requires forall i | 0 <= i < |s| :: s[i] != '<' && !IsMark(s[i])
    ensures BareText(s, None) == Chars(s) && After(s, None) == None && MarksOutside(s, None)
  {
    if s != "" {
      NoTags(s[1..]);
      assert TagLex(s, None) == [Char(s[0])] + TagLex(s[1..], None);
      BareParts([Char(s[0])], TagLex(s[1..], None));
      assert [Char(s[0])][1..] == [];
    }
  }

  lemma EscapeCharBare(c: char)
    ensures var e := EscapeChar(c);
            ReadsEscaped(e, WithoutMarks([c]))
  {
    assert [c][1..] == "";
    if IsMark(c) {
      MarksShowNothing([c]);
    } else {
      NoTags(EscapeChar(c));
      assert WithoutMarks([c]) == [c];
      assert EscapeHtml([c]) == EscapeChar(c);
    }
  }

  lemma {:induction false} CharsAppend(s: string, t: string)
    ensures Chars(s + t) == Chars(s) + Chars(t)
  {
    if s == "" {
      assert s + t == t;
    } else {
      assert (s + t)[1..] == s[1..] + t;
      CharsAppend(s[1..], t);
    }
  }

  lemma {:induction false} EscapeAppend(s: string, t: string)
    ensures EscapeHtml(s + t) == EscapeHtml(s) + EscapeHtml(t)
  {
    if s == "" {
      assert s + t == t;
    } else {
      assert (s + t)[1..] == s[1..] + t;
      EscapeAppend(s[1..], t);
    }
  }

  /** To a reader the text is the escaped one. */
  predicate ReadsEscaped(e: string, text: string) {
    BareText(e, None) == Chars(EscapeHtml(text)) && MarksOutside(e, None) && After(e, None) == None
  }

  lemma EscapedJoin(e: string, x: string, f: string, y: string)
    requires ReadsEscaped(e, x) && ReadsEscaped(f, y)
    ensures ReadsEscaped(e + f, x + y)
  {
    JoinParts(e, f);
    EscapeAppend(x, y);
    CharsAppend(EscapeHtml(x), EscapeHtml(y));
  }

  lemma {:induction false} EscapedReads(text: string)
    ensures ReadsEscaped(EscapeHtml(text), WithoutMarks(text))
  {
    if text != "" {
      var c, rest := text[0], text[1..];
      EscapedReads(rest);
      EscapeCharBare(c);
      EscapedJoin(EscapeChar(c), WithoutMarks([c]), EscapeHtml(rest), WithoutMarks(rest));
      WithoutMarksFirst(text);
    }
  }

  lemma WithoutMarksFirst(text: string)
    requires text != ""
    ensures WithoutMarks(text) == WithoutMarks([text[0]]) + WithoutMarks(text[1..])
  {
    assert [text[0]][1..] == "";
  }

  lemma UnescapeFirst(c: char, s: string)
    ensures Unescape(EscapeChar(c) + s) == [c] + Unescape(s)
  {
    var t := EscapeChar(c) + s;
    assert t[|EscapeChar(c)|..] == s;
    if c == '&' || c == '<' || c == '>' {
      assert EscapeChar(c) <= t;
      assert c == '&' ==> t[1] == 'a';
      assert c == '<' ==> t[1] == 'l';
      assert c == '>' ==> t[1] == 'g';
      assert "&amp;"[1] == 'a' && "&lt;"[1] == 'l' && "&gt;"[1] == 'g';
    } else {
      assert t[0] == c && "&amp;"[0] == '&' && "&lt;"[0] == '&' && "&gt;"[0] == '&';
    }
  }

  lemma {:induction false} EscapeReadsBack(text: string)
    ensures Unescape(EscapeHtml(text)) == text
  {
    if text != "" {
      EscapeReadsBack(text[1..]);
      UnescapeFirst(text[0], EscapeHtml(text[1..]));
    }
  }

  /** Nothing of a text but marks is lost, and nothing but the rewriting's own tags is added: what a reader does not
      pass over are the characters of a text that, with its entities undone, is the text without its marks. */
  lemma InlineKeepsText(text: string)
    ensures BareText(Inline(text), None) == Chars(EscapeHtml(WithoutMarks(text)))
    ensures Unescape(EscapeHtml(WithoutMarks(text))) == WithoutMarks(text)
    ensures After(Inline(text), None) == None
  {
    var e := EscapeHtml(text);
    EscapedReads(text);
    EscapeReadsBack(WithoutMarks(text));
    var b := Sub(Bold, false, e);
    SubKeepsText(Bold, false, e, None);
    SubKeepsText(Code, false, b, None);
    SubKeepsText(Em, false, Sub(Code, false, b), None);
  }

  // ----- marks that are replaced -----

  predicate Unmarked(s: string) {
    forall i | 0 <= i < |s| :: !IsMark(s[i])
  }

  function MarkText(k: Mark): string {
    match k case Bold => "**" case Code => "`" case Em => "*"
  }

  lemma {:induction false} NothingToMark(k: Mark, after: bool, s: string)
    requires forall i | 0 <= i < |s| :: !MarkAt(k, s, i)
    ensures Sub(k, after, s) == s
    decreases |s|
  {
    if s != "" {
      assert forall i | 0 <= i < |s[1..]| :: MarkAt(k, s[1..], i) ==> MarkAt(k, s, i + 1);
      NothingToMark(k, s[0] == '*', s[1..]);
    }
  }

  lemma {:induction false} EscapedUnmarked(t: string)
    requires Unmarked(t) && '\n' !in t
    ensures Unmarked(EscapeHtml(t)) && '\n' !in EscapeHtml(t) && |EscapeHtml(t)| >= |t|
  {
    if t != "" {
      EscapedUnmarked(t[1..]);
    }
  }

  lemma MarksStay(k: Mark)
    ensures EscapeHtml(MarkText(k)) == MarkText(k)
  {
    assert "`"[1..] == "" && "*"[1..] == "" && "**"[1..] == "*";
    assert EscapeHtml("*") == "*";
  }

  lemma MarkedIsFound(k: Mark, e: string)
    requires e != "" && Unmarked(e) && '\n' !in e
    ensures Find(k, false, MarkText(k) + e + MarkText(k)) == |e|
  {
    var s, w := MarkText(k) + e + MarkText(k), Width(k);
    forall i | w <= i < w + |e|
      ensures !MarkAt(k, s, i) && Holds(k, s[i])
    {
      assert s[i] == e[i - w];
    }
    assert Matches(k, false, s, |e|);
    FindIsShortest(k, false, s, |e|);
  }

  /** A pass over one marked text. */
  lemma PassOverMarked(k: Mark, e: string)
    requires e != "" && Unmarked(e) && '\n' !in e
    ensures Sub(k, false, MarkText(k) + e + MarkText(k)) == Open(k) + e + Shut(k)
  {
    var s, w := MarkText(k) + e + MarkText(k), Width(k);
    MarkedIsFound(k, e);
    SubUnfold(k, false, s);
    assert s[w..w + |e|] == e && s[w + |e| + w..] == "";
  }

  lemma TagUnmarked(k: Mark, e: string)
    requires Unmarked(e)
    ensures Unmarked(Open(k) + e + Shut(k))
  {
    assert Unmarked(Name(k));
    assert Unmarked(Open(k)) && Unmarked(Shut(k));
  }

  lemma OtherPass(j: Mark, k: Mark, e: string)
    requires e != "" && Unmarked(e) && j != k && j != Em
    ensures Sub(j, false, MarkText(k) + e + MarkText(k)) == MarkText(k) + e + MarkText(k)
  {
    NothingToMark(j, false, MarkText(k) + e + MarkText(k));
  }

  /** A text between two marks of a kind is shown between the tags of that kind. */
  lemma MarkedTextIsTagged(k: Mark, t: string)
    requires t != "" && Unmarked(t) && '\n' !in t
    ensures Inline(MarkText(k) + t + MarkText(k)) == Open(k) + EscapeHtml(t) + Shut(k)
  {
    var e := EscapeHtml(t);
    EscapedUnmarked(t);
    MarksStay(k);
    EscapeAppend(MarkText(k), t);
    EscapeAppend(MarkText(k) + t, MarkText(k));
    PassOverMarked(k, e);
    TagUnmarked(k, e);
    var tagged := Open(k) + e + Shut(k);
    NothingToMark(Code, false, tagged);
    NothingToMark(Em, false, tagged);
    if k != Bold {
      OtherPass(Bold, k, e);
    }
    if k == Em {
      OtherPass(Code, k, e);
    }
  }

  // ----- where a pass finds its matches -----

  /** No match starts in `pre`, which `rest` follows; `after` tells whether a star comes before it. */
  ghost predicate NoMatchIn(k: Mark, after: bool, pre: string, rest: string)
    decreases |pre|
  {
    pre != "" ==>
      && (forall n: nat :: !Matches(k, after, pre + rest, n))
      && NoMatchIn(k, pre[0] == '*', pre[1..], rest)
  }

  predicate StarAtEnd(after: bool, pre: string) {
    if pre == "" then after else pre[|pre| - 1] == '*'
  }

  lemma ConsAppend(pre: string, rest: string)
    requires pre != ""
    ensures pre + rest == [pre[0]] + (pre[1..] + rest)
  {
  }

  lemma SkipFirst(k: Mark, after: bool, c: char, t: string)
    requires forall n: nat :: !Matches(k, after, [c] + t, n)
    ensures Sub(k, after, [c] + t) == [c] + Sub(k, c == '*', t)
  {
    assert !Matches(k, after, [c] + t, Find(k, after, [c] + t));
    assert ([c] + t)[1..] == t;
  }

  /** A pass leaves a stretch in which no match starts as it is. */
  lemma {:induction false} SkipToMatch(k: Mark, after: bool, pre: string, rest: string)
    requires NoMatchIn(k, after, pre, rest)
    ensures Sub(k, after, pre + rest) == pre + Sub(k, StarAtEnd(after, pre), rest)
    decreases |pre|
  {
    if pre == "" {
      assert pre + rest == rest;
    } else {
      ConsAppend(pre, rest);
      SkipFirst(k, after, pre[0], pre[1..] + rest);
      SkipToMatch(k, pre[0] == '*', pre[1..], rest);
      StarAtEndRest(after, pre);
      ConsAppend(pre, Sub(k, StarAtEnd(after, pre), rest));
    }
  }

  lemma StarAtEndRest(after: bool, pre: string)
    requires pre != ""
    ensures StarAtEnd(pre[0] == '*', pre[1..]) == StarAtEnd(after, pre)
  {
  }

  /** `n` is the shortest match at the start of `rest`. */
  ghost predicate ShortestMatch(k: Mark, star: bool, rest: string, n: nat) {
    Matches(k, star, rest, n) && forall m: nat | m < n :: !Matches(k, star, rest, m)
  }

  lemma ShortestIsFound(k: Mark, star: bool, rest: string, n: nat)
    requires ShortestMatch(k, star, rest, n)
    ensures Find(k, star, rest) == n > 0
  {
    FindIsShortest(k, star, rest, n);
    assert Matches(k, star, rest, Find(k, star, rest));
  }

  /** The text with the `n` characters between its first marks tagged, and the pass going on behind them. */
  function Replaced(k: Mark, rest: string, n: nat): string
    requires n + 2 * Width(k) <= |rest|
  {
    var w := Width(k);
    Open(k) + rest[w..w + n] + Shut(k) + Sub(k, rest[w + n] == '*', rest[w + n + w..])
  }

  lemma FoundIsReplaced(k: Mark, star: bool, rest: string)
    requires Find(k, star, rest) > 0
    ensures Find(k, star, rest) + 2 * Width(k) <= |rest|
    ensures Sub(k, star, rest) == Replaced(k, rest, Find(k, star, rest))
  {
    SubUnfold(k, star, rest);
  }

  /** What a pass does to a whole text: up to the leftmost match it changes nothing, of that match it takes the
      shortest, and it goes on behind it, where it still sees the character before. */
  lemma SubLeftmost(k: Mark, after: bool, pre: string, rest: string, n: nat)
    requires NoMatchIn(k, after, pre, rest) && ShortestMatch(k, StarAtEnd(after, pre), rest, n)
    ensures n + 2 * Width(k) <= |rest| && Sub(k, after, pre + rest) == pre + Replaced(k, rest, n)
  {
    ShortestIsFound(k, StarAtEnd(after, pre), rest, n);
    FoundIsReplaced(k, StarAtEnd(after, pre), rest);
    SkipToMatch(k, after, pre, rest);
  }

  /** And a text without a match it leaves alone. */
  lemma SubNowhere(k: Mark, after: bool, s: string)
    requires NoMatchIn(k, after, s, "")
    ensures Sub(k, after, s) == s
  {
    SkipToMatch(k, after, s, "");
    assert s + "" == s;
  }

  // ----- marks that overlap -----

  lemma {:induction false} SkipUnmarked(k: Mark, p: string, s: string)
    requires Unmarked(p)
    ensures Sub(k, false, p + s) == p + Sub(k, false, s)
  {
    if p == "" {
      assert p + s == s;
    } else {
      ConsAppend(p, s);
      SkipFirst(k, false, p[0], p[1..] + s);
      SkipUnmarked(k, p[1..], s);
      ConsAppend(p, Sub(k, false, s));
    }
  }

  lemma TripleMatches(s: string, e: string)
    requires e != "" && Unmarked(e) && '\n' !in e && s == "**" + ("*" + e) + "**" + "*"
    ensures ShortestMatch(Bold, false, s, |e| + 1)
  {
    forall i | 3 <= i < 3 + |e|
      ensures !IsMark(s[i]) && Holds(Bold, s[i])
    {
      assert s[i] == e[i - 3];
    }
  }

  lemma TripleIsFound(e: string)
    requires e != "" && Unmarked(e) && '\n' !in e
    ensures Sub(Bold, false, "**" + ("*" + e) + "**" + "*") == Open(Bold) + ("*" + e) + Shut(Bold) + "*"
  {
    var s, n := "**" + ("*" + e) + "**" + "*", |e| + 1;
    TripleMatches(s, e);
    ShortestIsFound(Bold, false, s, n);
    SubUnfold(Bold, false, s);
    assert s[2..2 + n] == "*" + e && s[2 + n + 2..] == "*";
    NothingToMark(Bold, true, "*");
  }

  lemma EmInside(open: string, inner: string)
    requires Unmarked(open) && inner != "" && Unmarked(inner) && '\n' !in inner
    ensures Sub(Em, false, open + ("*" + inner + "*")) == open + (Open(Em) + inner + Shut(Em))
  {
    SkipUnmarked(Em, open, "*" + inner + "*");
    PassOverMarked(Em, inner);
  }

  lemma TripleGroups(open: string, e: string, shut: string)
    ensures open + ("*" + e) + shut + "*" == open + ("*" + (e + shut) + "*")
  {
  }

  /** Code and emphasis after the pass for bold. */
  lemma TripleAfterBold(e: string)
    requires e != "" && Unmarked(e) && '\n' !in e
    ensures var bold := Open(Bold) + ("*" + e) + Shut(Bold) + "*";
            Sub(Em, false, Sub(Code, false, bold)) == Open(Bold) + (Open(Em) + (e + Shut(Bold)) + Shut(Em))
  {
    TagParts(Bold);
    TripleGroups(Open(Bold), e, Shut(Bold));
    NothingToMark(Code, false, Open(Bold) + ("*" + e) + Shut(Bold) + "*");
    EmInside(Open(Bold), e + Shut(Bold));
  }

  /** The tags of overlapping marks need not nest: three stars on either side open bold before emphasis and close
      it first. */
  lemma TripleMarksOverlap(t: string)
    requires t != "" && Unmarked(t) && '\n' !in t
    ensures Inline("***" + t + "***") == Open(Bold) + (Open(Em) + (EscapeHtml(t) + Shut(Bold)) + Shut(Em))
  {
    EscapedUnmarked(t);
    TripleEscaped(t);
    TripleIsFound(EscapeHtml(t));
    TripleAfterBold(EscapeHtml(t));
  }

  lemma TagParts(k: Mark)
    ensures Unmarked(Open(k)) && Unmarked(Shut(k)) && '\n' !in Shut(k)
  {
    assert Unmarked(Name(k)) && '\n' !in Name(k);
  }

  lemma TripleEscaped(t: string)
    ensures EscapeHtml("***" + t + "***") == "**" + ("*" + EscapeHtml(t)) + "**" + "*"
  {
    StarsStay();
    EscapeAppend("***", t);
    EscapeAppend("***" + t, "***");
    TripleStars(EscapeHtml(t));
  }

  lemma StarsStay()
    ensures EscapeHtml("***") == "***"
  {
    MarksStay(Bold);
    MarksStay(Em);
    EscapeAppend("**", "*");
    assert "**" + "*" == "***";
  }

  lemma TripleStars(e: string)
    ensures "***" + e + "***" == "**" + ("*" + e) + "**" + "*"
  {
    assert "**" + "*" == "***";
  }
}

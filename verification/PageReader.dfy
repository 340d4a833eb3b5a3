/** Reading a converted page back: every code block of the document is recovered, in order. */
module PageReader {
  import opened Cdata
  import opened InlineMarkup
  import opened Lines
  import opened Markdown
  import opened Options
  import opened PageTokens
  import opened Scanner

  /** The texts of all character data sections of a page, consecutive sections taken together. */
  function Extract(s: string): seq<string>
    decreases |s|
  {
    if s == "" then []
    else
      SectionsLength(s);
      match ReadSections(s)
      case Some(r) => [r.content] + Extract(r.rest)
      case None => Extract(s[1..])
  }

  lemma PlainConcat(x: string, y: string)
    requires Plain(x) && Plain(y)
    ensures Plain(x + y)
  {
    forall i | 0 <= i < |x + y|
      ensures PlainAt(x + y, i)
    {
      if i < |x| {
        assert PlainAt(x, i);
      } else {
        assert PlainAt(y, i - |x|);
      }
    }
  }

  lemma {:induction false} SkipPlain(x: string, y: string)
    requires Plain(x)
    ensures Extract(x + y) == Extract(y)
    decreases |x|
  {
    if x == "" {
      assert x + y == y;
    } else {
      var s := x + y;
      PlainRest(x);
      NoSection(s);
      assert s[1..] == x[1..] + y;
      SkipPlain(x[1..], y);
    }
  }

  lemma ExtractSection(body: string, rest: string)
    requires !(SECTION_START <= rest)
    ensures Extract(Write(body) + rest) == [body] + Extract(rest)
  {
    ReadBack(body, rest);
  }

  /** All markup of the dialect is free of sections. */
  ghost predicate PlainDialect(d: Dialect) {
    && (forall line :: Plain(d.heading(line)))
    && (forall k, line :: Plain(d.item(k, line)))
    && (forall ls :: Plain(d.paragraph(ls)))
    && Plain(d.fenceHead) && Plain(d.fenceFoot)
    && |d.fenceFoot| >= 2 && d.fenceFoot[1] != '!'
  }

  lemma Around(open: string, text: string, close: string)
    requires Plain(open) && Plain(text) && Plain(close)
    ensures Plain(open + text + close)
  {
    PlainConcat(open, text);
    PlainConcat(open + text, close);
  }

  lemma {:induction false} ItemsPlain(d: Dialect, k: Kind, ls: seq<string>)
    requires PlainDialect(d)
    ensures Plain(Items(d, k, ls))
  {
    if ls != [] {
      ItemsPlain(d, k, ls[..|ls| - 1]);
      PlainConcat(Items(d, k, ls[..|ls| - 1]), d.item(k, ls[|ls| - 1]));
    }
  }

  lemma OtherBlockPlain(d: Dialect, lines: seq<string>, b: Block)
    requires PlainDialect(d) && b.start < b.stop <= |lines| && b.kind != Fence
    ensures Plain(Render(d, lines, b))
  {
    match b.kind
    case Rule =>
    case Heading =>
    case Blank =>
    case Paragraph =>
    case Bullets =>
      ItemsPlain(d, Bullets, lines[b.start..b.stop]);
      Around("<ul>", Items(d, Bullets, lines[b.start..b.stop]), "</ul>");
    case Ordered =>
      ItemsPlain(d, Ordered, lines[b.start..b.stop]);
      Around("<ol>", Items(d, Ordered, lines[b.start..b.stop]), "</ol>");
  }

  /** The texts between the fences of a document, in order. */
  function FenceTexts(lines: seq<string>, bs: seq<Block>): seq<string>
    requires InRange(lines, bs)
  {
    if bs == [] then []
    else if bs[0].kind == Fence then [Join("\n", Body(lines, bs[0]))] + FenceTexts(lines, bs[1..])
    else FenceTexts(lines, bs[1..])
  }

  lemma FencePiece(d: Dialect, body: string, rest: string)
    requires PlainDialect(d)
    ensures Extract(d.fenceHead + Write(body) + d.fenceFoot + rest) == [body] + Extract(rest)
  {
    var after := d.fenceFoot + rest;
    NoSection(after);
    assert d.fenceHead + Write(body) + d.fenceFoot + rest == d.fenceHead + (Write(body) + after);
    SkipPlain(d.fenceHead, Write(body) + after);
    ExtractSection(body, after);
    SkipPlain(d.fenceFoot, rest);
  }

  lemma {:induction false} ExtractRendered(d: Dialect, lines: seq<string>, bs: seq<Block>)
    requires PlainDialect(d) && InRange(lines, bs)
    ensures Extract(RenderAll(d, lines, bs)) == FenceTexts(lines, bs)
  {
    if bs != [] {
      var rest := RenderAll(d, lines, bs[1..]);
      ExtractRendered(d, lines, bs[1..]);
      if bs[0].kind == Fence {
        FencePiece(d, Join("\n", Body(lines, bs[0])), rest);
      } else {
        OtherBlockPlain(d, lines, bs[0]);
        SkipPlain(Render(d, lines, bs[0]), rest);
      }
    }
  }

  // ----- inline markup is free of sections -----

  lemma {:induction false} EscapedPlain(s: string)
    ensures Plain(EscapeHtml(s))
  {
    if s != "" {
      EscapedPlain(s[1..]);
      PlainConcat(EscapeChar(s[0]), EscapeHtml(s[1..]));
    }
  }

  lemma TagsPlain(k: Mark)
    ensures Plain(Open(k)) && Plain(Shut(k))
  {
  }

  predicate NoBang(x: string) {
    forall i | 0 <= i < |x| - 1 :: x[i] == '<' ==> x[i + 1] != '!'
  }

  lemma PlainPart(s: string, i: nat, j: nat)
    requires Plain(s) && i <= j <= |s|
    ensures NoBang(s[i..j]) && Plain(s[j..])
  {
    forall m | 0 <= m < |s[i..j]| - 1
      ensures s[i..j][m] == '<' ==> s[i..j][m + 1] != '!'
    {
      assert PlainAt(s, i + m);
    }
    forall m | 0 <= m < |s[j..]|
      ensures PlainAt(s[j..], m)
    {
      assert PlainAt(s, j + m);
    }
  }

  lemma ShutAfter(k: Mark, body: string)
    requires NoBang(body)
    ensures Plain(body + Shut(k))
  {
    TagsPlain(k);
    var x := body + Shut(k);
    forall i | 0 <= i < |x|
      ensures PlainAt(x, i)
    {
      if i >= |body| {
        assert PlainAt(Shut(k), i - |body|);
      } else if i == |body| - 1 {
        assert x[i + 1] == Shut(k)[0];
      }
    }
  }

  lemma TaggedPlain(k: Mark, s: string, i: nat, j: nat, r: string)
    requires Plain(s) && i <= j <= |s| && Plain(r)
    ensures var t := Open(k) + s[i..j] + Shut(k) + r; Plain(t) && t != "" && t[0] == '<'
  {
    var body := s[i..j];
    PlainPart(s, i, j);
    TagsPlain(k);
    ShutAfter(k, body);
    PlainConcat(Open(k), body + Shut(k));
    PlainConcat(Open(k) + (body + Shut(k)), r);
    assert Open(k) + (body + Shut(k)) + r == Open(k) + body + Shut(k) + r;
  }

  lemma FrontPlain(c: char, t: string, r: string)
    requires PlainAt([c] + t, 0) && Plain(r)
    requires if t == "" then r == "" else r != "" && (r[0] == t[0] || r[0] == '<')
    ensures Plain([c] + r)
  {
    var x := [c] + r;
    forall i | 0 <= i < |x|
      ensures PlainAt(x, i)
    {
      if i > 0 {
        assert PlainAt(r, i - 1);
      }
    }
  }

  lemma MatchPlain(k: Mark, after: bool, s: string, r: string)
    requires Plain(s) && Find(k, after, s) > 0 && Plain(r)
    requires var n, w := Find(k, after, s), Width(k);
             n + 2 * w <= |s| && r == Sub(k, s[w + n] == '*', s[w + n + w..])
    ensures var x := Sub(k, after, s); Plain(x) && x != "" && x[0] == '<'
  {
    SubUnfold(k, after, s);
    TaggedPlain(k, s, Width(k), Width(k) + Find(k, after, s), r);
  }

  lemma StepPlain(k: Mark, after: bool, s: string)
    requires Plain(s) && s != "" && Find(k, after, s) == 0
    requires var r := Sub(k, s[0] == '*', s[1..]);
             Plain(r) && (if |s| == 1 then r == "" else r != "" && (r[0] == s[1] || r[0] == '<'))
    ensures var r := Sub(k, after, s); Plain(r) && r != "" && r[0] == s[0]
  {
    PlainRest(s);
    assert [s[0]] + s[1..] == s;
    FrontPlain(s[0], s[1..], Sub(k, s[0] == '*', s[1..]));
  }

  /** A pass turns a mark behind a `<` into another `<`, never into an exclamation mark. */
  lemma {:induction false} SubPlain(k: Mark, after: bool, s: string)
    requires Plain(s)
    ensures var r := Sub(k, after, s);
            Plain(r) && if s == "" then r == "" else r != "" && (r[0] == s[0] || r[0] == '<')
    decreases |s|
  {
    if s != "" {
      var n, w := Find(k, after, s), Width(k);
      if n == 0 {
        PlainRest(s);
        SubPlain(k, s[0] == '*', s[1..]);
        StepPlain(k, after, s);
      } else {
        PlainPart(s, w, w + n + w);
        SubPlain(k, s[w + n] == '*', s[w + n + w..]);
        MatchPlain(k, after, s, Sub(k, s[w + n] == '*', s[w + n + w..]));
      }
    }
  }

  lemma InlinePlain(text: string)
    ensures Plain(Inline(text))
  {
    EscapedPlain(text);
    var b := Sub(Bold, false, EscapeHtml(text));
    SubPlain(Bold, false, EscapeHtml(text));
    SubPlain(Code, false, b);
    SubPlain(Em, false, Sub(Code, false, b));
  }

  // ----- for the source's own dialect -----

  lemma HeadingPlain(h: string, text: string)
    requires Plain(h) && Plain(text)
    ensures Plain("<h" + h + ">" + text + "</h" + h + ">")
  {
    Around("<h", h, ">");
    PlainConcat("<h" + h + ">", text);
    PlainConcat("<h" + h + ">" + text, "</h");
    PlainConcat("<h" + h + ">" + text + "</h", h);
    PlainConcat("<h" + h + ">" + text + "</h" + h, ">");
  }

  lemma HeadAndFootPlain()
    ensures Plain(FENCE_HEAD) && Plain(FENCE_FOOT)
    ensures |FENCE_FOOT| >= 2 && FENCE_FOOT[1] == '/'
  {
    Around("<ac:parameter ac:name=\"language\">", "text", "</ac:parameter>");
    Around("<ac:structured-macro ac:name=\"code\">", LANGUAGE, "<ac:plain-text-body>");
    PlainConcat("</ac:plain-text-body>", "</ac:structured-macro>");
  }

  lemma HeadingOutPlain(line: string)
    ensures Plain(HeadingOut(Inline, line))
  {
    InlinePlain(HeadingText(line));
    HeadingPlain(LevelDigit(HeadingLevel(line)), Inline(HeadingText(line)));
  }

  lemma ItemOutPlain(digit: char -> bool, k: Kind, line: string)
    ensures Plain(ItemOut(Inline, digit, k, line))
  {
    var text := if k == Bullets then BulletText(line) else OrderedText(digit, line);
    InlinePlain(text);
    LiPlain();
    Around("<li>", Inline(text), "</li>");
  }

  lemma LiPlain()
    ensures Plain("<li>") && Plain("</li>") && Plain("<p>") && Plain("</p>")
  {
  }

  lemma ParagraphOutPlain(ls: seq<string>)
    ensures Plain(ParagraphOut(Inline, ls))
  {
    InlinePlain(Join(" ", Stripped(ls)));
    LiPlain();
    Around("<p>", Inline(Join(" ", Stripped(ls))), "</p>");
  }

  lemma SourcePlain(digit: char -> bool)
    ensures PlainDialect(Source(Inline, digit))
  {
    var d := Source(Inline, digit);
    forall line
      ensures Plain(d.heading(line))
    {
      HeadingOutPlain(line);
    }
    forall k, line
      ensures Plain(d.item(k, line))
    {
      ItemOutPlain(digit, k, line);
    }
    forall ls
      ensures Plain(d.paragraph(ls))
    {
      ParagraphOutPlain(ls);
    }
    HeadAndFootPlain();
  }

  /** A page gives back exactly the texts of the document's code blocks, whatever they contain. */
  lemma PageGivesFencesBack(digit: char -> bool, md: string)
    ensures var lines := Split(md);
            var bs := Blocks(Source(Inline, digit), lines, 0);
            InRange(lines, bs) && Extract(Storage(digit, md)) == FenceTexts(lines, bs)
  {
    var lines := Split(md);
    var d := Source(Inline, digit);
    SourcePlain(digit);
    BlocksInRange(d, lines, 0);
    ExtractRendered(d, lines, Blocks(d, lines, 0));
  }

  /** The lines of a code block are recovered from its text iff the block has any. */
  lemma FenceLinesRecovered(md: string, b: Block)
    requires b.start < b.stop <= |Split(md)|
    ensures var body := Body(Split(md), b); Split(Join("\n", body)) == body <==> body != []
  {
    SplitGivesLines(md);
    SplitJoin(Body(Split(md), b));
  }
}

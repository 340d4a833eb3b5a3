/** Reading a converted page back: a reader of its tags finds every block of the document, in order, with its kind and
    the text of all its lines. */
module PageBlocks {
  import opened Cdata
  import opened InlineMarkup
  import opened InlineProofs
  import opened Lines
  import opened Markdown
  import opened Options
  import opened PageReader
  import opened PageTokens
  import opened Scanner

  datatype Piece =
    | Title(level: int, text: string)
    | Bulleted(items: seq<string>)
    | Numbered(items: seq<string>)
    | Passage(text: string)
    | Line
    | Listing(text: string)

  // ----- the reader -----

  datatype Found<T> = Found(value: T, rest: seq<Token>)

  /** The text up to a closing tag, without marks; other tags are passed over. */
  function ReadText(ts: seq<Token>, close: string): (r: Found<string>)
    ensures |r.rest| <= |ts|
  {
    if ts == [] then Found("", [])
    else match ts[0]
      case Tag(name) => if name == close then Found("", ts[1..]) else ReadText(ts[1..], close)
      case Data(_) => ReadText(ts[1..], close)
      case Char(c) =>
        var r := ReadText(ts[1..], close);
        if IsMark(c) then r else Found([c] + r.value, r.rest)
  }

  /** What is shown of it: the entities undone. */
  function ReadShown(ts: seq<Token>, close: string): (r: Found<string>)
    ensures |r.rest| <= |ts|
  {
    var r := ReadText(ts, close);
    Found(Unescape(r.value), r.rest)
  }

  /** The list items up to a closing tag. */
  function ReadItems(ts: seq<Token>, close: string): (r: Found<seq<string>>)
    ensures |r.rest| <= |ts|
    decreases |ts|
  {
    if ts == [] then Found([], [])
    else if ts[0] == Tag(close) then Found([], ts[1..])
    else if ts[0] == Tag("li") then
      var item := ReadShown(ts[1..], "/li");
      var r := ReadItems(item.rest, close);
      Found([item.value] + r.value, r.rest)
    else ReadItems(ts[1..], close)
  }

  /** The character data of a macro, up to its closing tag. */
  function ReadMacro(ts: seq<Token>, text: string): (r: Found<string>)
    ensures |r.rest| <= |ts|
  {
    if ts == [] then Found(text, [])
    else match ts[0]
      case Tag(name) => if name == "/ac:structured-macro" then Found(text, ts[1..]) else ReadMacro(ts[1..], text)
      case Data(d) => ReadMacro(ts[1..], text + d)
      case Char(_) => ReadMacro(ts[1..], text)
  }

  /** The level of a heading tag, or 0. */
  function TitleLevel(name: string): int {
    if |name| == 2 && name[0] == 'h' && '1' <= name[1] <= '6' then name[1] as int - '0' as int else 0
  }

  const MACRO := "ac:structured-macro ac:name=\"code\""

  /** The pieces of a page. */
  function ReadPieces(ts: seq<Token>): seq<Piece>
    decreases |ts|
  {
    if ts == [] then []
    else match ts[0]
      case Char(_) => ReadPieces(ts[1..])
      case Data(_) => ReadPieces(ts[1..])
      case Tag(name) =>
        if name == "hr/" then [Line] + ReadPieces(ts[1..])
        else if name == "p" then var r := ReadShown(ts[1..], "/p"); [Passage(r.value)] + ReadPieces(r.rest)
        else if name == "ul" then var r := ReadItems(ts[1..], "/ul"); [Bulleted(r.value)] + ReadPieces(r.rest)
        else if name == "ol" then var r := ReadItems(ts[1..], "/ol"); [Numbered(r.value)] + ReadPieces(r.rest)
        else if name == MACRO then var r := ReadMacro(ts[1..], ""); [Listing(r.value)] + ReadPieces(r.rest)
        else if TitleLevel(name) > 0 then
          var r := ReadShown(ts[1..], "/" + name);
          [Title(TitleLevel(name), r.value)] + ReadPieces(r.rest)
        else ReadPieces(ts[1..])
  }

  function ReadPage(page: string): seq<Piece> {
    ReadPieces(Lex(page, None))
  }

  // ----- what there is to find -----

  /** The number of signs a heading starts with. */
  function SignCount(line: string): nat {
    if line != "" && line[0] == '#' then 1 + SignCount(line[1..]) else 0
  }

  /** The text of a list line after its mark. */
  function ItemText(digit: char -> bool, k: Kind, line: string): string {
    if k == Bullets then BulletText(line) else OrderedText(digit, line)
  }

  /** One item for each line, in order. */
  function ItemTexts(digit: char -> bool, k: Kind, ls: seq<string>): seq<string> {
    seq(|ls|, i requires 0 <= i < |ls| => WithoutMarks(ItemText(digit, k, ls[i])))
  }

  function StripLines(ls: seq<string>): seq<string> {
    seq(|ls|, i requires 0 <= i < |ls| => Strip(ls[i]))
  }

  /** The piece a block of the document should give, line by line. */
  function PieceOf(digit: char -> bool, lines: seq<string>, b: Block): seq<Piece>
    requires b.start < b.stop <= |lines|
  {
    var ls := lines[b.start..b.stop];
    match b.kind
    case Blank => []
    case Rule => [Line]
    case Heading => [Title(SignCount(lines[b.start]), WithoutMarks(HeadingText(lines[b.start])))]
    case Bullets => [Bulleted(ItemTexts(digit, Bullets, ls))]
    case Ordered => [Numbered(ItemTexts(digit, Ordered, ls))]
    case Paragraph => [Passage(WithoutMarks(Join(" ", StripLines(ls))))]
    case Fence => [Listing(Join("\n", lines[b.start + 1..b.stop]))]
  }

  function PiecesOf(digit: char -> bool, lines: seq<string>, bs: seq<Block>): seq<Piece>
    requires InRange(lines, bs)
  {
    if bs == [] then [] else PieceOf(digit, lines, bs[0]) + PiecesOf(digit, lines, bs[1..])
  }

  // ----- texts -----

  /** The tokens of an inline text: nothing but its tags, marks and the characters of `x`. */
  lemma {:induction false} ReadTextOf(ts: seq<Token>, x: string, close: string, rest: seq<Token>)
    requires Bare(ts) == Chars(x) && !IsInlineTag(close)
    ensures ReadText(ts + ([Tag(close)] + rest), close) == Found(x, rest)
    decreases |ts|
  {
    var all := ts + ([Tag(close)] + rest);
    if ts == [] {
      assert x == "" && all == [Tag(close)] + rest && all[1..] == rest;
    } else {
      assert all[0] == ts[0] && all[1..] == ts[1..] + ([Tag(close)] + rest);
      if PassedOver(ts[0]) {
        ReadTextOf(ts[1..], x, close, rest);
      } else {
        assert Bare(ts)[0] == ts[0] && Bare(ts)[1..] == Bare(ts[1..]);
        assert x != "" && Chars(x)[0] == Char(x[0]) && Chars(x)[1..] == Chars(x[1..]);
        ReadTextOf(ts[1..], x[1..], close, rest);
        assert [x[0]] + x[1..] == x;
      }
    }
  }

  /** Between its tags an inline text is shown without its marks, whole. */
  lemma InlineIsShown(text: string, close: string, rest: seq<Token>)
    requires !IsInlineTag(close)
    ensures ReadShown(TagLex(Inline(text), None) + ([Tag(close)] + rest), close) == Found(WithoutMarks(text), rest)
  {
    InlineKeepsText(text);
    ReadTextOf(TagLex(Inline(text), None), EscapeHtml(WithoutMarks(text)), close, rest);
  }

  // ----- tags -----

  /** A tag at the front of a page. */
  lemma LexTag(name: string, s: string)
    requires TagName(name)
    ensures Lex("<" + name + ">" + s, None) == [Tag(name)] + Lex(s, None)
  {
    TagIsRead(name);
    LexPlain("<" + name + ">", s, None);
  }

  /** An inline text between the tags of an element. */
  lemma LexElement(name: string, text: string, s: string)
    requires TagName(name) && TagName("/" + name)
    ensures Lex("<" + name + ">" + (Inline(text) + ("<" + ("/" + name) + ">" + s)), None)
         == [Tag(name)] + (TagLex(Inline(text), None) + ([Tag("/" + name)] + Lex(s, None)))
  {
    var after := "<" + ("/" + name) + ">" + s;
    LexTag(name, Inline(text) + after);
    InlinePlain(text);
    InlineKeepsText(text);
    LexPlain(Inline(text), after, None);
    LexTag("/" + name, s);
  }

  // ----- titles and passages -----

  lemma TitleNames(h: nat)
    requires 1 <= h <= 4
    ensures var name := "h" + LevelDigit(h);
            && TagName(name) && TagName("/" + name) && TitleLevel(name) == h && !IsInlineTag("/" + name)
            && name != "hr/" && name != "p" && name != "ul" && name != "ol" && name != MACRO
  {
    var name := "h" + LevelDigit(h);
    assert |name| == 2 && name[0] == 'h' && name[1] == LevelDigit(h)[0];
    assert |MACRO| > 2;
    forall k: Mark
      ensures "/" + name != Name(k) && "/" + name != "/" + Name(k)
    {
      assert ("/" + name)[1] == 'h' && ("/" + Name(k))[1] == Name(k)[0] && Name(k)[0] != 'h' && Name(k)[0] != '/';
      assert ("/" + name)[0] == '/';
    }
  }

  lemma {:induction false} SignsCounted(line: string)
    ensures SignCount(line) == HeadingLevel(line)
  {
    if line != "" {
      SignsCounted(line[1..]);
    }
  }

  lemma ReadTitle(name: string, ts: seq<Token>)
    requires TitleLevel(name) > 0
    requires name != "hr/" && name != "p" && name != "ul" && name != "ol" && name != MACRO
    ensures var r := ReadShown(ts, "/" + name);
            ReadPieces([Tag(name)] + ts) == [Title(TitleLevel(name), r.value)] + ReadPieces(r.rest)
  {
    assert ([Tag(name)] + ts)[1..] == ts;
  }

  lemma Regrouped(open: string, text: string, close: string, s: string)
    ensures open + text + close + s == open + (text + (close + s))
  {
  }

  lemma SevenParts(a: string, h: string, b: string, text: string, c: string, s: string)
    ensures a + h + b + text + c + h + b + s == (a + h + b) + (text + ((c + h + b) + s))
  {
  }

  lemma Enclosing(a: string, b: string, h: string, c: string)
    ensures (a + b) + h + c == a + (b + h) + c
  {
  }

  lemma HeadingOpen(h: string)
    ensures "<h" + h + ">" == "<" + ("h" + h) + ">"
  {
    assert "<" + "h" == "<h";
    Enclosing("<", "h", h, ">");
  }

  lemma HeadingShut(h: string)
    ensures "</h" + h + ">" == "<" + ("/" + ("h" + h)) + ">"
  {
    assert "</" + "h" == "</h" && "<" + "/" == "</";
    Enclosing("</", "h", h, ">");
    Enclosing("<", "/", "h" + h, ">");
  }

  lemma HeadingGroups(line: string, s: string)
    ensures var name := "h" + LevelDigit(HeadingLevel(line));
            HeadingOut(Inline, line) + s == "<" + name + ">" + (Inline(HeadingText(line)) + ("<" + ("/" + name) + ">" + s))
  {
    var h := LevelDigit(HeadingLevel(line));
    SevenParts("<h", h, ">", Inline(HeadingText(line)), "</h", s);
    HeadingOpen(h);
    HeadingShut(h);
  }

  lemma HeadingRead(line: string, s: string)
    requires IsHeading(line)
    ensures ReadPieces(Lex(HeadingOut(Inline, line) + s, None))
         == [Title(SignCount(line), WithoutMarks(HeadingText(line)))] + ReadPieces(Lex(s, None))
  {
    var name, text := "h" + LevelDigit(HeadingLevel(line)), HeadingText(line);
    SignsCounted(line);
    TitleNames(HeadingLevel(line));
    HeadingGroups(line, s);
    LexElement(name, text, s);
    InlineIsShown(text, "/" + name, Lex(s, None));
    ReadTitle(name, TagLex(Inline(text), None) + ([Tag("/" + name)] + Lex(s, None)));
  }

  /** The names of the other elements. */
  lemma ElementNames()
    ensures TagName("p") && TagName("/p") && !IsInlineTag("/p") && "/" + "p" == "/p"
    ensures TagName("li") && TagName("/li") && !IsInlineTag("/li") && "/" + "li" == "/li"
    ensures TagName("ul") && TagName("/ul") && TagName("ol") && TagName("/ol") && TagName("hr/")
    ensures TitleLevel("p") == 0 && TitleLevel("ul") == 0 && TitleLevel("ol") == 0
  {
    forall k: Mark
      ensures "/p" != Name(k) && "/p" != "/" + Name(k) && "/li" != Name(k) && "/li" != "/" + Name(k)
    {
      assert Name(k)[0] != '/' && "/p"[0] == '/' && "/li"[0] == '/';
      assert ("/" + Name(k))[1] == Name(k)[0] && "/p"[1] == 'p' && "/li"[1] == 'l';
      assert Name(k)[0] != 'p' && Name(k)[0] != 'l';
    }
  }

  lemma PassageRead(text: string, s: string)
    ensures ReadPieces(Lex("<p>" + Inline(text) + "</p>" + s, None))
         == [Passage(WithoutMarks(text))] + ReadPieces(Lex(s, None))
  {
    ElementNames();
    Regrouped("<p>", Inline(text), "</p>", s);
    assert "<" + "p" + ">" == "<p>" && "<" + ("/" + "p") + ">" == "</p>";
    LexElement("p", text, s);
    InlineIsShown(text, "/p", Lex(s, None));
    var ts := TagLex(Inline(text), None) + ([Tag("/p")] + Lex(s, None));
    assert ([Tag("p")] + ts)[1..] == ts;
  }

  lemma {:induction false} StrippedAre(ls: seq<string>)
    ensures Stripped(ls) == StripLines(ls)
  {
    if ls != [] {
      StrippedAre(ls[1..]);
      assert StripLines(ls) == [Strip(ls[0])] + StripLines(ls[1..]);
    }
  }

  // ----- lists -----

  /** One item more in front of those that follow. */
  function Before(item: string, r: Found<seq<string>>): Found<seq<string>> {
    Found([item] + r.value, r.rest)
  }

  function AllBefore(items: seq<string>, r: Found<seq<string>>): Found<seq<string>> {
    Found(items + r.value, r.rest)
  }

  lemma OneMoreBefore(items: seq<string>, item: string, r: Found<seq<string>>)
    ensures AllBefore(items, Before(item, r)) == AllBefore(items + [item], r)
    ensures AllBefore([], r) == r
  {
    assert items + ([item] + r.value) == (items + [item]) + r.value;
    assert [] + r.value == r.value;
  }

  lemma ItemTokens(ts: seq<Token>, close: string)
    requires close != "li"
    ensures var item := ReadShown(ts, "/li");
            ReadItems([Tag("li")] + ts, close) == Before(item.value, ReadItems(item.rest, close))
  {
    assert ([Tag("li")] + ts)[1..] == ts;
  }

  lemma ItemRead(text: string, s: string, close: string)
    requires close != "li"
    ensures ReadItems(Lex("<li>" + Inline(text) + "</li>" + s, None), close)
         == Before(WithoutMarks(text), ReadItems(Lex(s, None), close))
  {
    ElementNames();
    Regrouped("<li>", Inline(text), "</li>", s);
    assert "<" + "li" + ">" == "<li>" && "<" + ("/" + "li") + ">" == "</li>";
    LexElement("li", text, s);
    InlineIsShown(text, "/li", Lex(s, None));
    ItemTokens(TagLex(Inline(text), None) + ([Tag("/li")] + Lex(s, None)), close);
  }

  function ItemHtml(digit: char -> bool, k: Kind, line: string): string {
    "<li>" + Inline(ItemText(digit, k, line)) + "</li>"
  }

  lemma ItemsSnoc(d: Dialect, k: Kind, front: seq<string>, last: string)
    ensures Items(d, k, front + [last]) == Items(d, k, front) + d.item(k, last)
  {
    var ls := front + [last];
    assert ls[..|ls| - 1] == front && ls[|ls| - 1] == last;
  }

  lemma ItemsGroup(digit: char -> bool, k: Kind, front: seq<string>, last: string, s: string)
    ensures var d := Source(Inline, digit);
            Items(d, k, front + [last]) + s == Items(d, k, front) + (ItemHtml(digit, k, last) + s)
  {
    var d := Source(Inline, digit);
    ItemsSnoc(d, k, front, last);
    assert d.item(k, last) == ItemHtml(digit, k, last);
    Grouped2(Items(d, k, front), ItemHtml(digit, k, last), s);
  }

  lemma Grouped2(a: string, b: string, c: string)
    ensures a + b + c == a + (b + c)
  {
  }

  lemma ItemTextsGroup(digit: char -> bool, k: Kind, front: seq<string>, last: string)
    ensures ItemTexts(digit, k, front + [last]) == ItemTexts(digit, k, front) + [WithoutMarks(ItemText(digit, k, last))]
  {
  }

  lemma {:induction false} ItemsRead(digit: char -> bool, k: Kind, ls: seq<string>, s: string, close: string)
    requires close != "li"
    ensures ReadItems(Lex(Items(Source(Inline, digit), k, ls) + s, None), close)
         == AllBefore(ItemTexts(digit, k, ls), ReadItems(Lex(s, None), close))
    decreases |ls|
  {
    var r := ReadItems(Lex(s, None), close);
    if ls == [] {
      assert Items(Source(Inline, digit), k, ls) + s == s;
      assert ItemTexts(digit, k, ls) == [];
      OneMoreBefore([], "", r);
    } else {
      var front, last := ls[..|ls| - 1], ls[|ls| - 1];
      assert ls == front + [last];
      ItemsGroup(digit, k, front, last, s);
      ItemsRead(digit, k, front, ItemHtml(digit, k, last) + s, close);
      ItemRead(ItemText(digit, k, last), s, close);
      ItemTextsGroup(digit, k, front, last);
      OneMoreBefore(ItemTexts(digit, k, front), WithoutMarks(ItemText(digit, k, last)), r);
    }
  }

  lemma CloseRead(close: string, s: string)
    requires TagName(close)
    ensures ReadItems(Lex("<" + close + ">" + s, None), close) == Found([], Lex(s, None))
  {
    LexTag(close, s);
    assert ([Tag(close)] + Lex(s, None))[1..] == Lex(s, None);
  }

  /** The items of a list up to its closing tag. */
  lemma ListRead(digit: char -> bool, k: Kind, ls: seq<string>, close: string, s: string)
    requires close == "/ul" || close == "/ol"
    ensures ReadItems(Lex(Items(Source(Inline, digit), k, ls) + ("<" + close + ">" + s), None), close)
         == Found(ItemTexts(digit, k, ls), Lex(s, None))
  {
    ElementNames();
    ItemsRead(digit, k, ls, "<" + close + ">" + s, close);
    CloseRead(close, s);
    assert ItemTexts(digit, k, ls) + [] == ItemTexts(digit, k, ls);
  }

  lemma ListTokens(ts: seq<Token>)
    ensures var r := ReadItems(ts, "/ul"); ReadPieces([Tag("ul")] + ts) == [Bulleted(r.value)] + ReadPieces(r.rest)
    ensures var r := ReadItems(ts, "/ol"); ReadPieces([Tag("ol")] + ts) == [Numbered(r.value)] + ReadPieces(r.rest)
  {
    assert ([Tag("ul")] + ts)[1..] == ts && ([Tag("ol")] + ts)[1..] == ts;
  }

  lemma ElementTags()
    ensures "<" + "ul" + ">" == "<ul>" && "<" + "/ul" + ">" == "</ul>"
    ensures "<" + "ol" + ">" == "<ol>" && "<" + "/ol" + ">" == "</ol>"
  {
  }

  lemma EnclosedLex(name: string, inner: string, shut: string, s: string)
    requires TagName(name)
    ensures Lex("<" + name + ">" + inner + shut + s, None) == [Tag(name)] + Lex(inner + (shut + s), None)
  {
    Regrouped("<" + name + ">", inner, shut, s);
    LexTag(name, inner + (shut + s));
  }

  /** A list element, whichever of the two. */
  lemma ListElementLex(digit: char -> bool, k: Kind, ls: seq<string>, name: string, close: string, s: string)
    requires TagName(name) && (close == "/ul" || close == "/ol")
    ensures var items := Items(Source(Inline, digit), k, ls);
            var ts := Lex(items + ("<" + close + ">" + s), None);
            && Lex("<" + name + ">" + items + ("<" + close + ">") + s, None) == [Tag(name)] + ts
            && ReadItems(ts, close) == Found(ItemTexts(digit, k, ls), Lex(s, None))
  {
    EnclosedLex(name, Items(Source(Inline, digit), k, ls), "<" + close + ">", s);
    ListRead(digit, k, ls, close, s);
  }

  lemma BulletsRead(digit: char -> bool, ls: seq<string>, s: string)
    ensures ReadPieces(Lex("<ul>" + Items(Source(Inline, digit), Bullets, ls) + "</ul>" + s, None))
         == [Bulleted(ItemTexts(digit, Bullets, ls))] + ReadPieces(Lex(s, None))
  {
    ElementNames();
    ElementTags();
    ListElementLex(digit, Bullets, ls, "ul", "/ul", s);
    ListTokens(Lex(Items(Source(Inline, digit), Bullets, ls) + ("<" + "/ul" + ">" + s), None));
  }

  lemma OrderedRead(digit: char -> bool, ls: seq<string>, s: string)
    ensures ReadPieces(Lex("<ol>" + Items(Source(Inline, digit), Ordered, ls) + "</ol>" + s, None))
         == [Numbered(ItemTexts(digit, Ordered, ls))] + ReadPieces(Lex(s, None))
  {
    ElementNames();
    ElementTags();
    ListElementLex(digit, Ordered, ls, "ol", "/ol", s);
    ListTokens(Lex(Items(Source(Inline, digit), Ordered, ls) + ("<" + "/ol" + ">" + s), None));
  }

  // ----- rules and code -----

  lemma RuleRead(s: string)
    ensures ReadPieces(Lex("<hr/>" + s, None)) == [Line] + ReadPieces(Lex(s, None))
  {
    ElementNames();
    assert "<" + "hr/" + ">" == "<hr/>";
    LexTag("hr/", s);
    assert ([Tag("hr/")] + Lex(s, None))[1..] == Lex(s, None);
  }

  lemma MacroSkipsTag(name: string, s: string, text: string)
    requires TagName(name) && name != "/ac:structured-macro"
    ensures ReadMacro(Lex("<" + name + ">" + s, None), text) == ReadMacro(Lex(s, None), text)
  {
    LexTag(name, s);
    assert ([Tag(name)] + Lex(s, None))[1..] == Lex(s, None);
  }

  lemma {:induction false} MacroSkipsWord(word: string, s: string, text: string)
    requires forall i | 0 <= i < |word| :: word[i] != '<'
    ensures ReadMacro(Lex(word + s, None), text) == ReadMacro(Lex(s, None), text)
  {
    if word == "" {
      assert word + s == s;
    } else {
      NoSection(word + s);
      LexStep(word + s, None);
      assert (word + s)[1..] == word[1..] + s;
      assert ([Char(word[0])] + Lex(word[1..] + s, None))[1..] == Lex(word[1..] + s, None);
      MacroSkipsWord(word[1..], s, text);
    }
  }

  const PARAMETER := "ac:parameter ac:name=\"language\""

  lemma MacroNames()
    ensures TagName(MACRO) && TagName("/ac:structured-macro")
    ensures TagName(PARAMETER) && TagName("/ac:parameter")
    ensures TagName("ac:plain-text-body") && TagName("/ac:plain-text-body")
    ensures TitleLevel(MACRO) == 0 && MACRO != "hr/" && MACRO != "p" && MACRO != "ul" && MACRO != "ol"
    ensures PARAMETER != "/ac:structured-macro" && "/ac:parameter" != "/ac:structured-macro"
    ensures "ac:plain-text-body" != "/ac:structured-macro" && "/ac:plain-text-body" != "/ac:structured-macro"
  {
    assert |MACRO| > 3 && PARAMETER[0] == 'a' && |"/ac:structured-macro"| == 20;
  }

  /** What stands between the front of the macro and its data. */
  function BeforeData(s: string): string {
    "<" + PARAMETER + ">" + ("text" + ("<" + "/ac:parameter" + ">" + ("<" + "ac:plain-text-body" + ">" + s)))
  }

  function BehindData(s: string): string {
    "<" + "/ac:plain-text-body" + ">" + ("<" + "/ac:structured-macro" + ">" + s)
  }

  lemma FenceGroups(data: string, s: string)
    ensures FENCE_HEAD + data + FENCE_FOOT + s == "<" + MACRO + ">" + BeforeData(data + BehindData(s))
  {
    HeadGroups(data + BehindData(s));
    FootGroups(s);
    Regrouped(FENCE_HEAD, data, FENCE_FOOT, s);
  }

  lemma FootGroups(s: string)
    ensures FENCE_FOOT + s == BehindData(s)
  {
    assert "<" + "/ac:plain-text-body" + ">" == "</ac:plain-text-body>";
    assert "<" + "/ac:structured-macro" + ">" == "</ac:structured-macro>";
  }

  lemma HeadParts(a: string, b: string, word: string, c: string, d: string, s: string)
    ensures a + (b + word + c) + d + s == a + (b + (word + (c + (d + s))))
  {
  }

  lemma MacroTag()
    ensures "<" + MACRO + ">" == "<ac:structured-macro ac:name=\"code\">"
  {
  }

  lemma ParameterTag()
    ensures "<" + PARAMETER + ">" == "<ac:parameter ac:name=\"language\">"
  {
  }

  lemma HeadTags()
    ensures "<" + "/ac:parameter" + ">" == "</ac:parameter>"
    ensures "<" + "ac:plain-text-body" + ">" == "<ac:plain-text-body>"
  {
  }

  lemma HeadGroups(s: string)
    ensures FENCE_HEAD + s == "<" + MACRO + ">" + BeforeData(s)
  {
    MacroTag();
    ParameterTag();
    HeadTags();
    HeadParts("<" + MACRO + ">", "<" + PARAMETER + ">", "text", "<" + "/ac:parameter" + ">",
              "<" + "ac:plain-text-body" + ">", s);
  }

  lemma BeforeDataRead(s: string)
    ensures ReadMacro(Lex(BeforeData(s), None), "") == ReadMacro(Lex(s, None), "")
  {
    MacroNames();
    var s3 := "<" + "ac:plain-text-body" + ">" + s;
    var s2 := "<" + "/ac:parameter" + ">" + s3;
    MacroSkipsTag(PARAMETER, "text" + s2, "");
    MacroSkipsWord("text", s2, "");
    MacroSkipsTag("/ac:parameter", s3, "");
    MacroSkipsTag("ac:plain-text-body", s, "");
  }

  lemma BehindDataRead(s: string, text: string)
    ensures ReadMacro(Lex(BehindData(s), None), text) == Found(text, Lex(s, None))
    ensures !(SECTION_START <= BehindData(s))
  {
    MacroNames();
    var s2 := "<" + "/ac:structured-macro" + ">" + s;
    MacroSkipsTag("/ac:plain-text-body", s2, text);
    LexTag("/ac:structured-macro", s);
    assert ([Tag("/ac:structured-macro")] + Lex(s, None))[1..] == Lex(s, None);
    assert BehindData(s)[1] == '/';
    NoSection(BehindData(s));
  }

  lemma DataRead(body: string, s: string)
    ensures ReadMacro(Lex(Write(body) + BehindData(s), None), "") == Found(body, Lex(s, None))
  {
    BehindDataRead(s, body);
    LexData(body, BehindData(s));
    var ts := Lex(BehindData(s), None);
    assert ([Data(body)] + ts)[1..] == ts && "" + body == body;
  }

  lemma MacroTokens(ts: seq<Token>)
    ensures var r := ReadMacro(ts, ""); ReadPieces([Tag(MACRO)] + ts) == [Listing(r.value)] + ReadPieces(r.rest)
  {
    MacroNames();
    assert ([Tag(MACRO)] + ts)[1..] == ts;
  }

  lemma FenceRead(body: string, s: string)
    ensures ReadPieces(Lex(FENCE_HEAD + Write(body) + FENCE_FOOT + s, None)) == [Listing(body)] + ReadPieces(Lex(s, None))
  {
    MacroNames();
    var rest := Write(body) + BehindData(s);
    FenceGroups(Write(body), s);
    LexTag(MACRO, BeforeData(rest));
    MacroTokens(Lex(BeforeData(rest), None));
    BeforeDataRead(rest);
    DataRead(body, s);
  }

  // ----- the page -----

  /** The block is of its first line's kind. */
  predicate KindsRight(digit: char -> bool, lines: seq<string>, bs: seq<Block>) {
    InRange(lines, bs) && forall i | 0 <= i < |bs| :: bs[i].kind == KindOf(digit, lines[bs[i].start])
  }

  lemma {:induction false} BlocksRight(digit: char -> bool, lines: seq<string>, i: nat)
    ensures KindsRight(digit, lines, Blocks(Source(Inline, digit), lines, i))
    decreases |lines| - i
  {
    var d := Source(Inline, digit);
    BlocksInRange(d, lines, i);
    if i < |lines| {
      BlocksRight(digit, lines, BlockAt(d, lines, i).End());
    }
  }

  lemma ParagraphRead(ls: seq<string>, s: string)
    ensures ReadPieces(Lex(ParagraphOut(Inline, ls) + s, None))
         == [Passage(WithoutMarks(Join(" ", StripLines(ls))))] + ReadPieces(Lex(s, None))
  {
    StrippedAre(ls);
    PassageRead(Join(" ", Stripped(ls)), s);
  }

  /** What a block is written as. */
  function Written(digit: char -> bool, lines: seq<string>, b: Block): string
    requires b.start < b.stop <= |lines|
  {
    var ls := lines[b.start..b.stop];
    match b.kind
    case Blank => ""
    case Rule => "<hr/>"
    case Heading => HeadingOut(Inline, lines[b.start])
    case Bullets => "<ul>" + Items(Source(Inline, digit), Bullets, ls) + "</ul>"
    case Ordered => "<ol>" + Items(Source(Inline, digit), Ordered, ls) + "</ol>"
    case Paragraph => ParagraphOut(Inline, ls)
    case Fence => FENCE_HEAD + Write(Join("\n", Body(lines, b))) + FENCE_FOOT
  }

  lemma RenderIsWritten(digit: char -> bool, lines: seq<string>, b: Block)
    requires b.start < b.stop <= |lines|
    ensures Render(Source(Inline, digit), lines, b) == Written(digit, lines, b)
  {
  }

  /** The rest of the page is read after the block's piece. */
  ghost predicate BlockReads(digit: char -> bool, lines: seq<string>, b: Block, s: string)
    requires b.start < b.stop <= |lines|
  {
    ReadPieces(Lex(Written(digit, lines, b) + s, None)) == PieceOf(digit, lines, b) + ReadPieces(Lex(s, None))
  }

  lemma BulletBlockRead(digit: char -> bool, lines: seq<string>, b: Block, s: string)
    requires b.start < b.stop <= |lines| && b.kind == Bullets
    ensures BlockReads(digit, lines, b, s)
  {
    BulletsRead(digit, lines[b.start..b.stop], s);
  }

  lemma OrderedBlockRead(digit: char -> bool, lines: seq<string>, b: Block, s: string)
    requires b.start < b.stop <= |lines| && b.kind == Ordered
    ensures BlockReads(digit, lines, b, s)
  {
    OrderedRead(digit, lines[b.start..b.stop], s);
  }

  lemma HeadingBlockRead(digit: char -> bool, lines: seq<string>, b: Block, s: string)
    requires b.start < b.stop <= |lines| && b.kind == KindOf(digit, lines[b.start]) == Heading
    ensures BlockReads(digit, lines, b, s)
  {
    HeadingRead(lines[b.start], s);
  }

  lemma ParagraphBlockRead(digit: char -> bool, lines: seq<string>, b: Block, s: string)
    requires b.start < b.stop <= |lines| && b.kind == Paragraph
    ensures BlockReads(digit, lines, b, s)
  {
    ParagraphRead(lines[b.start..b.stop], s);
  }

  lemma OtherBlockRead(digit: char -> bool, lines: seq<string>, b: Block, s: string)
    requires b.start < b.stop <= |lines| && (b.kind == Blank || b.kind == Rule || b.kind == Fence)
    ensures BlockReads(digit, lines, b, s)
  {
    if b.kind == Rule {
      RuleRead(s);
    } else if b.kind == Fence {
      FenceRead(Join("\n", Body(lines, b)), s);
    } else {
      assert "" + s == s;
    }
  }

  lemma BlockRead(digit: char -> bool, lines: seq<string>, b: Block, s: string)
    requires b.start < b.stop <= |lines| && b.kind == KindOf(digit, lines[b.start])
    ensures ReadPieces(Lex(Render(Source(Inline, digit), lines, b) + s, None))
         == PieceOf(digit, lines, b) + ReadPieces(Lex(s, None))
  {
    RenderIsWritten(digit, lines, b);
    if b.kind == Bullets {
      BulletBlockRead(digit, lines, b, s);
    } else if b.kind == Ordered {
      OrderedBlockRead(digit, lines, b, s);
    } else if b.kind == Heading {
      HeadingBlockRead(digit, lines, b, s);
    } else if b.kind == Paragraph {
      ParagraphBlockRead(digit, lines, b, s);
    } else {
      OtherBlockRead(digit, lines, b, s);
    }
  }

  lemma {:induction false} BlocksRead(digit: char -> bool, lines: seq<string>, bs: seq<Block>)
    requires KindsRight(digit, lines, bs)
    ensures ReadPage(RenderAll(Source(Inline, digit), lines, bs)) == PiecesOf(digit, lines, bs)
  {
    if bs != [] {
      BlockRead(digit, lines, bs[0], RenderAll(Source(Inline, digit), lines, bs[1..]));
      BlocksRead(digit, lines, bs[1..]);
    }
  }

  /** For every document: the reader finds on its page exactly one piece for each block that is not blank, in order,
      of the block's kind and with the text of every one of its lines. */
  lemma PageShowsDocument(digit: char -> bool, md: string)
    ensures var lines := Split(md);
            var bs := Blocks(Source(Inline, digit), lines, 0);
            InRange(lines, bs) && ReadPage(Storage(digit, md)) == PiecesOf(digit, lines, bs)
  {
    var lines := Split(md);
    BlocksRight(digit, lines, 0);
    BlocksRead(digit, lines, Blocks(Source(Inline, digit), lines, 0));
  }
}

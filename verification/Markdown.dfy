/** How the source reads a single line of Markdown and writes its text. */
module Markdown {
  import opened InlineMarkup
  import opened Lines
  import opened Scanner

  // ----- what a line is -----

  predicate IsFence(line: string) {
    "```" <= line
  }

  predicate IsRule(line: string) {
    Strip(line) == "---"
  }

  /** One to four number signs and a space. */
  predicate IsHeading(line: string) {
    var h := Span(line, c => c == '#');
    1 <= h <= 4 && h < |line| && IsSpace(line[h])
  }

  function HeadingLevel(line: string): nat {
    Span(line, c => c == '#')
  }

  function HeadingText(line: string): string {
    Lstrip(line[HeadingLevel(line)..])
  }

  /** Where the dash of a bullet would stand. */
  predicate IsBullet(line: string) {
    var i := Span(line, IsSpace);
    i + 1 < |line| && line[i] == '-' && IsSpace(line[i + 1])
  }

  /** The line without its bullet, if it has one. */
  function BulletText(line: string): string {
    if IsBullet(line) then Lstrip(line[Span(line, IsSpace) + 1..]) else line
  }

  /** Spaces, digits, a point and a space. */
  predicate IsOrderedItem(digit: char -> bool, line: string) {
    IsNumbered(digit, Lstrip(line))
  }

  predicate IsNumbered(digit: char -> bool, s: string) {
    var n := Span(s, digit);
    0 < n && n + 1 < |s| && s[n] == '.' && IsSpace(s[n + 1])
  }

  function NumberedText(digit: char -> bool, s: string): string
    requires IsNumbered(digit, s)
  {
    Lstrip(s[Span(s, digit) + 1..])
  }

  function OrderedText(digit: char -> bool, line: string): string {
    if IsOrderedItem(digit, line) then NumberedText(digit, Lstrip(line)) else line
  }

  predicate IsBlank(line: string) {
    Strip(line) == ""
  }

  /** The first test that succeeds decides. */
  function KindOf(digit: char -> bool, line: string): Kind {
    if IsFence(line) then Fence
    else if IsRule(line) then Rule
    else if IsHeading(line) then Heading
    else if IsBullet(line) then Bullets
    else if IsOrderedItem(digit, line) then Ordered
    else if IsBlank(line) then Blank
    else Paragraph
  }

  /** The line ends a paragraph; a rule does so only when it stands without surrounding spaces. */
  predicate EndsParagraph(digit: char -> bool, line: string) {
    IsHeading(line) || IsFence(line) || IsBullet(line) || IsOrderedItem(digit, line) || line == "---"
  }

  /** A block of the kind goes on with the line. */
  predicate Continues(digit: char -> bool, k: Kind, line: string) {
    match k
    case Fence => !IsFence(line)
    case Bullets => IsBullet(line)
    case Ordered => IsOrderedItem(digit, line)
    case Paragraph => !IsBlank(line) && !EndsParagraph(digit, line)
    case _ => false
  }

  // ----- the output -----

  const LANGUAGE := "<ac:parameter ac:name=\"language\">" + "text" + "</ac:parameter>"
  const FENCE_HEAD := "<ac:structured-macro ac:name=\"code\">" + LANGUAGE + "<ac:plain-text-body>"
  const FENCE_FOOT := "</ac:plain-text-body>" + "</ac:structured-macro>"

  function LevelDigit(h: nat): string {
    if h == 1 then "1" else if h == 2 then "2" else if h == 3 then "3" else "4"
  }

  function HeadingOut(inline: string -> string, line: string): string {
    var h := LevelDigit(HeadingLevel(line));
    "<h" + h + ">" + inline(HeadingText(line)) + "</h" + h + ">"
  }

  function ItemOut(inline: string -> string, digit: char -> bool, k: Kind, line: string): string {
    "<li>" + inline(if k == Bullets then BulletText(line) else OrderedText(digit, line)) + "</li>"
  }

  function Stripped(lines: seq<string>): seq<string> {
    if lines == [] then [] else [Strip(lines[0])] + Stripped(lines[1..])
  }

  function ParagraphOut(inline: string -> string, lines: seq<string>): string {
    "<p>" + inline(Join(" ", Stripped(lines))) + "</p>"
  }

  /** The dialect of the source.  The rewriting of inline markup and the set of decimal digits are given. */
  function Source(inline: string -> string, digit: char -> bool): Dialect {
    Dialect(line => KindOf(digit, line),
            (k, line) => Continues(digit, k, line),
            line => HeadingOut(inline, line),
            (k, line) => ItemOut(inline, digit, k, line),
            lines => ParagraphOut(inline, lines),
            FENCE_HEAD, FENCE_FOOT)
  }

  /** The page for a document. */
  function Storage(digit: char -> bool, md: string): string {
    StorageFrom(Source(Inline, digit), Split(md), 0)
  }
}

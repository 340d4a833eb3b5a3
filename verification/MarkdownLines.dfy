/** The line tests of the converter against the patterns they stand for: a line is of a kind iff it can be cut into the
    parts the pattern names, and its text is the last part. */
module MarkdownLines {
  import opened Lines
  import opened Markdown
  import opened Scanner

  predicate AllSpaces(s: string) {
    forall i | 0 <= i < |s| :: IsSpace(s[i])
  }

  predicate AllOf(s: string, p: char -> bool) {
    forall i | 0 <= i < |s| :: p(s[i])
  }

  /** The text does not start with a space. */
  predicate Flush(s: string) {
    s != "" ==> !IsSpace(s[0])
  }

  // ----- runs of characters -----

  /** A run that ends before a character of another sort is the whole run. */
  lemma SpanCut(a: string, b: string, p: char -> bool)
    requires AllOf(a, p) && (b != "" ==> !p(b[0]))
    ensures Span(a + b, p) == |a|
  {
    assert forall i | 0 <= i < |a| :: (a + b)[i] == a[i];
    assert b != "" ==> (a + b)[|a|] == b[0];
  }

  lemma LstripCut(a: string, b: string)
    requires AllSpaces(a) && Flush(b)
    ensures Lstrip(a + b) == b
  {
    SpanCut(a, b, IsSpace);
  }

  lemma LstripCuts(s: string) returns (a: string)
    ensures s == a + Lstrip(s) && AllSpaces(a) && Flush(Lstrip(s)) && |a| == Span(s, IsSpace)
  {
    a := s[..Span(s, IsSpace)];
  }

  lemma Cut(a: string, b: string)
    ensures (a + b)[|a|..] == b && (a + b)[..|a|] == a
  {
  }

  lemma DropDrop(s: string, i: nat, j: nat)
    requires i + j <= |s|
    ensures s[i..][j..] == s[i + j..]
  {
  }

  /** The rest of a pattern: spaces, at least one, and the text. */
  predicate TextParts(s: string, ws: string, text: string) {
    s == ws + text && ws != "" && AllSpaces(ws) && Flush(text)
  }

  lemma TextRead(s: string, ws: string, text: string)
    requires TextParts(s, ws, text)
    ensures s != "" && IsSpace(s[0]) && Lstrip(s) == text
  {
    assert s[0] == ws[0];
    LstripCut(ws, text);
  }

  lemma TextCuts(s: string) returns (ws: string)
    requires s != "" && IsSpace(s[0])
    ensures TextParts(s, ws, Lstrip(s))
  {
    ws := LstripCuts(s);
  }

  // ----- headings -----

  function Signs(h: nat): string {
    seq(h, _ => '#')
  }

  function IsSign(): char -> bool {
    c => c == '#'
  }

  /** One to four number signs, spaces, the text. */
  predicate HeadingParts(line: string, h: nat, ws: string, text: string) {
    1 <= h <= 4 && line == Signs(h) + (ws + text) && TextParts(ws + text, ws, text)
  }

  lemma HeadingAlt(line: string)
    ensures HeadingLevel(line) == Span(line, IsSign())
    ensures var h := Span(line, IsSign());
            IsHeading(line) <==> 1 <= h <= 4 && h < |line| && IsSpace(line[h..][0])
  {
    SameSpan(line);
  }

  lemma {:induction false} SameSpan(line: string)
    ensures Span(line, c => c == '#') == Span(line, IsSign())
  {
    if line != "" {
      SameSpan(line[1..]);
    }
  }

  lemma HeadingRead(line: string, h: nat, ws: string, text: string)
    requires HeadingParts(line, h, ws, text)
    ensures IsHeading(line) && HeadingLevel(line) == h && HeadingText(line) == text
  {
    var rest := ws + text;
    TextRead(rest, ws, text);
    assert !IsSpace('#');
    SpanCut(Signs(h), rest, IsSign());
    Cut(Signs(h), rest);
    HeadingAlt(line);
  }

  lemma HeadingCuts(line: string) returns (ws: string)
    requires IsHeading(line)
    ensures HeadingParts(line, HeadingLevel(line), ws, HeadingText(line))
  {
    HeadingAlt(line);
    var h := HeadingLevel(line);
    ws := TextCuts(line[h..]);
    assert line[..h] == Signs(h);
    assert line == line[..h] + line[h..];
  }

  /** A line is a heading iff it has the parts of one, and then its level and text are those parts. */
  lemma HeadingExact(line: string)
    ensures IsHeading(line) <==> exists h, ws, text :: HeadingParts(line, h, ws, text)
    ensures IsHeading(line) ==> exists ws :: HeadingParts(line, HeadingLevel(line), ws, HeadingText(line))
  {
    if IsHeading(line) {
      var ws := HeadingCuts(line);
    }
    if exists h, ws, text :: HeadingParts(line, h, ws, text) {
      var h, ws, text :| HeadingParts(line, h, ws, text);
      HeadingRead(line, h, ws, text);
    }
  }

  // ----- list items -----

  /** A mark, spaces, the text. */
  predicate ItemParts(s: string, mark: char, ws: string, text: string) {
    s == [mark] + (ws + text) && TextParts(ws + text, ws, text)
  }

  /** What follows the leading part of an item. */
  predicate ItemRest(s: string, mark: char) {
    |s| >= 2 && s[0] == mark && IsSpace(s[1])
  }

  lemma ItemRead(s: string, mark: char, ws: string, text: string)
    requires ItemParts(s, mark, ws, text)
    ensures ItemRest(s, mark) && Lstrip(s[1..]) == text
  {
    TextRead(ws + text, ws, text);
    Cut([mark], ws + text);
    assert s[1] == (ws + text)[0];
  }

  lemma ItemCuts(s: string, mark: char) returns (ws: string)
    requires ItemRest(s, mark)
    ensures ItemParts(s, mark, ws, Lstrip(s[1..]))
  {
    ws := TextCuts(s[1..]);
    assert s == [s[0]] + s[1..];
  }

  /** Spaces, a dash, spaces, the text. */
  predicate BulletParts(line: string, lead: string, rest: string, ws: string, text: string) {
    line == lead + rest && AllSpaces(lead) && ItemParts(rest, '-', ws, text)
  }

  lemma BulletAlt(line: string)
    ensures var rest := line[Span(line, IsSpace)..];
            && (IsBullet(line) <==> ItemRest(rest, '-'))
            && (IsBullet(line) ==> BulletText(line) == Lstrip(rest[1..]))
  {
    var i := Span(line, IsSpace);
    if i < |line| {
      DropDrop(line, i, 1);
    }
  }

  lemma BulletRead(line: string, lead: string, rest: string, ws: string, text: string)
    requires BulletParts(line, lead, rest, ws, text)
    ensures IsBullet(line) && BulletText(line) == text
  {
    assert !IsSpace('-') && rest[0] == '-';
    SpanCut(lead, rest, IsSpace);
    Cut(lead, rest);
    ItemRead(rest, '-', ws, text);
    BulletAlt(line);
  }

  lemma BulletCuts(line: string) returns (lead: string, rest: string, ws: string)
    requires IsBullet(line)
    ensures BulletParts(line, lead, rest, ws, BulletText(line))
  {
    BulletAlt(line);
    lead := LstripCuts(line);
    rest := Lstrip(line);
    ws := ItemCuts(rest, '-');
  }

  lemma BulletExact(line: string)
    ensures IsBullet(line) <==> exists lead, rest, ws, text :: BulletParts(line, lead, rest, ws, text)
    ensures IsBullet(line) ==> exists lead, rest, ws :: BulletParts(line, lead, rest, ws, BulletText(line))
  {
    if IsBullet(line) {
      var lead, rest, ws := BulletCuts(line);
    }
    if exists lead, rest, ws, text :: BulletParts(line, lead, rest, ws, text) {
      var lead, rest, ws, text :| BulletParts(line, lead, rest, ws, text);
      BulletRead(line, lead, rest, ws, text);
    }
  }

  /** No decimal digit is a space or one of the marks the patterns look for. */
  predicate ProperDigits(digit: char -> bool) {
    (forall c | IsSpace(c) :: !digit(c)) && !digit('.') && !digit('-') && !digit('#') && !digit('`')
  }

  /** Digits, and a point with what follows it. */
  predicate NumberParts(digit: char -> bool, s: string, ds: string, rest: string, ws: string, text: string) {
    s == ds + rest && ds != "" && AllOf(ds, digit) && ItemParts(rest, '.', ws, text)
  }

  lemma NumberedAlt(digit: char -> bool, s: string)
    ensures var rest := s[Span(s, digit)..];
            && (IsNumbered(digit, s) <==> Span(s, digit) > 0 && ItemRest(rest, '.'))
            && (IsNumbered(digit, s) ==> NumberedText(digit, s) == Lstrip(rest[1..]))
  {
    var n := Span(s, digit);
    if n < |s| {
      DropDrop(s, n, 1);
    }
  }

  lemma NumberRead(digit: char -> bool, s: string, ds: string, rest: string, ws: string, text: string)
    requires ProperDigits(digit) && NumberParts(digit, s, ds, rest, ws, text)
    ensures IsNumbered(digit, s) && NumberedText(digit, s) == text
    ensures s != "" && !IsSpace(s[0])
  {
    assert rest[0] == '.';
    SpanCut(ds, rest, digit);
    Cut(ds, rest);
    ItemRead(rest, '.', ws, text);
    NumberedAlt(digit, s);
    assert s[0] == ds[0];
  }

  lemma NumberCuts(digit: char -> bool, s: string) returns (ds: string, rest: string, ws: string)
    requires IsNumbered(digit, s)
    ensures NumberParts(digit, s, ds, rest, ws, NumberedText(digit, s))
  {
    NumberedAlt(digit, s);
    ds, rest := s[..Span(s, digit)], s[Span(s, digit)..];
    ws := ItemCuts(rest, '.');
  }

  /** Spaces, digits, a point, spaces, the text. */
  predicate OrderedParts(digit: char -> bool, line: string, lead: string, s: string, ds: string, rest: string,
                         ws: string, text: string) {
    line == lead + s && AllSpaces(lead) && NumberParts(digit, s, ds, rest, ws, text)
  }

  lemma OrderedRead(digit: char -> bool, line: string, lead: string, s: string, ds: string, rest: string,
                    ws: string, text: string)
    requires ProperDigits(digit) && OrderedParts(digit, line, lead, s, ds, rest, ws, text)
    ensures IsOrderedItem(digit, line) && OrderedText(digit, line) == text
  {
    NumberRead(digit, s, ds, rest, ws, text);
    LstripCut(lead, s);
  }

  lemma OrderedCuts(digit: char -> bool, line: string)
      returns (lead: string, s: string, ds: string, rest: string, ws: string)
    requires IsOrderedItem(digit, line)
    ensures OrderedParts(digit, line, lead, s, ds, rest, ws, OrderedText(digit, line))
  {
    lead := LstripCuts(line);
    s := Lstrip(line);
    ds, rest, ws := NumberCuts(digit, s);
  }

  lemma OrderedExact(digit: char -> bool, line: string)
    requires ProperDigits(digit)
    ensures IsOrderedItem(digit, line)
            <==> exists lead, s, ds, rest, ws, text :: OrderedParts(digit, line, lead, s, ds, rest, ws, text)
    ensures IsOrderedItem(digit, line) ==>
              exists lead, s, ds, rest, ws :: OrderedParts(digit, line, lead, s, ds, rest, ws, OrderedText(digit, line))
  {
    if IsOrderedItem(digit, line) {
      var lead, s, ds, rest, ws := OrderedCuts(digit, line);
    }
    if exists lead, s, ds, rest, ws, text :: OrderedParts(digit, line, lead, s, ds, rest, ws, text) {
      var lead, s, ds, rest, ws, text :| OrderedParts(digit, line, lead, s, ds, rest, ws, text);
      OrderedRead(digit, line, lead, s, ds, rest, ws, text);
    }
  }

  // ----- stripping -----

  /** Spaces, the text, spaces; the text neither starts nor ends with one. */
  predicate StripParts(s: string, a: string, text: string, b: string) {
    s == a + text + b && AllSpaces(a) && AllSpaces(b) && Flush(text) && (text != "" ==> !IsSpace(text[|text| - 1]))
  }

  lemma {:induction false} RstripCuts(s: string) returns (b: string)
    ensures s == Rstrip(s) + b && AllSpaces(b)
    ensures Rstrip(s) != "" ==> !IsSpace(Rstrip(s)[|Rstrip(s)| - 1])
  {
    if s != "" && IsSpace(s[|s| - 1]) {
      b := RstripCuts(s[..|s| - 1]);
      b := b + [s[|s| - 1]];
    } else {
      b := "";
    }
  }

  lemma StripExact(s: string)
    ensures exists a, b :: StripParts(s, a, Strip(s), b)
  {
    var a := LstripCuts(s);
    var b := RstripCuts(Lstrip(s));
    assert Strip(s) != "" ==> Strip(s)[0] == Lstrip(s)[0];
    assert StripParts(s, a, Strip(s), b);
  }

  // ----- kinds -----

  /** The stripped line stands at the start of the line without its leading spaces. */
  lemma StripStarts(s: string)
    ensures Strip(s) <= Lstrip(s)
  {
    var b := RstripCuts(Lstrip(s));
  }

  lemma RuleIsNothingElse(digit: char -> bool, line: string)
    requires ProperDigits(digit) && Strip(line) == "---"
    ensures !IsFence(line) && !IsHeading(line) && !IsBullet(line) && !IsOrderedItem(digit, line)
  {
    StripStarts(line);
    var rest := Lstrip(line);
    assert rest[0] == "---"[0] && rest[1] == "---"[1] && !IsSpace('-');
    BulletAlt(line);
    StartsDiffer(line);
  }

  lemma ItemsStart(digit: char -> bool, line: string)
    requires ProperDigits(digit)
    ensures IsBullet(line) ==> Lstrip(line) != "" && Lstrip(line)[0] == '-'
    ensures IsOrderedItem(digit, line) ==> Lstrip(line) != "" && digit(Lstrip(line)[0])
  {
    BulletAlt(line);
  }

  /** At most one of the tests holds of a line, so the order in which they are made does not matter; a line of which
      none holds belongs to a paragraph. */
  lemma KindExact(digit: char -> bool, line: string)
    requires ProperDigits(digit)
    ensures var k := KindOf(digit, line);
            && (k == Fence <==> IsFence(line))
            && (k == Rule <==> Strip(line) == "---")
            && (k == Heading <==> IsHeading(line))
            && (k == Bullets <==> IsBullet(line))
            && (k == Ordered <==> IsOrderedItem(digit, line))
            && (k == Blank <==> AllSpaces(line))
            && (k == Paragraph <==> !IsFence(line) && Strip(line) != "---" && !IsHeading(line) && !IsBullet(line)
                                    && !IsOrderedItem(digit, line) && !AllSpaces(line))
  {
    BlankExact(line);
    StartsDiffer(line);
    ItemsStart(digit, line);
    if Strip(line) == "---" {
      RuleIsNothingElse(digit, line);
    }
  }

  lemma BlankExact(line: string)
    ensures Strip(line) == "" <==> AllSpaces(line)
    ensures AllSpaces(line) <==> Lstrip(line) == ""
  {
    StripExact(line);
    var a, b :| StripParts(line, a, Strip(line), b);
    assert Strip(line) != "" ==> line[|a|] == Strip(line)[0];
    StripStarts(line);
    assert Lstrip(line) != "" ==> !IsSpace(line[Span(line, IsSpace)]);
  }

  lemma StartsDiffer(line: string)
    ensures IsFence(line) ==> Lstrip(line) != "" && Lstrip(line)[0] == '`'
    ensures IsHeading(line) ==> Lstrip(line) != "" && Lstrip(line)[0] == '#'
  {
    if IsFence(line) {
      assert "```"[0] == '`';
    }
  }

  lemma RuleLine()
    ensures Strip("---") == "---"
  {
    assert !IsSpace('-') && "" + "---" == "---";
    LstripCut("", "---");
  }

  /** A fence goes on up to the next fence, a list as long as its items come, and a paragraph over every line that is
      of no other kind, and over a rule with spaces around it. */
  lemma ContinuesExact(digit: char -> bool, k: Kind, line: string)
    requires ProperDigits(digit)
    ensures var kind := KindOf(digit, line);
            Continues(digit, k, line)
            <==> match k
                 case Fence => kind != Fence
                 case Bullets => kind == Bullets
                 case Ordered => kind == Ordered
                 case Paragraph => kind == Paragraph || (kind == Rule && line != "---")
                 case _ => false
  {
    KindExact(digit, line);
    BlankExact(line);
    RuleLine();
    if Strip(line) == "---" {
      RuleIsNothingElse(digit, line);
    }
  }
}

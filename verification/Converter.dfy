/** The converter's loops, proved against `Markdown.Storage`. */
module Converter {
  import opened Cdata
  import opened InlineMarkup
  import opened Lines
  import opened Markdown
  import opened Scanner

  lemma ItemsSnoc(d: Dialect, k: Kind, lines: seq<string>, start: nat, i: nat)
    requires start <= i < |lines|
    ensures Items(d, k, lines[start..i + 1]) == Items(d, k, lines[start..i]) + d.item(k, lines[i])
  {
    assert lines[start..i + 1][..i - start] == lines[start..i];
  }

  lemma ItemAdded(d: Dialect, k: Kind, lines: seq<string>, start: nat, i: nat, items: seq<string>)
    requires start <= i < |lines| && Concat(items) == Items(d, k, lines[start..i])
    ensures Concat(items + [d.item(k, lines[i])]) == Items(d, k, lines[start..i + 1])
  {
    ConcatSnoc(items, d.item(k, lines[i]));
    ItemsSnoc(d, k, lines, start, i);
  }

  /** Collects the items of a list from line `start` on. */
  method ListItems(d: Dialect, k: Kind, lines: seq<string>, start: nat) returns (items: seq<string>, i: nat)
    requires start < |lines| && d.goesOn(k, lines[start])
    ensures i == RunEnd(d, k, lines, start + 1)
    ensures Concat(items) == Items(d, k, lines[start..i])
  {
    items, i := [], start;
    while i < |lines| && d.goesOn(k, lines[i])
      invariant start <= i <= |lines|
      invariant RunEnd(d, k, lines, i) == RunEnd(d, k, lines, start)
      invariant Concat(items) == Items(d, k, lines[start..i])
      decreases |lines| - i
    {
      ItemAdded(d, k, lines, start, i, items);
      items := items + [d.item(k, lines[i])];
      i := i + 1;
    }
  }

  /** Collects lines from `start` on while the block goes on. */
  method TakeLines(d: Dialect, k: Kind, lines: seq<string>, start: nat, first: seq<string>)
      returns (buf: seq<string>, i: nat)
    requires start <= |lines|
    ensures i == RunEnd(d, k, lines, start)
    ensures buf == first + lines[start..i]
  {
    buf, i := first, start;
    while i < |lines| && d.goesOn(k, lines[i])
      invariant start <= i <= |lines|
      invariant RunEnd(d, k, lines, i) == RunEnd(d, k, lines, start)
      invariant buf == first + lines[start..i]
      decreases |lines| - i
    {
      buf := buf + [lines[i]];
      i := i + 1;
    }
  }

  /** In a dialect, a line that starts a list is an item of it. */
  predicate ListsStartWithItems(d: Dialect, line: string) {
    d.kind(line) == Bullets || d.kind(line) == Ordered ==> d.goesOn(d.kind(line), line)
  }

  /** The block of a fence, up to the closing fence or the end of the document. */
  method ConvertFence(d: Dialect, lines: seq<string>, i: nat) returns (piece: string, next: nat)
    requires i < |lines| && d.kind(lines[i]) == Fence
    ensures var b := BlockAt(d, lines, i);
            next == b.End() && piece == Render(d, lines, b)
  {
    var buf, j := TakeLines(d, Fence, lines, i + 1, []);
    assert buf == lines[i + 1..j];
    var body := Replace(Join("\n", buf), "]]>", "]]]]><![CDATA[>");
    piece := d.fenceHead + ("<![CDATA[" + body + "]]>") + d.fenceFoot;
    next := j + 1;
  }

  /** One turn of the scanner: the piece of output for the block that starts at line `i`, and where it ends. */
  method ConvertBlock(d: Dialect, lines: seq<string>, i: nat) returns (piece: string, next: nat)
    requires i < |lines| && ListsStartWithItems(d, lines[i])
    ensures var b := BlockAt(d, lines, i);
            next == b.End() && piece == Render(d, lines, b)
  {
    var line := lines[i];
    match d.kind(line) {
      case Fence =>
        piece, next := ConvertFence(d, lines, i);
      case Rule =>
        piece, next := "<hr/>", i + 1;
      case Heading =>
        piece, next := d.heading(line), i + 1;
      case Bullets =>
        var items;
        items, next := ListItems(d, Bullets, lines, i);
        piece := "<ul>" + Concat(items) + "</ul>";
      case Ordered =>
        var items;
        items, next := ListItems(d, Ordered, lines, i);
        piece := "<ol>" + Concat(items) + "</ol>";
      case Blank =>
        piece, next := "", i + 1;
      case Paragraph =>
        var buf;
        buf, next := TakeLines(d, Paragraph, lines, i + 1, [line]);
        assert buf == lines[i..next];
        piece := d.paragraph(buf);
    }
  }

  lemma Moved(out: seq<string>, piece: string, rest: string)
    ensures Concat(out + [piece]) + rest == Concat(out) + (piece + rest)
  {
    ConcatSnoc(out, piece);
  }

  /** The whole document, for any dialect. */
  method Convert(d: Dialect, lines: seq<string>) returns (storage: string)
    requires forall i | 0 <= i < |lines| :: ListsStartWithItems(d, lines[i])
    ensures storage == StorageFrom(d, lines, 0)
  {
    var out: seq<string> := [];
    var i := 0;
    while i < |lines|
      invariant Concat(out) + StorageFrom(d, lines, i) == StorageFrom(d, lines, 0)
      decreases |lines| - i
    {
      StorageStep(d, lines, i);
      var piece, next := ConvertBlock(d, lines, i);
      Moved(out, piece, StorageFrom(d, lines, next));
      out := out + [piece];
      i := next;
    }
    storage := Concat(out);
  }

  method MdToStorage(digit: char -> bool, md: string) returns (storage: string)
    ensures storage == Storage(digit, md)
  {
    storage := Convert(Source(Inline, digit), Split(md));
  }
}

/** The block scanner: cutting a document into blocks and writing each block, for any reading of single lines.

    What a line is and how its text is written comes from a `Dialect`; `Markdown` gives the one of the source. */
module Scanner {
  import opened Cdata
  import opened Lines

  datatype Kind = Fence | Rule | Heading | Bullets | Ordered | Blank | Paragraph

  /** `kind` is the kind of block a line starts, `goesOn` whether a block of a kind goes on with a line; the
      others give the output for a heading line, a list line and the lines of a paragraph, and the markup around
      the character data of a code block. */
  datatype Dialect = Dialect(
    kind: string -> Kind, goesOn: (Kind, string) -> bool,
    heading: string -> string, item: (Kind, string) -> string, paragraph: seq<string> -> string,
    fenceHead: string, fenceFoot: string)

  // ----- blocks -----

  predicate IsSingle(k: Kind) {
    k == Rule || k == Heading || k == Blank
  }

  /** A block takes the lines from `start` up to `stop`; the line at `stop` closes a fence. */
  datatype Block = Block(kind: Kind, start: nat, stop: nat) {
    /** Where the next block starts: after the closing fence, even if the document ended without one. */
    function End(): nat {
      if kind == Fence then stop + 1 else stop
    }
  }

  /** The first line from `i` on with which the block does not go on. */
  function RunEnd(d: Dialect, k: Kind, lines: seq<string>, i: nat): (j: nat)
    requires i <= |lines|
    ensures i <= j <= |lines|
    ensures forall m | i <= m < j :: d.goesOn(k, lines[m])
    ensures j < |lines| ==> !d.goesOn(k, lines[j])
    decreases |lines| - i
  {
    if i == |lines| || !d.goesOn(k, lines[i]) then i else RunEnd(d, k, lines, i + 1)
  }

  function BlockAt(d: Dialect, lines: seq<string>, i: nat): (b: Block)
    requires i < |lines|
    ensures b.kind == d.kind(lines[i]) && b.start == i < b.stop <= |lines|
  {
    var k := d.kind(lines[i]);
    Block(k, i, if IsSingle(k) then i + 1 else RunEnd(d, k, lines, i + 1))
  }

  function Blocks(d: Dialect, lines: seq<string>, i: nat): seq<Block>
    decreases |lines| - i
  {
    if i >= |lines| then []
    else var b := BlockAt(d, lines, i); [b] + Blocks(d, lines, b.End())
  }

  // ----- the output -----

  function Items(d: Dialect, k: Kind, lines: seq<string>): string {
    if lines == [] then ""
    else Items(d, k, lines[..|lines| - 1]) + d.item(k, lines[|lines| - 1])
  }

  /** The lines between the fences. */
  function Body(lines: seq<string>, b: Block): seq<string>
    requires b.start < b.stop <= |lines|
  {
    lines[b.start + 1..b.stop]
  }

  function Render(d: Dialect, lines: seq<string>, b: Block): string
    requires b.start < b.stop <= |lines|
  {
    match b.kind
    case Fence => d.fenceHead + Write(Join("\n", Body(lines, b))) + d.fenceFoot
    case Rule => "<hr/>"
    case Heading => d.heading(lines[b.start])
    case Bullets => "<ul>" + Items(d, Bullets, lines[b.start..b.stop]) + "</ul>"
    case Ordered => "<ol>" + Items(d, Ordered, lines[b.start..b.stop]) + "</ol>"
    case Blank => ""
    case Paragraph => d.paragraph(lines[b.start..b.stop])
  }

  predicate InRange(lines: seq<string>, bs: seq<Block>) {
    forall b | b in bs :: b.start < b.stop <= |lines|
  }

  function RenderAll(d: Dialect, lines: seq<string>, bs: seq<Block>): string
    requires InRange(lines, bs)
  {
    if bs == [] then "" else Render(d, lines, bs[0]) + RenderAll(d, lines, bs[1..])
  }

  lemma {:induction false} BlocksInRange(d: Dialect, lines: seq<string>, i: nat)
    ensures InRange(lines, Blocks(d, lines, i))
    decreases |lines| - i
  {
    if i < |lines| {
      BlocksInRange(d, lines, BlockAt(d, lines, i).End());
    }
  }

  /** The output for the blocks from line `i` on. */
  function StorageFrom(d: Dialect, lines: seq<string>, i: nat): string {
    BlocksInRange(d, lines, i);
    RenderAll(d, lines, Blocks(d, lines, i))
  }

  lemma StorageStep(d: Dialect, lines: seq<string>, i: nat)
    requires i < |lines|
    ensures var b := BlockAt(d, lines, i);
            StorageFrom(d, lines, i) == Render(d, lines, b) + StorageFrom(d, lines, b.End())
  {
    BlocksInRange(d, lines, i);
    var b := BlockAt(d, lines, i);
    assert Blocks(d, lines, i)[1..] == Blocks(d, lines, b.End());
  }

  // ----- the cut, declaratively -----

  /** The block has the kind of its first line, goes on with every further line it takes, and stops only where
      it has to. */
  ghost predicate WellFormed(d: Dialect, lines: seq<string>, b: Block) {
    && b.start < b.stop <= |lines|
    && b.kind == d.kind(lines[b.start])
    && (IsSingle(b.kind) ==> b.stop == b.start + 1)
    && (!IsSingle(b.kind) ==>
          && (forall m | b.start < m < b.stop :: d.goesOn(b.kind, lines[m]))
          && (b.stop < |lines| ==> !d.goesOn(b.kind, lines[b.stop])))
  }

  /** Well-formed blocks that follow one another from line `i` to the end of the document. */
  ghost predicate CutFrom(d: Dialect, lines: seq<string>, bs: seq<Block>, i: nat)
    decreases bs
  {
    if bs == [] then i >= |lines|
    else bs[0].start == i && WellFormed(d, lines, bs[0]) && CutFrom(d, lines, bs[1..], bs[0].End())
  }

  lemma {:induction false} BlocksCut(d: Dialect, lines: seq<string>, i: nat)
    ensures CutFrom(d, lines, Blocks(d, lines, i), i)
    decreases |lines| - i
  {
    if i < |lines| {
      var b := BlockAt(d, lines, i);
      BlocksCut(d, lines, b.End());
      assert Blocks(d, lines, i)[1..] == Blocks(d, lines, b.End());
    }
  }

  lemma StopsNoEarlier(d: Dialect, lines: seq<string>, b: Block, c: Block)
    requires WellFormed(d, lines, b) && WellFormed(d, lines, c) && b.start == c.start
    ensures b.stop >= c.stop
  {
  }

  lemma FirstBlock(d: Dialect, lines: seq<string>, b: Block)
    requires WellFormed(d, lines, b)
    ensures b == BlockAt(d, lines, b.start)
  {
    StopsNoEarlier(d, lines, b, BlockAt(d, lines, b.start));
    StopsNoEarlier(d, lines, BlockAt(d, lines, b.start), b);
  }

  lemma {:induction false} CutIsBlocks(d: Dialect, lines: seq<string>, bs: seq<Block>, i: nat)
    requires CutFrom(d, lines, bs, i)
    ensures bs == Blocks(d, lines, i)
    decreases bs
  {
    if bs != [] {
      FirstBlock(d, lines, bs[0]);
      CutIsBlocks(d, lines, bs[1..], bs[0].End());
      assert bs == [bs[0]] + bs[1..];
    }
  }

  /** The scanner's blocks are a cut of the document into well-formed blocks, and the only one. */
  lemma CutUnique(d: Dialect, lines: seq<string>, bs: seq<Block>)
    ensures CutFrom(d, lines, bs, 0) <==> bs == Blocks(d, lines, 0)
  {
    BlocksCut(d, lines, 0);
    if CutFrom(d, lines, bs, 0) {
      CutIsBlocks(d, lines, bs, 0);
    }
  }

  /** The lines a block takes, its closing fence included. */
  predicate Takes(b: Block, k: nat) {
    b.start <= k < b.End()
  }

  lemma {:induction false} CutCovers(d: Dialect, lines: seq<string>, bs: seq<Block>, i: nat, k: nat)
    requires CutFrom(d, lines, bs, i) && i <= k < |lines|
    ensures exists m | 0 <= m < |bs| :: Takes(bs[m], k)
    decreases bs
  {
    if k < bs[0].End() {
      assert Takes(bs[0], k);
    } else {
      CutCovers(d, lines, bs[1..], bs[0].End(), k);
      var m :| 0 <= m < |bs[1..]| && Takes(bs[1..][m], k);
      assert Takes(bs[m + 1], k);
    }
  }

  lemma {:induction false} CutOrdered(d: Dialect, lines: seq<string>, bs: seq<Block>, i: nat)
    requires CutFrom(d, lines, bs, i)
    ensures forall m | 0 <= m < |bs| :: i <= bs[m].start
    ensures forall m, n | 0 <= m < n < |bs| :: bs[m].End() <= bs[n].start
    decreases bs
  {
    if bs != [] {
      CutOrdered(d, lines, bs[1..], bs[0].End());
      forall m, n | 0 <= m < n < |bs|
        ensures bs[m].End() <= bs[n].start
      {
        assert bs[n] == bs[1..][n - 1];
        if m > 0 {
          assert bs[m] == bs[1..][m - 1];
        }
      }
    }
  }

  /** Line `k` is taken by exactly one block, and the blocks are in order without overlap. */
  ghost predicate TakenOnce(bs: seq<Block>, k: nat) {
    && (exists m | 0 <= m < |bs| :: Takes(bs[m], k))
    && (forall m, n | 0 <= m < n < |bs| :: bs[m].End() <= bs[n].start && !(Takes(bs[m], k) && Takes(bs[n], k)))
  }

  lemma CutTakesOnce(d: Dialect, lines: seq<string>, bs: seq<Block>, k: nat)
    requires CutFrom(d, lines, bs, 0) && k < |lines|
    ensures TakenOnce(bs, k)
  {
    CutOrdered(d, lines, bs, 0);
    CutCovers(d, lines, bs, 0, k);
  }

  /** Every line of the document is taken by exactly one block, and the blocks are in document order. */
  lemma EachLineOnce(d: Dialect, lines: seq<string>, k: nat)
    requires k < |lines|
    ensures TakenOnce(Blocks(d, lines, 0), k)
  {
    BlocksCut(d, lines, 0);
    CutTakesOnce(d, lines, Blocks(d, lines, 0), k);
  }
}

/** How rows, columns and grids use up their box, and where each child is placed. */
module LayoutShares {
  import opened Basics
  import opened Layout
  import opened LayoutSound
  import opened LayoutPercent

  // ----- Sizes given and sizes left open -----

  /** The list with every open size set to `auto`. */
  function Filled(given: seq<Option<int>>, auto: int): (r: seq<int>)
    ensures |r| == |given|
  {
    seq(|given|, i requires 0 <= i < |given| => Or(given[i], auto))
  }

  function Taken(given: seq<Option<int>>): int {
    if given == [] then 0 else Or(given[0], 0) + Taken(given[1..])
  }

  function Open(given: seq<Option<int>>): set<nat> {
    set i: nat | i < |given| && given[i].None?
  }

  /** The open ones split what is left: alike, and short of it by less than their number. */
  predicate SplitsEvenly(sizes: seq<int>, given: seq<Option<int>>, space: int)
    requires |sizes| == |given|
  {
    && (forall i :: 0 <= i < |given| && given[i].Some? ==> sizes[i] == given[i].value)
    && (forall i, k :: 0 <= i < |given| && 0 <= k < |given| && given[i].None? && given[k].None? ==> sizes[i] == sizes[k])
    && (Open(given) != {} && Taken(given) <= space ==> space - |Open(given)| < Sum(sizes) <= space)
    && (Taken(given) >= space ==> forall i :: 0 <= i < |given| && given[i].None? ==> sizes[i] == 0)
  }

  function Count(given: seq<Option<int>>): nat {
    if given == [] then 0 else (if given[0].None? then 1 else 0) + Count(given[1..])
  }

  lemma {:induction false} CountIsOpen(given: seq<Option<int>>)
    ensures Count(given) == |Open(given)|
  {
    if given != [] {
      var rest := Open(given[1..]);
      CountIsOpen(given[1..]);
      var moved := set i: nat | i in rest :: i + 1;
      Shifted(rest);
      assert Open(given) == if given[0].None? then moved + {0} else moved by {
        forall i: nat
          ensures i in Open(given) <==> i in if given[0].None? then moved + {0} else moved
        {
          if i > 0 && i < |given| {
            assert given[i] == given[1..][i - 1];
            assert i - 1 in rest ==> (i - 1) + 1 in moved;
          }
        }
      }
    }
  }

  lemma {:induction false} FilledSum(given: seq<Option<int>>, auto: int)
    ensures Sum(Filled(given, auto)) == Taken(given) + Count(given) * auto
  {
    if given != [] {
      FilledSum(given[1..], auto);
      assert Filled(given, auto)[1..] == Filled(given[1..], auto);
      Distribute(Count(given[1..]), auto);
    }
  }

  lemma ShareOf(space: int, count: nat)
    requires count > 0
    ensures space >= 0 ==> space - count < count * Share(space, count) <= space
    ensures space <= 0 ==> Share(space, count) == 0
  {
    if space >= 0 {
      var q, m := space / count, space % count;
      assert space == count * q + m;
      assert q >= 0;
    }
  }

  lemma SharesSplitEvenly(given: seq<Option<int>>, space: int)
    ensures SplitsEvenly(Filled(given, Share(space - Taken(given), Count(given))), given, space)
  {
    var auto := Share(space - Taken(given), Count(given));
    FilledSum(given, auto);
    CountIsOpen(given);
    if Count(given) > 0 {
      ShareOf(space - Taken(given), Count(given));
    } else {
      assert forall i: nat :: i < |given| ==> i !in Open(given);
    }
  }

  // ----- Rows -----

  /** What a row has for its children besides the gaps. */
  function Inner(box: int, gap: int, n: nat): int { Max(0, box - gap * (n - 1)) }

  function GivenWidths(children: seq<Node>, parent: int): (r: seq<Option<int>>)
    ensures |r| == |children|
  {
    seq(|children|, i requires 0 <= i < |children| => Resolve(children[i].w, parent, None))
  }

  lemma {:induction false} WidthsAreFilled(children: seq<Node>, inner: int, auto: int)
    ensures Widths(children, inner, auto) == Filled(GivenWidths(children, inner), auto)
    ensures ExplicitTotal(children, inner) == Taken(GivenWidths(children, inner))
    ensures AutoCount(children) == Count(GivenWidths(children, inner))
  {
    if children != [] {
      WidthsAreFilled(children[1..], inner, auto);
      var given := GivenWidths(children, inner);
      assert given[1..] == GivenWidths(children[1..], inner);
      assert Filled(given, auto)[1..] == Filled(given[1..], auto);
    }
  }

  /**
   * A row: sized children have their sizes, the others are equally wide, and with at least one of those the row
   * and its gaps fall short of the box by less than their number.
   */
  lemma RowIsUsedUp(children: seq<Node>, boxW: int, gap: int)
    requires children != []
    ensures var inner := Inner(boxW, gap, |children|);
      SplitsEvenly(RowWidths(children, boxW, gap), GivenWidths(children, inner), inner)
  {
    hide SplitsEvenly, Share;
    var inner := Inner(boxW, gap, |children|);
    var given := GivenWidths(children, inner);
    WidthsAreFilled(children, inner, Share(inner - ExplicitTotal(children, inner), AutoCount(children)));
    SharesSplitEvenly(given, inner);
  }

  // ----- Columns of a fixed height -----

  function GivenHeights(children: seq<Node>, parent: int): (r: seq<Option<int>>)
    ensures |r| == |children|
  {
    seq(|children|, i requires 0 <= i < |children| => Resolve(children[i].h, parent, None))
  }

  /** The heights that the children of a column of height `boxH` are given. */
  function ColumnHeights(children: seq<Node>, boxH: int, gap: int): (r: seq<int>)
    ensures |r| == |children|
  {
    var auto := AutoHeight(children, Some(boxH), gap);
    seq(|children|, i requires 0 <= i < |children| => Or(Resolve(children[i].h, boxH, auto), 0))
  }

  lemma {:induction false} HeightsAreFilled(children: seq<Node>, boxH: int)
    ensures ExplicitHeights(children, boxH) == Taken(GivenHeights(children, boxH))
    ensures AutoRows(children) == Count(GivenHeights(children, boxH))
  {
    if children != [] {
      HeightsAreFilled(children[1..], boxH);
      assert GivenHeights(children, boxH)[1..] == GivenHeights(children[1..], boxH);
    }
  }

  /** A column of a fixed height is used up in the same way. */
  lemma ColumnIsUsedUp(children: seq<Node>, boxH: int, gap: int)
    requires children != []
    ensures SplitsEvenly(ColumnHeights(children, boxH, gap), GivenHeights(children, boxH), Inner(boxH, gap, |children|))
  {
    hide SplitsEvenly, Share;
    var given := GivenHeights(children, boxH);
    HeightsAreFilled(children, boxH);
    SharesSplitEvenly(given, Inner(boxH, gap, |children|));
    assert ColumnHeights(children, boxH, gap) == Filled(given, AutoHeight(children, Some(boxH), gap).value);
  }

  // ----- Grids -----

  /** As many cells as there are columns, and their gaps, fall short of the box by less than their number. */
  lemma GridIsUsedUp(boxW: int, gap: int, cols: int)
    requires cols > 0
    ensures var used := cols * CellWidth(boxW, gap, cols) + gap * (cols - 1);
      && (gap * (cols - 1) <= boxW ==> boxW - cols < used <= boxW)
      && (gap * (cols - 1) >= boxW ==> CellWidth(boxW, gap, cols) == 0)
  {
    var space := boxW - gap * (cols - 1);
    if space >= 0 {
      var q, m := space / cols, space % cols;
      assert space == cols * q + m && q >= 0;
    }
  }

  // ----- Sizes as written -----

  /** A size in pixels is that many, a percentage is rounded down and never negative. */
  lemma SizeIsAsWritten(size: Size, parent: int, r: int)
    requires Resolve(size, parent, None) == Some(r)
    ensures !size.Missing?
    ensures size.Pixels? ==> r == size.n
    ensures size.Percent? && parent * size.p >= 0 ==> 100 * r <= parent * size.p < 100 * r + 100
    ensures size.Percent? && parent * size.p < 0 ==> r == 0
  {
    if size.Percent? {
      var v := parent * size.p;
      assert v == 100 * (v / 100) + v % 100;
    }
  }

  // ----- Where children are placed -----

  /** Where the blocks of child `i` begin. */
  function At(children: seq<Node>, i: nat): nat
    requires i <= |children|
  {
    SizeOfAll(children[..i])
  }

  /** A node's own block comes first; its height is what the node consumes. */
  lemma NodeIsFirst(node: Node, x: int, y: int, w: int, h: Option<int>, caps: Caps, slotSized: bool)
    ensures var r := LayNode(node, x, y, w, h, caps, slotSized);
      && r.blocks != [] && r.blocks[0] == Block(x, y, BoxWidth(node, w, slotSized), r.height, node)
      && (node.Leaf? && h.Some? ==> r.height == h.value)
      && (slotSized && node.Container? && node.children != [] && h.Some? && h.value != 0 ==> r.height == h.value)
  {
    hide LayChildren, EstimateHeight;
  }

  lemma {:induction false} NodeCount(node: Node, x: int, y: int, w: int, h: Option<int>, caps: Caps, slotSized: bool)
    ensures |LayNode(node, x, y, w, h, caps, slotSized).blocks| == SizeOf(node)
    decreases node, 3
  {
    hide EstimateHeight, BoxWidth, BoxHeight, RowWidths, AutoHeight, CellWidth;
    if node.Container? && node.children != [] {
      var boxW, boxH := BoxWidth(node, w, slotSized), BoxHeight(node, h, caps, slotSized);
      if node.kind.Row? {
        RowCount(node.children, RowWidths(node.children, boxW, node.gap), x, y, boxH, node.gap, caps);
      } else if node.kind.Grid? && node.cols > 0 {
        GridCount(node.children, node.cols, CellWidth(boxW, node.gap, node.cols), x, y, node.gap, caps);
      } else {
        ColCount(node.children, x, y, boxW, boxH, AutoHeight(node.children, boxH, node.gap), node.gap, caps);
      }
    }
  }

  lemma {:induction false} RowCount(children: seq<Node>, widths: seq<int>, x: int, y: int, boxH: Option<int>, gap: int, caps: Caps)
    requires |widths| == |children|
    ensures |LayRow(children, widths, x, y, boxH, gap, caps).blocks| == SizeOfAll(children)
    decreases children, 0
  {
    hide LayNode, Resolve;
    if children != [] {
      var h := Resolve(children[0].h, Or(boxH, 0), boxH);
      NodeCount(children[0], x, y, widths[0], h, caps, true);
      RowCount(children[1..], widths[1..], x + widths[0] + gap, y, boxH, gap, caps);
    }
  }

  lemma {:induction false} ColCount(children: seq<Node>, x: int, y: int, boxW: int, boxH: Option<int>, auto: Option<int>, gap: int, caps: Caps)
    ensures |LayCol(children, x, y, boxW, boxH, auto, gap, caps).blocks| == SizeOfAll(children)
    decreases children, 0
  {
    hide LayNode, Resolve;
    if children != [] {
      var w, h := Or(Resolve(children[0].w, boxW, None), boxW), Resolve(children[0].h, Or(boxH, 0), auto);
      var first := LayNode(children[0], x, y, w, h, caps, true);
      NodeCount(children[0], x, y, w, h, caps, true);
      if |children| == 1 {
        assert children[1..] == [];
      } else {
        ColCount(children[1..], x, y + first.height + gap, boxW, boxH, auto, gap, caps);
      }
    }
  }

  lemma {:induction false} CellsCount(children: seq<Node>, cellW: int, x: int, y: int, gap: int, caps: Caps)
    ensures |LayCells(children, cellW, x, y, gap, caps).blocks| == SizeOfAll(children)
    decreases children, 0
  {
    hide LayNode;
    if children != [] {
      NodeCount(children[0], x, y, cellW, None, caps, true);
      CellsCount(children[1..], cellW, x + (cellW + gap), y, gap, caps);
    }
  }

  lemma {:induction false} GridCount(children: seq<Node>, cols: int, cellW: int, x: int, y: int, gap: int, caps: Caps)
    requires cols > 0
    ensures |LayGrid(children, cols, cellW, x, y, gap, caps).blocks| == SizeOfAll(children)
    decreases children, 1
  {
    hide LayCells;
    if |children| <= cols {
      CellsCount(children, cellW, x, y, gap, caps);
    } else {
      var first := LayCells(children[..cols], cellW, x, y, gap, caps);
      CellsCount(children[..cols], cellW, x, y, gap, caps);
      GridCount(children[cols..], cols, cellW, x, y + first.height + gap, gap, caps);
      SizeOfSplit(children, cols);
    }
  }

  lemma AtNext(children: seq<Node>, i: nat)
    requires 0 < i <= |children|
    ensures At(children, i) == SizeOf(children[0]) + At(children[1..], i - 1)
  {
    assert children[..i][1..] == children[1..][..i - 1];
  }

  lemma SumNext(ws: seq<int>, i: nat)
    requires 0 < i <= |ws|
    ensures Sum(ws[..i]) == ws[0] + Sum(ws[1..][..i - 1])
  {
    assert ws[..i][1..] == ws[1..][..i - 1];
  }

  /** The block of child `i`, among the blocks of all children. */
  predicate Placed(bs: seq<Block>, children: seq<Node>, i: nat, x: int, y: int, w: int)
    requires i < |children|
  {
    var at := At(children, i);
    at < |bs| && bs[at].node == children[i] && bs[at].x == x && bs[at].y == y && bs[at].w == w
  }

  lemma PlacedBehind(first: seq<Block>, rest: seq<Block>, children: seq<Node>, i: nat, x: int, y: int, w: int)
    requires 0 < i < |children| && |first| == SizeOf(children[0]) && Placed(rest, children[1..], i - 1, x, y, w)
    ensures Placed(first + rest, children, i, x, y, w)
  {
    AtNext(children, i);
  }

  lemma FirstPlaced(first: seq<Block>, rest: seq<Block>, children: seq<Node>, x: int, y: int, w: int)
    requires children != [] && first != [] && first[0].node == children[0] && first[0].x == x && first[0].y == y && first[0].w == w
    ensures Placed(first + rest, children, 0, x, y, w)
  {
    assert children[..0] == [];
  }

  /** In a row every child has its own width and stands a gap to the right of the one before, all at the same height. */
  lemma {:induction false} RowPlaces(children: seq<Node>, widths: seq<int>, x: int, y: int, boxH: Option<int>, gap: int, caps: Caps, i: nat)
    requires |widths| == |children| && i < |children|
    ensures Placed(LayRow(children, widths, x, y, boxH, gap, caps).blocks, children, i, x + Sum(widths[..i]) + gap * i, y, widths[i])
    decreases i
  {
    hide LayNode, Resolve, Placed;
    var h := Resolve(children[0].h, Or(boxH, 0), boxH);
    var first := LayNode(children[0], x, y, widths[0], h, caps, true);
    var rest := LayRow(children[1..], widths[1..], x + widths[0] + gap, y, boxH, gap, caps);
    NodeIsFirst(children[0], x, y, widths[0], h, caps, true);
    if i == 0 {
      assert widths[..0] == [];
      FirstPlaced(first.blocks, rest.blocks, children, x, y, widths[0]);
    } else {
      NodeCount(children[0], x, y, widths[0], h, caps, true);
      RowPlaces(children[1..], widths[1..], x + widths[0] + gap, y, boxH, gap, caps, i - 1);
      SumNext(widths, i);
      OneGapMore(gap, i);
      PlacedBehind(first.blocks, rest.blocks, children, i, x + Sum(widths[..i]) + gap * i, y, widths[i]);
    }
  }

  lemma OneGapMore(gap: int, i: nat)
    requires i > 0
    ensures gap * i == gap + gap * (i - 1)
  {
  }

  /** In one row of a grid every child has the cell width and stands a cell and a gap to the right of the one before. */
  lemma {:induction false} CellsPlace(children: seq<Node>, cellW: int, x: int, y: int, gap: int, caps: Caps, i: nat)
    requires i < |children|
    ensures Placed(LayCells(children, cellW, x, y, gap, caps).blocks, children, i, x + (cellW + gap) * i, y, cellW)
    decreases i
  {
    hide LayNode, Placed;
    var first := LayNode(children[0], x, y, cellW, None, caps, true);
    var rest := LayCells(children[1..], cellW, x + (cellW + gap), y, gap, caps);
    NodeIsFirst(children[0], x, y, cellW, None, caps, true);
    if i == 0 {
      FirstPlaced(first.blocks, rest.blocks, children, x, y, cellW);
    } else {
      NodeCount(children[0], x, y, cellW, None, caps, true);
      CellsPlace(children[1..], cellW, x + (cellW + gap), y, gap, caps, i - 1);
      OneGapMore(cellW + gap, i);
      PlacedBehind(first.blocks, rest.blocks, children, i, x + (cellW + gap) * i, y, cellW);
    }
  }

  /** The block of child `i`, among the blocks of all children. */
  function OwnBlock(bs: seq<Block>, children: seq<Node>, i: nat): Block
    requires i < |children| && At(children, i) < |bs|
  {
    bs[At(children, i)]
  }

  /** Child `i` stands under child `i - 1`, `gap` below its end, or at `y` if it is the first. */
  predicate Stacked(bs: seq<Block>, children: seq<Node>, i: nat, x: int, y: int, gap: int)
    requires i < |children|
  {
    && At(children, i) < |bs| && OwnBlock(bs, children, i).node == children[i] && OwnBlock(bs, children, i).x == x
    && (i == 0 ==> OwnBlock(bs, children, i).y == y)
    && (i > 0 ==>
          At(children, i - 1) < |bs| &&
          OwnBlock(bs, children, i).y == OwnBlock(bs, children, i - 1).y + OwnBlock(bs, children, i - 1).h + gap)
  }

  lemma StackedFirst(first: seq<Block>, rest: seq<Block>, children: seq<Node>, x: int, y: int, gap: int)
    requires children != [] && first != [] && first[0].node == children[0] && first[0].x == x && first[0].y == y
    ensures Stacked(first + rest, children, 0, x, y, gap) && OwnBlock(first + rest, children, 0) == first[0]
  {
    assert children[..0] == [];
  }

  lemma StackedBehind(first: seq<Block>, rest: seq<Block>, children: seq<Node>, i: nat, x: int, y: int, gap: int)
    requires 0 < i < |children| && |first| == SizeOf(children[0]) && first != []
    requires Stacked(rest, children[1..], i - 1, x, first[0].y + first[0].h + gap, gap)
    ensures Stacked(first + rest, children, i, x, y, gap)
    ensures OwnBlock(first + rest, children, i) == OwnBlock(rest, children[1..], i - 1)
  {
    AtNext(children, i);
    if i > 1 {
      AtNext(children, i - 1);
    } else {
      assert children[..0] == [] && children[1..][..0] == [];
    }
  }

  /** The width and, when it fixes one, the height that a column gives to child `i`. */
  predicate ColumnSized(b: Block, child: Node, boxW: int, boxH: Option<int>, auto: Option<int>) {
    && b.w == Or(Resolve(child.w, boxW, None), boxW)
    && var h := Resolve(child.h, Or(boxH, 0), auto);
       (child.Leaf? && h.Some? ==> b.h == h.value) &&
       (child.Container? && child.children != [] && h.Some? && h.value != 0 ==> b.h == h.value)
  }

  /** In a column the children stand under each other, a gap apart, each with its own width or the whole. */
  lemma {:induction false} ColumnPlaces(children: seq<Node>, x: int, y: int, boxW: int, boxH: Option<int>, auto: Option<int>,
                                        gap: int, caps: Caps, i: nat)
    requires i < |children|
    ensures var bs := LayCol(children, x, y, boxW, boxH, auto, gap, caps).blocks;
      Stacked(bs, children, i, x, y, gap) && ColumnSized(OwnBlock(bs, children, i), children[i], boxW, boxH, auto)
    decreases i
  {
    hide LayNode, Resolve, Stacked, OwnBlock, BoxWidth;
    var w, h := Or(Resolve(children[0].w, boxW, None), boxW), Resolve(children[0].h, Or(boxH, 0), auto);
    var first := LayNode(children[0], x, y, w, h, caps, true);
    var rest := if |children| == 1 then [] else LayCol(children[1..], x, y + first.height + gap, boxW, boxH, auto, gap, caps).blocks;
    NodeIsFirst(children[0], x, y, w, h, caps, true);
    SlotIsWidth(children[0], w);
    assert LayCol(children, x, y, boxW, boxH, auto, gap, caps).blocks == first.blocks + rest;
    if i == 0 {
      StackedFirst(first.blocks, rest, children, x, y, gap);
    } else {
      NodeCount(children[0], x, y, w, h, caps, true);
      ColumnPlaces(children[1..], x, y + first.height + gap, boxW, boxH, auto, gap, caps, i - 1);
      StackedBehind(first.blocks, rest, children, i, x, y, gap);
    }
  }

  lemma SlotIsWidth(node: Node, w: int)
    ensures BoxWidth(node, w, true) == w
  {
  }

  /** The nodes of a document stand under each other, four pixels apart. */
  lemma {:induction false} DocumentPlaces(nodes: seq<Node>, y: int, caps: Caps, i: nat)
    requires i < |nodes|
    ensures var bs := LayDocument(nodes, y, caps);
      Stacked(bs, nodes, i, 0, y, 4) && OwnBlock(bs, nodes, i).w == BoxWidth(nodes[i], caps.width, false)
    decreases i
  {
    hide LayNode, Stacked, OwnBlock, BoxWidth;
    var first := LayNode(nodes[0], 0, y, caps.width, None, caps, false);
    var rest := LayDocument(nodes[1..], y + first.height + PAD, caps);
    NodeIsFirst(nodes[0], 0, y, caps.width, None, caps, false);
    if i == 0 {
      StackedFirst(first.blocks, rest, nodes, 0, y, 4);
    } else {
      NodeCount(nodes[0], 0, y, caps.width, None, caps, false);
      DocumentPlaces(nodes[1..], y + first.height + PAD, caps, i - 1);
      StackedBehind(first.blocks, rest, nodes, i, 0, y, 4);
    }
  }

  // ----- Grid rows -----

  /** Where row `r` of a grid begins. */
  function RowTop(children: seq<Node>, cols: int, cellW: int, x: int, y: int, gap: int, caps: Caps, r: nat): int
    requires cols > 0
    decreases r
  {
    if r == 0 || |children| <= cols then y
    else RowTop(children[cols..], cols, cellW, x, y + LayCells(children[..cols], cellW, x, y, gap, caps).height + gap, gap, caps, r - 1)
  }

  /** A grid row is as high as its highest child. */
  lemma {:induction false} RowIsAsHigh(children: seq<Node>, cellW: int, x: int, y: int, gap: int, caps: Caps)
    ensures var row := LayCells(children, cellW, x, y, gap, caps);
      && |row.blocks| == SizeOfAll(children)
      && (forall i :: 0 <= i < |children| ==> At(children, i) < |row.blocks| && OwnBlock(row.blocks, children, i).h <= row.height)
      && (row.height == 0 || exists i :: 0 <= i < |children| && At(children, i) < |row.blocks| && OwnBlock(row.blocks, children, i).h == row.height)
    decreases |children|
  {
    hide LayNode, OwnBlock, At;
    CellsCount(children, cellW, x, y, gap, caps);
    if children != [] {
      var first := LayNode(children[0], x, y, cellW, None, caps, true);
      var rest := LayCells(children[1..], cellW, x + (cellW + gap), y, gap, caps);
      var bs := first.blocks + rest.blocks;
      NodeIsFirst(children[0], x, y, cellW, None, caps, true);
      NodeCount(children[0], x, y, cellW, None, caps, true);
      FirstIs(first.blocks, rest.blocks, children);
      RowIsAsHigh(children[1..], cellW, x + (cellW + gap), y, gap, caps);
      forall i | 0 < i < |children|
        ensures At(children, i) < |bs| && OwnBlock(bs, children, i) == OwnBlock(rest.blocks, children[1..], i - 1)
      {
        BehindIs(first.blocks, rest.blocks, children, i);
      }
      if rest.height > first.height && rest.height != 0 {
        var k :| 0 <= k < |children[1..]| && At(children[1..], k) < |rest.blocks| && OwnBlock(rest.blocks, children[1..], k).h == rest.height;
        assert OwnBlock(bs, children, k + 1).h == rest.height;
      }
    }
  }

  lemma FirstIs(first: seq<Block>, rest: seq<Block>, children: seq<Node>)
    requires children != [] && first != []
    ensures At(children, 0) < |first + rest| && OwnBlock(first + rest, children, 0) == first[0]
  {
    assert children[..0] == [];
  }

  lemma BehindIs(first: seq<Block>, rest: seq<Block>, children: seq<Node>, i: nat)
    requires 0 < i < |children| && |first| == SizeOf(children[0]) && At(children[1..], i - 1) < |rest|
    ensures At(children, i) < |first + rest| && OwnBlock(first + rest, children, i) == OwnBlock(rest, children[1..], i - 1)
  {
    AtNext(children, i);
  }

  lemma AtLater(children: seq<Node>, cols: nat, i: nat)
    requires cols <= i <= |children|
    ensures At(children, i) == SizeOfAll(children[..cols]) + At(children[cols..], i - cols)
  {
    SizeOfSplit(children[..i], cols);
    assert children[..i][..cols] == children[..cols] && children[..i][cols..] == children[cols..][..i - cols];
  }

  lemma PlacedInRow(row: seq<Block>, rest: seq<Block>, children: seq<Node>, cols: nat, i: nat, x: int, y: int, w: int)
    requires i < cols <= |children| && Placed(row, children[..cols], i, x, y, w)
    ensures Placed(row + rest, children, i, x, y, w)
  {
    assert children[..cols][..i] == children[..i];
  }

  lemma PlacedInLaterRow(row: seq<Block>, rest: seq<Block>, children: seq<Node>, cols: nat, i: nat, x: int, y: int, w: int)
    requires cols <= i < |children| && |row| == SizeOfAll(children[..cols]) && Placed(rest, children[cols..], i - cols, x, y, w)
    ensures Placed(row + rest, children, i, x, y, w)
  {
    AtLater(children, cols, i);
  }

  /** In a grid child `i` stands in column `i % cols` of row `i / cols`. */
  lemma {:induction false} GridPlaces(children: seq<Node>, cols: int, cellW: int, x: int, y: int, gap: int, caps: Caps, i: nat)
    requires cols > 0 && i < |children|
    ensures Placed(LayGrid(children, cols, cellW, x, y, gap, caps).blocks, children, i,
                   x + (cellW + gap) * (i % cols), RowTop(children, cols, cellW, x, y, gap, caps, i / cols), cellW)
    decreases i
  {
    hide LayCells, Placed;
    if |children| <= cols {
      CellsPlace(children, cellW, x, y, gap, caps, i);
      SmallIndex(i, cols);
    } else {
      var row := LayCells(children[..cols], cellW, x, y, gap, caps);
      var y' := y + row.height + gap;
      var rest := LayGrid(children[cols..], cols, cellW, x, y', gap, caps);
      if i < cols {
        SmallIndex(i, cols);
        CellsPlace(children[..cols], cellW, x, y, gap, caps, i);
        PlacedInRow(row.blocks, rest.blocks, children, cols, i, x + (cellW + gap) * i, y, cellW);
      } else {
        LargeIndex(i, cols);
        CellsCount(children[..cols], cellW, x, y, gap, caps);
        GridPlaces(children[cols..], cols, cellW, x, y', gap, caps, i - cols);
        PlacedInLaterRow(row.blocks, rest.blocks, children, cols, i,
                         x + (cellW + gap) * (i % cols), RowTop(children[cols..], cols, cellW, x, y', gap, caps, i / cols - 1), cellW);
      }
    }
  }

  lemma SmallIndex(i: nat, cols: int)
    requires i < cols
    ensures i / cols == 0 && i % cols == i
  {
  }

  lemma LargeIndex(i: nat, cols: int)
    requires 0 < cols <= i
    ensures i / cols > 0 && (i - cols) / cols == i / cols - 1 && (i - cols) % cols == i % cols
  {
    var q, m := i / cols, i % cols;
    assert i == q * cols + m;
    assert i - cols == (q - 1) * cols + m;
    QuotientIs(i - cols, cols, q - 1, m);
  }

  lemma QuotientIs(n: int, d: int, q: int, m: int)
    requires d > 0 && 0 <= m < d && n == q * d + m
    ensures n / d == q && n % d == m
  {
    var q', m' := n / d, n % d;
    assert n == q' * d + m';
    assert (q - q') * d == m' - m;
    MultiplesAreFar(q - q', d);
  }

  lemma MultiplesAreFar(k: int, d: int)
    requires d > 0
    ensures k >= 1 ==> k * d >= d
    ensures k <= -1 ==> k * d <= -d
  {
  }

  // ----- Where children end -----

  /** A column ends where its last child ends. */
  lemma {:induction false} ColumnEnds(children: seq<Node>, x: int, y: int, boxW: int, boxH: Option<int>, auto: Option<int>,
                                      gap: int, caps: Caps)
    requires children != []
    ensures var r := LayCol(children, x, y, boxW, boxH, auto, gap, caps); var last := |children| - 1;
      At(children, last) < |r.blocks| && y + r.height == OwnBlock(r.blocks, children, last).y + OwnBlock(r.blocks, children, last).h
    decreases |children|
  {
    hide LayNode, Resolve, OwnBlock, At;
    var w, h := Or(Resolve(children[0].w, boxW, None), boxW), Resolve(children[0].h, Or(boxH, 0), auto);
    var first := LayNode(children[0], x, y, w, h, caps, true);
    NodeIsFirst(children[0], x, y, w, h, caps, true);
    if |children| == 1 {
      FirstIs(first.blocks, [], children);
      assert first.blocks + [] == first.blocks;
    } else {
      var y' := y + first.height + gap;
      var rest := LayCol(children[1..], x, y', boxW, boxH, auto, gap, caps);
      NodeCount(children[0], x, y, w, h, caps, true);
      ColumnEnds(children[1..], x, y', boxW, boxH, auto, gap, caps);
      BehindIs(first.blocks, rest.blocks, children, |children| - 1);
    }
  }

  /** A row is as high as its highest child. */
  lemma {:induction false} RowIsAsHighAsItsChildren(children: seq<Node>, widths: seq<int>, x: int, y: int, boxH: Option<int>, gap: int, caps: Caps)
    requires |widths| == |children|
    ensures var row := LayRow(children, widths, x, y, boxH, gap, caps);
      && |row.blocks| == SizeOfAll(children)
      && (forall i :: 0 <= i < |children| ==> At(children, i) < |row.blocks| && OwnBlock(row.blocks, children, i).h <= row.height)
      && (row.height == 0 || exists i :: 0 <= i < |children| && At(children, i) < |row.blocks| && OwnBlock(row.blocks, children, i).h == row.height)
    decreases |children|
  {
    hide LayNode, OwnBlock, At, Resolve;
    RowCount(children, widths, x, y, boxH, gap, caps);
    if children != [] {
      var h := Resolve(children[0].h, Or(boxH, 0), boxH);
      var first := LayNode(children[0], x, y, widths[0], h, caps, true);
      var rest := LayRow(children[1..], widths[1..], x + widths[0] + gap, y, boxH, gap, caps);
      var bs := first.blocks + rest.blocks;
      NodeIsFirst(children[0], x, y, widths[0], h, caps, true);
      NodeCount(children[0], x, y, widths[0], h, caps, true);
      FirstIs(first.blocks, rest.blocks, children);
      RowIsAsHighAsItsChildren(children[1..], widths[1..], x + widths[0] + gap, y, boxH, gap, caps);
      forall i | 0 < i < |children|
        ensures At(children, i) < |bs| && OwnBlock(bs, children, i) == OwnBlock(rest.blocks, children[1..], i - 1)
      {
        BehindIs(first.blocks, rest.blocks, children, i);
      }
      if rest.height > first.height && rest.height != 0 {
        var k :| 0 <= k < |children[1..]| && At(children[1..], k) < |rest.blocks| && OwnBlock(rest.blocks, children[1..], k).h == rest.height;
        assert OwnBlock(bs, children, k + 1).h == rest.height;
      }
    }
  }

  /** A grid ends where its last row ends. */
  lemma {:induction false} GridEnds(children: seq<Node>, cols: int, cellW: int, x: int, y: int, gap: int, caps: Caps)
    requires cols > 0 && children != []
    ensures var last := (|children| - 1) / cols; var top := RowTop(children, cols, cellW, x, y, gap, caps, last);
      && cols * last < |children|
      && y + LayGrid(children, cols, cellW, x, y, gap, caps).height ==
         top + LayCells(children[cols * last..], cellW, x, top, gap, caps).height
    decreases |children|
  {
    hide LayCells;
    if |children| <= cols {
      SmallIndex(|children| - 1, cols);
      assert children[cols * 0..] == children;
    } else {
      var y' := y + LayCells(children[..cols], cellW, x, y, gap, caps).height + gap;
      GridEnds(children[cols..], cols, cellW, x, y', gap, caps);
      LargeIndex(|children| - 1, cols);
      var last := (|children| - 1) / cols;
      assert cols * last == cols + cols * (last - 1);
      assert children[cols..][cols * (last - 1)..] == children[cols * last..];
    }
  }

  /** A container is as high as it is told, or as high as its children if it is told nothing or zero. */
  lemma ContainerHeight(node: Node, x: int, y: int, w: int, h: Option<int>, caps: Caps, slotSized: bool)
    requires node.Container? && node.children != []
    ensures var r := LayNode(node, x, y, w, h, caps, slotSized);
      var told := if slotSized || node.h.Missing? then h else Resolve(node.h, Or(h, caps.height), None);
      var inner := LayChildren(node, x, y, BoxWidth(node, w, slotSized), told, caps);
      && r.blocks[1..] == inner.blocks
      && r.height == (if told.Some? && told.value != 0 then told.value else inner.height)
  {
    hide LayChildren;
  }

  // ----- Estimates -----

  /** A leaf without a height is estimated in rows of text, one more for each further line, item or heading rank. */
  lemma EstimatesCountRows(caps: Caps, n: nat, level: int)
    ensures var row := EstimateHeight(OtherText, caps);
      && row >= 1 && (caps.charRows > 0 && caps.height >= caps.charRows ==>
           row * caps.charRows <= caps.height < (row + 1) * caps.charRows)
      && EstimateHeight(Code(0), caps) == row && EstimateHeight(Code(n + 1), caps) == EstimateHeight(Code(n), caps) + row
      && EstimateHeight(List(0), caps) == EstimateHeight(List(1), caps) == row
      && (n > 0 ==> EstimateHeight(List(n + 1), caps) == EstimateHeight(List(n), caps) + row)
      && (level >= 3 ==> EstimateHeight(Heading(level), caps) == row)
      && (level < 3 ==> EstimateHeight(Heading(level), caps) == EstimateHeight(Heading(level + 1), caps) + row)
      && 2 * EstimateHeight(Rule, caps) <= row + 1 && (row >= 2 ==> row - 1 <= 2 * EstimateHeight(Rule, caps))
  {
    var row := Max(1, caps.height / Max(1, caps.charRows));
    RowHeight(caps);
    OneRowMore(row, n);
    OneRowMore(row, Max(0, 3 - level));
    assert Times(row, 1) == row;
  }

  /** An image alone in its paragraph is as high as it says, `h` before `height`, at least a pixel, or one row. */
  lemma ImagesAreAsHighAsTheySay(caps: Caps, h: Size, height: Size)
    ensures var row := EstimateHeight(OtherText, caps); var r := EstimateHeight(LoneImage(h, height), caps);
      && (h.Missing? && height.Missing? ==> r == row)
      && (h.Missing? && !height.Missing? ==> r == EstimateHeight(LoneImage(height, Missing), caps))
      && (h.Pixels? ==> r == Max(1, h.n))
      && (h.Percent? && caps.height * h.p >= 200 ==> 100 * r <= caps.height * h.p < 100 * r + 100)
  {
    if h.Percent? {
      var v := caps.height * h.p;
      assert v == 100 * (v / 100) + v % 100;
    }
  }

  lemma RowHeight(caps: Caps)
    ensures caps.charRows > 0 && caps.height >= caps.charRows ==>
      var row := caps.height / caps.charRows; 1 <= row && row * caps.charRows <= caps.height < (row + 1) * caps.charRows
  {
    if caps.charRows > 0 && caps.height >= caps.charRows {
      var q, m := caps.height / caps.charRows, caps.height % caps.charRows;
      assert caps.height == q * caps.charRows + m;
      MultiplesAreFar(q, caps.charRows);
      assert (q + 1) * caps.charRows == q * caps.charRows + caps.charRows;
    }
  }

  lemma OneRowMore(row: int, n: int)
    ensures Times(row, n + 1) == Times(row, n) + row && Times(row, n + 2) == Times(row, n + 1) + row
  {
  }
}

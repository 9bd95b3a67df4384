/** Geometric soundness of the layout: exactly when every container's children fit its box. */
module LayoutSound {
  import opened Basics
  import opened Layout

  // ----- What the theorem is about -----

  /** No height attribute, no negative gap and no negative pixel width anywhere. */
  predicate Plain(node: Node) {
    && node.h.Missing?
    && (node.w.Pixels? ==> node.w.n >= 0)
    && (node.Container? ==> node.gap >= 0 && forall i :: 0 <= i < |node.children| ==> Plain(node.children[i]))
  }

  predicate AllPlain(nodes: seq<Node>) {
    forall i :: 0 <= i < |nodes| ==> Plain(nodes[i])
  }

  function SizeOf(node: Node): nat
    decreases node, 1
  {
    if node.Leaf? then 1 else 1 + SizeOfAll(node.children)
  }

  function SizeOfAll(nodes: seq<Node>): nat
    decreases nodes, 0
  {
    if nodes == [] then 0 else SizeOf(nodes[0]) + SizeOfAll(nodes[1..])
  }

  datatype Rect = Rect(x: int, y: int, w: int, h: int)

  function RectOf(b: Block): Rect { Rect(b.x, b.y, b.w, b.h) }

  predicate Inside(a: Rect, b: Rect) {
    b.x <= a.x && a.x + a.w <= b.x + b.w && b.y <= a.y && a.y + a.h <= b.y + b.h
  }

  predicate Apart(a: Rect, b: Rect) {
    a.x + a.w <= b.x || b.x + b.w <= a.x || a.y + a.h <= b.y || b.y + b.h <= a.y
  }

  /** A container block is followed by the blocks of its subtree and encloses each of them. */
  predicate EnclosesAt(bs: seq<Block>, i: nat, k: nat)
    requires i < k < |bs|
  {
    k < i + SizeOf(bs[i].node) ==> Inside(RectOf(bs[k]), RectOf(bs[i]))
  }

  ghost predicate Encloses(bs: seq<Block>) {
    forall i, k :: 0 <= i < k < |bs| ==> EnclosesAt(bs, i, k)
  }

  /** The same in the horizontal direction alone. */
  predicate EnclosesXAt(bs: seq<Block>, i: nat, k: nat)
    requires i < k < |bs|
  {
    k < i + SizeOf(bs[i].node) ==> bs[i].x <= bs[k].x && bs[k].x + bs[k].w <= bs[i].x + bs[i].w
  }

  ghost predicate EnclosesX(bs: seq<Block>) {
    forall i, k :: 0 <= i < k < |bs| ==> EnclosesXAt(bs, i, k)
  }

  predicate ApartAt(bs: seq<Block>, i: nat, k: nat)
    requires i < k < |bs|
  {
    bs[i].node.Leaf? && bs[k].node.Leaf? ==> Apart(RectOf(bs[i]), RectOf(bs[k]))
  }

  ghost predicate LeavesApart(bs: seq<Block>) {
    forall i, k :: 0 <= i < k < |bs| ==> ApartAt(bs, i, k)
  }

  ghost predicate WithinPanel(bs: seq<Block>, width: int) {
    forall i :: 0 <= i < |bs| ==> 0 <= bs[i].x && 0 <= bs[i].w && bs[i].x + bs[i].w <= width && 0 <= bs[i].y && 0 <= bs[i].h
  }

  ghost predicate Sound(bs: seq<Block>, width: int) {
    WithinPanel(bs, width) && Encloses(bs) && LeavesApart(bs)
  }

  // ----- The condition -----

  function Sum(ws: seq<int>): int {
    if ws == [] then 0 else ws[0] + Sum(ws[1..])
  }

  /** The width each child of a container is given. */
  function SlotWidths(node: Node, boxW: int): (r: seq<int>)
    requires node.Container?
    ensures |r| == |node.children|
  {
    if node.kind.Row? then RowWidths(node.children, boxW, node.gap)
    else if node.kind.Grid? && node.cols > 0 then
      seq(|node.children|, i => CellWidth(boxW, node.gap, node.cols))
    else Widths(node.children, boxW, boxW)
  }

  /** How far to the right of its left edge a container's children reach. */
  function Reach(node: Node, boxW: int): int
    requires node.Container? && node.children != []
  {
    var n := |node.children|;
    if node.kind.Row? then Sum(RowWidths(node.children, boxW, node.gap)) + node.gap * (n - 1)
    else if node.kind.Grid? && node.cols > 0 then
      var cell := CellWidth(boxW, node.gap, node.cols);
      cell + (cell + node.gap) * ((if n < node.cols then n else node.cols) - 1)
    else MaxOf(Widths(node.children, boxW, boxW))
  }

  function MaxOf(ws: seq<int>): int
    requires ws != []
  {
    if |ws| == 1 then ws[0] else Max(ws[0], MaxOf(ws[1..]))
  }

  /** In every container of the subtree the children reach no further than the box. */
  predicate Fits(node: Node, w: int, slotSized: bool)
    decreases node, 1
  {
    if node.Leaf? || node.children == [] then true
    else
      var boxW := BoxWidth(node, w, slotSized);
      var widths := SlotWidths(node, boxW);
      Reach(node, boxW) <= boxW && forall i :: 0 <= i < |node.children| ==> Fits(node.children[i], widths[i], true)
  }

  /** The condition on a whole document for a panel of the given width. */
  predicate DocumentFits(nodes: seq<Node>, width: int) {
    nodes == [] ||
    (BoxWidth(nodes[0], width, false) <= width && Fits(nodes[0], width, false) && DocumentFits(nodes[1..], width))
  }

  // ----- Gluing lists of blocks -----

  ghost predicate Within(bs: seq<Block>, r: Rect) {
    forall i :: 0 <= i < |bs| ==> Inside(RectOf(bs[i]), r) && 0 <= bs[i].w && 0 <= bs[i].h
  }

  /** No subtree's blocks run past the end of the list. */
  ghost predicate Nested(bs: seq<Block>) {
    forall i :: 0 <= i < |bs| ==> i + SizeOf(bs[i].node) <= |bs|
  }

  ghost predicate Good(bs: seq<Block>, r: Rect) {
    Within(bs, r) && Nested(bs) && Encloses(bs) && LeavesApart(bs)
  }

  lemma WidenGood(bs: seq<Block>, r: Rect, wide: Rect)
    requires Good(bs, r) && Inside(r, wide)
    ensures Good(bs, wide)
  {
  }

  lemma JoinEncloses(a: seq<Block>, b: seq<Block>)
    requires Nested(a) && Encloses(a) && Encloses(b)
    ensures Encloses(a + b)
  {
    forall i, k | 0 <= i < k < |a + b|
      ensures EnclosesAt(a + b, i, k)
    {
      if k < |a| {
        assert EnclosesAt(a, i, k);
      } else if i >= |a| {
        assert EnclosesAt(b, i - |a|, k - |a|);
      }
    }
  }

  lemma JoinLeavesApart(a: seq<Block>, ra: Rect, b: seq<Block>, rb: Rect)
    requires Within(a, ra) && Within(b, rb) && LeavesApart(a) && LeavesApart(b)
    requires ra.x + ra.w <= rb.x || ra.y + ra.h <= rb.y
    ensures LeavesApart(a + b)
  {
    forall i, k | 0 <= i < k < |a + b|
      ensures ApartAt(a + b, i, k)
    {
      if k < |a| {
        assert ApartAt(a, i, k);
      } else if i >= |a| {
        assert ApartAt(b, i - |a|, k - |a|);
      } else {
        assert Inside(RectOf(a[i]), ra) && Inside(RectOf(b[k - |a|]), rb);
      }
    }
  }

  /** Two lists side by side or one above the other. */
  lemma JoinGood(a: seq<Block>, ra: Rect, b: seq<Block>, rb: Rect, r: Rect)
    requires Good(a, ra) && Good(b, rb) && Inside(ra, r) && Inside(rb, r)
    requires ra.x + ra.w <= rb.x || ra.y + ra.h <= rb.y
    ensures Good(a + b, r)
  {
    JoinEncloses(a, b);
    JoinLeavesApart(a, ra, b, rb);
    WidenGood(a, ra, r);
    WidenGood(b, rb, r);
  }

  /** A container's own block in front of the blocks of its children. */
  lemma WrapGood(node: Node, bs: seq<Block>, r: Rect)
    requires node.Container? && Good(bs, r) && SizeOf(node) == 1 + |bs| && r.w >= 0 && r.h >= 0
    ensures Good([Block(r.x, r.y, r.w, r.h, node)] + bs, r)
  {
    var all := [Block(r.x, r.y, r.w, r.h, node)] + bs;
    forall i, k | 0 <= i < k < |all|
      ensures EnclosesAt(all, i, k) && ApartAt(all, i, k)
    {
      if i > 0 {
        assert EnclosesAt(bs, i - 1, k - 1) && ApartAt(bs, i - 1, k - 1);
      }
    }
    forall i | 0 <= i < |all|
      ensures i + SizeOf(all[i].node) <= |all|
    {
      assert i > 0 ==> all[i] == bs[i - 1];
    }
  }

  lemma NothingGood(r: Rect)
    ensures Good([], r)
  {
  }

  // ----- A fitting document is sound -----

  ghost predicate AllFit(children: seq<Node>, widths: seq<int>)
    requires |widths| == |children|
  {
    forall i :: 0 <= i < |children| ==> Fits(children[i], widths[i], true)
  }

  predicate NonNegative(ws: seq<int>) {
    forall i :: 0 <= i < |ws| ==> ws[i] >= 0
  }

  lemma {:induction false} WidthsNonNegative(children: seq<Node>, inner: int, auto: int)
    requires AllPlain(children) && auto >= 0
    ensures NonNegative(Widths(children, inner, auto))
  {
    if children != [] {
      assert Plain(children[0]);
      WidthsNonNegative(children[1..], inner, auto);
      var ws := Widths(children, inner, auto);
      assert forall i :: 1 <= i < |ws| ==> ws[i] == Widths(children[1..], inner, auto)[i - 1];
    }
  }

  lemma GapStep(gap: int, n: nat)
    requires n >= 2
    ensures gap * (n - 1) == gap + gap * (n - 2)
  {
  }

  lemma NodeGood(node: Node, x: int, y: int, w: int, caps: Caps, slotSized: bool)
    requires Plain(node) && w >= 0 && Fits(node, w, slotSized)
    ensures var r := LayNode(node, x, y, w, None, caps, slotSized);
      && r.height >= 0 && BoxWidth(node, w, slotSized) >= 0
      && |r.blocks| == SizeOf(node)
      && Good(r.blocks, Rect(x, y, BoxWidth(node, w, slotSized), r.height))
    decreases node, 3
  {
    var r := LayNode(node, x, y, w, None, caps, slotSized);
    if node.Container? {
      BoxWidthNonNegative(node, w, slotSized);
      var boxW := BoxWidth(node, w, slotSized);
      var box := Rect(x, y, boxW, r.height);
      if node.children == [] {
        NothingGood(box);
        WrapGood(node, [], box);
        assert r.blocks == [Block(x, y, boxW, 0, node)] + [];
      } else {
        ChildrenGood(node, x, y, w, caps, slotSized);
        var inner := LayChildren(node, x, y, boxW, None, caps);
        WrapGood(node, inner.blocks, box);
      }
    }
  }

  lemma BoxWidthNonNegative(node: Node, w: int, slotSized: bool)
    requires Plain(node) && w >= 0
    ensures BoxWidth(node, w, slotSized) >= 0
  {
  }

  lemma ChildrenGood(node: Node, x: int, y: int, w: int, caps: Caps, slotSized: bool)
    requires node.Container? && node.children != []
    requires Plain(node) && w >= 0 && Fits(node, w, slotSized)
    ensures var boxW := BoxWidth(node, w, slotSized);
      var r := LayChildren(node, x, y, boxW, None, caps);
      && r.height >= 0 && |r.blocks| == SizeOfAll(node.children)
      && Good(r.blocks, Rect(x, y, boxW, r.height))
    decreases node, 2
  {
    hide Good, LayRow, LayCol, LayGrid;
    var boxW := BoxWidth(node, w, slotSized);
    BoxWidthNonNegative(node, w, slotSized);
    var children, gap := node.children, node.gap;
    var r := LayChildren(node, x, y, boxW, None, caps);
    var box := Rect(x, y, boxW, r.height);
    if node.kind.Row? {
      RowWidthsNonNegative(children, boxW, gap);
      RowGood(children, RowWidths(children, boxW, gap), x, y, gap, caps);
      WidenGood(r.blocks, Rect(x, y, Reach(node, boxW), r.height), box);
    } else if node.kind.Grid? && node.cols > 0 {
      GridGood(children, node.cols, CellWidth(boxW, gap, node.cols), x, y, gap, caps);
      WidenGood(r.blocks, Rect(x, y, Reach(node, boxW), r.height), box);
    } else {
      WidthsNonNegative(children, boxW, boxW);
      MaxOfBounds(Widths(children, boxW, boxW));
      ColGood(children, x, y, boxW, gap, caps);
    }
  }

  lemma RowWidthsNonNegative(children: seq<Node>, boxW: int, gap: int)
    requires AllPlain(children)
    ensures NonNegative(RowWidths(children, boxW, gap))
  {
    var inner := Max(0, boxW - gap * (|children| - 1));
    WidthsNonNegative(children, inner, Share(inner - ExplicitTotal(children, inner), AutoCount(children)));
  }

  lemma {:induction false} MaxOfBounds(ws: seq<int>)
    requires ws != []
    ensures forall i :: 0 <= i < |ws| ==> ws[i] <= MaxOf(ws)
    ensures exists i :: 0 <= i < |ws| && ws[i] == MaxOf(ws)
  {
    if |ws| > 1 {
      MaxOfBounds(ws[1..]);
      assert forall i :: 1 <= i < |ws| ==> ws[i] == ws[1..][i - 1];
      var i :| 0 <= i < |ws[1..]| && ws[1..][i] == MaxOf(ws[1..]);
      assert ws[i + 1] == MaxOf(ws[1..]);
      assert ws[0] == MaxOf(ws) || ws[i + 1] == MaxOf(ws);
    } else {
      assert ws[0] == MaxOf(ws);
    }
  }

  lemma RowGood(children: seq<Node>, widths: seq<int>, x: int, y: int, gap: int, caps: Caps)
    requires |widths| == |children| && children != [] && gap >= 0
    requires AllPlain(children) && NonNegative(widths) && AllFit(children, widths)
    ensures var r := LayRow(children, widths, x, y, None, gap, caps);
      && r.height >= 0 && |r.blocks| == SizeOfAll(children)
      && Good(r.blocks, Rect(x, y, Sum(widths) + gap * (|children| - 1), r.height))
    decreases children, 0
  {
    hide Good, Fits, LayNode;
    var r := LayRow(children, widths, x, y, None, gap, caps);
    var first := LayNode(children[0], x, y, widths[0], None, caps, true);
    var rest := LayRow(children[1..], widths[1..], x + widths[0] + gap, y, None, gap, caps);
    assert Plain(children[0]);
    NodeGood(children[0], x, y, widths[0], caps, true);
    if |children| == 1 {
      assert children[1..] == [] && r.blocks == first.blocks;
      WidenGood(first.blocks, Rect(x, y, widths[0], first.height), Rect(x, y, widths[0], r.height));
    } else {
      RowGood(children[1..], widths[1..], x + widths[0] + gap, y, gap, caps);
      GapStep(gap, |children|);
      SumNonNegative(widths[1..]);
      var restW := Sum(widths[1..]) + gap * (|children| - 2);
      JoinGood(first.blocks, Rect(x, y, widths[0], first.height),
               rest.blocks, Rect(x + widths[0] + gap, y, restW, rest.height),
               Rect(x, y, widths[0] + gap + restW, r.height));
    }
  }

  lemma {:induction false} SumNonNegative(ws: seq<int>)
    requires NonNegative(ws)
    ensures Sum(ws) >= 0
  {
    if ws != [] {
      SumNonNegative(ws[1..]);
    }
  }

  lemma ColGood(children: seq<Node>, x: int, y: int, boxW: int, gap: int, caps: Caps)
    requires children != [] && gap >= 0
    requires AllPlain(children)
    requires var ws := Widths(children, boxW, boxW);
      NonNegative(ws) && AllFit(children, ws) && forall i :: 0 <= i < |ws| ==> ws[i] <= boxW
    ensures var r := LayCol(children, x, y, boxW, None, None, gap, caps);
      && r.height >= 0 && |r.blocks| == SizeOfAll(children)
      && Good(r.blocks, Rect(x, y, boxW, r.height))
    decreases children, 0
  {
    hide Good, Fits, LayNode;
    var r := LayCol(children, x, y, boxW, None, None, gap, caps);
    var ws := Widths(children, boxW, boxW);
    var first := LayNode(children[0], x, y, ws[0], None, caps, true);
    assert Plain(children[0]) && ws[1..] == Widths(children[1..], boxW, boxW);
    NodeGood(children[0], x, y, ws[0], caps, true);
    WidenGood(first.blocks, Rect(x, y, ws[0], first.height), Rect(x, y, boxW, first.height));
    if |children| > 1 {
      var y' := y + first.height + gap;
      ColGood(children[1..], x, y', boxW, gap, caps);
      var rest := LayCol(children[1..], x, y', boxW, None, None, gap, caps);
      JoinGood(first.blocks, Rect(x, y, boxW, first.height),
               rest.blocks, Rect(x, y', boxW, rest.height), Rect(x, y, boxW, r.height));
    }
  }

  function CellsReach(n: nat, cellW: int, gap: int): int {
    cellW + (cellW + gap) * (n - 1)
  }

  lemma CellsGrow(n: nat, m: nat, cellW: int, gap: int)
    requires 1 <= n <= m && cellW >= 0 && gap >= 0
    ensures 0 <= CellsReach(n, cellW, gap) <= CellsReach(m, cellW, gap)
    ensures n >= 2 ==> CellsReach(n, cellW, gap) == (cellW + gap) + CellsReach(n - 1, cellW, gap)
  {
    assert (cellW + gap) * (n - 1) <= (cellW + gap) * (m - 1);
    assert (cellW + gap) * (n - 1) >= 0;
  }

  lemma OneCell(cellW: int, gap: int)
    ensures CellsReach(1, cellW, gap) == cellW
  {
  }

  ghost predicate AllFitCell(children: seq<Node>, cellW: int) {
    forall i :: 0 <= i < |children| ==> Fits(children[i], cellW, true)
  }

  lemma CellsGood(children: seq<Node>, cellW: int, x: int, y: int, gap: int, caps: Caps)
    requires children != [] && gap >= 0 && cellW >= 0
    requires AllPlain(children) && AllFitCell(children, cellW)
    ensures var r := LayCells(children, cellW, x, y, gap, caps);
      && r.height >= 0 && |r.blocks| == SizeOfAll(children)
      && Good(r.blocks, Rect(x, y, CellsReach(|children|, cellW, gap), r.height))
    decreases children, 0
  {
    hide Good, Fits, LayNode, CellsReach;
    var r := LayCells(children, cellW, x, y, gap, caps);
    var first := LayNode(children[0], x, y, cellW, None, caps, true);
    assert Plain(children[0]);
    NodeGood(children[0], x, y, cellW, caps, true);
    OneCell(cellW, gap);
    var x' := x + (cellW + gap);
    var rest := LayCells(children[1..], cellW, x', y, gap, caps);
    if |children| == 1 {
      assert children[1..] == [] && r.blocks == first.blocks;
      WidenGood(first.blocks, Rect(x, y, cellW, first.height), Rect(x, y, cellW, r.height));
    } else {
      CellsGood(children[1..], cellW, x', y, gap, caps);
      CellsGrow(|children|, |children|, cellW, gap);
      CellsGrow(|children| - 1, |children|, cellW, gap);
      JoinGood(first.blocks, Rect(x, y, cellW, first.height),
               rest.blocks, Rect(x', y, CellsReach(|children| - 1, cellW, gap), rest.height),
               Rect(x, y, CellsReach(|children|, cellW, gap), r.height));
    }
  }

  lemma {:induction false} SizeOfSplit(nodes: seq<Node>, k: nat)
    requires k <= |nodes|
    ensures SizeOfAll(nodes) == SizeOfAll(nodes[..k]) + SizeOfAll(nodes[k..])
  {
    if k > 0 {
      SizeOfSplit(nodes[1..], k - 1);
      assert nodes[..k][1..] == nodes[1..][..k - 1] && nodes[1..][k - 1..] == nodes[k..];
    }
  }

  lemma GridGood(children: seq<Node>, cols: int, cellW: int, x: int, y: int, gap: int, caps: Caps)
    requires children != [] && cols > 0 && gap >= 0 && cellW >= 0
    requires AllPlain(children) && AllFitCell(children, cellW)
    ensures var r := LayGrid(children, cols, cellW, x, y, gap, caps);
      var used := if |children| < cols then |children| else cols;
      && r.height >= 0 && |r.blocks| == SizeOfAll(children)
      && Good(r.blocks, Rect(x, y, CellsReach(used, cellW, gap), r.height))
    decreases children, 1
  {
    hide Good, Fits, LayNode;
    if |children| <= cols {
      CellsGood(children, cellW, x, y, gap, caps);
    } else {
      var r := LayGrid(children, cols, cellW, x, y, gap, caps);
      var width := CellsReach(cols, cellW, gap);
      var first := LayCells(children[..cols], cellW, x, y, gap, caps);
      CellsGood(children[..cols], cellW, x, y, gap, caps);
      var y' := y + first.height + gap;
      var rest := LayGrid(children[cols..], cols, cellW, x, y', gap, caps);
      GridGood(children[cols..], cols, cellW, x, y', gap, caps);
      SizeOfSplit(children, cols);
      var used := if |children[cols..]| < cols then |children[cols..]| else cols;
      CellsGrow(used, cols, cellW, gap);
      JoinGood(first.blocks, Rect(x, y, width, first.height),
               rest.blocks, Rect(x, y', CellsReach(used, cellW, gap), rest.height),
               Rect(x, y, width, r.height));
    }
  }

  // ----- A sound layout comes from a fitting document -----

  ghost predicate RightOf(bs: seq<Block>, limit: int) {
    forall i :: 0 <= i < |bs| ==> bs[i].x + bs[i].w <= limit
  }

  lemma SplitEnclosesX(a: seq<Block>, b: seq<Block>)
    requires EnclosesX(a + b)
    ensures EnclosesX(a) && EnclosesX(b)
  {
    forall i, k | 0 <= i < k < |a|
      ensures EnclosesXAt(a, i, k)
    {
      assert EnclosesXAt(a + b, i, k);
    }
    forall i, k | 0 <= i < k < |b|
      ensures EnclosesXAt(b, i, k)
    {
      assert EnclosesXAt(a + b, |a| + i, |a| + k);
    }
  }

  lemma SplitRightOf(a: seq<Block>, b: seq<Block>, limit: int)
    requires RightOf(a + b, limit)
    ensures RightOf(a, limit) && RightOf(b, limit)
  {
    assert forall i :: 0 <= i < |a| ==> (a + b)[i] == a[i];
    assert forall i :: 0 <= i < |b| ==> (a + b)[|a| + i] == b[i];
  }

  /** Every subtree emits as many blocks as it has nodes, its own first. */
  lemma Shape(node: Node, x: int, y: int, w: int, h: Option<int>, caps: Caps, slotSized: bool)
    ensures var bs := LayNode(node, x, y, w, h, caps, slotSized).blocks;
      |bs| == SizeOf(node) && bs[0].node == node && bs[0].x == x && bs[0].w == BoxWidth(node, w, slotSized)
    decreases node, 2
  {
    if node.Container? && node.children != [] {
      ShapeAll(node, x, y, BoxWidth(node, w, slotSized), BoxHeight(node, h, caps, slotSized), caps);
    }
  }

  lemma ShapeAll(node: Node, x: int, y: int, boxW: int, boxH: Option<int>, caps: Caps)
    requires node.Container? && node.children != []
    ensures |LayChildren(node, x, y, boxW, boxH, caps).blocks| == SizeOfAll(node.children)
    decreases node, 1
  {
    var children, gap := node.children, node.gap;
    if node.kind.Row? {
      ShapeRow(children, RowWidths(children, boxW, gap), x, y, boxH, gap, caps);
    } else if node.kind.Grid? && node.cols > 0 {
      ShapeGrid(children, node.cols, CellWidth(boxW, gap, node.cols), x, y, gap, caps);
    } else {
      ShapeCol(children, x, y, boxW, boxH, AutoHeight(children, boxH, gap), gap, caps);
    }
  }

  lemma ShapeRow(children: seq<Node>, widths: seq<int>, x: int, y: int, boxH: Option<int>, gap: int, caps: Caps)
    requires |widths| == |children|
    ensures |LayRow(children, widths, x, y, boxH, gap, caps).blocks| == SizeOfAll(children)
    decreases children, 0
  {
    hide LayNode;
    if children != [] {
      Shape(children[0], x, y, widths[0], Resolve(children[0].h, Or(boxH, 0), boxH), caps, true);
      ShapeRow(children[1..], widths[1..], x + widths[0] + gap, y, boxH, gap, caps);
    }
  }

  lemma ShapeCol(children: seq<Node>, x: int, y: int, boxW: int, boxH: Option<int>, auto: Option<int>, gap: int, caps: Caps)
    ensures |LayCol(children, x, y, boxW, boxH, auto, gap, caps).blocks| == SizeOfAll(children)
    decreases children, 0
  {
    hide LayNode;
    if children != [] {
      var w := Or(Resolve(children[0].w, boxW, None), boxW);
      var h := Resolve(children[0].h, Or(boxH, 0), auto);
      Shape(children[0], x, y, w, h, caps, true);
      if |children| == 1 {
        assert SizeOfAll(children[1..]) == 0;
      } else {
        ShapeCol(children[1..], x, y + LayNode(children[0], x, y, w, h, caps, true).height + gap, boxW, boxH, auto, gap, caps);
      }
    }
  }

  lemma ShapeCells(children: seq<Node>, cellW: int, x: int, y: int, gap: int, caps: Caps)
    ensures |LayCells(children, cellW, x, y, gap, caps).blocks| == SizeOfAll(children)
    decreases children, 0
  {
    hide LayNode;
    if children != [] {
      Shape(children[0], x, y, cellW, None, caps, true);
      ShapeCells(children[1..], cellW, x + (cellW + gap), y, gap, caps);
    }
  }

  lemma ShapeGrid(children: seq<Node>, cols: int, cellW: int, x: int, y: int, gap: int, caps: Caps)
    requires cols > 0
    ensures |LayGrid(children, cols, cellW, x, y, gap, caps).blocks| == SizeOfAll(children)
    decreases children, 1
  {
    hide LayCells;
    if |children| <= cols {
      ShapeCells(children, cellW, x, y, gap, caps);
    } else {
      ShapeCells(children[..cols], cellW, x, y, gap, caps);
      var first := LayCells(children[..cols], cellW, x, y, gap, caps);
      ShapeGrid(children[cols..], cols, cellW, x, y + first.height + gap, gap, caps);
      SizeOfSplit(children, cols);
    }
  }

  /** Containers enclose their subtrees only when the children fit. */
  lemma EnclosedFits(node: Node, x: int, y: int, w: int, caps: Caps, slotSized: bool)
    requires Plain(node)
    requires EnclosesX(LayNode(node, x, y, w, None, caps, slotSized).blocks)
    ensures Fits(node, w, slotSized)
    decreases node, 3
  {
    if node.Container? && node.children != [] {
      var boxW := BoxWidth(node, w, slotSized);
      var inner := LayChildren(node, x, y, boxW, None, caps);
      var own := [Block(x, y, boxW, inner.height, node)];
      var all := own + inner.blocks;
      ShapeAll(node, x, y, boxW, None, caps);
      forall i | 0 <= i < |inner.blocks|
        ensures inner.blocks[i].x + inner.blocks[i].w <= x + boxW
      {
        assert EnclosesXAt(all, 0, i + 1) && all[i + 1] == inner.blocks[i];
      }
      SplitEnclosesX(own, inner.blocks);
      ChildrenFit(node, x, y, boxW, caps);
    }
  }

  lemma ChildrenFit(node: Node, x: int, y: int, boxW: int, caps: Caps)
    requires node.Container? && node.children != [] && Plain(node)
    requires var bs := LayChildren(node, x, y, boxW, None, caps).blocks; EnclosesX(bs) && RightOf(bs, x + boxW)
    ensures Reach(node, boxW) <= boxW && AllFit(node.children, SlotWidths(node, boxW))
    decreases node, 2
  {
    hide LayRow, LayCol, LayGrid, EnclosesX, RightOf;
    var children, gap := node.children, node.gap;
    if node.kind.Row? {
      RowFits(children, RowWidths(children, boxW, gap), x, y, gap, caps, x + boxW);
    } else if node.kind.Grid? && node.cols > 0 {
      GridFits(children, node.cols, CellWidth(boxW, gap, node.cols), x, y, gap, caps, x + boxW);
    } else {
      ColFits(children, x, y, boxW, gap, caps, x + boxW);
      MaxOfBounds(Widths(children, boxW, boxW));
    }
  }

  lemma RowFits(children: seq<Node>, widths: seq<int>, x: int, y: int, gap: int, caps: Caps, limit: int)
    requires |widths| == |children| && children != [] && AllPlain(children)
    requires var bs := LayRow(children, widths, x, y, None, gap, caps).blocks; EnclosesX(bs) && RightOf(bs, limit)
    ensures x + Sum(widths) + gap * (|children| - 1) <= limit
    ensures AllFit(children, widths)
    decreases children, 0
  {
    hide LayNode, EnclosesX, Fits;
    assert Plain(children[0]);
    var first := LayNode(children[0], x, y, widths[0], None, caps, true);
    var rest := LayRow(children[1..], widths[1..], x + widths[0] + gap, y, None, gap, caps);
    SplitEnclosesX(first.blocks, rest.blocks);
    SplitRightOf(first.blocks, rest.blocks, limit);
    Shape(children[0], x, y, widths[0], None, caps, true);
    EnclosedFits(children[0], x, y, widths[0], caps, true);
    assert first.blocks[0].x + first.blocks[0].w <= limit;
    if |children| > 1 {
      RowFits(children[1..], widths[1..], x + widths[0] + gap, y, gap, caps, limit);
      GapStep(gap, |children|);
      assert forall i :: 1 <= i < |children| ==> children[i] == children[1..][i - 1] && widths[i] == widths[1..][i - 1];
    }
  }

  lemma ColFits(children: seq<Node>, x: int, y: int, boxW: int, gap: int, caps: Caps, limit: int)
    requires children != [] && AllPlain(children)
    requires var bs := LayCol(children, x, y, boxW, None, None, gap, caps).blocks; EnclosesX(bs) && RightOf(bs, limit)
    ensures var ws := Widths(children, boxW, boxW);
      AllFit(children, ws) && forall i :: 0 <= i < |ws| ==> x + ws[i] <= limit
    decreases children, 0
  {
    hide LayNode, EnclosesX, Fits;
    var ws := Widths(children, boxW, boxW);
    var first := LayNode(children[0], x, y, ws[0], None, caps, true);
    assert Plain(children[0]);
    Shape(children[0], x, y, ws[0], None, caps, true);
    if |children| > 1 {
      var rest := LayCol(children[1..], x, y + first.height + gap, boxW, None, None, gap, caps);
      SplitEnclosesX(first.blocks, rest.blocks);
      SplitRightOf(first.blocks, rest.blocks, limit);
      ColFits(children[1..], x, y + first.height + gap, boxW, gap, caps, limit);
      var ws' := Widths(children[1..], boxW, boxW);
      assert forall i :: 1 <= i < |children| ==> children[i] == children[1..][i - 1] && ws[i] == ws'[i - 1];
    }
    EnclosedFits(children[0], x, y, ws[0], caps, true);
    assert first.blocks[0].x + first.blocks[0].w <= limit;
  }

  lemma CellsFit(children: seq<Node>, cellW: int, x: int, y: int, gap: int, caps: Caps, limit: int)
    requires children != [] && AllPlain(children) && cellW >= 0 && gap >= 0
    requires var bs := LayCells(children, cellW, x, y, gap, caps).blocks; EnclosesX(bs) && RightOf(bs, limit)
    ensures x + CellsReach(|children|, cellW, gap) <= limit
    ensures AllFitCell(children, cellW)
    decreases children, 0
  {
    hide LayNode, EnclosesX, Fits;
    var x' := x + (cellW + gap);
    var first := LayNode(children[0], x, y, cellW, None, caps, true);
    var rest := LayCells(children[1..], cellW, x', y, gap, caps);
    assert Plain(children[0]);
    SplitEnclosesX(first.blocks, rest.blocks);
    SplitRightOf(first.blocks, rest.blocks, limit);
    Shape(children[0], x, y, cellW, None, caps, true);
    EnclosedFits(children[0], x, y, cellW, caps, true);
    assert first.blocks[0].x + first.blocks[0].w <= limit;
    if |children| > 1 {
      CellsFit(children[1..], cellW, x', y, gap, caps, limit);
      CellsGrow(|children|, |children|, cellW, gap);
      assert forall i :: 1 <= i < |children| ==> children[i] == children[1..][i - 1];
    }
  }

  lemma GridFits(children: seq<Node>, cols: int, cellW: int, x: int, y: int, gap: int, caps: Caps, limit: int)
    requires children != [] && AllPlain(children) && cols > 0 && cellW >= 0 && gap >= 0
    requires var bs := LayGrid(children, cols, cellW, x, y, gap, caps).blocks; EnclosesX(bs) && RightOf(bs, limit)
    ensures x + CellsReach(if |children| < cols then |children| else cols, cellW, gap) <= limit
    ensures AllFitCell(children, cellW)
    decreases children, 1
  {
    hide LayCells, EnclosesX, RightOf, Fits;
    if |children| <= cols {
      CellsFit(children, cellW, x, y, gap, caps, limit);
    } else {
      var first := LayCells(children[..cols], cellW, x, y, gap, caps);
      var y' := y + first.height + gap;
      var rest := LayGrid(children[cols..], cols, cellW, x, y', gap, caps);
      SplitEnclosesX(first.blocks, rest.blocks);
      SplitRightOf(first.blocks, rest.blocks, limit);
      CellsFit(children[..cols], cellW, x, y, gap, caps, limit);
      GridFits(children[cols..], cols, cellW, x, y', gap, caps, limit);
      forall i | 0 <= i < |children|
        ensures Fits(children[i], cellW, true)
      {
        assert if i < cols then children[i] == children[..cols][i] else children[i] == children[cols..][i - cols];
      }
    }
  }

  // ----- The theorem -----

  function DocumentHeight(nodes: seq<Node>, y: int, caps: Caps): int {
    if nodes == [] then 0
    else
      var h := LayNode(nodes[0], 0, y, caps.width, None, caps, false).height;
      h + PAD + DocumentHeight(nodes[1..], y + h + PAD, caps)
  }

  lemma {:induction false} DocumentGood(nodes: seq<Node>, y: int, caps: Caps)
    requires AllPlain(nodes) && caps.width >= 0 && DocumentFits(nodes, caps.width)
    ensures DocumentHeight(nodes, y, caps) >= 0
    ensures Good(LayDocument(nodes, y, caps), Rect(0, y, caps.width, DocumentHeight(nodes, y, caps)))
  {
    hide Good, LayNode, Fits;
    if nodes == [] {
      NothingGood(Rect(0, y, caps.width, 0));
    } else {
      assert Plain(nodes[0]);
      var first := LayNode(nodes[0], 0, y, caps.width, None, caps, false);
      var y' := y + first.height + PAD;
      var own := Rect(0, y, BoxWidth(nodes[0], caps.width, false), first.height);
      NodeGood(nodes[0], 0, y, caps.width, caps, false);
      DocumentGood(nodes[1..], y', caps);
      JoinGood(first.blocks, own, LayDocument(nodes[1..], y', caps),
               Rect(0, y', caps.width, DocumentHeight(nodes[1..], y', caps)),
               Rect(0, y, caps.width, DocumentHeight(nodes, y, caps)));
    }
  }

  lemma {:induction false} SoundDocumentFits(nodes: seq<Node>, y: int, caps: Caps)
    requires AllPlain(nodes)
    requires var bs := LayDocument(nodes, y, caps); EnclosesX(bs) && RightOf(bs, caps.width)
    ensures DocumentFits(nodes, caps.width)
  {
    hide LayNode, EnclosesX, Fits;
    if nodes != [] {
      assert Plain(nodes[0]);
      var first := LayNode(nodes[0], 0, y, caps.width, None, caps, false);
      var rest := LayDocument(nodes[1..], y + first.height + PAD, caps);
      SplitEnclosesX(first.blocks, rest);
      SplitRightOf(first.blocks, rest, caps.width);
      Shape(nodes[0], 0, y, caps.width, None, caps, false);
      EnclosedFits(nodes[0], 0, y, caps.width, caps, false);
      assert first.blocks[0].x + first.blocks[0].w <= caps.width;
      SoundDocumentFits(nodes[1..], y + first.height + PAD, caps);
    }
  }

  lemma EnclosesAcross(bs: seq<Block>)
    requires Encloses(bs)
    ensures EnclosesX(bs)
  {
    forall i, k | 0 <= i < k < |bs|
      ensures EnclosesXAt(bs, i, k)
    {
      assert EnclosesAt(bs, i, k);
    }
  }

  /**
   * For documents without height attributes, negative gaps or negative widths: all blocks lie in
   * the panel, containers enclose their subtrees and no two leaves overlap exactly when, in every
   * container, the children reach no further than the box.
   */
  lemma LayoutSoundExactlyWhenItFits(nodes: seq<Node>, caps: Caps)
    requires AllPlain(nodes) && caps.width >= 0
    ensures Sound(LayDocument(nodes, 0, caps), caps.width) <==> DocumentFits(nodes, caps.width)
  {
    hide LayDocument, DocumentFits, Encloses, LeavesApart;
    if DocumentFits(nodes, caps.width) {
      DocumentGood(nodes, 0, caps);
    }
    if Sound(LayDocument(nodes, 0, caps), caps.width) {
      EnclosesAcross(LayDocument(nodes, 0, caps));
      SoundDocumentFits(nodes, 0, caps);
    }
  }
}

/** The horizontal half of the layout, which heights do not touch: exactly when every container's children fit its box. */
module LayoutHorizontal {
  import opened Basics
  import opened Layout
  import opened LayoutSound

  /** No negative gap and no negative pixel width anywhere; heights are free. */
  predicate Spread(node: Node) {
    && (node.w.Pixels? ==> node.w.n >= 0)
    && (node.Container? ==> node.gap >= 0 && AllSpread(node.children))
  }

  predicate AllSpread(nodes: seq<Node>) {
    nodes == [] || (Spread(nodes[0]) && AllSpread(nodes[1..]))
  }

  // ----- The same document without its heights -----

  function Flat(node: Node): Node
    decreases node, 1
  {
    match node
    case Leaf(w, _, content) => Leaf(w, Missing, content)
    case Container(w, _, kind, gap, cols, children) => Container(w, Missing, kind, gap, cols, FlatAll(children))
  }

  function FlatAll(nodes: seq<Node>): (r: seq<Node>)
    ensures |r| == |nodes|
    decreases nodes, 0
  {
    if nodes == [] then [] else [Flat(nodes[0])] + FlatAll(nodes[1..])
  }

  lemma FlatIsPlain(node: Node)
    requires Spread(node)
    ensures Plain(Flat(node))
    decreases node, 1
  {
    if node.Container? {
      FlatAreAllPlain(node.children);
    }
  }

  lemma FlatAreAllPlain(nodes: seq<Node>)
    requires AllSpread(nodes)
    ensures AllPlain(FlatAll(nodes))
    decreases nodes, 0
  {
    hide Plain, Flat;
    if nodes != [] {
      FlatIsPlain(nodes[0]);
      FlatAreAllPlain(nodes[1..]);
    }
  }

  lemma FlatSize(node: Node)
    ensures SizeOf(Flat(node)) == SizeOf(node)
    decreases node, 1
  {
    if node.Container? {
      FlatSizes(node.children);
    }
  }

  lemma FlatSizes(nodes: seq<Node>)
    ensures SizeOfAll(FlatAll(nodes)) == SizeOfAll(nodes)
    decreases nodes, 0
  {
    hide SizeOf, Flat;
    if nodes != [] {
      FlatSize(nodes[0]);
      FlatSizes(nodes[1..]);
      assert FlatAll(nodes)[1..] == FlatAll(nodes[1..]);
    }
  }

  lemma FlatWidth(node: Node)
    ensures Flat(node).w == node.w && Flat(node).Container? == node.Container?
  {
  }

  lemma {:induction false} FlatWidths(nodes: seq<Node>, inner: int, auto: int)
    ensures Widths(FlatAll(nodes), inner, auto) == Widths(nodes, inner, auto)
    ensures ExplicitTotal(FlatAll(nodes), inner) == ExplicitTotal(nodes, inner)
    ensures AutoCount(FlatAll(nodes)) == AutoCount(nodes)
  {
    hide Flat, Resolve;
    if nodes != [] {
      FlatWidth(nodes[0]);
      FlatWidths(nodes[1..], inner, auto);
      assert FlatAll(nodes)[1..] == FlatAll(nodes[1..]);
    }
  }

  lemma FlatRowWidths(nodes: seq<Node>, boxW: int, gap: int)
    ensures RowWidths(FlatAll(nodes), boxW, gap) == RowWidths(nodes, boxW, gap)
  {
    hide Widths, ExplicitTotal, AutoCount, FlatAll;
    var inner := Max(0, boxW - gap * (|nodes| - 1));
    FlatWidths(nodes, inner, 0);
    FlatWidths(nodes, inner, Share(inner - ExplicitTotal(nodes, inner), AutoCount(nodes)));
  }

  // ----- Heights move nothing sideways -----

  predicate SameColumnAt(a: seq<Block>, b: seq<Block>, i: nat)
    requires i < |a| == |b|
  {
    a[i].x == b[i].x && a[i].w == b[i].w && SizeOf(a[i].node) == SizeOf(b[i].node)
  }

  /** The same blocks as far as left edge, width and nesting go. */
  ghost predicate SameColumns(a: seq<Block>, b: seq<Block>) {
    |a| == |b| && forall i :: 0 <= i < |a| ==> SameColumnAt(a, b, i)
  }

  lemma JoinColumns(a: seq<Block>, b: seq<Block>, c: seq<Block>, d: seq<Block>)
    requires SameColumns(a, b) && SameColumns(c, d)
    ensures SameColumns(a + c, b + d)
  {
    forall i | 0 <= i < |a + c|
      ensures SameColumnAt(a + c, b + d, i)
    {
      if i < |a| {
        assert SameColumnAt(a, b, i);
      } else {
        assert SameColumnAt(c, d, i - |a|);
      }
    }
  }

  lemma OneColumn(a: Block, b: Block)
    requires a.x == b.x && a.w == b.w && SizeOf(a.node) == SizeOf(b.node)
    ensures SameColumns([a], [b])
  {
  }

  lemma NoColumn()
    ensures SameColumns([], [])
  {
  }

  lemma SameNode(node: Node, x: int, y: int, y': int, w: int, h: Option<int>, caps: Caps, slotSized: bool)
    ensures SameColumns(LayNode(node, x, y, w, h, caps, slotSized).blocks, LayNode(Flat(node), x, y', w, None, caps, slotSized).blocks)
    decreases node, 2
  {
    hide SizeOf, SameColumns, LayChildren, EstimateHeight;
    FlatSize(node);
    var bs, cs := LayNode(node, x, y, w, h, caps, slotSized).blocks, LayNode(Flat(node), x, y', w, None, caps, slotSized).blocks;
    if node.Leaf? || node.children == [] {
      OneColumn(bs[0], cs[0]);
      assert bs == [bs[0]] && cs == [cs[0]];
    } else {
      var boxW := BoxWidth(node, w, slotSized);
      var boxH := BoxHeight(node, h, caps, slotSized);
      assert BoxHeight(Flat(node), None, caps, slotSized) == None;
      SameChildren(node, x, y, y', boxW, boxH, caps);
      OneColumn(bs[0], cs[0]);
      JoinColumns([bs[0]], [cs[0]], LayChildren(node, x, y, boxW, boxH, caps).blocks,
                  LayChildren(Flat(node), x, y', boxW, None, caps).blocks);
    }
  }

  lemma SameChildren(node: Node, x: int, y: int, y': int, boxW: int, boxH: Option<int>, caps: Caps)
    requires node.Container? && node.children != []
    ensures SameColumns(LayChildren(node, x, y, boxW, boxH, caps).blocks, LayChildren(Flat(node), x, y', boxW, None, caps).blocks)
    decreases node, 1
  {
    hide SameColumns, LayRow, LayCol, LayGrid, FlatAll;
    var children, gap := node.children, node.gap;
    if node.kind.Row? {
      FlatRowWidths(children, boxW, gap);
      SameRow(children, RowWidths(children, boxW, gap), x, y, y', boxH, gap, caps);
    } else if node.kind.Grid? && node.cols > 0 {
      SameGrid(children, node.cols, CellWidth(boxW, gap, node.cols), x, y, y', gap, caps);
    } else {
      SameCol(children, x, y, y', boxW, boxH, AutoHeight(children, boxH, gap), gap, caps);
    }
  }

  lemma SameRow(children: seq<Node>, widths: seq<int>, x: int, y: int, y': int, boxH: Option<int>, gap: int, caps: Caps)
    requires |widths| == |children|
    ensures SameColumns(LayRow(children, widths, x, y, boxH, gap, caps).blocks,
                        LayRow(FlatAll(children), widths, x, y', None, gap, caps).blocks)
    decreases children, 0
  {
    hide SameColumns, LayNode, Flat;
    if children == [] {
      NoColumn();
    } else {
      var h := Resolve(children[0].h, Or(boxH, 0), boxH);
      FlatFirst(children);
      SameNode(children[0], x, y, y', widths[0], h, caps, true);
      var x' := x + widths[0] + gap;
      SameRow(children[1..], widths[1..], x', y, y', boxH, gap, caps);
      JoinColumns(LayNode(children[0], x, y, widths[0], h, caps, true).blocks,
                  LayNode(Flat(children[0]), x, y', widths[0], None, caps, true).blocks,
                  LayRow(children[1..], widths[1..], x', y, boxH, gap, caps).blocks,
                  LayRow(FlatAll(children[1..]), widths[1..], x', y', None, gap, caps).blocks);
    }
  }

  lemma FlatFirst(nodes: seq<Node>)
    requires nodes != []
    ensures FlatAll(nodes) != [] && FlatAll(nodes)[0] == Flat(nodes[0]) && FlatAll(nodes)[1..] == FlatAll(nodes[1..])
    ensures FlatAll(nodes)[0].h.Missing? && FlatAll(nodes)[0].w == nodes[0].w
  {
  }

  lemma SameCol(children: seq<Node>, x: int, y: int, y': int, boxW: int, boxH: Option<int>, auto: Option<int>, gap: int, caps: Caps)
    ensures SameColumns(LayCol(children, x, y, boxW, boxH, auto, gap, caps).blocks,
                        LayCol(FlatAll(children), x, y', boxW, None, None, gap, caps).blocks)
    decreases children, 0
  {
    hide SameColumns, LayNode, Flat;
    if children == [] {
      NoColumn();
    } else {
      var w := Or(Resolve(children[0].w, boxW, None), boxW);
      var h := Resolve(children[0].h, Or(boxH, 0), auto);
      FlatFirst(children);
      SameNode(children[0], x, y, y', w, h, caps, true);
      var first, flat := LayNode(children[0], x, y, w, h, caps, true), LayNode(Flat(children[0]), x, y', w, None, caps, true);
      if |children| > 1 {
        SameCol(children[1..], x, y + first.height + gap, y' + flat.height + gap, boxW, boxH, auto, gap, caps);
        JoinColumns(first.blocks, flat.blocks,
                    LayCol(children[1..], x, y + first.height + gap, boxW, boxH, auto, gap, caps).blocks,
                    LayCol(FlatAll(children[1..]), x, y' + flat.height + gap, boxW, None, None, gap, caps).blocks);
      }
    }
  }

  lemma SameCells(children: seq<Node>, cellW: int, x: int, y: int, y': int, gap: int, caps: Caps)
    ensures SameColumns(LayCells(children, cellW, x, y, gap, caps).blocks, LayCells(FlatAll(children), cellW, x, y', gap, caps).blocks)
    decreases children, 0
  {
    hide SameColumns, LayNode, Flat;
    if children == [] {
      NoColumn();
    } else {
      FlatFirst(children);
      SameNode(children[0], x, y, y', cellW, None, caps, true);
      var x' := x + (cellW + gap);
      SameCells(children[1..], cellW, x', y, y', gap, caps);
      JoinColumns(LayNode(children[0], x, y, cellW, None, caps, true).blocks,
                  LayNode(Flat(children[0]), x, y', cellW, None, caps, true).blocks,
                  LayCells(children[1..], cellW, x', y, gap, caps).blocks,
                  LayCells(FlatAll(children[1..]), cellW, x', y', gap, caps).blocks);
    }
  }

  lemma {:induction false} FlatSlices(nodes: seq<Node>, k: nat)
    requires k <= |nodes|
    ensures FlatAll(nodes)[..k] == FlatAll(nodes[..k]) && FlatAll(nodes)[k..] == FlatAll(nodes[k..])
  {
    hide Flat;
    if k > 0 {
      FlatSlices(nodes[1..], k - 1);
      assert nodes[..k][1..] == nodes[1..][..k - 1] && nodes[1..][k - 1..] == nodes[k..];
      assert FlatAll(nodes)[1..] == FlatAll(nodes[1..]);
    }
  }

  lemma SameGrid(children: seq<Node>, cols: int, cellW: int, x: int, y: int, y': int, gap: int, caps: Caps)
    requires cols > 0
    ensures SameColumns(LayGrid(children, cols, cellW, x, y, gap, caps).blocks,
                        LayGrid(FlatAll(children), cols, cellW, x, y', gap, caps).blocks)
    decreases children, 1
  {
    hide SameColumns, LayCells, FlatAll;
    if |children| <= cols {
      SameCells(children, cellW, x, y, y', gap, caps);
    } else {
      FlatSlices(children, cols);
      SameCells(children[..cols], cellW, x, y, y', gap, caps);
      var first, flat := LayCells(children[..cols], cellW, x, y, gap, caps), LayCells(FlatAll(children[..cols]), cellW, x, y', gap, caps);
      SameGrid(children[cols..], cols, cellW, x, y + first.height + gap, y' + flat.height + gap, gap, caps);
      JoinColumns(first.blocks, flat.blocks,
                  LayGrid(children[cols..], cols, cellW, x, y + first.height + gap, gap, caps).blocks,
                  LayGrid(FlatAll(children[cols..]), cols, cellW, x, y' + flat.height + gap, gap, caps).blocks);
    }
  }

  lemma {:induction false} SameDocument(nodes: seq<Node>, y: int, y': int, caps: Caps)
    ensures SameColumns(LayDocument(nodes, y, caps), LayDocument(FlatAll(nodes), y', caps))
    decreases nodes
  {
    hide SameColumns, LayNode, Flat;
    if nodes == [] {
      NoColumn();
    } else {
      FlatFirst(nodes);
      SameNode(nodes[0], 0, y, y', caps.width, None, caps, false);
      var first, flat := LayNode(nodes[0], 0, y, caps.width, None, caps, false), LayNode(Flat(nodes[0]), 0, y', caps.width, None, caps, false);
      SameDocument(nodes[1..], y + first.height + PAD, y' + flat.height + PAD, caps);
      JoinColumns(first.blocks, flat.blocks, LayDocument(nodes[1..], y + first.height + PAD, caps),
                  LayDocument(FlatAll(nodes[1..]), y' + flat.height + PAD, caps));
    }
  }

  // ----- Fitting does not look at heights -----

  lemma FlatFits(node: Node, w: int, slotSized: bool)
    ensures Fits(Flat(node), w, slotSized) == Fits(node, w, slotSized)
    decreases node, 1
  {
    hide RowWidths, Widths, CellWidth, FlatAll;
    if node.Container? && node.children != [] {
      var boxW := BoxWidth(node, w, slotSized);
      assert BoxWidth(Flat(node), w, slotSized) == boxW;
      FlatRowWidths(node.children, boxW, node.gap);
      FlatWidths(node.children, boxW, boxW);
      AllFlatFit(node.children, SlotWidths(node, boxW));
      assert SlotWidths(Flat(node), boxW) == SlotWidths(node, boxW);
    }
  }

  lemma AllFlatFit(nodes: seq<Node>, widths: seq<int>)
    requires |widths| == |nodes|
    ensures AllFit(FlatAll(nodes), widths) == AllFit(nodes, widths)
    decreases nodes, 0
  {
    hide Fits, Flat;
    if nodes != [] {
      FlatFits(nodes[0], widths[0], true);
      AllFlatFit(nodes[1..], widths[1..]);
      FlatFirst(nodes);
      FirstFits(nodes, widths);
      FirstFits(FlatAll(nodes), widths);
    }
  }

  lemma FirstFits(nodes: seq<Node>, widths: seq<int>)
    requires nodes != [] && |widths| == |nodes|
    ensures AllFit(nodes, widths) <==> Fits(nodes[0], widths[0], true) && AllFit(nodes[1..], widths[1..])
  {
    hide Fits;
    if Fits(nodes[0], widths[0], true) && AllFit(nodes[1..], widths[1..]) {
      forall i | 0 <= i < |nodes|
        ensures Fits(nodes[i], widths[i], true)
      {
        assert i > 0 ==> nodes[i] == nodes[1..][i - 1] && widths[i] == widths[1..][i - 1];
      }
    }
    if AllFit(nodes, widths) {
      forall i | 0 <= i < |nodes[1..]|
        ensures Fits(nodes[1..][i], widths[1..][i], true)
      {
        assert nodes[1..][i] == nodes[i + 1] && widths[1..][i] == widths[i + 1];
      }
    }
  }

  lemma {:induction false} FlatDocumentFits(nodes: seq<Node>, width: int)
    ensures DocumentFits(FlatAll(nodes), width) == DocumentFits(nodes, width)
  {
    hide Fits, Flat;
    if nodes != [] {
      FlatFirst(nodes);
      FlatFits(nodes[0], width, false);
      FlatBox(nodes[0], width);
      FlatDocumentFits(nodes[1..], width);
    }
  }

  lemma FlatBox(node: Node, w: int)
    ensures BoxWidth(Flat(node), w, false) == BoxWidth(node, w, false)
  {
  }

  // ----- The theorem -----

  /** Every block lies across the panel's width, and containers enclose their subtrees sideways. */
  ghost predicate SoundAcross(bs: seq<Block>, width: int) {
    && (forall i :: 0 <= i < |bs| ==> 0 <= bs[i].x && 0 <= bs[i].w && bs[i].x + bs[i].w <= width)
    && EnclosesX(bs)
  }

  lemma SameSoundness(a: seq<Block>, b: seq<Block>, width: int)
    requires SameColumns(a, b) && SoundAcross(a, width)
    ensures SoundAcross(b, width)
  {
    hide SizeOf;
    forall i | 0 <= i < |b|
      ensures 0 <= b[i].x && 0 <= b[i].w && b[i].x + b[i].w <= width
    {
      assert SameColumnAt(a, b, i);
    }
    forall i, k | 0 <= i < k < |b|
      ensures EnclosesXAt(b, i, k)
    {
      assert SameColumnAt(a, b, i) && SameColumnAt(a, b, k) && EnclosesXAt(a, i, k);
    }
  }

  lemma Mirrored(a: seq<Block>, b: seq<Block>)
    requires SameColumns(a, b)
    ensures SameColumns(b, a)
  {
    hide SizeOf;
    forall i | 0 <= i < |b|
      ensures SameColumnAt(b, a, i)
    {
      assert SameColumnAt(a, b, i);
    }
  }

  lemma PlainSoundAcross(nodes: seq<Node>, caps: Caps)
    requires AllPlain(nodes) && caps.width >= 0
    ensures SoundAcross(LayDocument(nodes, 0, caps), caps.width) <==> DocumentFits(nodes, caps.width)
  {
    hide LayDocument, DocumentFits, EnclosesX, Encloses, LeavesApart;
    var bs := LayDocument(nodes, 0, caps);
    if DocumentFits(nodes, caps.width) {
      LayoutSoundExactlyWhenItFits(nodes, caps);
      EnclosesAcross(bs);
    }
    if SoundAcross(bs, caps.width) {
      SoundDocumentFits(nodes, 0, caps);
    }
  }

  /**
   * For documents without negative gaps or widths, whatever their heights: every block lies across the panel's
   * width and containers enclose their subtrees sideways if and only if, in every container, the children reach no
   * further than the box.
   */
  lemma SoundAcrossExactlyWhenItFits(nodes: seq<Node>, caps: Caps)
    requires AllSpread(nodes) && caps.width >= 0
    ensures SoundAcross(LayDocument(nodes, 0, caps), caps.width) <==> DocumentFits(nodes, caps.width)
  {
    hide LayDocument, DocumentFits, SoundAcross, SameColumns;
    var flat := FlatAll(nodes);
    FlatAreAllPlain(nodes);
    FlatDocumentFits(nodes, caps.width);
    SameDocument(nodes, 0, 0, caps);
    Mirrored(LayDocument(nodes, 0, caps), LayDocument(flat, 0, caps));
    PlainSoundAcross(flat, caps);
    if SoundAcross(LayDocument(nodes, 0, caps), caps.width) {
      SameSoundness(LayDocument(nodes, 0, caps), LayDocument(flat, 0, caps), caps.width);
    }
    if SoundAcross(LayDocument(flat, 0, caps), caps.width) {
      SameSoundness(LayDocument(flat, 0, caps), LayDocument(nodes, 0, caps), caps.width);
    }
  }
}

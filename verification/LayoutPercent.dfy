/** Documents sized by percentages that fit by arithmetic alone, so their layout is sound. */
module LayoutPercent {
  import opened Basics
  import opened Layout
  import opened LayoutSound

  /** Widths absent or percentages of at most 100, adding up to at most 100 in a row; gaps that fit the box. */
  predicate Tame(node: Node, w: int, slotSized: bool)
    decreases node
  {
    if node.Leaf? || node.children == [] then true
    else
      var boxW := BoxWidth(node, w, slotSized);
      var widths := SlotWidths(node, boxW);
      && (forall i :: 0 <= i < |node.children| ==> Relative(node.children[i]) && Tame(node.children[i], widths[i], true))
      && (node.kind.Row? ==> PercentTotal(node.children) <= 100 && node.gap * (|node.children| - 1) <= boxW)
      && (node.kind.Grid? && node.cols > 0 ==> node.gap * (node.cols - 1) <= boxW)
  }

  predicate Relative(node: Node) {
    node.w.Missing? || (node.w.Percent? && 0 <= node.w.p <= 100)
  }

  function PercentTotal(children: seq<Node>): int {
    if children == [] then 0
    else (if children[0].w.Percent? then children[0].w.p else 0) + PercentTotal(children[1..])
  }

  predicate TameDocument(nodes: seq<Node>, width: int) {
    forall i :: 0 <= i < |nodes| ==> Relative(nodes[i]) && Tame(nodes[i], width, false)
  }

  lemma FloorShare(inner: int, p: int, q: int)
    requires inner >= 0 && p >= 0 && q >= 0
    ensures 0 <= 100 * ((inner * p) / 100) <= inner * p
    ensures inner * p + inner * q == inner * (p + q)
  {
  }

  lemma {:induction false} ExplicitBound(children: seq<Node>, inner: int)
    requires inner >= 0 && forall i :: 0 <= i < |children| ==> Relative(children[i])
    ensures 0 <= PercentTotal(children)
    ensures 0 <= 100 * ExplicitTotal(children, inner) <= inner * PercentTotal(children)
  {
    if children != [] {
      assert Relative(children[0]);
      ExplicitBound(children[1..], inner);
      var p := if children[0].w.Percent? then children[0].w.p else 0;
      FloorShare(inner, p, PercentTotal(children[1..]));
    }
  }

  lemma {:induction false} SumOfWidths(children: seq<Node>, inner: int, auto: int)
    ensures Sum(Widths(children, inner, auto)) == ExplicitTotal(children, inner) + AutoCount(children) * auto
  {
    if children != [] {
      SumOfWidths(children[1..], inner, auto);
      var ws := Widths(children, inner, auto);
      assert ws[1..] == Widths(children[1..], inner, auto);
      Distribute(AutoCount(children[1..]), auto);
    }
  }

  lemma Distribute(n: nat, auto: int)
    ensures (1 + n) * auto == auto + n * auto
  {
  }

  lemma ShareBound(space: int, count: nat)
    requires space >= 0
    ensures 0 <= count * Share(space, count) <= space
  {
    if count > 0 {
      var q := space / count;
      assert q >= 0 && count * q <= space;
    }
  }

  lemma AtMostWhole(inner: int, p: int, explicit: int)
    requires inner >= 0 && p <= 100 && 100 * explicit <= inner * p
    ensures explicit <= inner
  {
    assert inner * p <= inner * 100;
  }

  /** `gaps` and `autos` stand for the two products. */
  lemma RowAddsUp(boxW: int, gaps: int, inner: int, explicit: int, autos: int)
    requires 0 <= gaps <= boxW && inner == boxW - gaps && autos <= inner - explicit
    ensures explicit + autos + gaps <= boxW
  {
  }

  lemma RowReach(children: seq<Node>, boxW: int, gap: int)
    requires children != [] && gap >= 0
    requires forall i :: 0 <= i < |children| ==> Relative(children[i])
    requires PercentTotal(children) <= 100 && gap * (|children| - 1) <= boxW
    ensures Sum(RowWidths(children, boxW, gap)) + gap * (|children| - 1) <= boxW
  {
    hide PercentTotal, ExplicitTotal, Widths, Sum, Share, AutoCount;
    var gaps := gap * (|children| - 1);
    GapsNonNegative(gap, |children| - 1);
    var inner := boxW - gaps;
    assert Max(0, inner) == inner;
    ExplicitBound(children, inner);
    var explicit := ExplicitTotal(children, inner);
    AtMostWhole(inner, PercentTotal(children), explicit);
    var auto := Share(inner - explicit, AutoCount(children));
    ShareBound(inner - explicit, AutoCount(children));
    SumOfWidths(children, inner, auto);
    RowAddsUp(boxW, gaps, inner, explicit, AutoCount(children) * auto);
  }

  lemma GapsNonNegative(gap: int, n: nat)
    requires gap >= 0
    ensures gap * n >= 0
  {
  }

  lemma GridReach(n: nat, cols: int, boxW: int, gap: int)
    requires n >= 1 && cols > 0 && gap >= 0 && gap * (cols - 1) <= boxW
    ensures var cell := CellWidth(boxW, gap, cols);
      cell >= 0 && CellsReach(if n < cols then n else cols, cell, gap) <= boxW
  {
    var cell := CellWidth(boxW, gap, cols);
    var space := boxW - gap * (cols - 1);
    assert cell * cols <= space by {
      assert cell == space / cols;
    }
    assert (cell + gap) * (cols - 1) == cell * cols - cell + gap * (cols - 1);
    CellsGrow(if n < cols then n else cols, cols, cell, gap);
  }

  lemma {:induction false} ColumnReach(children: seq<Node>, boxW: int)
    requires boxW >= 0 && forall i :: 0 <= i < |children| ==> Relative(children[i])
    ensures forall i :: 0 <= i < |children| ==> Widths(children, boxW, boxW)[i] <= boxW
  {
    if children != [] {
      assert Relative(children[0]);
      ColumnReach(children[1..], boxW);
      PercentShrinks(boxW, if children[0].w.Percent? then children[0].w.p else 0);
      var ws, ws' := Widths(children, boxW, boxW), Widths(children[1..], boxW, boxW);
      assert forall i :: 1 <= i < |children| ==> ws[i] == ws'[i - 1];
    }
  }

  lemma PercentShrinks(w: int, p: int)
    requires w >= 0 && 0 <= p <= 100
    ensures 0 <= (w * p) / 100 <= w
  {
    assert w * p <= w * 100;
  }

  lemma RelativeBox(node: Node, w: int)
    requires Relative(node) && w >= 0
    ensures 0 <= BoxWidth(node, w, false) <= w
  {
    PercentShrinks(w, if node.w.Percent? then node.w.p else 0);
  }

  lemma SlotWidthsNonNegative(node: Node, boxW: int)
    requires node.Container? && Plain(node) && boxW >= 0
    ensures NonNegative(SlotWidths(node, boxW))
  {
    if node.kind.Row? {
      RowWidthsNonNegative(node.children, boxW, node.gap);
    } else if !(node.kind.Grid? && node.cols > 0) {
      WidthsNonNegative(node.children, boxW, boxW);
    }
  }

  lemma TameFits(node: Node, w: int, slotSized: bool)
    requires Plain(node) && w >= 0 && Tame(node, w, slotSized)
    ensures Fits(node, w, slotSized)
    decreases node
  {
    if node.Container? && node.children != [] {
      var boxW := BoxWidth(node, w, slotSized);
      BoxWidthNonNegative(node, w, slotSized);
      var widths := SlotWidths(node, boxW);
      SlotWidthsNonNegative(node, boxW);
      forall i | 0 <= i < |node.children|
        ensures Fits(node.children[i], widths[i], true)
      {
        assert Plain(node.children[i]);
        TameFits(node.children[i], widths[i], true);
      }
      TameReach(node, boxW);
    }
  }

  lemma TameReach(node: Node, boxW: int)
    requires node.Container? && node.children != [] && Plain(node) && boxW >= 0
    requires forall i :: 0 <= i < |node.children| ==> Relative(node.children[i])
    requires node.kind.Row? ==> PercentTotal(node.children) <= 100 && node.gap * (|node.children| - 1) <= boxW
    requires node.kind.Grid? && node.cols > 0 ==> node.gap * (node.cols - 1) <= boxW
    ensures Reach(node, boxW) <= boxW
  {
    if node.kind.Row? {
      RowReach(node.children, boxW, node.gap);
    } else if node.kind.Grid? && node.cols > 0 {
      GridReach(|node.children|, node.cols, boxW, node.gap);
    } else {
      ColumnReach(node.children, boxW);
      MaxOfBounds(Widths(node.children, boxW, boxW));
    }
  }

  lemma {:induction false} TameDocumentFits(nodes: seq<Node>, width: int)
    requires AllPlain(nodes) && width >= 0 && TameDocument(nodes, width)
    ensures DocumentFits(nodes, width)
  {
    if nodes != [] {
      assert Plain(nodes[0]) && Relative(nodes[0]);
      if nodes[0].Container? {
        RelativeBox(nodes[0], width);
      }
      TameFits(nodes[0], width, false);
      TameDocumentFits(nodes[1..], width);
    }
  }

  /** Percentage-sized documents whose gaps fit are laid out soundly. */
  lemma TameDocumentIsSound(nodes: seq<Node>, caps: Caps)
    requires AllPlain(nodes) && caps.width >= 0 && TameDocument(nodes, caps.width)
    ensures Sound(LayDocument(nodes, 0, caps), caps.width)
  {
    TameDocumentFits(nodes, caps.width);
    LayoutSoundExactlyWhenItFits(nodes, caps);
  }
}

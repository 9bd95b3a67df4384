/** The layout engine as it runs: a shared block list, moving cursors, container heights filled in late. */
module LayoutEngine {
  import opened Basics
  import opened Layout

  class Engine {
    const caps: Caps
    var blocks: seq<Block>

    constructor (caps: Caps)
      ensures this.caps == caps && blocks == []
    {
      this.caps := caps;
      blocks := [];
    }

    method LayOutNode(node: Node, x: int, y: int, w: int, h: Option<int>, slotSized: bool) returns (consumed: int)
      modifies this
      ensures var r := LayNode(node, x, y, w, h, caps, slotSized);
        blocks == old(blocks) + r.blocks && consumed == r.height
      decreases node, 4
    {
      match node {
        case Leaf(_, _, content) =>
          var height := Or(h, EstimateHeight(content, caps));
          blocks := blocks + [Block(x, y, w, height, node)];
          consumed := height;
        case Container(_, _, _, _, _, _) =>
          consumed := LayOutContainer(node, x, y, w, h, slotSized);
      }
    }

    method LayOutContainer(node: Node, x: int, y: int, w: int, h: Option<int>, slotSized: bool) returns (consumed: int)
      requires node.Container?
      modifies this
      ensures var r := LayNode(node, x, y, w, h, caps, slotSized);
        blocks == old(blocks) + r.blocks && consumed == r.height
      decreases node, 3
    {
      hide LayChildren;
      var boxW := BoxWidth(node, w, slotSized);
      var boxH := BoxHeight(node, h, caps, slotSized);
      if node.children == [] {
        blocks := blocks + [Block(x, y, boxW, 0, node)];
        return 0;
      }
      ghost var inner := LayChildren(node, x, y, boxW, boxH, caps);
      var own := |blocks|;
      blocks := blocks + [Block(x, y, boxW, 0, node)];
      var used := LayOutChildren(node, x, y, boxW, boxH);
      consumed := if boxH.Some? && boxH.value != 0 then boxH.value else used;
      blocks := blocks[own := blocks[own].(h := consumed)];
      assert blocks == old(blocks) + ([Block(x, y, boxW, consumed, node)] + inner.blocks);
    }

    method LayOutChildren(node: Node, x: int, y: int, boxW: int, boxH: Option<int>) returns (consumed: int)
      requires node.Container? && node.children != []
      modifies this
      ensures var r := LayChildren(node, x, y, boxW, boxH, caps);
        blocks == old(blocks) + r.blocks && consumed == r.height
      decreases node, 2
    {
      hide LayRow, LayCol, LayGrid;
      if node.kind.Row? {
        consumed := LayOutRow(node.children, x, y, boxW, boxH, node.gap);
      } else if node.kind.Grid? && node.cols > 0 {
        consumed := LayOutGrid(node.children, node.cols, x, y, boxW, node.gap);
      } else {
        consumed := LayOutCol(node.children, x, y, boxW, boxH, node.gap);
      }
    }

    method LayOutRow(children: seq<Node>, x: int, y: int, boxW: int, boxH: Option<int>, gap: int) returns (consumed: int)
      modifies this
      ensures var r := LayRow(children, RowWidths(children, boxW, gap), x, y, boxH, gap, caps);
        blocks == old(blocks) + r.blocks && consumed == Or(boxH, r.height)
      decreases children, 1
    {
      hide RowWidths, LayNode;
      var widths := RowWidths(children, boxW, gap);
      var n := |children|;
      var cursorX, maxH, i := x, 0, 0;
      ghost var all := LayRow(children, widths, x, y, boxH, gap, caps);
      while i < n
        invariant 0 <= i <= n
        invariant var rest := LayRow(children[i..], widths[i..], cursorX, y, boxH, gap, caps);
          blocks + rest.blocks == old(blocks) + all.blocks && Max(maxH, rest.height) == all.height
        invariant maxH >= 0
      {
        var h := Resolve(children[i].h, Or(boxH, 0), boxH);
        assert children[i..][0] == children[i] && widths[i..][0] == widths[i];
        assert children[i..][1..] == children[i + 1..] && widths[i..][1..] == widths[i + 1..];
        ghost var first := LayNode(children[i], cursorX, y, widths[i], h, caps, true);
        ghost var rest := LayRow(children[i + 1..], widths[i + 1..], cursorX + widths[i] + gap, y, boxH, gap, caps);
        assert (blocks + first.blocks) + rest.blocks == blocks + (first.blocks + rest.blocks);
        var used := LayOutNode(children[i], cursorX, y, widths[i], h, true);
        if used > maxH {
          maxH := used;
        }
        cursorX := cursorX + widths[i] + (if i < n - 1 then gap else 0);
        i := i + 1;
      }
      assert children[i..] == [] && widths[i..] == [];
      consumed := Or(boxH, maxH);
    }

    method LayOutCol(children: seq<Node>, x: int, y: int, boxW: int, boxH: Option<int>, gap: int) returns (consumed: int)
      modifies this
      ensures var r := LayCol(children, x, y, boxW, boxH, AutoHeight(children, boxH, gap), gap, caps);
        blocks == old(blocks) + r.blocks && consumed == r.height
      decreases children, 1
    {
      hide AutoHeight, LayNode;
      var auto := AutoHeight(children, boxH, gap);
      var n := |children|;
      var cursorY, i := y, 0;
      ghost var all := LayCol(children, x, y, boxW, boxH, auto, gap, caps);
      while i < n
        invariant 0 <= i <= n
        invariant var rest := LayCol(children[i..], x, cursorY, boxW, boxH, auto, gap, caps);
          i < n ==> blocks + rest.blocks == old(blocks) + all.blocks && cursorY - y + rest.height == all.height
        invariant i == n ==> blocks == old(blocks) + all.blocks && cursorY - y == all.height
      {
        var w := Or(Resolve(children[i].w, boxW, None), boxW);
        var h := Resolve(children[i].h, Or(boxH, 0), auto);
        assert children[i..][0] == children[i] && children[i..][1..] == children[i + 1..];
        ghost var first := LayNode(children[i], x, cursorY, w, h, caps, true);
        ghost var rest := LayCol(children[i + 1..], x, cursorY + first.height + gap, boxW, boxH, auto, gap, caps);
        assert (blocks + first.blocks) + rest.blocks == blocks + (first.blocks + rest.blocks);
        var used := LayOutNode(children[i], x, cursorY, w, h, true);
        cursorY := cursorY + used + (if i < n - 1 then gap else 0);
        i := i + 1;
      }
      consumed := cursorY - y;
    }

    method LayOutGrid(children: seq<Node>, cols: int, x: int, y: int, boxW: int, gap: int) returns (consumed: int)
      requires cols > 0 && children != []
      modifies this
      ensures var r := LayGrid(children, cols, CellWidth(boxW, gap, cols), x, y, gap, caps);
        blocks == old(blocks) + r.blocks && consumed == r.height
      decreases children, 1
    {
      hide LayCells;
      var cellW := CellWidth(boxW, gap, cols);
      var cursorY, start := y, 0;
      ghost var all := LayGrid(children, cols, cellW, x, y, gap, caps);
      while |children| - start > cols
        invariant 0 <= start < |children|
        invariant var rest := LayGrid(children[start..], cols, cellW, x, cursorY, gap, caps);
          blocks + rest.blocks == old(blocks) + all.blocks && cursorY - y + rest.height == all.height
      {
        var row := children[start..start + cols];
        assert children[start..][..cols] == row && children[start..][cols..] == children[start + cols..];
        ghost var first := LayCells(row, cellW, x, cursorY, gap, caps);
        ghost var rest := LayGrid(children[start + cols..], cols, cellW, x, cursorY + first.height + gap, gap, caps);
        assert (blocks + first.blocks) + rest.blocks == blocks + (first.blocks + rest.blocks);
        var used := LayOutCells(row, cellW, x, cursorY, gap);
        cursorY, start := cursorY + used + gap, start + cols;
      }
      var used := LayOutCells(children[start..], cellW, x, cursorY, gap);
      consumed := cursorY + used - y;
    }

    method LayOutCells(row: seq<Node>, cellW: int, x: int, y: int, gap: int) returns (rowMaxH: int)
      modifies this
      ensures var r := LayCells(row, cellW, x, y, gap, caps);
        blocks == old(blocks) + r.blocks && rowMaxH == r.height
      decreases row, 0
    {
      hide LayNode;
      rowMaxH := 0;
      var c := 0;
      ghost var all := LayCells(row, cellW, x, y, gap, caps);
      while c < |row|
        invariant 0 <= c <= |row|
        invariant var rest := LayCells(row[c..], cellW, x + c * (cellW + gap), y, gap, caps);
          blocks + rest.blocks == old(blocks) + all.blocks && Max(rowMaxH, rest.height) == all.height
        invariant rowMaxH >= 0
      {
        var cx := x + c * (cellW + gap);
        assert row[c..][0] == row[c] && row[c..][1..] == row[c + 1..];
        assert x + (c + 1) * (cellW + gap) == cx + (cellW + gap);
        ghost var first := LayNode(row[c], cx, y, cellW, None, caps, true);
        ghost var rest := LayCells(row[c + 1..], cellW, cx + (cellW + gap), y, gap, caps);
        assert (blocks + first.blocks) + rest.blocks == blocks + (first.blocks + rest.blocks);
        var used := LayOutNode(row[c], cx, y, cellW, None, true);
        if used > rowMaxH {
          rowMaxH := used;
        }
        c := c + 1;
      }
      assert row[c..] == [];
    }

    method LayOut(nodes: seq<Node>)
      requires blocks == []
      modifies this
      ensures blocks == LayDocument(nodes, 0, caps)
    {
      hide LayNode;
      var cursorY, i := 0, 0;
      while i < |nodes|
        invariant 0 <= i <= |nodes|
        invariant blocks + LayDocument(nodes[i..], cursorY, caps) == LayDocument(nodes, 0, caps)
      {
        assert nodes[i..][0] == nodes[i] && nodes[i..][1..] == nodes[i + 1..];
        ghost var first := LayNode(nodes[i], 0, cursorY, caps.width, None, caps, false);
        ghost var rest := LayDocument(nodes[i + 1..], cursorY + first.height + PAD, caps);
        assert (blocks + first.blocks) + rest == blocks + (first.blocks + rest);
        var h := LayOutNode(nodes[i], 0, cursorY, caps.width, None, false);
        cursorY := cursorY + h + PAD;
        i := i + 1;
      }
      assert nodes[i..] == [];
    }
  }
}

/** The screen layout engine (exoclaw_screen/layout.py): what it places where, and the class that places it. */
module Layout {
  import opened Basics

  /** A size attribute after parsing; `Missing` also stands for a malformed one. */
  datatype Size = Missing | Pixels(n: int) | Percent(p: int)

  datatype Content =
    | Heading(level: int)
    | Rule
    | Code(newlines: nat)
    | List(items: nat)
    | LoneImage(h: Size, height: Size)
    | OtherText

  datatype ContainerKind = Row | Col | Grid

  datatype Node =
    | Leaf(w: Size, h: Size, content: Content)
    | Container(w: Size, h: Size, kind: ContainerKind, gap: int, cols: int, children: seq<Node>)

  datatype Caps = Caps(width: int, height: int, charRows: int)

  datatype Block = Block(x: int, y: int, w: int, h: int, node: Node)

  const PAD := 4

  function Resolve(size: Size, parent: int, default: Option<int>): Option<int> {
    match size
    case Missing => default
    case Pixels(n) => Some(n)
    case Percent(p) => Some(Max(0, (parent * p) / 100))
  }

  function Or(a: Option<int>, b: int): int { if a.Some? then a.value else b }

  function EstimateHeight(content: Content, caps: Caps): (r: int)
    ensures r >= 1
  {
    var rowH := Max(1, caps.height / Max(1, caps.charRows));
    match content
    case LoneImage(h, height) =>
      var own := Resolve(h, caps.height, Resolve(height, caps.height, None));
      if own.Some? then Max(1, own.value) else rowH
    case Heading(level) => Times(rowH, Max(1, 4 - level))
    case Rule => Max(1, rowH / 2)
    case Code(newlines) => Times(rowH, newlines + 1)
    case List(items) => Times(rowH, Max(1, items))
    case OtherText => rowH
  }

  function Times(a: int, b: int): (r: int)
    ensures a >= 1 && b >= 1 ==> r >= 1
  {
    a * b
  }

  // ----- Where everything goes -----

  /** The blocks appended for a subtree, and the height it consumes. */
  datatype Laid = Laid(blocks: seq<Block>, height: int)

  function BoxWidth(node: Node, w: int, slotSized: bool): int {
    if node.Leaf? || slotSized then w else Or(Resolve(node.w, w, None), w)
  }

  function BoxHeight(node: Node, h: Option<int>, caps: Caps, slotSized: bool): Option<int> {
    if slotSized then h
    else
      var own := Resolve(node.h, Or(h, caps.height), None);
      if own.Some? then own else h
  }

  function LayNode(node: Node, x: int, y: int, w: int, h: Option<int>, caps: Caps, slotSized: bool): Laid
    decreases node, 1
  {
    match node
    case Leaf(_, _, content) =>
      var height := Or(h, EstimateHeight(content, caps));
      Laid([Block(x, y, w, height, node)], height)
    case Container(_, _, kind, gap, cols, children) =>
      var boxW := BoxWidth(node, w, slotSized);
      var boxH := BoxHeight(node, h, caps, slotSized);
      if children == [] then Laid([Block(x, y, boxW, 0, node)], 0)
      else
        var inner := LayChildren(node, x, y, boxW, boxH, caps);
        var final := if boxH.Some? && boxH.value != 0 then boxH.value else inner.height;
        Laid([Block(x, y, boxW, final, node)] + inner.blocks, final)
  }

  function LayChildren(node: Node, x: int, y: int, boxW: int, boxH: Option<int>, caps: Caps): Laid
    requires node.Container? && node.children != []
    decreases node, 0
  {
    var children := node.children;
    if node.kind.Row? then
      var row := LayRow(children, RowWidths(children, boxW, node.gap), x, y, boxH, node.gap, caps);
      Laid(row.blocks, Or(boxH, row.height))
    else if node.kind.Grid? && node.cols > 0 then
      LayGrid(children, node.cols, CellWidth(boxW, node.gap, node.cols), x, y, node.gap, caps)
    else
      LayCol(children, x, y, boxW, boxH, AutoHeight(children, boxH, node.gap), node.gap, caps)
  }

  // ----- Rows -----

  function ExplicitTotal(children: seq<Node>, inner: int): int {
    if children == [] then 0
    else Or(Resolve(children[0].w, inner, None), 0) + ExplicitTotal(children[1..], inner)
  }

  function AutoCount(children: seq<Node>): nat {
    if children == [] then 0
    else (if children[0].w.Missing? then 1 else 0) + AutoCount(children[1..])
  }

  function Share(space: int, count: nat): int {
    if count > 0 then Max(0, space / count) else 0
  }

  function RowWidths(children: seq<Node>, boxW: int, gap: int): (r: seq<int>)
    ensures |r| == |children|
  {
    var inner := Max(0, boxW - gap * (|children| - 1));
    var auto := Share(inner - ExplicitTotal(children, inner), AutoCount(children));
    Widths(children, inner, auto)
  }

  function Widths(children: seq<Node>, inner: int, auto: int): (r: seq<int>)
    ensures |r| == |children|
  {
    if children == [] then []
    else [Or(Resolve(children[0].w, inner, None), auto)] + Widths(children[1..], inner, auto)
  }

  function LayRow(children: seq<Node>, widths: seq<int>, x: int, y: int, boxH: Option<int>, gap: int, caps: Caps): (r: Laid)
    requires |widths| == |children|
    ensures r.height >= 0
    decreases children, 0
  {
    if children == [] then Laid([], 0)
    else
      var h := Resolve(children[0].h, Or(boxH, 0), boxH);
      var first := LayNode(children[0], x, y, widths[0], h, caps, true);
      var rest := LayRow(children[1..], widths[1..], x + widths[0] + gap, y, boxH, gap, caps);
      Laid(first.blocks + rest.blocks, Max(first.height, rest.height))
  }

  // ----- Columns -----

  function ExplicitHeights(children: seq<Node>, boxH: int): int {
    if children == [] then 0
    else Or(Resolve(children[0].h, boxH, None), 0) + ExplicitHeights(children[1..], boxH)
  }

  function AutoRows(children: seq<Node>): nat {
    if children == [] then 0
    else (if children[0].h.Missing? then 1 else 0) + AutoRows(children[1..])
  }

  /** The height of a child without an explicit one, when the column's own height is known. */
  function AutoHeight(children: seq<Node>, boxH: Option<int>, gap: int): Option<int> {
    if boxH.None? then None
    else
      var inner := Max(0, boxH.value - gap * (|children| - 1));
      Some(Share(inner - ExplicitHeights(children, boxH.value), AutoRows(children)))
  }

  function LayCol(children: seq<Node>, x: int, y: int, boxW: int, boxH: Option<int>, auto: Option<int>,
                  gap: int, caps: Caps): Laid
    decreases children, 0
  {
    if children == [] then Laid([], 0)
    else
      var w := Or(Resolve(children[0].w, boxW, None), boxW);
      var h := Resolve(children[0].h, Or(boxH, 0), auto);
      var first := LayNode(children[0], x, y, w, h, caps, true);
      if |children| == 1 then first
      else
        var rest := LayCol(children[1..], x, y + first.height + gap, boxW, boxH, auto, gap, caps);
        Laid(first.blocks + rest.blocks, first.height + gap + rest.height)
  }

  // ----- Grids -----

  function CellWidth(boxW: int, gap: int, cols: int): int
    requires cols > 0
  {
    Max(0, (boxW - gap * (cols - 1)) / cols)
  }

  function LayGrid(children: seq<Node>, cols: int, cellW: int, x: int, y: int, gap: int, caps: Caps): Laid
    requires cols > 0
    decreases children, 1
  {
    if |children| <= cols then LayCells(children, cellW, x, y, gap, caps)
    else
      var first := LayCells(children[..cols], cellW, x, y, gap, caps);
      var rest := LayGrid(children[cols..], cols, cellW, x, y + first.height + gap, gap, caps);
      Laid(first.blocks + rest.blocks, first.height + gap + rest.height)
  }

  /** One grid row; its height is that of its tallest child. */
  function LayCells(children: seq<Node>, cellW: int, x: int, y: int, gap: int, caps: Caps): (r: Laid)
    ensures r.height >= 0
    decreases children, 0
  {
    if children == [] then Laid([], 0)
    else
      var first := LayNode(children[0], x, y, cellW, None, caps, true);
      var rest := LayCells(children[1..], cellW, x + (cellW + gap), y, gap, caps);
      Laid(first.blocks + rest.blocks, Max(first.height, rest.height))
  }

  // ----- The document -----

  function LayDocument(nodes: seq<Node>, y: int, caps: Caps): seq<Block> {
    if nodes == [] then []
    else
      var first := LayNode(nodes[0], 0, y, caps.width, None, caps, false);
      first.blocks + LayDocument(nodes[1..], y + first.height + PAD, caps)
  }
}

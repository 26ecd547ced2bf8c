/** The heightmap mesh builder of the image-load handler: every grid cell
    (i, j) becomes two triangles, six freshly emitted vertices, with no index
    buffer. x and z come from the cell's column and row, y is read from the
    sample buffer. */
module Mesh {
  import opened Policy
  import opened Luminance
  import Arith
  import Blocks

  /** A height as it reaches the vertex list: a number, or the `undefined`
      that reading past the end of the sample array yields (it becomes NaN
      once the list is copied into a Float32Array). */
  datatype Sample = Defined(value: real) | Undefined

  /** One emitted vertex (three consecutive numbers of the position list). */
  datatype Vertex = Vertex(x: real, y: Sample, z: real)

  /** Grid line k of a dimension with dim cells, mapped to k / (dim + 1) * 2. */
  function Coord(k: nat, dim: nat): real {
    k as real / (dim + 1) as real * 2.0
  }

  /** An array read: in range it yields the sample, past either end `undefined`. */
  function Read(data: seq<real>, k: int): Sample {
    if 0 <= k < |data| then Defined(data[k]) else Undefined
  }

  /** The position in the sample buffer from which grid corner (r, c) takes
      its height. As written it is r * width + c whatever r and c are; the
      corrected builder clamps r and c to the last row and column. */
  function SampleIndex(hm: Heightmap, v: Variant, r: nat, c: nat): (k: int)
    ensures v.AsWritten? ==> k == r * hm.width + c
    ensures r < hm.height && c < hm.width ==> k == r * hm.width + c
    ensures v.Corrected? && 0 < hm.height && 0 < hm.width ==> 0 <= k < hm.height * hm.width
  {
    match v
    case AsWritten => r * hm.width + c
    case Corrected =>
      var row, col := Arith.Min(r, hm.height - 1), Arith.Min(c, hm.width - 1);
      if 0 < hm.height && 0 < hm.width then
        Arith.IndexInGrid(row, col, hm.height, hm.width);
        row * hm.width + col
      else
        row * hm.width + col
  }

  /** The vertex at grid corner (r, c): column c gives x, row r gives z. */
  function Corner(hm: Heightmap, v: Variant, r: nat, c: nat): (p: Vertex)
    ensures p.x == Coord(c, hm.width) && p.z == Coord(r, hm.height)
    ensures p.y.Defined? <==> 0 <= SampleIndex(hm, v, r, c) < |hm.data|
    ensures p.y.Defined? ==> p.y.value == hm.data[SampleIndex(hm, v, r, c)]
  {
    Vertex(Coord(c, hm.width), Read(hm.data, SampleIndex(hm, v, r, c)), Coord(r, hm.height))
  }

  /** The six vertices emitted for cell (i, j), from its corners
      v1 = (i, j), v2 = (i, j + 1), v3 = (i + 1, j), v4 = (i + 1, j + 1):
      first triangle (v1, v3, v2), then (v2, v3, v4). */
  function Cell(hm: Heightmap, v: Variant, i: nat, j: nat): (cs: seq<Vertex>)
    ensures |cs| == 6
    ensures cs[0] == Corner(hm, v, i, j) && cs[5] == Corner(hm, v, i + 1, j + 1)
    ensures cs[1] == cs[4] == Corner(hm, v, i + 1, j) && cs[2] == cs[3] == Corner(hm, v, i, j + 1)
  {
    var v1 := Corner(hm, v, i, j);
    var v2 := Corner(hm, v, i, j + 1);
    var v3 := Corner(hm, v, i + 1, j);
    var v4 := Corner(hm, v, i + 1, j + 1);
    [v1, v3, v2, v2, v3, v4]
  }

  /** The cells of grid row i, one block of six vertices per column. */
  function CellsOfRow(hm: Heightmap, v: Variant, i: nat): nat -> seq<Vertex> {
    (c: nat) => Cell(hm, v, i, c)
  }

  /** The vertices of cells (i, 0) .. (i, j - 1), in emission order. */
  function RowCells(hm: Heightmap, v: Variant, i: nat, j: nat): seq<Vertex> {
    Blocks.Concat(CellsOfRow(hm, v, i), j)
  }

  /** The grid rows, one block of 6 * W vertices per row. */
  function RowsOf(hm: Heightmap, v: Variant): nat -> seq<Vertex> {
    (r: nat) => RowCells(hm, v, r, hm.width)
  }

  /** The vertices of rows 0 .. n - 1, in emission order. */
  function Rows(hm: Heightmap, v: Variant, n: nat): seq<Vertex> {
    Blocks.Concat(RowsOf(hm, v), n)
  }

  /** The whole vertex list built for a heightmap. */
  function MeshOf(hm: Heightmap, v: Variant): seq<Vertex> {
    Rows(hm, v, hm.height)
  }

  /** Position in the vertex list of the t-th vertex emitted for cell (i, j)
      of a grid w cells wide and h rows high: i rows of 6 * w vertices, then
      j cells of six, then t. */
  function Slot(w: nat, h: nat, i: nat, j: nat, t: nat): (s: nat)
    requires i < h && j < w && t < 6
    ensures s < Arith.Mul(h, 6 * w)
    ensures s == 6 * (i * w + j) + t
  {
    Arith.RowIndexBound(i, 6 * j + t, h, 6 * w);
    Arith.MulIsProduct(i, 6 * w);
    Arith.Mul(i, 6 * w) + (6 * j + t)
  }

  /** Every emitted x lies in [0, 2 * W / (W + 1)] and every z in
      [0, 2 * H / (H + 1)]: the mesh never reaches 2 in either direction. */
  predicate InFootprint(p: Vertex, w: nat, h: nat) {
    && 0.0 <= p.x <= 2.0 * w as real / (w + 1) as real < 2.0
    && 0.0 <= p.z <= 2.0 * h as real / (h + 1) as real < 2.0
  }

  /** The loop of the image-load handler: rows, then columns, pushing the two
      triangles of each cell. */
  method BuildMesh(hm: Heightmap, v: Variant) returns (positions: seq<Vertex>)
    ensures positions == MeshOf(hm, v)
    ensures |positions| == 6 * (hm.width * hm.height)
  {
    positions := [];
    var i := 0;
    while i < hm.height
      invariant 0 <= i <= hm.height
      invariant positions == Rows(hm, v, i)
    {
      var row := BuildRow(hm, v, i);
      positions := positions + row;
      i := i + 1;
    }
    MeshLength(hm, v);
  }

  /** The inner loop of the mesh builder: the six vertices of every cell of
      grid row i, left to right. */
  method BuildRow(hm: Heightmap, v: Variant, i: nat) returns (row: seq<Vertex>)
    ensures row == RowCells(hm, v, i, hm.width)
    ensures |row| == 6 * hm.width
  {
    row := [];
    var j := 0;
    while j < hm.width
      invariant 0 <= j <= hm.width
      invariant row == RowCells(hm, v, i, j)
    {
      var v1 := Corner(hm, v, i, j);
      var v2 := Corner(hm, v, i, j + 1);
      var v3 := Corner(hm, v, i + 1, j);
      var v4 := Corner(hm, v, i + 1, j + 1);
      // first triangle (v1, v3, v2), second triangle (v2, v3, v4)
      var cell := [v1, v3, v2, v2, v3, v4];
      AppendCell(hm, v, i, j, row, cell);
      row := row + cell;
      j := j + 1;
    }
    RowCellsLength(hm, v, i, hm.width);
  }

  /** Appending the six vertices of cell (i, j) extends the emitted prefix
      by one cell. */
  lemma AppendCell(hm: Heightmap, v: Variant, i: nat, j: nat, prefix: seq<Vertex>, cell: seq<Vertex>)
    requires prefix == RowCells(hm, v, i, j)
    requires cell == [Corner(hm, v, i, j), Corner(hm, v, i + 1, j), Corner(hm, v, i, j + 1),
                      Corner(hm, v, i, j + 1), Corner(hm, v, i + 1, j), Corner(hm, v, i + 1, j + 1)]
    ensures prefix + cell == RowCells(hm, v, i, j + 1)
  {
    assert cell == Cell(hm, v, i, j);
  }

  /** Cells 0 .. j - 1 of row i fill 6 * j entries. */
  lemma RowCellsLength(hm: Heightmap, v: Variant, i: nat, j: nat)
    ensures |RowCells(hm, v, i, j)| == 6 * j
  {
    Blocks.ConcatLength(CellsOfRow(hm, v, i), j, 6);
    Arith.MulIsProduct(j, 6);
  }

  /** Within row i, the vertices of cell c start at 6 * c. */
  lemma RowCellsAt(hm: Heightmap, v: Variant, i: nat, j: nat, c: nat, t: nat)
    requires c < j && t < 6
    ensures 6 * c + t < |RowCells(hm, v, i, j)|
    ensures RowCells(hm, v, i, j)[6 * c + t] == Cell(hm, v, i, c)[t]
  {
    Blocks.ConcatAt(CellsOfRow(hm, v, i), j, 6, c, t);
    Arith.MulIsProduct(c, 6);
    Arith.MulIsProduct(j, 6);
  }

  /** Every row block holds 6 * W vertices. */
  lemma RowBlocksLength(hm: Heightmap, v: Variant)
    ensures forall r: nat :: |RowsOf(hm, v)(r)| == 6 * hm.width
  {
    forall r: nat
      ensures |RowsOf(hm, v)(r)| == 6 * hm.width
    {
      RowCellsLength(hm, v, r, hm.width);
    }
  }

  /** Rows 0 .. n - 1 fill n * (6 * W) entries. */
  lemma RowsLength(hm: Heightmap, v: Variant, n: nat)
    ensures |Rows(hm, v, n)| == Arith.Mul(n, 6 * hm.width)
  {
    RowBlocksLength(hm, v);
    Blocks.ConcatLength(RowsOf(hm, v), n, 6 * hm.width);
  }

  /** Six vertices for each of the width * height cells. */
  lemma MeshLength(hm: Heightmap, v: Variant)
    ensures |MeshOf(hm, v)| == Arith.Mul(hm.height, 6 * hm.width) == 6 * (hm.width * hm.height)
  {
    RowsLength(hm, v, hm.height);
    Arith.SixfoldRows(hm.height, hm.width);
  }

  /** Among rows 0 .. n - 1, the t-th vertex of cell (i, j) sits at
      Slot(W, n, i, j, t). */
  lemma RowsAt(hm: Heightmap, v: Variant, n: nat, i: nat, j: nat, t: nat)
    requires i < n && j < hm.width && t < 6
    ensures |Rows(hm, v, n)| == Arith.Mul(n, 6 * hm.width)
    ensures Rows(hm, v, n)[Slot(hm.width, n, i, j, t)] == Cell(hm, v, i, j)[t]
  {
    RowBlocksLength(hm, v);
    Blocks.ConcatAt(RowsOf(hm, v), n, 6 * hm.width, i, 6 * j + t);
    RowCellsAt(hm, v, i, hm.width, j, t);
  }

  /** The vertex list holds exactly six vertices per cell, and the six of
      cell (i, j) sit at Slot(W, H, i, j, 0 .. 5) in the fixed order
      (i, j), (i + 1, j), (i, j + 1) | (i, j + 1), (i + 1, j), (i + 1, j + 1):
      the two triangles share the edge from (i, j + 1) to (i + 1, j). */
  lemma MeshShape(hm: Heightmap, v: Variant)
    ensures |MeshOf(hm, v)| == Arith.Mul(hm.height, 6 * hm.width) == 6 * (hm.width * hm.height)
    ensures forall i: nat, j: nat :: i < hm.height && j < hm.width ==>
      && MeshOf(hm, v)[Slot(hm.width, hm.height, i, j, 0)] == Corner(hm, v, i, j)
      && MeshOf(hm, v)[Slot(hm.width, hm.height, i, j, 1)] == Corner(hm, v, i + 1, j)
      && MeshOf(hm, v)[Slot(hm.width, hm.height, i, j, 2)] == Corner(hm, v, i, j + 1)
      && MeshOf(hm, v)[Slot(hm.width, hm.height, i, j, 3)] == Corner(hm, v, i, j + 1)
      && MeshOf(hm, v)[Slot(hm.width, hm.height, i, j, 4)] == Corner(hm, v, i + 1, j)
      && MeshOf(hm, v)[Slot(hm.width, hm.height, i, j, 5)] == Corner(hm, v, i + 1, j + 1)
  {
    MeshLength(hm, v);
    forall i: nat, j: nat | i < hm.height && j < hm.width
      ensures && MeshOf(hm, v)[Slot(hm.width, hm.height, i, j, 0)] == Corner(hm, v, i, j)
              && MeshOf(hm, v)[Slot(hm.width, hm.height, i, j, 1)] == Corner(hm, v, i + 1, j)
              && MeshOf(hm, v)[Slot(hm.width, hm.height, i, j, 2)] == Corner(hm, v, i, j + 1)
              && MeshOf(hm, v)[Slot(hm.width, hm.height, i, j, 3)] == Corner(hm, v, i, j + 1)
              && MeshOf(hm, v)[Slot(hm.width, hm.height, i, j, 4)] == Corner(hm, v, i + 1, j)
              && MeshOf(hm, v)[Slot(hm.width, hm.height, i, j, 5)] == Corner(hm, v, i + 1, j + 1)
    {
      MeshCell(hm, v, i, j);
    }
  }

  /** The six vertices of cell (i, j) in the mesh, one by one. */
  lemma MeshCell(hm: Heightmap, v: Variant, i: nat, j: nat)
    requires i < hm.height && j < hm.width
    ensures |MeshOf(hm, v)| == Arith.Mul(hm.height, 6 * hm.width)
    ensures MeshOf(hm, v)[Slot(hm.width, hm.height, i, j, 0)] == Corner(hm, v, i, j)
    ensures MeshOf(hm, v)[Slot(hm.width, hm.height, i, j, 1)] == Corner(hm, v, i + 1, j)
    ensures MeshOf(hm, v)[Slot(hm.width, hm.height, i, j, 2)] == Corner(hm, v, i, j + 1)
    ensures MeshOf(hm, v)[Slot(hm.width, hm.height, i, j, 3)] == Corner(hm, v, i, j + 1)
    ensures MeshOf(hm, v)[Slot(hm.width, hm.height, i, j, 4)] == Corner(hm, v, i + 1, j)
    ensures MeshOf(hm, v)[Slot(hm.width, hm.height, i, j, 5)] == Corner(hm, v, i + 1, j + 1)
  {
    RowsLength(hm, v, hm.height);
    RowsAt(hm, v, hm.height, i, j, 0);
    RowsAt(hm, v, hm.height, i, j, 1);
    RowsAt(hm, v, hm.height, i, j, 2);
    RowsAt(hm, v, hm.height, i, j, 3);
    RowsAt(hm, v, hm.height, i, j, 4);
    RowsAt(hm, v, hm.height, i, j, 5);
  }

  /** Grid line k of dim is at most 2 * dim / (dim + 1), which is below 2. */
  lemma CoordBounds(k: nat, dim: nat)
    requires k <= dim
    ensures 0.0 <= Coord(k, dim) <= 2.0 * dim as real / (dim + 1) as real < 2.0
  {
    var d := (dim + 1) as real;
    assert Coord(k, dim) == 2.0 * k as real / d;
    assert 2.0 * dim as real / d < 2.0 by {
      assert 2.0 * dim as real < 2.0 * d;
    }
  }

  /** A property of vertices holds of the whole mesh once it holds of every
      vertex of every cell. */
  lemma MeshAll(hm: Heightmap, v: Variant, P: Vertex -> bool)
    requires forall i: nat, j: nat, t: nat :: i < hm.height && j < hm.width && t < 6 ==>
      P(Cell(hm, v, i, j)[t])
    ensures forall p :: p in MeshOf(hm, v) ==> P(p)
  {
    forall r: nat | r < hm.height
      ensures forall p :: p in RowsOf(hm, v)(r) ==> P(p)
    {
      Blocks.ConcatAll(CellsOfRow(hm, v, r), hm.width, P);
    }
    forall r: nat, t: nat | r < hm.height && t < |RowsOf(hm, v)(r)|
      ensures P(RowsOf(hm, v)(r)[t])
    {
      assert RowsOf(hm, v)(r)[t] in RowsOf(hm, v)(r);
    }
    Blocks.ConcatAll(RowsOf(hm, v), hm.height, P);
  }

  /** Every x of the mesh lies in [0, 2W/(W+1)] and every z in [0, 2H/(H+1)],
      so the mesh stays strictly below 2 in both directions. */
  lemma MeshInFootprint(hm: Heightmap, v: Variant)
    ensures forall p :: p in MeshOf(hm, v) ==> InFootprint(p, hm.width, hm.height)
  {
    forall i: nat, j: nat, t: nat | i < hm.height && j < hm.width && t < 6
      ensures InFootprint(Cell(hm, v, i, j)[t], hm.width, hm.height)
    {
      CoordBounds(j, hm.width);
      CoordBounds(j + 1, hm.width);
      CoordBounds(i, hm.height);
      CoordBounds(i + 1, hm.height);
    }
    MeshAll(hm, v, (p: Vertex) => InFootprint(p, hm.width, hm.height));
  }

  /** As written, the heights of cell (i, j) of a well-formed heightmap are
      read as follows: v1 always lies in the buffer; v2 falls off its end only
      in the very last cell; v3 falls off on the whole last row; v4 on the
      last row and in the last cell of the row before it. */
  lemma AsWrittenReads(hm: Heightmap, i: nat, j: nat)
    requires hm.WellFormed() && i < hm.height && j < hm.width
    ensures Corner(hm, AsWritten, i, j).y.Defined?
    ensures Corner(hm, AsWritten, i, j + 1).y.Undefined? <==> i == hm.height - 1 && j == hm.width - 1
    ensures Corner(hm, AsWritten, i + 1, j).y.Undefined? <==> i == hm.height - 1
    ensures Corner(hm, AsWritten, i + 1, j + 1).y.Undefined? <==>
      i == hm.height - 1 || (i == hm.height - 2 && j == hm.width - 1)
  {
    var w, h := hm.width, hm.height;
    Arith.IndexInGrid(i, j, h, w);
    Arith.NextRow(i, w);
    Arith.NextRow(i + 1, w);
    if j + 1 < w {
      Arith.IndexInGrid(i, j + 1, h, w);
    }
    if i + 1 < h {
      Arith.IndexInGrid(i + 1, j, h, w);
      if j + 1 < w {
        Arith.IndexInGrid(i + 1, j + 1, h, w);
      } else if i + 2 < h {
        Arith.IndexInGrid(i + 2, 0, h, w);
      }
    }
  }

  /** As written, the right-hand corners of the last cell of a row take the
      heights of the first column one row further down: the read wraps
      around instead of staying in the row. */
  lemma AsWrittenLastColumnWraps(hm: Heightmap, i: nat)
    requires 0 < hm.width
    ensures Corner(hm, AsWritten, i, hm.width).y == Corner(hm, AsWritten, i + 1, 0).y
    ensures Corner(hm, AsWritten, i + 1, hm.width).y == Corner(hm, AsWritten, i + 2, 0).y
  {
    Arith.NextRow(i, hm.width);
    Arith.NextRow(i + 1, hm.width);
  }

  /** As written, when the sample buffer holds no more than the W x H grid
      it describes, the second vertex of every cell of the last row has no
      height (NaN in the vertex buffer). */
  lemma AsWrittenMeshReadsPastEnd(hm: Heightmap, j: nat)
    requires 0 < hm.height && j < hm.width && |hm.data| <= hm.width * hm.height
    ensures |MeshOf(hm, AsWritten)| == Arith.Mul(hm.height, 6 * hm.width)
    ensures MeshOf(hm, AsWritten)[Slot(hm.width, hm.height, hm.height - 1, j, 1)].y == Undefined
  {
    MeshCell(hm, AsWritten, hm.height - 1, j);
    assert SampleIndex(hm, AsWritten, hm.height, j) == hm.height * hm.width + j;
  }

  /** As written, the last vertex of the mesh is corner (H, W), read from
      sample H * W + W: once the buffer holds no more than that, it has no
      height. */
  lemma AsWrittenLastCornerPastEnd(hm: Heightmap)
    requires 0 < hm.height && 0 < hm.width && |hm.data| <= hm.height * hm.width + hm.width
    ensures |MeshOf(hm, AsWritten)| == Arith.Mul(hm.height, 6 * hm.width)
    ensures MeshOf(hm, AsWritten)[Slot(hm.width, hm.height, hm.height - 1, hm.width - 1, 5)].y == Undefined
  {
    MeshCell(hm, AsWritten, hm.height - 1, hm.width - 1);
    assert SampleIndex(hm, AsWritten, hm.height, hm.width) == hm.height * hm.width + hm.width;
  }

  /** Corrected, every height of every cell is one of the grid's samples. */
  lemma CorrectedCellReadsInRange(hm: Heightmap, i: nat, j: nat, t: nat)
    requires hm.WellFormed() && i < hm.height && j < hm.width && t < 6
    ensures Cell(hm, Corrected, i, j)[t].y.Defined?
    ensures Cell(hm, Corrected, i, j)[t].y.value in hm.data
  {
    CorrectedCornerInRange(hm, i, j);
    CorrectedCornerInRange(hm, i, j + 1);
    CorrectedCornerInRange(hm, i + 1, j);
    CorrectedCornerInRange(hm, i + 1, j + 1);
  }

  /** Corrected, every corner of a cell takes its height from the grid. */
  lemma CorrectedCornerInRange(hm: Heightmap, r: nat, c: nat)
    requires hm.WellFormed() && 0 < hm.height && 0 < hm.width && r <= hm.height && c <= hm.width
    ensures Corner(hm, Corrected, r, c).y.Defined?
    ensures Corner(hm, Corrected, r, c).y.value in hm.data
  {
    Arith.IndexInGrid(Arith.Min(r, hm.height - 1), Arith.Min(c, hm.width - 1), hm.height, hm.width);
  }

  /** Corrected, the mesh of a well-formed heightmap takes every height from
      the grid: no vertex reads past the buffer, and a normalised heightmap
      yields heights in [0, 1]. */
  lemma CorrectedMeshReadsInRange(hm: Heightmap)
    requires hm.WellFormed()
    ensures forall p :: p in MeshOf(hm, Corrected) ==> p.y.Defined? && p.y.value in hm.data
    ensures hm.Normalised() ==> forall p :: p in MeshOf(hm, Corrected) ==> 0.0 <= p.y.value <= 1.0
  {
    forall i: nat, j: nat, t: nat | i < hm.height && j < hm.width && t < 6
      ensures Cell(hm, Corrected, i, j)[t].y.Defined? && Cell(hm, Corrected, i, j)[t].y.value in hm.data
    {
      CorrectedCellReadsInRange(hm, i, j, t);
    }
    MeshAll(hm, Corrected, (p: Vertex) => p.y.Defined? && p.y.value in hm.data);
  }

  /** Away from the last row and column, the corrected builder emits exactly
      what the code as written emits. */
  lemma CorrectedMatchesInterior(hm: Heightmap, i: nat, j: nat)
    requires i + 1 < hm.height && j + 1 < hm.width
    ensures Cell(hm, Corrected, i, j) == Cell(hm, AsWritten, i, j)
  {
  }

  /** Corrected, a corner past the last row or column takes the height of the
      nearest grid corner: the border is extended flat. */
  lemma CorrectedBorderIsFlat(hm: Heightmap, r: nat, c: nat)
    requires 0 < hm.height && 0 < hm.width
    ensures Corner(hm, Corrected, hm.height, c).y == Corner(hm, Corrected, hm.height - 1, c).y
    ensures Corner(hm, Corrected, r, hm.width).y == Corner(hm, Corrected, r, hm.width - 1).y
  {
  }

  /** The position list handed to the GPU: three numbers per vertex, an
      undefined height becoming NaN. */
  function Flatten(vs: seq<Vertex>): (fs: seq<Sample>)
    ensures |fs| == 3 * |vs|
    ensures forall k :: 0 <= k < |vs| ==>
      fs[3 * k] == Defined(vs[k].x) && fs[3 * k + 1] == vs[k].y && fs[3 * k + 2] == Defined(vs[k].z)
  {
    if vs == [] then []
    else
      var rest := Flatten(vs[1..]);
      assert forall k :: 1 <= k < |vs| ==> vs[k] == vs[1..][k - 1];
      [Defined(vs[0].x), vs[0].y, Defined(vs[0].z)] + rest
  }
}

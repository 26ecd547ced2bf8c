/** The image-load handler: process the decoded image into a heightmap,
    build the triangle list, flatten it into the position buffer and record
    the vertex count that draw uses. */
module Loader {
  import opened Policy
  import opened Luminance
  import opened Mesh
  import Arith

  /** What a successful load hands on: the heightmap record (the global
      heightmapData) and the position list sent to the GPU. */
  datatype Upload = Upload(hm: Heightmap, positions: seq<Sample>)

  /** The image-load handler. When processImage throws, on an image with a
      zero dimension, nothing is built and vertexCount keeps the value it had
      (countBefore). Otherwise the handler leaves the heightmap record, the
      position list and vertexCount = positions.length / 3. */
  method OnImageLoad(img: Image, v: Variant, countBefore: nat) returns (r: Outcome<Upload>, vertexCount: nat)
    requires img.Valid()
    ensures r.Threw? <==> img.width == 0 || img.height == 0
    ensures r.Threw? ==> vertexCount == countBefore
    ensures r.Done? ==> r.value.hm == HeightmapOf(img, v)
    ensures r.Done? ==> r.value.positions == Flatten(MeshOf(r.value.hm, v)) && vertexCount == |MeshOf(r.value.hm, v)|
    ensures r.Done? ==> |r.value.positions| == 3 * vertexCount
    ensures r.Done? ==> vertexCount == 6 * (img.width * (if v.AsWritten? then img.width else img.height))
    ensures r.Done? && v.Corrected? ==> forall s :: s in r.value.positions ==> s.Defined? && 0.0 <= s.value < 2.0
    ensures r.Done? && v.AsWritten? ==> (Undefined in r.value.positions <==> img.height <= img.width + 1)
  {
    var processed := ProcessImage(img, v);
    if processed.Threw? {
      return Threw, countBefore;
    }
    var hm := processed.value;
    var mesh := BuildMesh(hm, v);
    var positions := Flatten(mesh);
    vertexCount := |positions| / 3;
    assert vertexCount == |mesh|;
    if v.Corrected? {
      CorrectedBufferIsFinite(hm, mesh, positions);
    } else {
      AsWrittenBufferHasNaN(img);
    }
    r := Done(Upload(hm, positions));
  }

  /** Corrected, every number of the buffer is defined and lies in [0, 2). */
  lemma CorrectedBufferIsFinite(hm: Heightmap, mesh: seq<Vertex>, positions: seq<Sample>)
    requires hm.WellFormed() && hm.Normalised()
    requires mesh == MeshOf(hm, Corrected) && positions == Flatten(mesh)
    ensures forall s :: s in positions ==> s.Defined? && 0.0 <= s.value < 2.0
  {
    MeshInFootprint(hm, Corrected);
    CorrectedMeshReadsInRange(hm);
    FlattenInRange(mesh);
  }

  /** A vertex whose three numbers are defined and lie in [0, 2). */
  predicate InUnitBox(p: Vertex) {
    p.y.Defined? && 0.0 <= p.x < 2.0 && 0.0 <= p.y.value < 2.0 && 0.0 <= p.z < 2.0
  }

  /** A vertex list inside the box flattens to numbers inside [0, 2). */
  lemma FlattenInRange(mesh: seq<Vertex>)
    requires forall p :: p in mesh ==> InUnitBox(p)
    ensures forall s :: s in Flatten(mesh) ==> s.Defined? && 0.0 <= s.value < 2.0
  {
    var positions := Flatten(mesh);
    forall s | s in positions
      ensures s.Defined? && 0.0 <= s.value < 2.0
    {
      var n :| 0 <= n < |positions| && positions[n] == s;
      var k := n / 3;
      assert mesh[k] in mesh;
      assert n == 3 * k || n == 3 * k + 1 || n == 3 * k + 2;
    }
  }

  /** As written, for an image processImage accepts (no zero dimension), the
      buffer holds a NaN exactly when the image is at most one row taller
      than it is wide. The record claims
      width rows, and the last corner of the mesh, (width, width), reads
      sample width * width + width, which is past the width * height
      samples. A taller image has all its reads inside the samples; it only
      loses its lower rows. */
  lemma AsWrittenBufferHasNaN(img: Image)
    requires img.Valid() && 0 < img.width && 0 < img.height
    ensures Undefined in Flatten(MeshOf(HeightmapOf(img, AsWritten), AsWritten)) <==>
            img.height <= img.width + 1
  {
    if img.height <= img.width + 1 {
      AsWrittenShortImageHasNaN(img);
    } else {
      AsWrittenHeightsDefined(img);
      HeightsDefinedNoNaN(MeshOf(HeightmapOf(img, AsWritten), AsWritten));
    }
  }

  /** As written, an image at most one row taller than it is wide leaves the
      last vertex of the mesh without a height. */
  lemma AsWrittenShortImageHasNaN(img: Image)
    requires img.Valid() && 0 < img.width && 0 < img.height && img.height <= img.width + 1
    ensures Undefined in Flatten(MeshOf(HeightmapOf(img, AsWritten), AsWritten))
  {
    var w, h := img.width, img.height;
    var hm := HeightmapOf(img, AsWritten);
    Arith.MulMonotone(h, w + 1, w);
    AsWrittenLastCornerPastEnd(hm);
    var k := Slot(w, w, w - 1, w - 1, 5);
    assert Flatten(MeshOf(hm, AsWritten))[3 * k + 1] == Undefined;
  }

  /** A vertex list whose every height is defined flattens to a buffer
      without NaN. */
  lemma HeightsDefinedNoNaN(mesh: seq<Vertex>)
    requires forall p :: p in mesh ==> p.y.Defined?
    ensures Undefined !in Flatten(mesh)
  {
    var positions := Flatten(mesh);
    forall n | 0 <= n < |positions|
      ensures positions[n] != Undefined
    {
      var k := n / 3;
      assert mesh[k] in mesh;
      assert n == 3 * k || n == 3 * k + 1 || n == 3 * k + 2;
    }
  }

  /** As written, an image at least two rows taller than it is wide gives
      every vertex a height: the record claims only width rows. */
  lemma AsWrittenHeightsDefined(img: Image)
    requires img.Valid() && 0 < img.width && img.width + 2 <= img.height
    ensures forall p :: p in MeshOf(HeightmapOf(img, AsWritten), AsWritten) ==> p.y.Defined?
  {
    var w, h := img.width, img.height;
    var hm := HeightmapOf(img, AsWritten);
    Arith.MulMonotone(w + 2, h, w);
    assert (w + 2) * w <= |hm.data|;
    forall i: nat, j: nat, t: nat | i < w && j < w && t < 6
      ensures Cell(hm, AsWritten, i, j)[t].y.Defined?
    {
      AsWrittenCornerDefined(hm, i, j);
      AsWrittenCornerDefined(hm, i, j + 1);
      AsWrittenCornerDefined(hm, i + 1, j);
      AsWrittenCornerDefined(hm, i + 1, j + 1);
    }
    MeshAll(hm, AsWritten, (p: Vertex) => p.y.Defined?);
  }

  /** As written, corner (r, c) of a grid w cells wide reads sample
      r * w + c, at most w * w + w: it has a height once the buffer holds
      two rows more than w. */
  lemma AsWrittenCornerDefined(hm: Heightmap, r: nat, c: nat)
    requires 0 < hm.width && r <= hm.width && c <= hm.width
    requires (hm.width + 2) * hm.width <= |hm.data|
    ensures Corner(hm, AsWritten, r, c).y.Defined?
  {
    Arith.MulMonotone(r, hm.width, hm.width);
    assert (hm.width + 2) * hm.width == hm.width * hm.width + 2 * hm.width;
  }

  /** A 2 x 2 heightmap with samples [0, 1, 1, 0] yields 8 triangles (24
      vertices); the first vertex is the corner (0, 0) at height 0. The code
      as written gives the second vertex of cell (1, 0) no height at all,
      where the corrected builder repeats the last row's sample 1. */
  lemma TwoByTwoScenario(hm: Heightmap)
    requires hm.data == [0.0, 1.0, 1.0, 0.0] && hm.width == 2 && hm.height == 2
    ensures |MeshOf(hm, AsWritten)| == 24 && |MeshOf(hm, Corrected)| == 24
    ensures MeshOf(hm, AsWritten)[0] == Vertex(0.0, Defined(0.0), 0.0)
    ensures MeshOf(hm, Corrected)[0] == Vertex(0.0, Defined(0.0), 0.0)
    ensures MeshOf(hm, AsWritten)[13].y == Undefined
    ensures MeshOf(hm, Corrected)[13].y == Defined(1.0)
  {
    TwoByTwoVariant(hm, AsWritten);
    TwoByTwoVariant(hm, Corrected);
  }

  lemma TwoByTwoVariant(hm: Heightmap, v: Variant)
    requires hm.data == [0.0, 1.0, 1.0, 0.0] && hm.width == 2 && hm.height == 2
    ensures |MeshOf(hm, v)| == 24
    ensures MeshOf(hm, v)[0] == Vertex(0.0, Defined(0.0), 0.0)
    ensures MeshOf(hm, v)[13].y == (if v.AsWritten? then Undefined else Defined(1.0))
  {
    TwoByTwoLayout(hm, v);
    assert SampleIndex(hm, v, 2, 0) == (if v.AsWritten? then 4 else 2);
  }

  /** In a 2 x 2 grid, vertex 0 is corner (0, 0) and vertex 13, the second
      vertex of cell (1, 0), is corner (2, 0). */
  lemma TwoByTwoLayout(hm: Heightmap, v: Variant)
    requires hm.width == 2 && hm.height == 2
    ensures |MeshOf(hm, v)| == 24
    ensures MeshOf(hm, v)[0] == Corner(hm, v, 0, 0)
    ensures MeshOf(hm, v)[13] == Corner(hm, v, 2, 0)
  {
    MeshLength(hm, v);
    TwoByTwoSlot(hm, v, 0, 0);
    TwoByTwoSlot(hm, v, 1, 1);
  }

  /** In a 2 x 2 grid, vertex t of cell (i, 0) sits at 6 * 2 * i + t. */
  lemma TwoByTwoSlot(hm: Heightmap, v: Variant, i: nat, t: nat)
    requires hm.width == 2 && hm.height == 2 && i < 2 && t < 6
    ensures 12 * i + t < |MeshOf(hm, v)|
    ensures MeshOf(hm, v)[12 * i + t] == Cell(hm, v, i, 0)[t]
  {
    RowsAt(hm, v, hm.height, i, 0, t);
    Arith.MulIsProduct(hm.height, 6 * hm.width);
    assert Slot(hm.width, hm.height, i, 0, t) == 12 * i + t;
  }

}

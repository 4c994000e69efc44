/** What the importer computes from one Boundary before it touches the
    document: the points array handed to Xpedition and the name of the user
    layer that receives it. */
module Geometry {
  import opened Decimal
  import opened Gds

  /** Nanometres in the stream become microns in the design: `c * 0.001`,
      here in exact arithmetic. */
  function ToMicrons(c: int): (r: real)
    ensures r * 1000.0 == c as real
  {
    c as real * 0.001
  }

  /** The three parallel lists X, Y, R of an Xpedition points array. */
  datatype PointsArray = PointsArray(xs: seq<real>, ys: seq<real>, rs: seq<real>)

  /** The points array for a boundary's vertices: every vertex scaled to
      microns with a zero radius, and then the first entry repeated at the
      end. The repetition is unconditional: an outline whose last vertex
      already equals its first still gains one more copy of it. */
  function ClosedOutline(xy: seq<Point>): (pa: PointsArray)
    requires |xy| > 0
    ensures |pa.xs| == |pa.ys| == |pa.rs| == |xy| + 1
    ensures forall i :: 0 <= i < |xy| ==>
      pa.xs[i] == ToMicrons(xy[i].x) && pa.ys[i] == ToMicrons(xy[i].y) && pa.rs[i] == 0.0
    ensures pa.xs[|xy|] == pa.xs[0] && pa.ys[|xy|] == pa.ys[0] && pa.rs[|xy|] == pa.rs[0]
  {
    var xs := seq(|xy|, i requires 0 <= i < |xy| => ToMicrons(xy[i].x));
    var ys := seq(|xy|, i requires 0 <= i < |xy| => ToMicrons(xy[i].y));
    var rs := seq(|xy|, _ => 0.0);
    PointsArray(xs + [xs[0]], ys + [ys[0]], rs + [rs[0]])
  }

  /** Builds the points array the way the importer does: one append per
      vertex to each list, then the closing copy of the first entries. An
      empty vertex list has no first entry to copy. */
  method BuildPointsArray(xy: seq<Point>) returns (pa: PointsArray)
    requires |xy| > 0
    ensures pa == ClosedOutline(xy)
  {
    var xs: seq<real> := [];
    var ys: seq<real> := [];
    var rs: seq<real> := [];
    for k := 0 to |xy|
      invariant |xs| == |ys| == |rs| == k
      invariant forall i :: 0 <= i < k ==>
        xs[i] == ToMicrons(xy[i].x) && ys[i] == ToMicrons(xy[i].y) && rs[i] == 0.0
    {
      xs := xs + [ToMicrons(xy[k].x)];
      ys := ys + [ToMicrons(xy[k].y)];
      rs := rs + [0.0];
    }
    xs := xs + [xs[0]];
    ys := ys + [ys[0]];
    rs := rs + [rs[0]];
    pa := PointsArray(xs, ys, rs);
  }

  /** One coordinate of 1,000,000 nm is exactly 1000 microns. */
  lemma MillimetreInMicrons()
    ensures ToMicrons(1000000) == 1000.0
  {
  }

  /** Closure is not idempotent: closing an outline whose last vertex already
      equals its first still adds a vertex, so the last two entries of the
      points array repeat the first vertex. */
  lemma ClosingClosedOutlineDuplicates(xy: seq<Point>)
    requires |xy| > 1 && xy[|xy| - 1] == xy[0]
    ensures var pa := ClosedOutline(xy);
      |pa.xs| == |xy| + 1 &&
      pa.xs[|xy| - 1] == pa.xs[|xy|] == pa.xs[0] &&
      pa.ys[|xy| - 1] == pa.ys[|xy|] == pa.ys[0]
  {
  }

  /** The name of the user layer for a layer/datatype pair: the prefix
      "GDS_", the decimal layer number, a dot, and the decimal datatype. */
  function UserLayerName(layer: int, dataType: int): string {
    "GDS_" + IntDecimal(layer) + "." + IntDecimal(dataType)
  }

  /** Reads the layer and datatype back out of a user layer name. */
  lemma UserLayerNameParts(layer: int, dataType: int)
    ensures var name := UserLayerName(layer, dataType);
      name[..4] == "GDS_" && '.' in name[4..] &&
      var dot := IndexOf(name[4..], '.');
      name[4..][..dot] == IntDecimal(layer) &&
      name[4..][dot + 1..] == IntDecimal(dataType)
  {
    var name := UserLayerName(layer, dataType);
    IntDecimalHasNoSeparator(layer);
    IntDecimalHasNoSeparator(dataType);
    assert name[4..] == IntDecimal(layer) + ("." + IntDecimal(dataType));
    IndexOfAfterHead(IntDecimal(layer), "." + IntDecimal(dataType), '.');
  }

  /** Elements share a user layer exactly when they share both the layer and
      the datatype. */
  lemma UserLayerNameInjective(layer1: int, dataType1: int, layer2: int, dataType2: int)
    ensures UserLayerName(layer1, dataType1) == UserLayerName(layer2, dataType2)
        <==> layer1 == layer2 && dataType1 == dataType2
  {
    if UserLayerName(layer1, dataType1) == UserLayerName(layer2, dataType2) {
      UserLayerNameParts(layer1, dataType1);
      UserLayerNameParts(layer2, dataType2);
      IntDecimalInjective(layer1, layer2);
      IntDecimalInjective(dataType1, dataType2);
    }
  }
}

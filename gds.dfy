/** The design tree that the GDSII reader hands to the importer, and the
    human-readable rendering of a record payload used by the debug dump. */
module Gds {
  import opened Decimal

  /** One vertex in database units (nanometres). */
  datatype Point = Point(x: int, y: int)

  /** The element kinds of a GDSII structure: the five geometric element kinds, and the
      structure reference and array reference, which place another
      structure and have no layer. Only the fields the importer reads, or
      that identify an element, are kept. */
  datatype Element =
    | Boundary(layer: int, dataType: int, xy: seq<Point>)
    | Path(layer: int, dataType: int, xy: seq<Point>, width: int)
    | Text(layer: int, textType: int, xy: seq<Point>, text: string)
    | Node(layer: int, nodeType: int, xy: seq<Point>)
    | Box(layer: int, boxType: int, xy: seq<Point>)
    | SRef(structName: string, xy: seq<Point>)
    | ARef(structName: string, columns: int, rows: int, xy: seq<Point>)

  /** A structure is its elements in stream order; a library is its
      structures in stream order. */
  type Structure = seq<Element>
  type Library = seq<Structure>

  /** The payload of one record, by its data-type code. Four- and eight-byte
      reals are not part of this model. */
  datatype Payload =
    | NoData
    | BitArray(bits: int)
    | Int2(values: seq<int>)
    | Int4(values: seq<int>)
    | Ascii(text: string)

  /** The decimal renderings of the values, in order, separated by a comma
      and a space. */
  function Joined(values: seq<int>): string {
    if values == [] then ""
    else if |values| == 1 then IntDecimal(values[0])
    else IntDecimal(values[0]) + ", " + Joined(values[1..])
  }

  /** The debug dump's rendering of a payload: ASCII text in double quotes
      (without escaping), a bit array as its integer value, anything else as
      its items separated by ", ". The dump never renders a record without
      data. */
  function ShowData(p: Payload): (r: string)
    requires !p.NoData?
    ensures p.Ascii? ==> |r| == |p.text| + 2 && r[0] == '"' && r[|r| - 1] == '"' && r[1..|r| - 1] == p.text
    ensures p.BitArray? ==> IsIntLiteral(r) && ParseInt(r) == p.bits
    ensures (p.Int2? || p.Int4?) ==> (r == "" <==> p.values == [])
  {
    match p
    case Ascii(text) => "\"" + text + "\""
    case BitArray(bits) => IntDecimalRoundTrip(bits); IntDecimal(bits)
    case Int2(values) => Joined(values)
    case Int4(values) => Joined(values)
  }

  /** The shape of a listing: empty exactly for no values, and holding a
      comma exactly when there are at least two. */
  lemma {:induction false} JoinedShape(v: seq<int>)
    ensures Joined(v) == "" <==> v == []
    ensures ',' in Joined(v) <==> |v| >= 2
    ensures |v| >= 2 ==> Joined(v) == IntDecimal(v[0]) + (", " + Joined(v[1..]))
  {
    if |v| == 1 {
      IntDecimalHasNoSeparator(v[0]);
      assert Joined(v) == IntDecimal(v[0]);
    } else if |v| >= 2 {
      var head := IntDecimal(v[0]);
      assert Joined(v) == head + (", " + Joined(v[1..]));
      assert Joined(v)[|head|] == ',';
    }
  }

  /** Two listings of at least two values that coincide agree on their first
      value and on the listing of the rest. */
  lemma JoinedSplit(v: seq<int>, w: seq<int>)
    requires |v| >= 2 && |w| >= 2 && Joined(v) == Joined(w)
    ensures v[0] == w[0] && Joined(v[1..]) == Joined(w[1..])
  {
    JoinedShape(v);
    JoinedShape(w);
    IntDecimalHasNoSeparator(v[0]);
    IntDecimalHasNoSeparator(w[0]);
    var t1, t2 := ", " + Joined(v[1..]), ", " + Joined(w[1..]);
    SplitAtFirst(IntDecimal(v[0]), t1, IntDecimal(w[0]), t2, ',');
    IntDecimalInjective(v[0], w[0]);
    assert Joined(v[1..]) == t1[2..];
    assert Joined(w[1..]) == t2[2..];
  }

  /** Listings that coincide have the same number of values, up to "one"
      versus "two or more" and "none" versus "some". */
  lemma JoinedSameShape(v: seq<int>, w: seq<int>)
    requires Joined(v) == Joined(w)
    ensures v == [] <==> w == []
    ensures |v| >= 2 <==> |w| >= 2
  {
    JoinedShape(v);
    JoinedShape(w);
  }

  /** Different integer payloads render differently: the ", " separators
      can be found again because no rendered integer contains a comma. */
  lemma {:induction false} JoinedInjective(v: seq<int>, w: seq<int>)
    requires Joined(v) == Joined(w)
    ensures v == w
  {
    JoinedSameShape(v, w);
    if |v| == 1 {
      assert Joined(v) == IntDecimal(v[0]) && Joined(w) == IntDecimal(w[0]);
      IntDecimalInjective(v[0], w[0]);
    } else if |v| >= 2 {
      JoinedSplit(v, w);
      JoinedInjective(v[1..], w[1..]);
      assert v == [v[0]] + v[1..];
      assert w == [w[0]] + w[1..];
    }
  }

  /** A list of n integers renders as n fields: exactly n - 1 commas. */
  function CommaCount(s: string): nat {
    if s == [] then 0 else (if s[0] == ',' then 1 else 0) + CommaCount(s[1..])
  }

  lemma {:induction false} CommaCountAppend(a: string, b: string)
    ensures CommaCount(a + b) == CommaCount(a) + CommaCount(b)
  {
    if a == [] {
      assert a + b == b;
    } else {
      assert (a + b)[0] == a[0] && (a + b)[1..] == a[1..] + b;
      CommaCountAppend(a[1..], b);
    }
  }

  lemma {:induction false} CommaCountOfDecimal(n: int)
    ensures CommaCount(IntDecimal(n)) == 0
  {
    IntDecimalHasNoSeparator(n);
    NoCommaNoCount(IntDecimal(n));
  }

  lemma {:induction false} NoCommaNoCount(s: string)
    requires ',' !in s
    ensures CommaCount(s) == 0
  {
    if s != [] {
      assert ',' !in s[1..];
      NoCommaNoCount(s[1..]);
    }
  }

  lemma {:induction false} JoinedFieldCount(values: seq<int>)
    requires values != []
    ensures CommaCount(Joined(values)) == |values| - 1
  {
    CommaCountOfDecimal(values[0]);
    if |values| > 1 {
      JoinedFieldCount(values[1..]);
      assert CommaCount(", ") == 1 by {
        assert ", "[1..] == " " && " "[1..] == "";
      }
      assert Joined(values) == IntDecimal(values[0]) + (", " + Joined(values[1..]));
      CommaCountAppend(", ", Joined(values[1..]));
      CommaCountAppend(IntDecimal(values[0]), ", " + Joined(values[1..]));
    }
  }
}

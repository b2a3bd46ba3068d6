/**
 * The values of a CodingBat test case (coding_bat_exporter/src/types.rs):
 * the argument and result values, their type tags, and how a value is
 * written out. A serialised value is modelled as a JSON-like tree; the
 * serializer library itself is not part of this model. Numbers are the
 * exact reals they denote (f32 rounding is not modelled).
 */
module CodingBatTypes {
  import opened Wrappers

  /** `Type`. */
  datatype Value =
    | Bool(b: bool)
    | Number(x: real)
    | Str(s: string)
    | Array(items: seq<Value>)
    | ArrayList(items: seq<Value>)

  /** `Types`: the tag of a value, without its contents. */
  datatype Kind = BoolKind | NumberKind | StringKind | ArrayKind | ArrayListKind

  /** `as_types`: each value's tag is the one of the same name. */
  function AsTypes(v: Value): (r: Kind)
    ensures r == BoolKind <==> v.Bool?
    ensures r == NumberKind <==> v.Number?
    ensures r == StringKind <==> v.Str?
    ensures r == ArrayKind <==> v.Array?
    ensures r == ArrayListKind <==> v.ArrayList?
  {
    match v
    case Bool(_) => BoolKind
    case Number(_) => NumberKind
    case Str(_) => StringKind
    case Array(_) => ArrayKind
    case ArrayList(_) => ArrayListKind
  }

  /** What the serializer is handed: a bool, an f32, a u32, an integer, a string or a sequence. */
  datatype Json =
    | JBool(b: bool)
    | JF32(x: real)
    | JU32(n: nat)
    | JInt(i: int)
    | JStr(s: string)
    | JSeq(items: seq<Json>)

  const U32Max: nat := 0xFFFF_FFFF

  /** `fract() == 0`: the number has no fractional part. */
  predicate IsWhole(x: real) {
    x.Floor as real == x
  }

  /** Rust's `as u32` on a float: rounds toward zero and saturates at both ends. */
  function AsU32(x: real): (r: nat)
    ensures r <= U32Max
    ensures x < 1.0 ==> r == 0
    ensures 0.0 <= x < (U32Max + 1) as real ==> r as real <= x < r as real + 1.0
  {
    if x < 0.0 then 0 else if x >= (U32Max + 1) as real then U32Max else x.Floor
  }

  /**
   * A number as written: with a fractional part as an f32, otherwise cast
   * `as u32`, so that a negative whole number becomes 0.
   */
  function NumberJson(x: real): (r: Json)
    ensures !IsWhole(x) ==> r == JF32(x)
    ensures IsWhole(x) ==> r == JU32(AsU32(x))
  {
    if !IsWhole(x) then JF32(x) else JU32(AsU32(x))
  }

  /** A number as evidently intended: a whole number is written as that integer. */
  function NumberJsonFixed(x: real): (r: Json)
    ensures !IsWhole(x) ==> r == JF32(x)
    ensures IsWhole(x) ==> r.JInt? && r.i as real == x
  {
    if !IsWhole(x) then JF32(x) else JInt(x.Floor)
  }

  /** The number a serialised scalar denotes, if it is one. */
  function JsonNumber(j: Json): (r: Option<real>)
    ensures r.Some? <==> j.JF32? || j.JU32? || j.JInt?
  {
    match j
    case JF32(x) => Some(x)
    case JU32(n) => Some(n as real)
    case JInt(i) => Some(i as real)
    case _ => None
  }

  /** The corrected encoding denotes exactly the number it was given. */
  lemma NumberJsonFixedExact(x: real)
    ensures JsonNumber(NumberJsonFixed(x)) == Some(x)
  {
  }

  /** As written, a negative whole number comes out as 0. */
  lemma NegativeWholeAsWritten()
    ensures NumberJson(-3.0) == JU32(0)
    ensures JsonNumber(NumberJson(-3.0)) != Some(-3.0)
  {
    assert IsWhole(-3.0) by { assert (-3.0).Floor == -3; }
  }

  /** As written, the encoding is exact precisely for the numbers a u32 holds and for fractions. */
  lemma NumberJsonExactWhen(x: real)
    ensures JsonNumber(NumberJson(x)) == Some(x) <==> !IsWhole(x) || 0.0 <= x <= U32Max as real
  {
  }

  /**
   * `Serialize for Type`: a bool, a number, a string, or the elements in
   * order for both kinds of array; numbers are encoded as written, or with
   * the corrected encoding when `fixed` holds.
   */
  function SerializeWith(v: Value, fixed: bool): (r: Json)
    ensures v.Bool? <==> r.JBool?
    ensures v.Str? <==> r.JStr?
    ensures v.Array? || v.ArrayList? <==> r.JSeq?
    decreases v, 1
  {
    match v
    case Bool(b) => JBool(b)
    case Number(x) => if fixed then NumberJsonFixed(x) else NumberJson(x)
    case Str(s) => JStr(s)
    case Array(xs) => JSeq(SerializeAll(xs, fixed))
    case ArrayList(xs) => JSeq(SerializeAll(xs, fixed))
  }

  function SerializeAll(xs: seq<Value>, fixed: bool): (r: seq<Json>)
    ensures |r| == |xs|
    decreases xs, 0
  {
    if xs == [] then [] else [SerializeWith(xs[0], fixed)] + SerializeAll(xs[1..], fixed)
  }

  /** The serializer as written. */
  function Serialize(v: Value): Json {
    SerializeWith(v, false)
  }

  /** The corrected serializer: whole numbers are written as signed integers. */
  function SerializeFixed(v: Value): Json {
    SerializeWith(v, true)
  }

  /** Both kinds of array serialise alike: one element per item, in order. */
  lemma {:induction false} SerializeArrays(xs: seq<Value>, fixed: bool)
    ensures SerializeWith(Array(xs), fixed) == SerializeWith(ArrayList(xs), fixed)
    ensures |SerializeWith(Array(xs), fixed).items| == |xs|
    ensures forall i :: 0 <= i < |xs| ==> SerializeWith(Array(xs), fixed).items[i] == SerializeWith(xs[i], fixed)
  {
    SerializeAllItems(xs, fixed);
  }

  lemma {:induction false} SerializeAllItems(xs: seq<Value>, fixed: bool)
    ensures forall i :: 0 <= i < |xs| ==> SerializeAll(xs, fixed)[i] == SerializeWith(xs[i], fixed)
  {
    if xs != [] {
      SerializeAllItems(xs[1..], fixed);
    }
  }

  /**
   * Scalars keep their value: a bool as itself, a string as itself. As
   * written, a number keeps its value exactly when it has a fractional part
   * or is a whole number a u32 holds, and a negative whole number becomes 0;
   * the corrected serializer keeps every number.
   */
  lemma SerializeScalars(v: Value)
    ensures v.Bool? ==> Serialize(v) == JBool(v.b) && SerializeFixed(v) == JBool(v.b)
    ensures v.Str? ==> Serialize(v) == JStr(v.s) && SerializeFixed(v) == JStr(v.s)
    ensures v.Number? ==> (JsonNumber(Serialize(v)) == Some(v.x) <==> !IsWhole(v.x) || 0.0 <= v.x <= U32Max as real)
    ensures v.Number? && IsWhole(v.x) && v.x < 0.0 ==> Serialize(v) == JU32(0)
    ensures v.Number? ==> JsonNumber(SerializeFixed(v)) == Some(v.x)
  {
    if v.Number? {
      NumberJsonExactWhen(v.x);
      NumberJsonFixedExact(v.x);
    }
  }
}

/**
 * Metric prefixes (`unit_convert/src/prefix.rs`): the table of the 24 SI
 * prefixes, stripping a prefix off a unit name, and resolving a possibly
 * prefixed unit name against the registry.
 */
module Prefix {
  import opened Wrappers
  import opened Units

  datatype Prefix = Prefix(name: string, symbol: string, power: int)

  const Quetta := Prefix("quetta", "Q", 30)
  const Ronna := Prefix("ronna", "R", 27)
  const Yotta := Prefix("yotta", "Y", 24)
  const Zetta := Prefix("zetta", "Z", 21)
  const Exa := Prefix("exa", "E", 18)
  const Peta := Prefix("peta", "P", 15)
  const Tera := Prefix("tera", "T", 12)
  const Giga := Prefix("giga", "G", 9)
  const Mega := Prefix("mega", "M", 6)
  const Kilo := Prefix("kilo", "k", 3)
  const Hecto := Prefix("hecto", "h", 2)
  const Deca := Prefix("deca", "da", 1)
  const Deci := Prefix("deci", "d", -1)
  const Centi := Prefix("centi", "c", -2)
  const Milli := Prefix("milli", "m", -3)
  const Micro := Prefix("micro", "μ", -6)
  const Nano := Prefix("nano", "n", -9)
  const Pico := Prefix("pico", "p", -12)
  const Femto := Prefix("femto", "f", -15)
  const Atto := Prefix("atto", "a", -18)
  const Zepto := Prefix("zepto", "z", -21)
  const Yocto := Prefix("yocto", "y", -24)
  const Ronto := Prefix("ronto", "r", -27)
  const Quecto := Prefix("quecto", "q", -30)

  /** `METRIC_PREFIX`, largest power first. */
  const MetricPrefix: seq<Prefix> := [
    Quetta, Ronna, Yotta, Zetta, Exa, Peta, Tera, Giga, Mega, Kilo, Hecto, Deca,
    Deci, Centi, Milli, Micro, Nano, Pico, Femto, Atto, Zepto, Yocto, Ronto, Quecto]

  /** The table lists the prefixes by strictly decreasing power. */
  lemma PowersDecrease()
    ensures |MetricPrefix| == 24
    ensures forall i, j :: 0 <= i < j < |MetricPrefix| ==> MetricPrefix[i].power > MetricPrefix[j].power
  {
  }

  /** Which spelling of `p`, if any, `s` starts with; the full name is tried first. */
  function Spelling(p: Prefix, s: string): Option<string> {
    if p.name <= s then Some(p.name)
    else if p.symbol <= s then Some(p.symbol)
    else None
  }

  /** Entry `k` of `table` is the first that `s` starts with. */
  predicate FirstMatch(table: seq<Prefix>, s: string, k: int) {
    0 <= k < |table| && Spelling(table[k], s).Some?
      && forall j :: 0 <= j < k ==> Spelling(table[j], s).None?
  }

  /** `rest` is what follows the spelling of `p` at the start of `s`. */
  predicate SplitAt(p: Prefix, s: string, rest: string) {
    Spelling(p, s).Some? && s == Spelling(p, s).value + rest
  }

  /** The search of `strip_prefix` over a table. */
  function StripIn(table: seq<Prefix>, s: string): Option<(string, Prefix)> {
    if table == [] then None
    else
      match Spelling(table[0], s)
      case Some(spelled) => Some((s[|spelled|..], table[0]))
      case None => StripIn(table[1..], s)
  }

  /** `strip_prefix`: the first prefix whose name or symbol starts `s`, with the rest of `s`. */
  function StripPrefix(s: string): Option<(string, Prefix)> {
    StripIn(MetricPrefix, s)
  }

  /**
   * The search fails exactly when no entry matches; otherwise it strips
   * the spelling of the first matching entry, the name before the symbol.
   */
  lemma {:induction false} StripInSpec(table: seq<Prefix>, s: string)
    ensures StripIn(table, s).None? <==> forall p :: p in table ==> Spelling(p, s).None?
    ensures var r := StripIn(table, s);
      r.Some? ==> exists k :: FirstMatch(table, s, k) && r.value.1 == table[k] && SplitAt(table[k], s, r.value.0)
  {
    if table != [] {
      match Spelling(table[0], s)
      case Some(spelled) =>
        assert FirstMatch(table, s, 0);
        assert s == spelled + s[|spelled|..];
      case None =>
        StripInSpec(table[1..], s);
        assert forall p :: p in table ==> p == table[0] || p in table[1..];
        var r := StripIn(table, s);
        if r.Some? {
          var k :| FirstMatch(table[1..], s, k) && r.value.1 == table[1..][k] && SplitAt(table[1..][k], s, r.value.0);
          assert FirstMatch(table, s, k + 1) by {
            forall j | 1 <= j < k + 1 ensures Spelling(table[j], s).None? {
              assert table[j] == table[1..][j - 1];
            }
          }
        }
    }
  }

  /** Whenever entry `k` is the first match, the search strips exactly its spelling. */
  lemma StripInFirst(table: seq<Prefix>, s: string, k: nat)
    requires FirstMatch(table, s, k)
    ensures StripIn(table, s) == Some((s[|Spelling(table[k], s).value|..], table[k]))
  {
    StripInSpec(table, s);
    assert table[k] in table;
    var r := StripIn(table, s);
    var k' :| FirstMatch(table, s, k') && r.value.1 == table[k'] && SplitAt(table[k'], s, r.value.0);
    assert k' == k;
  }

  /** `s` is the spelling of its first matching metric prefix, entry `k`, followed by `rest`. */
  predicate PrefixedName(s: string, k: int, rest: string) {
    FirstMatch(MetricPrefix, s, k) && SplitAt(MetricPrefix[k], s, rest)
  }

  /** `get`: a unit named directly by `s`, or a metric unit named after its first prefix. */
  function Get(reg: Registry, s: string): Option<(Conversion, Option<Prefix>)> {
    match FindUnit(reg, s)
    case Some(u) => Some((u, None))
    case None =>
      match StripPrefix(s)
      case None => None
      case Some((rest, prefix)) =>
        match FindUnit(reg, rest)
        case None => None
        case Some(u) => if !u.metric then None else Some((u, Some(prefix)))
  }

  /**
   * What `get` returns: a unit named directly, or a metric unit named by
   * what follows the first matching prefix; nothing when no unit is named.
   */
  lemma GetSound(reg: Registry, s: string)
    ensures FindUnit(reg, s).Some? ==> Get(reg, s) == Some((FindUnit(reg, s).value, None))
    ensures var r := Get(reg, s);
      r.Some? && r.value.1.Some? ==> FindUnit(reg, s).None? && r.value.0.metric && exists k, rest ::
        PrefixedName(s, k, rest) && r.value.1.value == MetricPrefix[k] && FindUnit(reg, rest) == Some(r.value.0)
    ensures Get(reg, s).None? ==> forall c :: c in reg ==> !Names(c, s)
  {
    FindUnitSpec(reg, s);
    var r := Get(reg, s);
    if r.Some? && r.value.1.Some? {
      StripInSpec(MetricPrefix, s);
      var rest := StripPrefix(s).value.0;
      var k :| FirstMatch(MetricPrefix, s, k) && r.value.1.value == MetricPrefix[k] && SplitAt(MetricPrefix[k], s, rest);
      assert PrefixedName(s, k, rest);
    }
  }

  /** Conversely, a metric unit named after the first matching prefix is found with that prefix. */
  lemma GetComplete(reg: Registry, s: string, k: nat, rest: string, u: Conversion)
    requires FindUnit(reg, s).None? && PrefixedName(s, k, rest)
    requires FindUnit(reg, rest) == Some(u) && u.metric
    ensures Get(reg, s) == Some((u, Some(MetricPrefix[k])))
  {
    StripInFirst(MetricPrefix, s, k);
    assert rest == s[|Spelling(MetricPrefix[k], s).value|..];
  }

  /** A name whose first matching prefix leaves no metric unit is not resolved through a later prefix. */
  lemma GetFirstPrefixOnly(reg: Registry, s: string, k: nat, rest: string)
    requires FindUnit(reg, s).None? && PrefixedName(s, k, rest)
    requires FindUnit(reg, rest).None? || !FindUnit(reg, rest).value.metric
    ensures Get(reg, s).None?
  {
    StripInFirst(MetricPrefix, s, k);
    assert rest == s[|Spelling(MetricPrefix[k], s).value|..];
  }

  /** No entry before kilo begins with 'k', so every name starting with 'k' reaches kilo. */
  lemma NothingBeforeKilo(s: string)
    requires s != [] && s[0] == 'k'
    ensures forall j :: 0 <= j < 9 ==> Spelling(MetricPrefix[j], s).None?
  {
    assert forall j :: 0 <= j < 9 ==> MetricPrefix[j].name[0] != 'k' && MetricPrefix[j].symbol[0] != 'k';
    forall j | 0 <= j < 9 ensures Spelling(MetricPrefix[j], s).None? {
      assert MetricPrefix[j].name != [] && MetricPrefix[j].symbol != [];
    }
  }

  /** No entry before deca begins with 'd', so every name starting with 'd' reaches deca, then deci. */
  lemma NothingBeforeDeca(s: string)
    requires s != [] && s[0] == 'd'
    ensures forall j :: 0 <= j < 11 ==> Spelling(MetricPrefix[j], s).None?
  {
    assert forall j :: 0 <= j < 11 ==> MetricPrefix[j].name[0] != 'd' && MetricPrefix[j].symbol[0] != 'd';
    forall j | 0 <= j < 11 ensures Spelling(MetricPrefix[j], s).None? {
      assert MetricPrefix[j].name != [] && MetricPrefix[j].symbol != [];
    }
  }

  /** No length unit is spelled with an initial 'k' or 'd'. */
  lemma NoLengthUnitInitial(s: string)
    requires s != [] && (s[0] == 'k' || s[0] == 'd')
    ensures FindUnit(LengthUnits, s) == None
  {
    assert !Names(Meter, s) && !Names(Inch, s) && !Names(Thou, s) && !Names(Foot, s);
    assert !Names(Yard, s) && !Names(Mile, s) && !Names(League, s);
    FindUnitSpec(LengthUnits, s);
  }

  /** The source's own test: "kilometer" is a kilo-meter. */
  lemma KilometerExample(s: string)
    requires s == "kilometer"
    ensures Get(LengthUnits, s) == Some((Meter, Some(Kilo)))
  {
    assert s[0] == 'k' && s[..4] == "kilo" && s[4..] == "meter";
    NothingBeforeKilo(s);
    assert MetricPrefix[9] == Kilo && Spelling(Kilo, s) == Some("kilo");
    assert PrefixedName(s, 9, "meter");
    NoLengthUnitInitial(s);
    GetComplete(LengthUnits, s, 9, "meter", Meter);
  }

  /** The source's own test: "km" is a kilo-meter. */
  lemma KmExample(s: string)
    requires s == "km"
    ensures Get(LengthUnits, s) == Some((Meter, Some(Kilo)))
  {
    assert s[0] == 'k' && s[..1] == "k" && s[1..] == "m";
    NothingBeforeKilo(s);
    assert MetricPrefix[9] == Kilo && Spelling(Kilo, s) == Some("k");
    assert PrefixedName(s, 9, "m");
    NoLengthUnitInitial(s);
    GetComplete(LengthUnits, s, 9, "m", Meter);
  }

  /** "da" is matched as deca before "d" (deci) can be: "dam" is a decameter. */
  lemma DecameterExample(s: string)
    requires s == "dam"
    ensures Get(LengthUnits, s) == Some((Meter, Some(Deca)))
  {
    assert s[0] == 'd' && s[..2] == "da" && s[2..] == "m";
    NothingBeforeDeca(s);
    assert MetricPrefix[11] == Deca && Spelling(Deca, s) == Some("da");
    assert PrefixedName(s, 11, "m");
    NoLengthUnitInitial(s);
    GetComplete(LengthUnits, s, 11, "m", Meter);
  }

  /** Prefixes apply only to metric units: "kilomile" does not resolve. */
  lemma NonMetricRejected(s: string)
    requires s == "kilomile"
    ensures Get(LengthUnits, s) == None
  {
    assert s[0] == 'k' && s[..4] == "kilo" && s[4..] == "mile";
    NothingBeforeKilo(s);
    assert MetricPrefix[9] == Kilo && Spelling(Kilo, s) == Some("kilo");
    assert PrefixedName(s, 9, "mile");
    NoLengthUnitInitial(s);
    assert FindUnit(LengthUnits, "mile") == Some(Mile) by {
      assert LengthUnits[5] == Mile;
      FindUnitFirst(LengthUnits, "mile", 5);
    }
    GetFirstPrefixOnly(LengthUnits, s, 9, "mile");
  }
}

/**
 * The unit registry the expression front end resolves names against. The
 * registry's own lookup (`find_unit`, `is_metric`, the `Space` of a unit and
 * the `impl_units!` macro) is not part of this model; it is represented by
 * a list of conversions searched for the first one whose name or alias
 * equals the text exactly.
 */
module Units {
  import opened Wrappers

  /** The physical quantity a unit measures (length, mass, time, ...). */
  datatype Space = Length | Mass | Time | Duration

  /** A unit: its name, its aliases, its space and whether metric prefixes apply. */
  datatype Conversion = Conversion(name: string, aliases: seq<string>, space: Space, metric: bool)

  type Registry = seq<Conversion>

  /** `s` is the unit's name or one of its aliases. */
  predicate Names(c: Conversion, s: string) {
    c.name == s || s in c.aliases
  }

  /** Entry `k` of `reg` is the first one that `s` names. */
  predicate FirstNamed(reg: Registry, s: string, k: int) {
    0 <= k < |reg| && Names(reg[k], s) && forall j :: 0 <= j < k ==> !Names(reg[j], s)
  }

  /** The first unit of `reg` that `s` names. */
  function FindUnit(reg: Registry, s: string): Option<Conversion> {
    if reg == [] then None
    else if Names(reg[0], s) then Some(reg[0])
    else FindUnit(reg[1..], s)
  }

  /** `FindUnit` finds a unit exactly when one is named, and then the first. */
  lemma {:induction false} FindUnitSpec(reg: Registry, s: string)
    ensures FindUnit(reg, s).None? <==> forall c :: c in reg ==> !Names(c, s)
    ensures FindUnit(reg, s).Some? ==> exists k :: FirstNamed(reg, s, k) && reg[k] == FindUnit(reg, s).value
  {
    if reg != [] && !Names(reg[0], s) {
      FindUnitSpec(reg[1..], s);
      assert forall c :: c in reg ==> c == reg[0] || c in reg[1..];
      var r := FindUnit(reg, s);
      if r.Some? {
        var k :| FirstNamed(reg[1..], s, k) && reg[1..][k] == r.value;
        assert FirstNamed(reg, s, k + 1) by {
          forall j | 1 <= j < k + 1 ensures !Names(reg[j], s) {
            assert reg[j] == reg[1..][j - 1];
          }
        }
      }
    } else if reg != [] {
      assert FirstNamed(reg, s, 0);
    }
  }

  /** The first unit naming `s` is the one found. */
  lemma FindUnitFirst(reg: Registry, s: string, k: nat)
    requires FirstNamed(reg, s, k)
    ensures FindUnit(reg, s) == Some(reg[k])
  {
    var r := FindUnit(reg, s);
    FindUnitSpec(reg, s);
    assert reg[k] in reg;
    var k' :| FirstNamed(reg, s, k') && reg[k'] == r.value;
    assert k' == k;
  }

  const Meter := Conversion("meter", ["m", "metre"], Length, true)
  const Inch := Conversion("inch", ["in"], Length, false)
  const Thou := Conversion("thou", ["mil"], Length, false)
  const Foot := Conversion("foot", ["ft", "foot"], Length, false)
  const Yard := Conversion("yard", ["yd"], Length, false)
  const Mile := Conversion("mile", ["mi"], Length, false)
  const League := Conversion("league", [], Length, false)

  /** The length units, in declaration order. */
  const LengthUnits: Registry := [Meter, Inch, Thou, Foot, Yard, Mile, League]

  const Second := Conversion("second", ["s", "sec"], Time, true)
  const Minute := Conversion("minute", ["min"], Time, false)
  const Hour := Conversion("hour", ["h", "hr"], Time, false)
  const Week := Conversion("week", ["wk"], Time, false)
  const Sol := Conversion("sol", [], Time, false)

  /** The time units, in declaration order. */
  const TimeUnits: Registry := [Second, Minute, Hour, Week, Sol]

  /** The registry used by the examples: lengths, then times. */
  const AllUnits: Registry := LengthUnits + TimeUnits
}

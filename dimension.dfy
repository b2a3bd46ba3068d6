/**
 * The dimension map of a quantity: for each unit space (length, time, ...)
 * the exponent it carries, e.g. m/s^2 is {Length: 1, Time: -2}. The list
 * is meant to be simplified, with no space listed twice. Equality compares
 * the exponents space by space and ignores the units the map was built from.
 */
module Dimension {
  import opened Wrappers
  import opened Units

  /** One space and its exponent. */
  datatype Dimension = Dimension(unitSpace: Space, exponent: real)

  /** The dimension list and the units it was built from. */
  datatype Dimensions = Dimensions(dimensions: seq<Dimension>, units: seq<Conversion>)

  /** The exponent of the first dimension of `dims` in `space`, if any. */
  function GetSpace(dims: seq<Dimension>, space: Space): (r: Option<real>)
    ensures r.None? <==> forall d :: d in dims ==> d.unitSpace != space
    ensures r.Some? ==> exists k :: 0 <= k < |dims| && dims[k] == Dimension(space, r.value) &&
                                   forall j :: 0 <= j < k ==> dims[j].unitSpace != space
  {
    if dims == [] then None
    else if dims[0].unitSpace == space then Some(dims[0].exponent)
    else
      var r := GetSpace(dims[1..], space);
      assert r.Some? ==> exists k :: 0 <= k < |dims| && dims[k] == Dimension(space, r.value) &&
                                    forall j :: 0 <= j < k ==> dims[j].unitSpace != space by {
        if r.Some? {
          var k :| 0 <= k < |dims[1..]| && dims[1..][k] == Dimension(space, r.value) &&
                   forall j :: 0 <= j < k ==> dims[1..][j].unitSpace != space;
          assert dims[k + 1] == Dimension(space, r.value);
          assert forall j :: 0 <= j < k + 1 ==> dims[j].unitSpace != space by {
            forall j | 0 <= j < k + 1 ensures dims[j].unitSpace != space {
              if j > 0 { assert dims[j] == dims[1..][j - 1]; }
            }
          }
        }
      }
      assert dims == [dims[0]] + dims[1..];
      r
  }

  /** No space appears twice: the invariant the dimension list is kept in. */
  predicate Simplified(dims: seq<Dimension>) {
    forall i, j :: 0 <= i < j < |dims| ==> dims[i].unitSpace != dims[j].unitSpace
  }

  /**
   * The equality the dimension map defines: every dimension of `a` has its
   * exponent in `b`, and both lists have the same length.
   */
  predicate Equivalent(a: seq<Dimension>, b: seq<Dimension>) {
    (forall d :: d in a ==> GetSpace(b, d.unitSpace) == Some(d.exponent)) && |a| == |b|
  }

  /**
   * Equality of two dimension maps: walks `a`, stops at the first space
   * missing from `b` or carrying another exponent there, and finally compares
   * the number of dimensions walked with the length of `b`.
   */
  method Equal(a: Dimensions, b: Dimensions) returns (r: bool)
    ensures r == Equivalent(a.dimensions, b.dimensions)
    ensures (exists d :: d in a.dimensions && GetSpace(b.dimensions, d.unitSpace).None?) ==> !r
    ensures (exists d, e :: d in a.dimensions && GetSpace(b.dimensions, d.unitSpace) == Some(e) && e != d.exponent) ==> !r
    ensures |a.dimensions| != |b.dimensions| ==> !r
  {
    var inc := 0;
    for k := 0 to |a.dimensions|
      invariant inc == k
      invariant forall j :: 0 <= j < k ==> GetSpace(b.dimensions, a.dimensions[j].unitSpace) == Some(a.dimensions[j].exponent)
    {
      var dim := a.dimensions[k];
      match GetSpace(b.dimensions, dim.unitSpace) {
        case Some(i) =>
          if i != dim.exponent {
            return false;
          }
        case None =>
          return false;
      }
      inc := inc + 1;
    }
    if inc != |b.dimensions| {
      return false;
    }
    return true;
  }

  /** In a simplified list, looking up a member's space finds its exponent. */
  lemma {:induction false} GetSpaceMember(dims: seq<Dimension>, d: Dimension)
    requires Simplified(dims) && d in dims
    ensures GetSpace(dims, d.unitSpace) == Some(d.exponent)
  {
    if dims[0] != d {
      assert Simplified(dims[1..]) by {
        forall i, j | 0 <= i < j < |dims[1..]| ensures dims[1..][i].unitSpace != dims[1..][j].unitSpace {
          assert dims[1..][i] == dims[i + 1] && dims[1..][j] == dims[j + 1];
        }
      }
      var k :| 0 <= k < |dims| && dims[k] == d;
      assert dims[0].unitSpace != d.unitSpace by {
        assert k > 0;
      }
      assert d in dims[1..] by { assert dims[1..][k - 1] == d; }
      GetSpaceMember(dims[1..], d);
    }
  }

  /** A lookup that succeeds names a member of the list. */
  lemma GetSpaceFound(dims: seq<Dimension>, space: Space, e: real)
    requires GetSpace(dims, space) == Some(e)
    ensures Dimension(space, e) in dims
  {
    var k :| 0 <= k < |dims| && dims[k] == Dimension(space, e) &&
             forall j :: 0 <= j < k ==> dims[j].unitSpace != space;
  }

  /** The members of a list as a set. */
  ghost function Members(dims: seq<Dimension>): set<Dimension> {
    set d | d in dims
  }

  /** A simplified list has as many members as elements. */
  lemma {:induction false} MembersCount(dims: seq<Dimension>)
    requires Simplified(dims)
    ensures |Members(dims)| == |dims|
  {
    if dims != [] {
      var rest := dims[1..];
      assert Simplified(rest) by {
        forall i, j | 0 <= i < j < |rest| ensures rest[i].unitSpace != rest[j].unitSpace {
          assert rest[i] == dims[i + 1] && rest[j] == dims[j + 1];
        }
      }
      MembersCount(rest);
      assert dims[0] !in rest by {
        forall k | 0 <= k < |rest| ensures rest[k] != dims[0] {
          assert rest[k] == dims[k + 1];
        }
      }
      assert dims == [dims[0]] + rest;
      assert Members(dims) == {dims[0]} + Members(rest);
    }
  }

  /** A subset with as many elements as its superset is the whole superset. */
  lemma {:induction false} SubsetSameSize(a: set<Dimension>, b: set<Dimension>)
    requires a <= b && |a| == |b|
    ensures a == b
    decreases |b|
  {
    if a != {} {
      var x :| x in a;
      SubsetSameSize(a - {x}, b - {x});
      assert a == (a - {x}) + {x};
      assert b == (b - {x}) + {x};
    }
  }

  /** Equality is reflexive on simplified lists. */
  lemma EquivalentReflexive(a: seq<Dimension>)
    requires Simplified(a)
    ensures Equivalent(a, a)
  {
    forall d | d in a ensures GetSpace(a, d.unitSpace) == Some(d.exponent) {
      GetSpaceMember(a, d);
    }
  }

  /** Equality is symmetric on simplified lists. */
  lemma EquivalentSymmetric(a: seq<Dimension>, b: seq<Dimension>)
    requires Simplified(a) && Simplified(b) && Equivalent(a, b)
    ensures Equivalent(b, a)
  {
    assert Members(a) <= Members(b) by {
      forall d | d in a ensures d in b {
        GetSpaceFound(b, d.unitSpace, d.exponent);
      }
    }
    MembersCount(a);
    MembersCount(b);
    SubsetSameSize(Members(a), Members(b));
    forall d | d in b ensures GetSpace(a, d.unitSpace) == Some(d.exponent) {
      assert d in Members(a);
      GetSpaceMember(a, d);
    }
  }

  /** Equality is transitive on simplified lists. */
  lemma EquivalentTransitive(a: seq<Dimension>, b: seq<Dimension>, c: seq<Dimension>)
    requires Simplified(b) && Simplified(c) && Equivalent(a, b) && Equivalent(b, c)
    ensures Equivalent(a, c)
  {
    forall d | d in a ensures GetSpace(c, d.unitSpace) == Some(d.exponent) {
      GetSpaceFound(b, d.unitSpace, d.exponent);
      GetSpaceMember(b, d);
    }
  }

  /** Listing the same dimensions in another order gives an equal map. */
  lemma OrderIndependent(a: seq<Dimension>, b: seq<Dimension>)
    requires Simplified(b) && multiset(a) == multiset(b)
    ensures Equivalent(a, b)
  {
    assert |a| == |multiset(a)| == |multiset(b)| == |b|;
    forall d | d in a ensures GetSpace(b, d.unitSpace) == Some(d.exponent) {
      assert d in multiset(a);
      GetSpaceMember(b, d);
    }
  }

  /** Length per time squared equals time to the minus two times length. */
  lemma AccelerationExample()
    ensures Equivalent([Dimension(Length, 1.0), Dimension(Time, -2.0)],
                       [Dimension(Time, -2.0), Dimension(Length, 1.0)])
    ensures !Equivalent([Dimension(Length, 1.0), Dimension(Time, -2.0)],
                        [Dimension(Length, 1.0), Dimension(Time, -1.0)])
  {
    var a := [Dimension(Length, 1.0), Dimension(Time, -2.0)];
    var c := [Dimension(Length, 1.0), Dimension(Time, -1.0)];
    assert Dimension(Time, -2.0) in a;
    assert GetSpace(c, Time) == Some(-1.0);
  }
}

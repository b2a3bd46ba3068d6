/**
 * The front end of the distant-locations report (distant_locations/src/main.rs):
 * the two location lists, one per non-blank line, and the loop that reports
 * the locations of the second list that are far from all of the first.
 */
module DistantLocations {
  import opened Wrappers
  import opened Strings

  /** A line made of Rust whitespace only. */
  predicate Blank(line: string) {
    forall i :: 0 <= i < |line| ==> IsWhitespace(line[i])
  }

  /** `line.trim().is_empty()` holds exactly for the blank lines. */
  lemma BlankIffTrimEmpty(line: string)
    ensures Blank(line) <==> Trim(line) == []
  {
    var t := TrimStart(line);
    if Trim(line) != [] && |t| > 0 {
      assert !IsWhitespace(t[0]);
      assert line[|line| - |t|] == t[0];
    }
  }

  /** The non-blank lines of `lines`, as they are, in their order. */
  function KeepNonBlank(lines: seq<string>): (r: seq<string>)
    ensures |r| <= |lines|
  {
    if lines == [] then []
    else if Blank(lines[0]) then KeepNonBlank(lines[1..])
    else [lines[0]] + KeepNonBlank(lines[1..])
  }

  /** Exactly the non-blank lines are kept. */
  lemma {:induction false} KeepNonBlankSpec(lines: seq<string>)
    ensures forall i :: 0 <= i < |KeepNonBlank(lines)| ==> !Blank(KeepNonBlank(lines)[i]) && KeepNonBlank(lines)[i] in lines
    ensures forall l :: l in lines && !Blank(l) ==> l in KeepNonBlank(lines)
  {
    if lines != [] {
      var rest := KeepNonBlank(lines[1..]);
      KeepNonBlankSpec(lines[1..]);
      assert forall l :: l in lines ==> l == lines[0] || l in lines[1..];
      if !Blank(lines[0]) {
        var r := [lines[0]] + rest;
        assert r == KeepNonBlank(lines);
        assert forall i :: 1 <= i < |r| ==> r[i] == rest[i - 1];
      }
    }
  }

  /** `to_lines`. */
  function ToLines(data: string): (r: seq<string>)
    ensures forall i :: 0 <= i < |r| ==> !Blank(r[i]) && r[i] in Lines(data)
    ensures forall l :: l in Lines(data) && !Blank(l) ==> l in r
  {
    KeepNonBlankSpec(Lines(data));
    KeepNonBlank(Lines(data))
  }

  /** Filtering keeps the order: the kept lines of two parts are those of the first, then those of the second. */
  lemma {:induction false} KeepNonBlankAppend(a: seq<string>, b: seq<string>)
    ensures KeepNonBlank(a + b) == KeepNonBlank(a) + KeepNonBlank(b)
  {
    if a == [] {
      assert a + b == b;
    } else {
      var ab := a + b;
      assert ab[0] == a[0] && ab[1..] == a[1..] + b;
      KeepNonBlankAppend(a[1..], b);
    }
  }

  /** Filtering twice changes nothing. */
  lemma {:induction false} KeepNonBlankIdempotent(lines: seq<string>)
    ensures KeepNonBlank(KeepNonBlank(lines)) == KeepNonBlank(lines)
  {
    if lines != [] {
      KeepNonBlankIdempotent(lines[1..]);
      if !Blank(lines[0]) {
        var r := KeepNonBlank(lines);
        assert r[1..] == KeepNonBlank(lines[1..]);
      }
    }
  }

  /** Without blank lines there is nothing to filter. */
  lemma {:induction false} KeepAllNonBlank(lines: seq<string>)
    requires forall i :: 0 <= i < |lines| ==> !Blank(lines[i])
    ensures KeepNonBlank(lines) == lines
  {
    if lines != [] {
      KeepAllNonBlank(lines[1..]);
    }
  }

  /** A geocoded location; the coordinates only feed the distance function. */
  datatype Coordinate = Coordinate(friendlyName: string, lat: real, lon: real)

  /** Every entry was geocoded. */
  predicate AllFound(cs: seq<Option<Coordinate>>) {
    forall i :: 0 <= i < |cs| ==> cs[i].Some?
  }

  function Names(cs: seq<Option<Coordinate>>): (r: seq<string>)
    requires AllFound(cs)
    ensures |r| == |cs| && forall i :: 0 <= i < |cs| ==> r[i] == cs[i].value.friendlyName
  {
    seq(|cs|, i requires 0 <= i < |cs| => cs[i].value.friendlyName)
  }

  /** `b` is at least `limit` miles from every location of `a`. */
  predicate FarFromAll(a: seq<Option<Coordinate>>, b: Coordinate, limit: real, miles: (Coordinate, Coordinate) -> real)
    requires AllFound(a)
  {
    forall i :: 0 <= i < |a| ==> miles(a[i].value, b) >= limit
  }

  /** The names of the locations of `bs` that are far from all of `a`, in order. */
  function FarNames(a: seq<Option<Coordinate>>, bs: seq<Option<Coordinate>>, limit: real, miles: (Coordinate, Coordinate) -> real): (r: seq<string>)
    requires AllFound(a) && AllFound(bs)
    ensures |r| <= |bs|
  {
    if bs == [] then []
    else
      var init := FarNames(a, bs[..|bs| - 1], limit, miles);
      var b := bs[|bs| - 1].value;
      if FarFromAll(a, b, limit, miles) then init + [b.friendlyName] else init
  }

  /**
   * The report loop of `main` as written: `None` is the "could not be
   * geocoded" exit; otherwise the printed names. The `continue` inside the
   * loop over `a` only moves to the next `a`, so every `b` is printed,
   * whatever the distances; `miles` stands for the geodesic distance in miles.
   */
  method Report(a: seq<Option<Coordinate>>, b: seq<Option<Coordinate>>, limit: real, miles: (Coordinate, Coordinate) -> real)
    returns (printed: Option<seq<string>>)
    ensures printed.None? <==> !(AllFound(a) && AllFound(b))
    ensures printed.Some? ==> printed.value == Names(b)
  {
    if exists c :: c in a + b && c.None? {
      return None;
    }
    assert forall i :: 0 <= i < |a| ==> (a + b)[i] == a[i];
    assert forall i :: 0 <= i < |b| ==> (a + b)[|a| + i] == b[i];
    var names: seq<string> := [];
    for j := 0 to |b|
      invariant names == Names(b[..j])
    {
      var bc := b[j].value;
      for k := 0 to |a| {
        var distance := miles(a[k].value, bc);
        if distance < limit {
          continue;
        }
      }
      names := names + [bc.friendlyName];
    }
    assert b[..|b|] == b;
    printed := Some(names);
  }

  /**
   * The report the comment above the loop describes: only the `b`
   * locations that are not within `limit` miles of any `a` location.
   */
  method ReportFar(a: seq<Option<Coordinate>>, b: seq<Option<Coordinate>>, limit: real, miles: (Coordinate, Coordinate) -> real)
    returns (printed: Option<seq<string>>)
    ensures printed.None? <==> !(AllFound(a) && AllFound(b))
    ensures printed.Some? ==> printed.value == FarNames(a, b, limit, miles)
  {
    if !(forall i :: 0 <= i < |a| ==> a[i].Some?) || !(forall i :: 0 <= i < |b| ==> b[i].Some?) {
      return None;
    }
    var names: seq<string> := [];
    for j := 0 to |b|
      invariant names == FarNames(a, b[..j], limit, miles)
    {
      var bc := b[j].value;
      var far := true;
      for k := 0 to |a|
        invariant far <==> forall i :: 0 <= i < k ==> miles(a[i].value, bc) >= limit
      {
        if miles(a[k].value, bc) < limit {
          far := false;
        }
      }
      assert b[..j + 1][..j] == b[..j];
      if far {
        names := names + [bc.friendlyName];
      }
    }
    assert b[..|b|] == b;
    printed := Some(names);
  }

  /** The far names are exactly the far locations: a close one is never listed. */
  lemma {:induction false} FarNamesSpec(a: seq<Option<Coordinate>>, bs: seq<Option<Coordinate>>, limit: real, miles: (Coordinate, Coordinate) -> real)
    requires AllFound(a) && AllFound(bs)
    requires forall i, j :: 0 <= i < j < |bs| ==> bs[i].value.friendlyName != bs[j].value.friendlyName
    ensures forall i :: 0 <= i < |bs| ==> (bs[i].value.friendlyName in FarNames(a, bs, limit, miles) <==> FarFromAll(a, bs[i].value, limit, miles))
  {
    if bs != [] {
      var init := bs[..|bs| - 1];
      FarNamesSpec(a, init, limit, miles);
      var last := bs[|bs| - 1].value;
      FarNamesFrom(a, init, limit, miles);
      forall i | 0 <= i < |bs|
        ensures bs[i].value.friendlyName in FarNames(a, bs, limit, miles) <==> FarFromAll(a, bs[i].value, limit, miles)
      {
        if i < |bs| - 1 {
          assert init[i] == bs[i];
          assert bs[i].value.friendlyName != last.friendlyName;
        }
      }
    }
  }

  /** Every far name is the name of one of the locations listed. */
  lemma {:induction false} FarNamesFrom(a: seq<Option<Coordinate>>, bs: seq<Option<Coordinate>>, limit: real, miles: (Coordinate, Coordinate) -> real)
    requires AllFound(a) && AllFound(bs)
    ensures forall n :: n in FarNames(a, bs, limit, miles) ==> exists i :: 0 <= i < |bs| && bs[i].value.friendlyName == n
  {
    if bs != [] {
      var init := bs[..|bs| - 1];
      FarNamesFrom(a, init, limit, miles);
      forall n | n in FarNames(a, bs, limit, miles)
        ensures exists i :: 0 <= i < |bs| && bs[i].value.friendlyName == n
      {
        if n in FarNames(a, init, limit, miles) {
          var i :| 0 <= i < |init| && init[i].value.friendlyName == n;
          assert bs[i] == init[i];
        } else {
          assert bs[|bs| - 1].value.friendlyName == n;
        }
      }
    }
  }

  /** One location a mile from the only `a` location is still reported as written, and not as intended. */
  method NearbyStillReported() returns (asWritten: Option<seq<string>>, intended: Option<seq<string>>)
    ensures asWritten == Some(["near"]) && intended == Some([])
  {
    var here := Coordinate("here", 0.0, 0.0);
    var near := Coordinate("near", 0.0, 0.01);
    var oneMile := (p: Coordinate, q: Coordinate) => 1.0;
    var a, b := [Some(here)], [Some(near)];
    asWritten := Report(a, b, 30.0, oneMile);
    assert Names(b) == ["near"];
    intended := ReportFar(a, b, 30.0, oneMile);
    assert a[0].value == here && oneMile(here, near) == 1.0;
    assert !FarFromAll(a, near, 30.0, oneMile) by {
      assert !(oneMile(a[0].value, near) >= 30.0);
    }
    assert b[..0] == [] && b[0].value == near;
    assert FarNames(a, b, 30.0, oneMile) == [];
  }
}

/**
 * The merit-badge update checker (src/process.rs): which revision year last
 * touched each badge, whether a scraped title names a badge, and whether an
 * owned badge book is up to date. Its `collapse_whitespace`, `similarity`
 * and `best` are the ones of `BadgeMisc` (the code is the same); `best` over
 * plain names is `BadgeMisc.Best` with the identity as transformer.
 */
module BadgeProcess {
  import opened Wrappers
  import opened Strings
  import BadgeMisc

  /** Revisions older than this year are ignored. */
  const FirstYear := 2002

  /** A requirements revision: its year and the badge names its page lists. */
  datatype Revision = Revision(year: int, badges: seq<string>)

  /** What `main` prints for one owned badge book. */
  datatype Verdict = UpToDate(name: string) | Outdated(name: string, owned: int, lastUpdate: int)

  // ----- best over names -----

  function Id(s: string): string {
    s
  }

  /**
   * `best` on badge names: the first name with the strictly greatest
   * positive similarity to `a`, or None when nothing scores above zero.
   */
  method BestBadge(a: string, names: seq<string>) returns (r: Option<nat>)
    ensures r.None? <==> forall i :: 0 <= i < |names| ==> BadgeMisc.Score(a, names[i]) <= 0.0
    ensures r.Some? ==> BadgeMisc.IsBest(a, names, Id, r.value)
  {
    r := BadgeMisc.Best(a, names, Id);
  }

  // ----- is_badge -----

  /** The characters `is_badge` removes: whitespace, ',' and ':'. */
  predicate Skip(c: char) {
    IsWhitespace(c) || c == ',' || c == ':'
  }

  /** `s.replace(skip, "")`. */
  function Squeeze(s: string): (r: string)
    ensures forall k :: 0 <= k < |r| ==> !Skip(r[k])
  {
    if s == [] then []
    else if Skip(s[0]) then Squeeze(s[1..])
    else [s[0]] + Squeeze(s[1..])
  }

  /** Whether some badge of `badges` equals `key`. */
  function AnyEquals(badges: seq<string>, key: string): (r: bool)
    ensures r <==> exists i :: 0 <= i < |badges| && Squeeze(badges[i]) == key
  {
    if badges == [] then false
    else Squeeze(badges[0]) == key || AnyEquals(badges[1..], key)
  }

  /**
   * `is_badge`: the name, squeezed and lower-cased, equals some squeezed
   * badge. The badges are squeezed but not lower-cased.
   */
  function IsBadge(badges: seq<string>, name: string): (r: bool)
    ensures r <==> exists i :: 0 <= i < |badges| && Squeeze(badges[i]) == Lower(Squeeze(name))
  {
    AnyEquals(badges, Lower(Squeeze(name)))
  }

  /** Lower-casing and squeezing commute: no skipped character is a letter. */
  lemma {:induction false} SqueezeLower(s: string)
    ensures Squeeze(Lower(s)) == Lower(Squeeze(s))
  {
    if s != [] {
      SqueezeLower(s[1..]);
      assert Lower(s) == [AsciiLower(s[0])] + Lower(s[1..]);
      assert Lower(s)[1..] == Lower(s[1..]);
      if !Skip(s[0]) {
        LowerAppend([s[0]], Squeeze(s[1..]));
      }
    }
  }

  /** `is_badge` ignores the case of the name. */
  lemma IsBadgeIgnoresCase(badges: seq<string>, name: string)
    ensures IsBadge(badges, name) == IsBadge(badges, Lower(name))
  {
    SqueezeLower(name);
    LowerIdempotent(Squeeze(name));
  }

  /** A badge with an upper-case ASCII letter, once squeezed, matches no name. */
  lemma UppercaseBadgeUnmatched(badge: string, name: string, k: nat)
    requires k < |Squeeze(badge)| && 'A' <= Squeeze(badge)[k] <= 'Z'
    ensures !IsBadge([badge], name)
  {
    var key := Lower(Squeeze(name));
    if k < |key| {
      assert key[k] == AsciiLower(Squeeze(name)[k]);
      assert !('A' <= key[k] <= 'Z');
    }
  }

  // ----- rev_dates -----

  /** A badge name paired with the year of the revision that lists it. */
  function Pairs(names: seq<string>, year: int): (r: seq<(string, int)>)
    ensures |r| == |names|
    ensures forall i :: 0 <= i < |r| ==> r[i] == (names[i], year)
  {
    seq(|names|, i requires 0 <= i < |names| => (names[i], year))
  }

  /** The (name, year) pairs of the revisions from `FirstYear` on, in order. */
  function Entries(revs: seq<Revision>): seq<(string, int)>
    decreases |revs|
  {
    if revs == [] then []
    else
      var last := revs[|revs| - 1];
      Entries(revs[..|revs| - 1]) + (if last.year >= FirstYear then Pairs(last.badges, last.year) else [])
  }

  /** The names of the pairs, in order: what `all_badges.push` collects. */
  function Names(es: seq<(string, int)>): (r: seq<string>)
    ensures |r| == |es|
    ensures forall i :: 0 <= i < |r| ==> r[i] == es[i].0
  {
    seq(|es|, i requires 0 <= i < |es| => es[i].0)
  }

  function Max(a: int, b: int): int {
    if a < b then b else a
  }

  /** `entry(name).and_modify(max).or_insert(year)`, applied to each pair in order. */
  function MaxMerge(es: seq<(string, int)>): map<string, int>
    decreases |es|
  {
    if es == [] then map[]
    else
      var m := MaxMerge(es[..|es| - 1]);
      var e := es[|es| - 1];
      m[e.0 := if e.0 in m then Max(e.1, m[e.0]) else e.1]
  }

  /**
   * After max-merging, the keys are exactly the names of the pairs, and each
   * name maps to the greatest year paired with it.
   */
  lemma {:induction false} MaxMergeSpec(es: seq<(string, int)>)
    ensures forall n :: n in MaxMerge(es) <==> exists i :: 0 <= i < |es| && es[i].0 == n
    ensures forall i :: 0 <= i < |es| ==> es[i].0 in MaxMerge(es) && es[i].1 <= MaxMerge(es)[es[i].0]
    ensures forall n :: n in MaxMerge(es) ==> exists i :: 0 <= i < |es| && es[i] == (n, MaxMerge(es)[n])
    decreases |es|
  {
    if es != [] {
      var init := es[..|es| - 1];
      var e := es[|es| - 1];
      MaxMergeSpec(init);
      var m := MaxMerge(init);
      var m' := MaxMerge(es);
      assert m' == m[e.0 := if e.0 in m then Max(e.1, m[e.0]) else e.1];
      forall n ensures n in m' <==> exists i :: 0 <= i < |es| && es[i].0 == n {
        if n in m && n != e.0 {
          var i :| 0 <= i < |init| && init[i].0 == n;
          assert es[i] == init[i];
        }
        if exists i :: 0 <= i < |es| && es[i].0 == n {
          var i :| 0 <= i < |es| && es[i].0 == n;
          if i < |init| {
            assert init[i] == es[i];
          }
        }
      }
      forall i | 0 <= i < |es| ensures es[i].0 in m' && es[i].1 <= m'[es[i].0] {
        if i < |init| {
          assert init[i] == es[i];
        }
      }
      forall n | n in m' ensures exists i :: 0 <= i < |es| && es[i] == (n, m'[n]) {
        if n == e.0 && m'[n] == e.1 {
          assert es[|es| - 1] == (n, m'[n]);
        } else {
          var i :| 0 <= i < |init| && init[i] == (n, m[n]);
          assert es[i] == init[i];
        }
      }
    }
  }

  /** A pair is an entry iff a revision from `FirstYear` on, of that year, lists that name. */
  lemma {:induction false} EntriesSpec(revs: seq<Revision>, n: string, y: int)
    ensures (n, y) in Entries(revs) <==>
      exists j :: 0 <= j < |revs| && revs[j].year >= FirstYear && revs[j].year == y && n in revs[j].badges
    decreases |revs|
  {
    if revs != [] {
      var init := revs[..|revs| - 1];
      var last := revs[|revs| - 1];
      EntriesSpec(init, n, y);
      var tail := if last.year >= FirstYear then Pairs(last.badges, last.year) else [];
      assert Entries(revs) == Entries(init) + tail;
      assert (n, y) in tail <==> last.year >= FirstYear && last.year == y && n in last.badges by {
        if last.year >= FirstYear && last.year == y && n in last.badges {
          var k :| 0 <= k < |last.badges| && last.badges[k] == n;
          assert tail[k] == (n, y);
        }
      }
      if exists j :: 0 <= j < |revs| && revs[j].year >= FirstYear && revs[j].year == y && n in revs[j].badges {
        var j :| 0 <= j < |revs| && revs[j].year >= FirstYear && revs[j].year == y && n in revs[j].badges;
        if j < |init| {
          assert init[j] == revs[j];
        }
      }
      if exists j :: 0 <= j < |init| && init[j].year >= FirstYear && init[j].year == y && n in init[j].badges {
        var j :| 0 <= j < |init| && init[j].year >= FirstYear && init[j].year == y && n in init[j].badges;
        assert revs[j] == init[j];
      }
    }
  }

  /** `rev_dates`: for each badge, the last year a revision from `FirstYear` on listed it. */
  function LastUpdate(revs: seq<Revision>): map<string, int> {
    MaxMerge(Entries(revs))
  }

  /**
   * A badge has a last-update year iff a revision from `FirstYear` on lists
   * it; that year is such a revision's year, and no such revision is later.
   */
  lemma LastUpdateSpec(revs: seq<Revision>, n: string)
    ensures n in LastUpdate(revs) <==>
      exists j :: 0 <= j < |revs| && revs[j].year >= FirstYear && n in revs[j].badges
    ensures n in LastUpdate(revs) ==>
      && (exists j :: 0 <= j < |revs| && revs[j].year >= FirstYear && n in revs[j].badges && revs[j].year == LastUpdate(revs)[n])
      && (forall j :: 0 <= j < |revs| && revs[j].year >= FirstYear && n in revs[j].badges ==> revs[j].year <= LastUpdate(revs)[n])
  {
    var es := Entries(revs);
    MaxMergeSpec(es);
    forall j | 0 <= j < |revs| && revs[j].year >= FirstYear && n in revs[j].badges
      ensures n in LastUpdate(revs) && revs[j].year <= LastUpdate(revs)[n]
    {
      EntriesSpec(revs, n, revs[j].year);
      var i :| 0 <= i < |es| && es[i] == (n, revs[j].year);
    }
    if n in LastUpdate(revs) {
      var i :| 0 <= i < |es| && es[i] == (n, LastUpdate(revs)[n]);
      assert (n, LastUpdate(revs)[n]) in es;
      EntriesSpec(revs, n, LastUpdate(revs)[n]);
    }
  }

  /** Every name pushed to `all_badges` has a last-update year. */
  lemma NamesHaveDates(revs: seq<Revision>)
    ensures forall n :: n in Names(Entries(revs)) ==> n in LastUpdate(revs)
  {
    MaxMergeSpec(Entries(revs));
  }

  /** The pairs of one more badge of a revision. */
  lemma PairsStep(before: seq<(string, int)>, names: seq<string>, k: nat, year: int)
    requires k < |names|
    ensures before + Pairs(names[..k + 1], year) == before + Pairs(names[..k], year) + [(names[k], year)]
  {
    assert names[..k + 1] == names[..k] + [names[k]];
  }

  /** Max-merging and collecting one more pair. */
  lemma MergeStep(es: seq<(string, int)>, e: (string, int))
    ensures MaxMerge(es + [e]) == MaxMerge(es)[e.0 := if e.0 in MaxMerge(es) then Max(e.1, MaxMerge(es)[e.0]) else e.1]
    ensures Names(es + [e]) == Names(es) + [e.0]
  {
    assert (es + [e])[..|es|] == es;
  }

  /**
   * The inner loop over one revision's badges: pushes each name and
   * max-merges the revision's year, continuing from the pairs `before`.
   */
  method MergeRevision(ghost before: seq<(string, int)>, revDates: map<string, int>, allBadges: seq<string>, rev: Revision)
    returns (revDates': map<string, int>, allBadges': seq<string>)
    requires revDates == MaxMerge(before) && allBadges == Names(before)
    ensures revDates' == MaxMerge(before + Pairs(rev.badges, rev.year))
    ensures allBadges' == Names(before + Pairs(rev.badges, rev.year))
  {
    revDates', allBadges' := revDates, allBadges;
    ghost var merged := before;
    assert before + Pairs(rev.badges[..0], rev.year) == before;
    var k := 0;
    while k < |rev.badges|
      invariant k <= |rev.badges|
      invariant merged == before + Pairs(rev.badges[..k], rev.year)
      invariant revDates' == MaxMerge(merged) && allBadges' == Names(merged)
    {
      var j := rev.badges[k];
      PairsStep(before, rev.badges, k, rev.year);
      MergeStep(merged, (j, rev.year));
      allBadges' := allBadges' + [j];
      revDates' := revDates'[j := if j in revDates' then Max(rev.year, revDates'[j]) else rev.year];
      merged := merged + [(j, rev.year)];
      k := k + 1;
    }
    assert rev.badges[..k] == rev.badges;
  }

  /**
   * The loop over the revisions in `main`: pushes every listed badge of a
   * revision from `FirstYear` on to `all_badges` and max-merges its year
   * into `rev_dates`.
   */
  method LoadRevisions(revisions: seq<Revision>) returns (revDates: map<string, int>, allBadges: seq<string>)
    ensures revDates == LastUpdate(revisions)
    ensures allBadges == Names(Entries(revisions))
  {
    revDates := map[];
    allBadges := [];
    var i := 0;
    while i < |revisions|
      invariant i <= |revisions|
      invariant revDates == MaxMerge(Entries(revisions[..i]))
      invariant allBadges == Names(Entries(revisions[..i]))
    {
      var rev := revisions[i];
      assert revisions[..i + 1][..i] == revisions[..i];
      ghost var before := Entries(revisions[..i]);
      if rev.year >= FirstYear {
        revDates, allBadges := MergeRevision(before, revDates, allBadges, rev);
      } else {
        assert before + [] == before;
      }
      i := i + 1;
    }
    assert revisions[..i] == revisions;
  }

  // ----- the up-to-date test -----

  /** The names `best` chooses from: `all_badges` sorted and deduplicated. */
  function Candidates(revs: seq<Revision>): seq<string> {
    Dedup(Sort(Names(Entries(revs))))
  }

  /** Every candidate has a last-update year. */
  lemma CandidatesHaveDates(revs: seq<Revision>)
    ensures forall c :: c in Candidates(revs) ==> c in LastUpdate(revs)
  {
    var names := Names(Entries(revs));
    SortSpec(names);
    NamesHaveDates(revs);
    forall c | c in Candidates(revs) ensures c in LastUpdate(revs) {
      assert c in Sort(names);
      assert c in multiset(Sort(names));
    }
  }

  /** An owned book is up to date iff its year is at least the badge's last update. */
  function Judge(name: string, year: int, lastUpdate: int): (r: Verdict)
    ensures r.UpToDate? <==> year >= lastUpdate
    ensures r.name == name
    ensures r.Outdated? ==> r.owned == year && r.lastUpdate == lastUpdate
  {
    if year >= lastUpdate then UpToDate(name) else Outdated(name, year, lastUpdate)
  }

  /**
   * `v` is what `main` decides for an owned (name, year) row: None when no
   * candidate scores above zero (`continue`), otherwise the verdict against
   * the best candidate's last update.
   */
  ghost predicate Decided(name: string, year: int, candidates: seq<string>, revDates: map<string, int>, v: Option<Verdict>)
    requires forall c :: c in candidates ==> c in revDates
  {
    && (v.None? <==> forall c :: c in candidates ==> BadgeMisc.Score(name, c) <= 0.0)
    && (v.Some? ==> exists k :: BadgeMisc.IsBest(name, candidates, Id, k) && v.value == Judge(name, year, revDates[candidates[k]]))
  }

  /** One owned (name, year) row of `main`'s loop. */
  method CheckOne(name: string, year: int, candidates: seq<string>, revDates: map<string, int>) returns (v: Option<Verdict>)
    requires forall c :: c in candidates ==> c in revDates
    ensures Decided(name, year, candidates, revDates, v)
  {
    var badge := BestBadge(name, candidates);
    if badge.None? {
      forall c | c in candidates ensures BadgeMisc.Score(name, c) <= 0.0 {
        var k :| 0 <= k < |candidates| && candidates[k] == c;
      }
      return None;
    }
    var lastUpdate := revDates[candidates[badge.value]];
    return Some(Judge(name, year, lastUpdate));
  }

  /**
   * `main` after scraping: one entry per owned (name, year) row, decided
   * against the sorted, deduplicated badges and their last-update years.
   */
  method Check(owned: seq<(string, int)>, revisions: seq<Revision>) returns (verdicts: seq<Option<Verdict>>)
    ensures |verdicts| == |owned|
    ensures forall c :: c in Candidates(revisions) ==> c in LastUpdate(revisions)
    ensures forall i :: 0 <= i < |owned| ==>
      Decided(owned[i].0, owned[i].1, Candidates(revisions), LastUpdate(revisions), verdicts[i])
  {
    var revDates, allBadges := LoadRevisions(revisions);
    var candidates := Dedup(Sort(allBadges));
    CandidatesHaveDates(revisions);
    verdicts := [];
    var n := 0;
    while n < |owned|
      invariant n <= |owned| && |verdicts| == n
      invariant forall i :: 0 <= i < n ==> Decided(owned[i].0, owned[i].1, candidates, revDates, verdicts[i])
    {
      var v := CheckOne(owned[n].0, owned[n].1, candidates, revDates);
      verdicts := verdicts + [v];
      n := n + 1;
    }
  }
}

/**
 * The inventory report of badge_inventory (badge_inventory/src/report.rs):
 * each owned badge book is matched to the most similar known badge and
 * classified as Removed, Outdated or Current; the report lists each class
 * as "* name" lines with a count. Loading the owned list and the badge
 * pages, the Markdown template and the HTML output are left out; the
 * numbers and lists that fill the template are modelled.
 */
module BadgeReport {
  import opened Wrappers
  import opened Strings
  import BadgeMisc

  /** A known badge: still offered (with its last update year) or discontinued. */
  datatype Badge = Existing(name: string, updateYear: int) | Discontinued(name: string)

  /** An owned book: the badge name written on it and its year. */
  datatype Owned = Owned(name: string, date: int)

  datatype Status = Removed | Outdated | Current

  datatype Report = Report(name: string, status: Status)

  /** `Badge::name`. */
  function BadgeName(b: Badge): string {
    b.name
  }

  /**
   * `Badge::outdated`: a book of `year` is older than the badge's last
   * update. It is `unreachable!()` on a discontinued badge.
   */
  function IsOutdated(b: Badge, year: int): (r: bool)
    requires b.Existing?
    ensures r <==> year < b.updateYear
  {
    year < b.updateYear
  }

  /**
   * The report for one book matched to `badge`: Removed for a discontinued
   * badge (without asking `outdated`), Outdated when the book is older than
   * the update, Current otherwise; it carries the badge's name.
   */
  function Classify(badge: Badge, year: int): (r: Report)
    ensures r.name == badge.name
    ensures r.status == Removed <==> badge.Discontinued?
    ensures r.status == Outdated <==> badge.Existing? && year < badge.updateYear
    ensures r.status == Current <==> badge.Existing? && year >= badge.updateYear
  {
    if badge.Discontinued? then Report(badge.name, Removed)
    else if IsOutdated(badge, year) then Report(badge.name, Outdated)
    else Report(badge.name, Current)
  }

  /**
   * `r` is the report `run` makes for `book`: the badge `best` picks for the
   * lower-cased name, classified against the book's year.
   */
  ghost predicate ReportFor(book: Owned, badges: seq<Badge>, r: Report) {
    exists k :: BadgeMisc.IsBest(Lower(book.name), badges, BadgeName, k) && r == Classify(badges[k], book.date)
  }

  /** No badge scores above zero for the book's lower-cased name: `best(..).unwrap()` panics. */
  ghost predicate Unmatched(book: Owned, badges: seq<Badge>) {
    forall k :: 0 <= k < |badges| ==> BadgeMisc.Score(Lower(book.name), badges[k].name) <= 0.0
  }

  /**
   * The classification loop of `run`: one report per owned book, in order,
   * or None when some book matches no badge (the `unwrap` panics).
   */
  method ClassifyAll(owned: seq<Owned>, badges: seq<Badge>) returns (reports: Option<seq<Report>>)
    ensures reports.None? <==> exists i :: 0 <= i < |owned| && Unmatched(owned[i], badges)
    ensures reports.Some? ==> |reports.value| == |owned|
    ensures reports.Some? ==> forall i :: 0 <= i < |owned| ==> ReportFor(owned[i], badges, reports.value[i])
  {
    var out: seq<Report> := [];
    var n := 0;
    while n < |owned|
      invariant n <= |owned| && |out| == n
      invariant forall i :: 0 <= i < n ==> !Unmatched(owned[i], badges) && ReportFor(owned[i], badges, out[i])
    {
      var badge := BadgeMisc.Best(Lower(owned[n].name), badges, BadgeName);
      if badge.None? {
        assert Unmatched(owned[n], badges);
        return None;
      }
      out := out + [Classify(badges[badge.value], owned[n].date)];
      n := n + 1;
    }
    return Some(out);
  }

  // ----- filter_type -----

  /** `filter_type`: the reports with `status`, in their original order. */
  function FilterType(items: seq<Report>, status: Status): (r: seq<Report>)
    ensures forall x :: x in r <==> x in items && x.status == status
  {
    if items == [] then []
    else if items[0].status == status then [items[0]] + FilterType(items[1..], status)
    else FilterType(items[1..], status)
  }

  /** The three filtered lists partition the reports. */
  lemma {:induction false} FilterPartition(items: seq<Report>)
    ensures multiset(FilterType(items, Removed)) + multiset(FilterType(items, Outdated)) + multiset(FilterType(items, Current))
      == multiset(items)
  {
    if items != [] {
      FilterPartition(items[1..]);
      assert items == [items[0]] + items[1..];
    }
  }

  /** Filtering keeps the original order: it distributes over concatenation. */
  lemma {:induction false} FilterAppend(a: seq<Report>, b: seq<Report>, status: Status)
    ensures FilterType(a + b, status) == FilterType(a, status) + FilterType(b, status)
  {
    if a == [] {
      assert a + b == b;
    } else {
      assert (a + b)[0] == a[0] && (a + b)[1..] == a[1..] + b;
      FilterAppend(a[1..], b, status);
    }
  }

  // ----- book_list -----

  /** The names of the reports, in order. */
  function NamesOf(items: seq<Report>): (r: seq<string>)
    ensures |r| == |items|
    ensures forall i :: 0 <= i < |r| ==> r[i] == items[i].name
  {
    seq(|items|, i requires 0 <= i < |items| => items[i].name)
  }

  /** The distinct elements of `s`, in order of first appearance. */
  function Distinct(s: seq<string>): (r: seq<string>)
    ensures forall x :: x in r <==> x in s
    ensures forall i, j :: 0 <= i < j < |r| ==> r[i] != r[j]
    decreases |s|
  {
    if s == [] then []
    else
      var init := Distinct(s[..|s| - 1]);
      if s[|s| - 1] in init then init
      else
        assert forall x :: x in s <==> x in s[..|s| - 1] || x == s[|s| - 1] by {
          assert s == s[..|s| - 1] + [s[|s| - 1]];
        }
        init + [s[|s| - 1]]
  }

  /**
   * The `counts` map of `book_list`: how many reports have each name, and the
   * names in the order they were first entered.
   */
  method CountNames(items: seq<Report>) returns (counts: multiset<string>, keys: seq<string>)
    ensures counts == multiset(NamesOf(items))
    ensures keys == Distinct(NamesOf(items))
  {
    counts := multiset{};
    keys := [];
    var i := 0;
    while i < |items|
      invariant i <= |items|
      invariant counts == multiset(NamesOf(items)[..i])
      invariant keys == Distinct(NamesOf(items)[..i])
    {
      var name := items[i].name;
      assert NamesOf(items)[..i + 1] == NamesOf(items)[..i] + [name];
      assert (NamesOf(items)[..i] + [name])[..i] == NamesOf(items)[..i];
      if name !in keys {
        keys := keys + [name];
      }
      counts := counts + multiset{name};
      i := i + 1;
    }
    assert NamesOf(items)[..i] == NamesOf(items);
  }

  /** One line of the list: "* name", then " x<count>" only for a count above one. */
  function Line(name: string, count: nat): string {
    "* " + name + BadgeMisc.Pick(count > 1, " x" + NatToString(count), "") + "\n"
  }

  /** The lines for `names`, each with its count in `counts`. */
  function ListText(names: seq<string>, counts: multiset<string>): string {
    if names == [] then [] else Line(names[0], counts[names[0]]) + ListText(names[1..], counts)
  }

  /** The text `book_list` produces: one line per distinct name, in sorted order. */
  function BookListText(items: seq<Report>): string {
    ListText(Sort(Distinct(NamesOf(items))), multiset(NamesOf(items)))
  }

  /**
   * `book_list`: counts the names, sorts the (name, count) pairs and writes
   * one line per distinct name.
   */
  method BookList(items: seq<Report>) returns (out: string)
    ensures out == BookListText(items)
  {
    var counts, keys := CountNames(items);
    var sorted := Sort(keys);
    out := [];
    var i := 0;
    while i < |sorted|
      invariant i <= |sorted|
      invariant out + ListText(sorted[i..], counts) == ListText(sorted, counts)
    {
      assert sorted[i..][1..] == sorted[i + 1..];
      out := out + Line(sorted[i], counts[sorted[i]]);
      i := i + 1;
    }
  }

  /**
   * The names `book_list` writes are sorted, each appears once, and they are
   * exactly the names of the reports; every count is at least one.
   */
  lemma BookListNames(items: seq<Report>)
    ensures var names := Sort(Distinct(NamesOf(items)));
      && Sorted(names)
      && (forall i, j :: 0 <= i < j < |names| ==> names[i] != names[j])
      && (forall x :: x in names <==> exists k :: 0 <= k < |items| && items[k].name == x)
      && (forall x :: x in names ==> multiset(NamesOf(items))[x] >= 1)
  {
    var d := Distinct(NamesOf(items));
    var names := Sort(d);
    SortSpec(d);
    NoRepeatPermutation(d, names);
    forall x ensures x in names <==> exists k :: 0 <= k < |items| && items[k].name == x {
      assert x in names <==> x in multiset(names);
      assert x in NamesOf(items) <==> exists k :: 0 <= k < |items| && items[k].name == x;
    }
  }

  /** A permutation of a list without repetition has none either. */
  lemma NoRepeatPermutation(d: seq<string>, e: seq<string>)
    requires forall i, j :: 0 <= i < j < |d| ==> d[i] != d[j]
    requires multiset(d) == multiset(e)
    ensures forall i, j :: 0 <= i < j < |e| ==> e[i] != e[j]
  {
    forall i, j | 0 <= i < j < |e| ensures e[i] != e[j] {
      if e[i] == e[j] {
        var x := e[i];
        assert multiset(e)[x] >= 2 by {
          assert e == e[..i] + [x] + e[i + 1..j] + [x] + e[j + 1..];
        }
        DistinctOnce(d, x);
      }
    }
  }

  /** An element of a list without repetition occurs once in it. */
  lemma {:induction false} DistinctOnce(d: seq<string>, x: string)
    requires forall i, j :: 0 <= i < j < |d| ==> d[i] != d[j]
    ensures multiset(d)[x] <= 1
  {
    if d != [] {
      assert d == [d[0]] + d[1..];
      DistinctOnce(d[1..], x);
      if d[0] == x {
        assert x !in d[1..];
      }
    }
  }

  // ----- the report's numbers -----

  /** `eq_ignore_ascii_case`. */
  predicate SameName(a: string, b: string) {
    Lower(a) == Lower(b)
  }

  /**
   * `dedup_by(eq_ignore_ascii_case)` on the owned names: drops each name
   * equal, ignoring ASCII case, to the name kept just before it.
   */
  function DedupIgnoreCase(s: seq<string>): (r: seq<string>)
    ensures |r| <= |s|
    ensures s != [] ==> r != [] && r[0] == s[0]
    ensures forall i :: 0 <= i < |r| - 1 ==> !SameName(r[i], r[i + 1])
    decreases |s|
  {
    if |s| <= 1 then s
    else if SameName(s[0], s[1]) then DedupIgnoreCase([s[0]] + s[2..])
    else [s[0]] + DedupIgnoreCase(s[1..])
  }

  /** Only neighbours merge: the same badge owned twice, apart, counts twice. */
  lemma DedupOnlyAdjacent()
    ensures DedupIgnoreCase(["A", "B", "a"]) == ["A", "B", "a"]
    ensures DedupIgnoreCase(["A", "a", "B"]) == ["A", "B"]
  {
    assert Lower("A") == "a" && Lower("a") == "a" && Lower("B") == "b";
    assert DedupIgnoreCase(["B", "a"]) == ["B", "a"];
    assert DedupIgnoreCase(["A", "B"]) == ["A", "B"];
  }

  /** The numbers and lists `run` substitutes into the report template. */
  datatype Summary = Summary(
    totalBadges: nat, totalBooks: nat,
    outdatedBooks: nat, discontinuedBooks: nat, currentBooks: nat,
    discontinuedList: string, outdatedList: string, currentList: string)

  function OwnedNames(owned: seq<Owned>): (r: seq<string>)
    ensures |r| == |owned|
  {
    seq(|owned|, i requires 0 <= i < |owned| => owned[i].name)
  }

  /** The template values of `run`, from the owned books and their reports. */
  method Summarize(owned: seq<Owned>, reports: seq<Report>) returns (s: Summary)
    ensures s.totalBadges == |DedupIgnoreCase(OwnedNames(owned))| && s.totalBooks == |owned|
    ensures s.discontinuedBooks == |FilterType(reports, Removed)|
    ensures s.outdatedBooks == |FilterType(reports, Outdated)|
    ensures s.currentBooks == |FilterType(reports, Current)|
    ensures s.discontinuedBooks + s.outdatedBooks + s.currentBooks == |reports|
    ensures s.discontinuedList == BookListText(FilterType(reports, Removed))
    ensures s.outdatedList == BookListText(FilterType(reports, Outdated))
    ensures s.currentList == BookListText(FilterType(reports, Current))
  {
    var discontinued := FilterType(reports, Removed);
    var outdated := FilterType(reports, Outdated);
    var current := FilterType(reports, Current);
    FilterPartition(reports);
    assert |multiset(discontinued) + multiset(outdated) + multiset(current)| == |reports| by {
      assert |multiset(reports)| == |reports|;
    }
    assert |multiset(discontinued)| == |discontinued| && |multiset(outdated)| == |outdated| && |multiset(current)| == |current|;
    var removedList := BookList(discontinued);
    var outdatedList := BookList(outdated);
    var currentList := BookList(current);
    s := Summary(|DedupIgnoreCase(OwnedNames(owned))|, |owned|,
      |outdated|, |discontinued|, |current|,
      removedList, outdatedList, currentList);
  }
}

/**
 * The second copy of the inventory report (Other/badge_inventory/src/report.rs).
 * It differs from badge_inventory's in three ways: badges carry an update
 * year and a separate list names the discontinued ones; a book is Current
 * as soon as it is as new as the badge, even when the badge is
 * discontinued; and `book_list` writes the counts in the hash map's order,
 * always with " x<count>". The report types and `filter_type` are the
 * ones in BadgeReport.
 */
module OtherBadgeReport {
  import opened Wrappers
  import opened Strings
  import BadgeMisc
  import opened BadgeReport

  /** `BadgeData`, reduced to what the report reads. */
  datatype BadgeData = BadgeData(name: string, updateDate: int)

  function DataName(b: BadgeData): string {
    b.name
  }

  /**
   * The report for a book of `date` matched to `badge`: Current when the
   * book is at least as new as the update; otherwise Removed when the
   * badge's name is in `discontinued`, else Outdated.
   */
  function ClassifyData(badge: BadgeData, date: int, discontinued: seq<string>): (r: Report)
    ensures r.name == badge.name
    ensures r.status == Current <==> date >= badge.updateDate
    ensures r.status == Removed <==> date < badge.updateDate && badge.name in discontinued
    ensures r.status == Outdated <==> date < badge.updateDate && badge.name !in discontinued
  {
    if date >= badge.updateDate then Report(badge.name, Current)
    else if badge.name in discontinued then Report(badge.name, Removed)
    else Report(badge.name, Outdated)
  }

  /** A discontinued badge still reports Current for a book as new as its update. */
  lemma DiscontinuedCanBeCurrent()
    ensures ClassifyData(BadgeData("knots", 2010), 2012, ["knots"]).status == Current
    ensures ClassifyData(BadgeData("knots", 2010), 2008, ["knots"]).status == Removed
  {
  }

  ghost predicate DataReportFor(book: Owned, badges: seq<BadgeData>, discontinued: seq<string>, r: Report) {
    exists k :: BadgeMisc.IsBest(Lower(book.name), badges, DataName, k) && r == ClassifyData(badges[k], book.date, discontinued)
  }

  /** No badge scores above zero for the book's lower-cased name: the `unwrap` panics. */
  ghost predicate DataUnmatched(book: Owned, badges: seq<BadgeData>) {
    forall k :: 0 <= k < |badges| ==> BadgeMisc.Score(Lower(book.name), badges[k].name) <= 0.0
  }

  /**
   * The classification loop of `run`: one report per owned book, in order,
   * or None when some book matches no badge.
   */
  method ClassifyOwned(owned: seq<Owned>, badges: seq<BadgeData>, discontinued: seq<string>)
    returns (reports: Option<seq<Report>>)
    ensures reports.None? <==> exists i :: 0 <= i < |owned| && DataUnmatched(owned[i], badges)
    ensures reports.Some? ==> |reports.value| == |owned|
    ensures reports.Some? ==> forall i :: 0 <= i < |owned| ==> DataReportFor(owned[i], badges, discontinued, reports.value[i])
  {
    var out: seq<Report> := [];
    var n := 0;
    while n < |owned|
      invariant n <= |owned| && |out| == n
      invariant forall i :: 0 <= i < n ==> !DataUnmatched(owned[i], badges) && DataReportFor(owned[i], badges, discontinued, out[i])
    {
      var badge := BadgeMisc.Best(Lower(owned[n].name), badges, DataName);
      if badge.None? {
        assert DataUnmatched(owned[n], badges);
        return None;
      }
      out := out + [ClassifyData(badges[badge.value], owned[n].date, discontinued)];
      n := n + 1;
    }
    return Some(out);
  }

  // ----- book_list -----

  /** One line as written: " x<count>" is added whenever the count is positive. */
  function CountedLine(name: string, count: nat): string {
    "* " + name + BadgeMisc.Pick(count > 0, " x" + NatToString(count), "") + "\n"
  }

  /** The lines for the names in `order`, each with its count. */
  function OrderedText(order: seq<string>, counts: multiset<string>): string {
    if order == [] then [] else CountedLine(order[0], counts[order[0]]) + OrderedText(order[1..], counts)
  }

  /** `order` lists every counted name once: an iteration order of the `counts` map. */
  ghost predicate IsKeyOrder(order: seq<string>, names: seq<string>) {
    (forall x :: x in order <==> x in names) && (forall i, j :: 0 <= i < j < |order| ==> order[i] != order[j])
  }

  /**
   * `book_list`: counts the names, then writes one line per entry of the
   * map in `order`, the map's iteration order.
   */
  method OrderedBookList(items: seq<Report>, order: seq<string>) returns (out: string)
    requires IsKeyOrder(order, NamesOf(items))
    ensures out == OrderedText(order, multiset(NamesOf(items)))
  {
    var counts, keys := CountNames(items);
    out := [];
    var i := 0;
    while i < |order|
      invariant i <= |order|
      invariant out + OrderedText(order[i..], counts) == OrderedText(order, counts)
    {
      assert order[i..][1..] == order[i + 1..];
      out := out + CountedLine(order[i], counts[order[i]]);
      i := i + 1;
    }
  }

  /** The lines with their count always written out. */
  function AlwaysCounted(order: seq<string>, counts: multiset<string>): string {
    if order == [] then []
    else "* " + order[0] + " x" + NatToString(counts[order[0]]) + "\n" + AlwaysCounted(order[1..], counts)
  }

  /**
   * Every listed name was counted at least once, so the `else` branch of
   * the count suffix is never taken: a badge owned once is listed " x1".
   */
  lemma {:induction false} EveryLineCounted(order: seq<string>, names: seq<string>)
    requires forall x :: x in order ==> x in names
    ensures OrderedText(order, multiset(names)) == AlwaysCounted(order, multiset(names))
  {
    if order != [] {
      assert order[0] in order;
      assert order[0] in multiset(names);
      EveryLineCounted(order[1..], names);
    }
  }

  /** The template values of this `run`. */
  datatype OtherSummary = OtherSummary(
    totalBooks: nat, outdatedBooks: nat, discontinuedBooks: nat,
    discontinuedList: string, outdatedList: string, currentList: string)

  /** The template values, given an iteration order for each of the three maps. */
  method SummarizeOwned(owned: seq<Owned>, reports: seq<Report>,
                        removedOrder: seq<string>, outdatedOrder: seq<string>, currentOrder: seq<string>)
    returns (s: OtherSummary)
    requires IsKeyOrder(removedOrder, NamesOf(FilterType(reports, Removed)))
    requires IsKeyOrder(outdatedOrder, NamesOf(FilterType(reports, Outdated)))
    requires IsKeyOrder(currentOrder, NamesOf(FilterType(reports, Current)))
    ensures s.totalBooks == |owned|
    ensures s.discontinuedBooks == |FilterType(reports, Removed)| && s.outdatedBooks == |FilterType(reports, Outdated)|
    ensures s.discontinuedList == OrderedText(removedOrder, multiset(NamesOf(FilterType(reports, Removed))))
    ensures s.outdatedList == OrderedText(outdatedOrder, multiset(NamesOf(FilterType(reports, Outdated))))
    ensures s.currentList == OrderedText(currentOrder, multiset(NamesOf(FilterType(reports, Current))))
  {
    var discontinued := FilterType(reports, Removed);
    var outdated := FilterType(reports, Outdated);
    var current := FilterType(reports, Current);
    var removedList := OrderedBookList(discontinued, removedOrder);
    var outdatedList := OrderedBookList(outdated, outdatedOrder);
    var currentList := OrderedBookList(current, currentOrder);
    s := OtherSummary(|owned|, |outdated|, |discontinued|, removedList, outdatedList, currentList);
  }
}

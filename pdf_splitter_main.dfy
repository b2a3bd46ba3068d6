/**
 * The driver of the PDF splitter (pdf_splitter/src/main.rs): the outline of
 * the source document is flattened with depths, its top-level entries become
 * sections, a splitter decides which sections start a new output file and
 * names them, and each job's page range runs up to the next job's first
 * page. The driver's own object cloner copies without a cache.
 */
module PdfMain {
  import opened Wrappers
  import opened Strings
  import opened PdfObject

  // ----- outlines -----

  /** lopdf's `Destination`, reduced to what the driver reads: its title and the page it points at. */
  datatype Dest = Dest(title: string, page: ObjectId)

  /** lopdf's `Outline`: a destination, or the children of the entry before it. */
  datatype Outline = Destination(dest: Dest) | SubOutlines(outlines: seq<Outline>)

  /** The entries of one outline in pre-order, each with its depth. */
  function Flatten(o: Outline, depth: nat): seq<(Dest, nat)>
    decreases o, 1
  {
    match o
    case Destination(d) => [(d, depth)]
    case SubOutlines(cs) => FlattenAll(cs, depth + 1)
  }

  /** The entries of a list of outlines, one after another. */
  function FlattenAll(os: seq<Outline>, depth: nat): seq<(Dest, nat)>
    decreases os, 0
  {
    if os == [] then [] else FlattenAll(os[..|os| - 1], depth) + Flatten(os[|os| - 1], depth)
  }

  /** `get_outlines`: appends the entries of `outline` to `outlines`. */
  method GetOutlines(outlines: seq<(Dest, nat)>, outline: Outline, depth: nat) returns (out: seq<(Dest, nat)>)
    ensures out == outlines + Flatten(outline, depth)
    decreases outline
  {
    match outline
    case Destination(d) =>
      out := outlines + [(d, depth)];
    case SubOutlines(cs) =>
      out := outlines;
      for i := 0 to |cs|
        invariant out == outlines + FlattenAll(cs[..i], depth + 1)
      {
        assert cs[..i + 1][..i] == cs[..i];
        out := GetOutlines(out, cs[i], depth + 1);
      }
      assert cs[..|cs|] == cs;
  }

  /** The loop of `main` over the bookmarks, each at depth 0. */
  method CollectOutlines(bookmarks: seq<Outline>) returns (outlines: seq<(Dest, nat)>)
    ensures outlines == FlattenAll(bookmarks, 0)
  {
    outlines := [];
    for i := 0 to |bookmarks|
      invariant outlines == FlattenAll(bookmarks[..i], 0)
    {
      assert bookmarks[..i + 1][..i] == bookmarks[..i];
      outlines := GetOutlines(outlines, bookmarks[i], 0);
    }
    assert bookmarks[..|bookmarks|] == bookmarks;
  }

  /** No entry is shallower than the depth the walk starts at. */
  lemma {:induction false} FlattenDepth(o: Outline, depth: nat)
    ensures forall k :: 0 <= k < |Flatten(o, depth)| ==> Flatten(o, depth)[k].1 >= depth
    decreases o, 1
  {
    match o
    case Destination(_) =>
    case SubOutlines(cs) => FlattenAllDepth(cs, depth + 1);
  }

  lemma {:induction false} FlattenAllDepth(os: seq<Outline>, depth: nat)
    ensures forall k :: 0 <= k < |FlattenAll(os, depth)| ==> FlattenAll(os, depth)[k].1 >= depth
    decreases os, 0
  {
    if os != [] {
      FlattenAllDepth(os[..|os| - 1], depth);
      FlattenDepth(os[|os| - 1], depth);
    }
  }

  /** The depth-0 entries, in order: the filter of the section loop. */
  function TopLevel(outlines: seq<(Dest, nat)>): seq<Dest> {
    if outlines == [] then []
    else
      var last := outlines[|outlines| - 1];
      TopLevel(outlines[..|outlines| - 1]) + (if last.1 == 0 then [last.0] else [])
  }

  lemma {:induction false} TopLevelAppend(a: seq<(Dest, nat)>, b: seq<(Dest, nat)>)
    ensures TopLevel(a + b) == TopLevel(a) + TopLevel(b)
    decreases |b|
  {
    if b != [] {
      var b' := b[..|b| - 1];
      assert (a + b)[..|a + b| - 1] == a + b' && (a + b)[|a + b| - 1] == b[|b| - 1];
      TopLevelAppend(a, b');
      var l := b[|b| - 1];
      var tail := if l.1 == 0 then [l.0] else [];
      assert TopLevel(a + b) == TopLevel(a + b') + tail;
      assert TopLevel(b) == TopLevel(b') + tail;
    } else {
      assert a + b == a;
    }
  }

  lemma {:induction false} TopLevelDeep(outlines: seq<(Dest, nat)>)
    requires forall k :: 0 <= k < |outlines| ==> outlines[k].1 > 0
    ensures TopLevel(outlines) == []
  {
    if outlines != [] {
      TopLevelDeep(outlines[..|outlines| - 1]);
    }
  }

  /** The destinations among `os` themselves, children left out. */
  function Dests(os: seq<Outline>): seq<Dest> {
    if os == [] then []
    else
      var last := os[|os| - 1];
      Dests(os[..|os| - 1]) + (if last.Destination? then [last.dest] else [])
  }

  /**
   * Only the top-level destinations of the bookmarks become sections: every
   * child of a `SubOutlines` sits at depth 1 or more.
   */
  lemma {:induction false} TopLevelOfBookmarks(bookmarks: seq<Outline>)
    ensures TopLevel(FlattenAll(bookmarks, 0)) == Dests(bookmarks)
  {
    if bookmarks != [] {
      var init, last := bookmarks[..|bookmarks| - 1], bookmarks[|bookmarks| - 1];
      TopLevelOfBookmarks(init);
      TopLevelAppend(FlattenAll(init, 0), Flatten(last, 0));
      match last
      case Destination(d) =>
        assert TopLevel([(d, 0)]) == TopLevel([]) + [d];
      case SubOutlines(cs) =>
        FlattenAllDepth(cs, 1);
        TopLevelDeep(FlattenAll(cs, 1));
    }
  }

  // ----- TestSplitter -----

  /** `Section`: a top-level outline entry and its page range. */
  datatype Section = Section(level: nat, name: string, start: nat, end: nat)

  /** `starts_with("Ch ")`. */
  predicate IsChapter(name: string) {
    "Ch " <= name
  }

  /** `TestSplitter`: remembers the name of the last section it was asked about. */
  class TestSplitter {
    var lastName: Option<string>

    /** `TestSplitter::default`. */
    constructor ()
      ensures lastName == None
    {
      lastName := None;
    }

    /**
     * `should_split`: a chapter, and the section right after a chapter,
     * start a new file; the section's name is remembered either way.
     */
    method ShouldSplit(section: Section) returns (res: bool)
      modifies this
      ensures res <==> IsChapter(section.name) || (old(lastName).Some? && IsChapter(old(lastName).value))
      ensures lastName == Some(section.name)
    {
      res := false;
      if IsChapter(section.name) {
        res := true;
      }
      if lastName.Some? && IsChapter(lastName.value) {
        res := true;
      }
      lastName := Some(section.name);
    }
  }

  /** The length of the run of ASCII digits `s` starts with. */
  function DigitRun(s: string): (n: nat)
    ensures n <= |s|
    ensures forall k :: 0 <= k < n ==> IsAsciiDigit(s[k])
    ensures n < |s| ==> !IsAsciiDigit(s[n])
  {
    if s != [] && IsAsciiDigit(s[0]) then 1 + DigitRun(s[1..]) else 0
  }

  /**
   * The pattern `Ch (\d+): ` matches at `i`. The digits can only be followed
   * by ':' if they are the whole run, so the run is the only candidate.
   */
  predicate ChapterAt(s: string, i: nat) {
    && i + 3 <= |s| && s[i..i + 3] == "Ch "
    && var n := DigitRun(s[i + 3..]);
       n > 0 && i + n + 5 <= |s| && s[i + 3 + n..i + n + 5] == ": "
  }

  /** The leftmost match at or after `i`. */
  function FirstChapter(s: string, i: nat): (r: Option<nat>)
    ensures r.Some? ==> i <= r.value && ChapterAt(s, r.value)
    ensures forall j: nat :: i <= j && (r.None? || j < r.value) ==> !ChapterAt(s, j)
    decreases |s| - i
  {
    if i >= |s| then None
    else if ChapterAt(s, i) then Some(i)
    else FirstChapter(s, i + 1)
  }

  /** Where `(.*)` stops: the first line break at or after `j`, or the end. */
  function LineEnd(s: string, j: nat): (e: nat)
    requires j <= |s|
    ensures j <= e <= |s| && '\n' !in s[j..e]
    ensures e < |s| ==> s[e] == '\n'
    decreases |s| - j
  {
    if j == |s| || s[j] == '\n' then j
    else
      var e := LineEnd(s, j + 1);
      assert s[j..e] == [s[j]] + s[j + 1..e];
      e
  }

  /** `s.replace(a, b)` for single characters. */
  function ReplaceChar(s: string, a: char, b: char): (r: string)
    ensures |r| == |s|
    ensures a != b ==> a !in r
    ensures forall k :: 0 <= k < |s| ==> r[k] == if s[k] == a then b else s[k]
  {
    seq(|s|, k requires 0 <= k < |s| => if s[k] == a then b else s[k])
  }

  /**
   * `name`: the first `Ch <digits>: <title>` in the name gives
   * `Ch<digits>-<title>`, the title running to the end of the line; any
   * other name has its spaces turned into '-'.
   */
  function Name(name: string): string {
    match FirstChapter(name, 0)
    case None => ReplaceChar(name, ' ', '-')
    case Some(i) =>
      var n := DigitRun(name[i + 3..]);
      var t := i + n + 5;
      "Ch" + name[i + 3..i + 3 + n] + "-" + name[t..LineEnd(name, t)]
  }

  lemma {:induction false} DigitRunOf(d: string, rest: string)
    requires forall k :: 0 <= k < |d| ==> IsAsciiDigit(d[k])
    requires rest != [] && !IsAsciiDigit(rest[0])
    ensures DigitRun(d + rest) == |d|
  {
    if d != [] {
      assert (d + rest)[1..] == d[1..] + rest;
      DigitRunOf(d[1..], rest);
    } else {
      assert d + rest == rest;
    }
  }

  /** A chapter heading on one line is named `Ch<digits>-<title>`; spaces in the title stay. */
  lemma NameOfChapter(name: string, digits: string, title: string)
    requires name == "Ch " + digits + ": " + title
    requires digits != [] && forall k :: 0 <= k < |digits| ==> IsAsciiDigit(digits[k])
    requires '\n' !in title
    ensures Name(name) == "Ch" + digits + "-" + title
  {
    assert name[3..] == digits + (": " + title);
    DigitRunOf(digits, ": " + title);
    assert name[..3] == "Ch ";
    assert name[3 + |digits|..|digits| + 5] == ": ";
    assert ChapterAt(name, 0);
    assert name[3..3 + |digits|] == digits;
    var t := |digits| + 5;
    assert name[t..] == title;
    assert forall k :: t <= k < |name| ==> name[k] == title[k - t];
    assert LineEnd(name, t) == |name|;
  }

  /** A name without `Ch ` in it only has its spaces replaced. */
  lemma PlainName(name: string)
    requires !Contains(name, "Ch ")
    ensures Name(name) == ReplaceChar(name, ' ', '-')
    ensures ' ' !in Name(name) && |Name(name)| == |name|
  {
    assert forall j: nat :: ChapterAt(name, j) ==> OccursAt(name, "Ch ", j);
  }

  /** "Ch Review" has no chapter number, so it is hyphenated like any other name. */
  lemma UnnumberedChapter()
    ensures Name("Ch Review") == "Ch-Review"
  {
    var s := "Ch Review";
    NoChapterInReview(s);
    HyphenateReview(s);
  }

  lemma HyphenateReview(s: string)
    requires s == "Ch Review"
    ensures ReplaceChar(s, ' ', '-') == "Ch-Review"
  {
    var r := ReplaceChar(s, ' ', '-');
    forall k | 0 <= k < |r|
      ensures r[k] == "Ch-Review"[k]
    {
    }
  }

  lemma NoChapterInReview(s: string)
    requires s == "Ch Review"
    ensures FirstChapter(s, 0) == None
  {
    assert DigitRun(s[3..]) == 0;
    forall j: nat
      ensures !ChapterAt(s, j)
    {
      if j != 0 && j + 3 <= |s| {
        assert s[j..j + 3][0] == s[j] != 'C';
      }
    }
  }

  // ----- the section loop -----

  /** `OUT_DIR`. */
  const OutDir := "./output/"

  /** `SplitterJob` without the shared source document: where to write, and which pages. */
  datatype Job = Job(filename: string, start: nat, end: nat)

  /** `OUT_DIR.join(format!("{}.pdf", name))`. */
  function FileName(title: string): string {
    OutDir + Name(title) + ".pdf"
  }

  /** `page_iter().position(|x| x == reference)`: the first page with that id. */
  function IndexOf(ids: seq<ObjectId>, id: ObjectId): (r: Option<nat>)
    ensures r.None? <==> id !in ids
    ensures r.Some? ==> r.value < |ids| && ids[r.value] == id && id !in ids[..r.value]
  {
    if ids == [] then None
    else if ids[0] == id then Some(0)
    else
      match IndexOf(ids[1..], id)
      case None => None
      case Some(k) =>
        assert ids[..k + 1] == [ids[0]] + ids[1..][..k];
        Some(k + 1)
  }

  /** The top-level entry `i` starts a job: it, or the entry before it, is a chapter. */
  predicate Splits(tops: seq<Dest>, i: nat)
    requires i < |tops|
  {
    IsChapter(tops[i].title) || (i > 0 && IsChapter(tops[i - 1].title))
  }

  /** The entries among the first `n` that start a job, in order. */
  function Selected(tops: seq<Dest>, n: nat): (r: seq<nat>)
    requires n <= |tops|
    ensures forall k :: 0 <= k < |r| ==> r[k] < n && Splits(tops, r[k])
    ensures forall k, l :: 0 <= k < l < |r| ==> r[k] < r[l]
    ensures forall i :: 0 <= i < n && Splits(tops, i) ==> i in r
  {
    if n == 0 then [] else Selected(tops, n - 1) + (if Splits(tops, n - 1) then [n - 1] else [])
  }

  /** The pages of the first `n` entries are all found. */
  predicate Located(tops: seq<Dest>, pageIds: seq<ObjectId>, n: nat)
    requires n <= |tops|
  {
    forall i :: 0 <= i < n ==> tops[i].page in pageIds
  }

  /** The page entry `i` points at. */
  function StartOf(tops: seq<Dest>, pageIds: seq<ObjectId>, i: nat): nat
    requires i < |tops| && tops[i].page in pageIds
  {
    IndexOf(pageIds, tops[i].page).value
  }

  /** One job per selected entry, named after it and starting at its page; each job ends where the next starts. */
  ghost predicate Started(jobs: seq<Job>, tops: seq<Dest>, pageIds: seq<ObjectId>, n: nat)
    requires n <= |tops| && Located(tops, pageIds, n)
  {
    var sel := Selected(tops, n);
    && |jobs| == |sel|
    && (forall k :: 0 <= k < |jobs| ==>
          jobs[k].filename == FileName(tops[sel[k]].title) && jobs[k].start == StartOf(tops, pageIds, sel[k]))
    && Chained(jobs)
  }

  /** Each job ends where the next one starts. */
  predicate Chained(jobs: seq<Job>) {
    forall k :: 0 <= k < |jobs| - 1 ==> jobs[k].end == jobs[k + 1].start
  }

  /** A job starting where the last one ends keeps the jobs chained. */
  lemma ChainedSnoc(jobs: seq<Job>, job: Job)
    requires Chained(jobs) && (jobs != [] ==> jobs[|jobs| - 1].end == job.start)
    ensures Chained(jobs + [job])
  {
    var jobs' := jobs + [job];
    forall k | 0 <= k < |jobs'| - 1
      ensures jobs'[k].end == jobs'[k + 1].start
    {
      if k + 1 < |jobs| {
        assert jobs[k].end == jobs[k + 1].start;
      }
    }
  }

  /**
   * The jobs after the first `n` entries: the last one ends at the page of
   * entry `n - 1`, unless that entry started it (its end is then still 0).
   */
  ghost predicate Planned(jobs: seq<Job>, tops: seq<Dest>, pageIds: seq<ObjectId>, n: nat)
    requires n <= |tops| && Located(tops, pageIds, n)
  {
    && Started(jobs, tops, pageIds, n)
    && (jobs != [] ==>
          jobs[|jobs| - 1].end == if Selected(tops, n)[|jobs| - 1] == n - 1 then 0 else StartOf(tops, pageIds, n - 1))
  }

  /**
   * The finished plan: the jobs tile the pages from the first job's start
   * to `total`, in the order of the outline.
   */
  ghost predicate JobsFor(jobs: seq<Job>, tops: seq<Dest>, pageIds: seq<ObjectId>, total: nat)
    requires Located(tops, pageIds, |tops|)
  {
    Started(jobs, tops, pageIds, |tops|) && (jobs != [] ==> jobs[|jobs| - 1].end == total)
  }

  /** A chapter starts a job, and so does the entry right after it. */
  lemma ChapterStartsJob(jobs: seq<Job>, tops: seq<Dest>, pageIds: seq<ObjectId>, total: nat, i: nat)
    requires Located(tops, pageIds, |tops|) && JobsFor(jobs, tops, pageIds, total)
    requires i < |tops| && IsChapter(tops[i].title)
    ensures exists k :: 0 <= k < |jobs| && jobs[k].start == StartOf(tops, pageIds, i) && jobs[k].filename == FileName(tops[i].title)
    ensures i + 1 < |tops| ==>
      exists k :: 0 <= k < |jobs| && jobs[k].start == StartOf(tops, pageIds, i + 1) && jobs[k].filename == FileName(tops[i + 1].title)
  {
    var sel := Selected(tops, |tops|);
    assert Splits(tops, i);
    var k :| 0 <= k < |sel| && sel[k] == i;
    assert jobs[k].start == StartOf(tops, pageIds, i);
    if i + 1 < |tops| {
      assert Splits(tops, i + 1);
      var l :| 0 <= l < |sel| && sel[l] == i + 1;
      assert jobs[l].start == StartOf(tops, pageIds, i + 1);
    }
  }

  /** Without a chapter among the top-level entries nothing is split out. */
  lemma NoChapterNoJobs(jobs: seq<Job>, tops: seq<Dest>, pageIds: seq<ObjectId>, total: nat)
    requires Located(tops, pageIds, |tops|) && JobsFor(jobs, tops, pageIds, total)
    requires forall i :: 0 <= i < |tops| ==> !IsChapter(tops[i].title)
    ensures jobs == []
  {
    SelectedNone(tops, |tops|);
  }

  lemma {:induction false} SelectedNone(tops: seq<Dest>, n: nat)
    requires n <= |tops| && forall i :: 0 <= i < n ==> !IsChapter(tops[i].title)
    ensures Selected(tops, n) == []
  {
    if n > 0 {
      SelectedNone(tops, n - 1);
    }
  }

  /** `jobs.last_mut()`'s range set to end at `end`. */
  function Patch(jobs: seq<Job>, end: nat): seq<Job> {
    if jobs == [] then jobs else jobs[|jobs| - 1 := jobs[|jobs| - 1].(end := end)]
  }

  /** Patching changes the last job's end and nothing else. */
  lemma PatchOnlyEnd(jobs: seq<Job>, end: nat)
    ensures |Patch(jobs, end)| == |jobs|
    ensures forall k :: 0 <= k < |jobs| ==> Patch(jobs, end)[k].filename == jobs[k].filename && Patch(jobs, end)[k].start == jobs[k].start
    ensures forall k :: 0 <= k < |jobs| - 1 ==> Patch(jobs, end)[k] == jobs[k]
    ensures jobs != [] ==> Patch(jobs, end)[|jobs| - 1].end == end
  {
  }

  /** Patching the last job's end keeps the jobs started as they were. */
  lemma PatchStarted(jobs: seq<Job>, tops: seq<Dest>, pageIds: seq<ObjectId>, n: nat, end: nat)
    requires n <= |tops| && Located(tops, pageIds, n) && Started(jobs, tops, pageIds, n)
    ensures Started(Patch(jobs, end), tops, pageIds, n)
  {
    var patched := Patch(jobs, end);
    var sel := Selected(tops, n);
    PatchOnlyEnd(jobs, end);
    forall k | 0 <= k < |patched|
      ensures patched[k].filename == FileName(tops[sel[k]].title) && patched[k].start == StartOf(tops, pageIds, sel[k])
    {
      assert patched[k].filename == jobs[k].filename && patched[k].start == jobs[k].start;
    }
    forall k | 0 <= k < |patched| - 1
      ensures patched[k].end == patched[k + 1].start
    {
      assert patched[k] == jobs[k] && patched[k + 1].start == jobs[k + 1].start;
    }
  }

  /** An entry that starts a job adds one, starting at its page, after the jobs that now end there. */
  lemma PushStarted(jobs: seq<Job>, tops: seq<Dest>, pageIds: seq<ObjectId>, i: nat, p: nat)
    requires i < |tops| && Located(tops, pageIds, i + 1) && p == StartOf(tops, pageIds, i) && Splits(tops, i)
    requires Started(jobs, tops, pageIds, i) && (jobs != [] ==> jobs[|jobs| - 1].end == p)
    ensures Started(jobs + [Job(FileName(tops[i].title), p, 0)], tops, pageIds, i + 1)
  {
    var sel := Selected(tops, i);
    var sel' := Selected(tops, i + 1);
    assert sel' == sel + [i];
    var jobs' := jobs + [Job(FileName(tops[i].title), p, 0)];
    forall k | 0 <= k < |jobs'|
      ensures jobs'[k].filename == FileName(tops[sel'[k]].title) && jobs'[k].start == StartOf(tops, pageIds, sel'[k])
    {
      if k < |jobs| {
        assert sel'[k] == sel[k];
      }
    }
    ChainedSnoc(jobs, Job(FileName(tops[i].title), p, 0));
  }

  /** An entry that starts a job: the new job is the last and its end is still open. */
  lemma PlanSplit(jobs: seq<Job>, tops: seq<Dest>, pageIds: seq<ObjectId>, i: nat, p: nat)
    requires i < |tops| && Located(tops, pageIds, i + 1) && p == StartOf(tops, pageIds, i) && Splits(tops, i)
    requires Started(jobs, tops, pageIds, i) && (jobs != [] ==> jobs[|jobs| - 1].end == p)
    ensures Planned(jobs + [Job(FileName(tops[i].title), p, 0)], tops, pageIds, i + 1)
  {
    PushStarted(jobs, tops, pageIds, i, p);
    var sel' := Selected(tops, i + 1);
    assert sel' == Selected(tops, i) + [i];
    assert sel'[|jobs|] == i;
  }

  /** An entry that starts no job: the last job now ends at its page. */
  lemma PlanSkip(jobs: seq<Job>, tops: seq<Dest>, pageIds: seq<ObjectId>, i: nat, p: nat)
    requires i < |tops| && Located(tops, pageIds, i + 1) && p == StartOf(tops, pageIds, i) && !Splits(tops, i)
    requires Started(jobs, tops, pageIds, i) && (jobs != [] ==> jobs[|jobs| - 1].end == p)
    ensures Planned(jobs, tops, pageIds, i + 1)
  {
    var sel := Selected(tops, i);
    assert Selected(tops, i + 1) == sel;
    if jobs != [] {
      assert sel[|jobs| - 1] < i;
    }
  }

  /** One more entry: the jobs so far are patched to end at its page, then it may start a job. */
  lemma PlanStep(jobs: seq<Job>, tops: seq<Dest>, pageIds: seq<ObjectId>, i: nat, p: nat)
    requires i < |tops| && Located(tops, pageIds, i + 1) && p == StartOf(tops, pageIds, i)
    requires Planned(jobs, tops, pageIds, i)
    ensures Planned(Patch(jobs, p) + (if Splits(tops, i) then [Job(FileName(tops[i].title), p, 0)] else []), tops, pageIds, i + 1)
  {
    var patched := Patch(jobs, p);
    PatchOnlyEnd(jobs, p);
    PatchStarted(jobs, tops, pageIds, i, p);
    if Splits(tops, i) {
      PlanSplit(patched, tops, pageIds, i, p);
    } else {
      PlanSkip(patched, tops, pageIds, i, p);
      assert patched + [] == patched;
    }
  }

  /** After the last entry, the last job is patched to end at `total`. */
  lemma PlanDone(jobs: seq<Job>, tops: seq<Dest>, pageIds: seq<ObjectId>, total: nat)
    requires Located(tops, pageIds, |tops|) && Planned(jobs, tops, pageIds, |tops|)
    ensures JobsFor(Patch(jobs, total), tops, pageIds, total)
  {
    PatchOnlyEnd(jobs, total);
    PatchStarted(jobs, tops, pageIds, |tops|, total);
  }

  /**
   * The section loop of `main` and the patch after it: the top-level entries
   * in order, each located among the pages (a missing page ends `main` with
   * an error), each asked about by one `TestSplitter`.
   */
  method PlanJobs(outlines: seq<(Dest, nat)>, pageIds: seq<ObjectId>) returns (r: Option<seq<Job>>)
    ensures r.None? <==> !Located(TopLevel(outlines), pageIds, |TopLevel(outlines)|)
    ensures r.Some? ==> JobsFor(r.value, TopLevel(outlines), pageIds, |pageIds|)
  {
    var totalPages := |pageIds|;
    var splitter := new TestSplitter();
    var jobs: seq<Job> := [];
    var tops := TopLevel(outlines);
    for i := 0 to |tops|
      invariant Located(tops, pageIds, i)
      invariant splitter.lastName == if i == 0 then None else Some(tops[i - 1].title)
      invariant Planned(jobs, tops, pageIds, i)
    {
      var dest := tops[i];
      var page := IndexOf(pageIds, dest.page);
      if page.None? {
        return None;
      }
      ghost var next := Patch(jobs, page.value) + (if Splits(tops, i) then [Job(FileName(tops[i].title), page.value, 0)] else []);
      PlanStep(jobs, tops, pageIds, i, page.value);
      if jobs != [] {
        jobs := jobs[|jobs| - 1 := jobs[|jobs| - 1].(end := page.value)];
      }
      var section := Section(0, dest.title, page.value, 0);
      var split := splitter.ShouldSplit(section);
      assert split == Splits(tops, i);
      if split {
        jobs := jobs + [Job(OutDir + Name(section.name) + ".pdf", section.start, section.end)];
      }
      assert jobs == next;
    }
    PlanDone(jobs, tops, pageIds, totalPages);
    if jobs != [] {
      jobs := jobs[|jobs| - 1 := jobs[|jobs| - 1].(end := totalPages)];
    }
    r := Some(jobs);
  }

  // ----- clone_obj without a cache -----

  /** The state the driver's cloner works in and keeps. */
  ghost predicate Fit(doc: Document, source: map<ObjectId, Object>)
    reads doc
  {
    doc.Valid() && Copies(doc.objects, doc.origin, source)
  }

  /** Nothing stored or recorded has been lost or changed. */
  ghost predicate Kept(objects: map<ObjectId, Object>, origin: map<ObjectId, ObjectId>,
                       objects': map<ObjectId, Object>, origin': map<ObjectId, ObjectId>)
  {
    Extends(objects, objects') && Extends(origin, origin')
  }

  /**
   * `clone_obj` of main.rs: a copy of `obj` whose references point into
   * `doc`. Every resolvable reference is copied recursively and added as a
   * new object, however often it was met before; an unresolvable one
   * becomes `Null`.
   */
  method CloneObj(doc: Document, source: map<ObjectId, Object>, obj: Object,
                  ghost rank: map<ObjectId, nat>, ghost bound: nat) returns (r: Object)
    requires Fit(doc, source) && Ranked(source, rank) && Below(obj, source, rank, bound)
    modifies doc
    ensures Fit(doc, source) && doc.trailer == old(doc.trailer)
    ensures Kept(old(doc.objects), old(doc.origin), doc.objects, doc.origin)
    ensures Shallow(obj, r, source, doc.origin)
    ensures Scalar(obj) ==> r == obj && doc.objects == old(doc.objects) && doc.maxId == old(doc.maxId)
    ensures obj.Reference? && obj.id !in source ==>
      r == Null && doc.objects == old(doc.objects) && doc.maxId == old(doc.maxId)
    ensures obj.Reference? && obj.id in source ==>
      r == Reference(ObjectId(doc.maxId, 0)) && r.id !in old(doc.objects) && r.id in doc.objects
    ensures obj.Reference? && obj.id in source && Scalar(source[obj.id]) ==>
      doc.maxId == old(doc.maxId) + 1 && doc.objects == old(doc.objects)[r.id := source[obj.id]]
    decreases bound, obj, 1
  {
    match obj
    case Array(items) =>
      var out := CloneItems(doc, source, obj, rank, bound);
      r := Array(out);
    case Dictionary(d) =>
      var out := CloneEntries(doc, source, obj, rank, bound);
      r := Dictionary(out);
    case Stream(d, content, compress) =>
      var out := CloneEntries(doc, source, obj, rank, bound);
      var stream := NewStream(out, content);
      r := stream.(allowsCompression := compress);
    case Reference(id) =>
      if id !in source {
        return Null;
      }
      var copy := CloneObj(doc, source, source[id], rank, rank[id]);
      var n := AddCopy(doc, source, id, copy);
      r := Reference(n);
    case _ =>
      r := obj;
  }

  /** `add_object` of the copy of `source[id]`; `origin` records what it copies. */
  method AddCopy(doc: Document, source: map<ObjectId, Object>, id: ObjectId, copy: Object) returns (n: ObjectId)
    requires Fit(doc, source) && id in source && Shallow(source[id], copy, source, doc.origin)
    modifies doc
    ensures Fit(doc, source) && doc.trailer == old(doc.trailer)
    ensures doc.maxId == old(doc.maxId) + 1 && n == ObjectId(doc.maxId, 0) && n !in old(doc.objects)
    ensures doc.objects == old(doc.objects)[n := copy] && doc.origin == old(doc.origin)[n := id]
    ensures Kept(old(doc.objects), old(doc.origin), doc.objects, doc.origin)
  {
    n := doc.AddObject(copy);
    CopiesStep(old(doc.objects), doc.origin, source, n, id, copy);
    doc.origin := doc.origin[n := id];
  }

  /** The array arm: each element cloned, in order. */
  method CloneItems(doc: Document, source: map<ObjectId, Object>, obj: Object,
                    ghost rank: map<ObjectId, nat>, ghost bound: nat) returns (out: seq<Object>)
    requires obj.Array?
    requires Fit(doc, source) && Ranked(source, rank) && Below(obj, source, rank, bound)
    modifies doc
    ensures Fit(doc, source) && doc.trailer == old(doc.trailer)
    ensures Kept(old(doc.objects), old(doc.origin), doc.objects, doc.origin)
    ensures |out| == |obj.items|
    ensures forall i :: 0 <= i < |out| ==> Shallow(obj.items[i], out[i], source, doc.origin)
    decreases bound, obj, 0
  {
    out := [];
    for i := 0 to |obj.items|
      invariant Fit(doc, source) && doc.trailer == old(doc.trailer)
      invariant Kept(old(doc.objects), old(doc.origin), doc.objects, doc.origin)
      invariant |out| == i
      invariant forall j :: 0 <= j < i ==> Shallow(obj.items[j], out[j], source, doc.origin)
    {
      ghost var origin0 := doc.origin;
      var c := CloneObj(doc, source, obj.items[i], rank, bound);
      forall j | 0 <= j < i
        ensures Shallow(obj.items[j], out[j], source, doc.origin)
      {
        ShallowGrows(obj.items[j], out[j], source, origin0, doc.origin);
      }
      out := out + [c];
    }
  }

  /** The dictionary and stream arms: each value cloned under its key, in order. */
  method CloneEntries(doc: Document, source: map<ObjectId, Object>, obj: Object,
                      ghost rank: map<ObjectId, nat>, ghost bound: nat) returns (out: Dict)
    requires obj.Dictionary? || obj.Stream?
    requires Fit(doc, source) && Ranked(source, rank) && Below(obj, source, rank, bound)
    modifies doc
    ensures Fit(doc, source) && doc.trailer == old(doc.trailer)
    ensures Kept(old(doc.objects), old(doc.origin), doc.objects, doc.origin)
    ensures |out| == |obj.dict|
    ensures forall i :: 0 <= i < |out| ==> out[i].0 == obj.dict[i].0 && Shallow(obj.dict[i].1, out[i].1, source, doc.origin)
    decreases bound, obj, 0
  {
    out := [];
    for i := 0 to |obj.dict|
      invariant Fit(doc, source) && doc.trailer == old(doc.trailer)
      invariant Kept(old(doc.objects), old(doc.origin), doc.objects, doc.origin)
      invariant |out| == i
      invariant forall j :: 0 <= j < i ==> out[j].0 == obj.dict[j].0 && Shallow(obj.dict[j].1, out[j].1, source, doc.origin)
    {
      ghost var origin0 := doc.origin;
      var (key, value) := obj.dict[i];
      var c := CloneObj(doc, source, value, rank, bound);
      forall j | 0 <= j < i
        ensures Shallow(obj.dict[j].1, out[j].1, source, doc.origin)
      {
        ShallowGrows(obj.dict[j].1, out[j].1, source, origin0, doc.origin);
      }
      out := out + [(key, c)];
    }
  }

  /** Without the cache, an object referenced twice is copied twice. */
  method CloneTwiceUncached() returns (first: Object, second: Object, added: nat)
    ensures first == Reference(ObjectId(1, 0)) && second == Reference(ObjectId(2, 0)) && added == 2
  {
    var id := ObjectId(7, 0);
    var source := map[id := Integer(42)];
    var rank := map[id := 0];
    var doc := new Document();
    first := CloneObj(doc, source, Reference(id), rank, 1);
    second := CloneObj(doc, source, Reference(id), rank, 1);
    added := doc.maxId;
  }
}

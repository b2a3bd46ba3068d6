/**
 * One entry of a YouTube watch-history export (youtube_stats/src/history.rs):
 * the record, the video id taken from its URL, and the identity (equality
 * and hashing) defined by that id.
 */
module WatchHistory {
  datatype Subtitle = Subtitle(name: string, url: string)

  datatype Watch = Watch(
    header: string,
    title: string,
    titleUrl: string,
    subtitles: seq<Subtitle>,
    time: string,
    products: seq<string>,
    activityControls: seq<string>)

  /**
   * `split(['=', '\u{003d}']).last()`: the text after the last '=' (both
   * split characters are '='), or all of `s` when it has none.
   */
  function LastSegment(s: string): (r: string)
    ensures |r| <= |s| && r == s[|s| - |r|..]
    ensures '=' !in r
    ensures |r| < |s| ==> s[|s| - |r| - 1] == '='
  {
    if s == [] then []
    else if s[|s| - 1] == '=' then []
    else
      var p := s[..|s| - 1];
      var r := LastSegment(p);
      assert s[|s| - |r| - 1..] == p[|p| - |r|..] + [s[|s| - 1]];
      r + [s[|s| - 1]]
  }

  /** `Watch::id`. */
  function Id(w: Watch): string {
    LastSegment(w.titleUrl)
  }

  /** A URL without '=' is its own id. */
  lemma IdWithoutEquals(w: Watch)
    requires '=' !in w.titleUrl
    ensures Id(w) == w.titleUrl
  {
  }

  /** The id is what follows the last '=': a query value is its own id. */
  lemma IdOfQuery(w: Watch, base: string, v: string)
    requires w.titleUrl == base + "=" + v && '=' !in v
    ensures Id(w) == v
  {
    var s, r := w.titleUrl, Id(w);
    if |r| > |v| {
      NoEqualsAt(r, |r| - |v| - 1);
      assert false;
    }
  }

  lemma NoEqualsAt(t: string, i: nat)
    requires i < |t| && '=' !in t
    ensures t[i] != '='
  {
  }

  /** `PartialEq for Watch`: the same id. */
  predicate Same(a: Watch, b: Watch) {
    Id(a) == Id(b)
  }

  lemma SameIsEquivalence(a: Watch, b: Watch, c: Watch)
    ensures Same(a, a)
    ensures Same(a, b) ==> Same(b, a)
    ensures Same(a, b) && Same(b, c) ==> Same(a, c)
  {
  }

  /** What `Hash for Watch` feeds the hasher: the id alone. */
  function HashInput(w: Watch): string {
    Id(w)
  }

  /** Values that are equal hash equally, and records differing only outside the URL id are equal. */
  lemma HashAgreesWithEq(a: Watch, b: Watch)
    ensures Same(a, b) ==> HashInput(a) == HashInput(b)
    ensures a.titleUrl == b.titleUrl ==> Same(a, b)
  {
  }

  /** `Default for Watch`: every field empty. */
  function Default(): (w: Watch)
    ensures w.header == [] && w.title == [] && w.titleUrl == [] && w.time == []
    ensures w.subtitles == [] && w.products == [] && w.activityControls == []
    ensures Id(w) == []
  {
    Watch([], [], [], [], [], [], [])
  }
}

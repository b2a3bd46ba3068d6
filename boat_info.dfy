/**
 * One row of a state boat registry (boatinfo_downloader/src/boat_info.rs):
 * the scraped cells are assigned to the record's fields by position.
 */
module BoatInfo {
  import opened Wrappers

  datatype BoatInfo = BoatInfo(
    state: string,
    name: Option<string>,
    regTo: Option<string>,
    regAddress: Option<string>,
    hid: Option<string>,
    port: Option<string>,
    manufacture: Option<string>,
    year: Option<string>,
    boatType: Option<string>,
    weight: Option<string>,
    length: Option<string>,
    id: Option<string>)

  /** The eleven positional fields, `name` through `id`, in declaration order. */
  function Fields(b: BoatInfo): seq<Option<string>> {
    [b.name, b.regTo, b.regAddress, b.hid, b.port, b.manufacture, b.year, b.boatType, b.weight, b.length, b.id]
  }

  /** `Vec::get(k).cloned()`. */
  function Get(raw: seq<string>, k: nat): (r: Option<string>)
    ensures r.Some? <==> k < |raw|
  {
    if k < |raw| then Some(raw[k]) else None
  }

  /** `BoatInfo::from_raw`. */
  function FromRaw(state: string, raw: seq<string>): (r: BoatInfo)
    ensures r.state == state
    ensures |Fields(r)| == 11
    ensures forall k :: 0 <= k < 11 ==> Fields(r)[k] == (if k < |raw| then Some(raw[k]) else None)
  {
    BoatInfo(state, Get(raw, 0), Get(raw, 1), Get(raw, 2), Get(raw, 3), Get(raw, 4), Get(raw, 5),
      Get(raw, 6), Get(raw, 7), Get(raw, 8), Get(raw, 9), Get(raw, 10))
  }

  /** Cells after the eleventh are ignored. */
  lemma ExtraCellsIgnored(state: string, raw: seq<string>)
    requires |raw| > 11
    ensures FromRaw(state, raw) == FromRaw(state, raw[..11])
  {
    var a, b := FromRaw(state, raw), FromRaw(state, raw[..11]);
    forall k | 0 <= k < 11 ensures Fields(a)[k] == Fields(b)[k] {}
    assert Fields(a) == Fields(b);
  }

  /** An empty row leaves every optional field empty. */
  lemma EmptyRow(state: string)
    ensures forall k :: 0 <= k < 11 ==> Fields(FromRaw(state, []))[k].None?
  {
  }

  /** The record gives back the cells it was built from (for rows of at most eleven cells). */
  lemma {:induction false} FieldsRoundTrip(state: string, raw: seq<string>)
    requires |raw| <= 11
    ensures var f := Fields(FromRaw(state, raw));
      forall k :: 0 <= k < |raw| ==> f[k] == Some(raw[k])
    ensures var f := Fields(FromRaw(state, raw));
      forall k :: |raw| <= k < 11 ==> f[k].None?
  {
  }
}

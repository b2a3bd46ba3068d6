/**
 * Splitting one job's pages out of a source PDF (pdf_splitter/src/pdf.rs):
 * objects are copied from the source document into a new one through a
 * cache, so that an object referenced from several places is copied once.
 * The source document is `source`, its object table; the reference graph is
 * assumed acyclic, witnessed by `rank`.
 */
module PdfSplit {
  import opened Wrappers
  import opened PdfObject

  /** The cache of `split`: source object number to new object number. */
  class ObjectCache {
    var entries: map<ObjectId, ObjectId>

    constructor ()
      ensures entries == map[]
    {
      entries := map[];
    }
  }

  /** Every cached number names a copy of the object it is cached for. */
  ghost predicate CacheOk(entries: map<ObjectId, ObjectId>, origin: map<ObjectId, ObjectId>) {
    forall id :: id in entries ==> entries[id] in origin && origin[entries[id]] == id
  }

  /** The state cloning works in and keeps. */
  ghost predicate Ready(doc: Document, cache: ObjectCache, source: map<ObjectId, Object>)
    reads doc, cache
  {
    doc.Valid() && Copies(doc.objects, doc.origin, source) && CacheOk(cache.entries, doc.origin)
  }

  /**
   * From the first state to the second nothing recorded has been lost or
   * changed, and every added object has a number above the first `maxId`.
   */
  ghost predicate Growth(objects: map<ObjectId, Object>, origin: map<ObjectId, ObjectId>, entries: map<ObjectId, ObjectId>, maxId: nat,
                         objects': map<ObjectId, Object>, origin': map<ObjectId, ObjectId>, entries': map<ObjectId, ObjectId>, maxId': nat)
  {
    && Extends(objects, objects') && Extends(origin, origin') && Extends(entries, entries') && maxId <= maxId'
    && forall id :: id in objects' && id !in objects ==> id.num > maxId
  }

  lemma GrowthTrans(objects: map<ObjectId, Object>, origin: map<ObjectId, ObjectId>, entries: map<ObjectId, ObjectId>, maxId: nat,
                    objects': map<ObjectId, Object>, origin': map<ObjectId, ObjectId>, entries': map<ObjectId, ObjectId>, maxId': nat,
                    objects'': map<ObjectId, Object>, origin'': map<ObjectId, ObjectId>, entries'': map<ObjectId, ObjectId>, maxId'': nat)
    requires Growth(objects, origin, entries, maxId, objects', origin', entries', maxId')
    requires Growth(objects', origin', entries', maxId', objects'', origin'', entries'', maxId'')
    ensures Growth(objects, origin, entries, maxId, objects'', origin'', entries'', maxId'')
  {
  }

  /** `Growth` from the recorded state to the current one. */
  ghost predicate Grew(doc: Document, cache: ObjectCache, objects: map<ObjectId, Object>, origin: map<ObjectId, ObjectId>,
                       entries: map<ObjectId, ObjectId>, maxId: nat)
    reads doc, cache
  {
    Growth(objects, origin, entries, maxId, doc.objects, doc.origin, cache.entries, doc.maxId)
  }

  /** No object was added and the cache is as it was. */
  ghost predicate Unchanged(doc: Document, cache: ObjectCache, objects: map<ObjectId, Object>, entries: map<ObjectId, ObjectId>, maxId: nat)
    reads doc, cache
  {
    doc.objects == objects && cache.entries == entries && doc.maxId == maxId
  }

  /**
   * `clone_obj`: a copy of `obj` whose references point into `doc`. A
   * cached reference is answered from the cache; an unresolvable one
   * becomes `Null`; any other is copied recursively, added to `doc` once,
   * and cached.
   */
  method CloneObj(doc: Document, source: map<ObjectId, Object>, cache: ObjectCache, obj: Object,
                  ghost rank: map<ObjectId, nat>, ghost bound: nat) returns (r: Object)
    requires Ready(doc, cache, source) && Ranked(source, rank) && Below(obj, source, rank, bound)
    modifies doc, cache
    ensures Ready(doc, cache, source) && doc.trailer == old(doc.trailer)
    ensures Grew(doc, cache, old(doc.objects), old(doc.origin), old(cache.entries), old(doc.maxId))
    ensures Shallow(obj, r, source, doc.origin)
    ensures Scalar(obj) ==> r == obj && Unchanged(doc, cache, old(doc.objects), old(cache.entries), old(doc.maxId))
    ensures obj.Reference? && obj.id in old(cache.entries) ==>
      r == Reference(old(cache.entries)[obj.id]) && Unchanged(doc, cache, old(doc.objects), old(cache.entries), old(doc.maxId))
    ensures obj.Reference? && obj.id !in old(cache.entries) && obj.id !in source ==>
      r == Null && Unchanged(doc, cache, old(doc.objects), old(cache.entries), old(doc.maxId))
    ensures obj.Reference? && obj.id !in old(cache.entries) && obj.id in source ==>
      r == Reference(ObjectId(doc.maxId, 0)) && r.id !in old(doc.objects) && r.id in doc.objects &&
      obj.id in cache.entries && cache.entries[obj.id] == r.id
    ensures obj.Reference? && obj.id !in old(cache.entries) && obj.id in source && Scalar(source[obj.id]) ==>
      doc.maxId == old(doc.maxId) + 1 && doc.objects == old(doc.objects)[r.id := source[obj.id]]
    decreases bound, obj, 1
  {
    match obj
    case Array(items) =>
      var out := CloneItems(doc, source, cache, obj, rank, bound);
      r := Array(out);
    case Dictionary(d) =>
      var out := CloneEntries(doc, source, cache, obj, rank, bound);
      r := Dictionary(out);
    case Stream(d, content, compress) =>
      var out := CloneEntries(doc, source, cache, obj, rank, bound);
      var stream := NewStream(out, content);
      r := stream.(allowsCompression := compress);
    case Reference(_) =>
      r := CloneReference(doc, source, cache, obj, rank, bound);
    case _ =>
      r := obj;
  }

  /**
   * The tail of the reference arm: `add_object` of the copy of `source[id]`,
   * then `cache.insert(id, n)`; `origin` records what `n` copies.
   */
  method AddCopy(doc: Document, cache: ObjectCache, source: map<ObjectId, Object>, id: ObjectId, copy: Object,
                 ghost objects0: map<ObjectId, Object>, ghost origin0: map<ObjectId, ObjectId>,
                 ghost entries0: map<ObjectId, ObjectId>, ghost maxId0: nat) returns (n: ObjectId)
    requires Ready(doc, cache, source) && id in source && Shallow(source[id], copy, source, doc.origin)
    requires Grew(doc, cache, objects0, origin0, entries0, maxId0) && id !in entries0
    modifies doc, cache
    ensures Ready(doc, cache, source) && doc.trailer == old(doc.trailer)
    ensures doc.maxId == old(doc.maxId) + 1 && n == ObjectId(doc.maxId, 0) && n !in old(doc.objects)
    ensures doc.objects == old(doc.objects)[n := copy]
    ensures doc.origin == old(doc.origin)[n := id] && Extends(old(doc.origin), doc.origin)
    ensures cache.entries == old(cache.entries)[id := n]
    ensures Grew(doc, cache, objects0, origin0, entries0, maxId0)
  {
    n := doc.AddObject(copy);
    CopiesStep(old(doc.objects), doc.origin, source, n, id, copy);
    GrowthAdd(objects0, origin0, entries0, maxId0, old(doc.objects), doc.origin, cache.entries, old(doc.maxId), n, id, copy);
    doc.origin := doc.origin[n := id];
    cache.entries := cache.entries[id := n];
  }

  /** Adding a copy under the next number and caching it is growth. */
  lemma GrowthAdd(objects0: map<ObjectId, Object>, origin0: map<ObjectId, ObjectId>, entries0: map<ObjectId, ObjectId>, maxId0: nat,
                  objects: map<ObjectId, Object>, origin: map<ObjectId, ObjectId>, entries: map<ObjectId, ObjectId>, maxId: nat,
                  n: ObjectId, id: ObjectId, copy: Object)
    requires Growth(objects0, origin0, entries0, maxId0, objects, origin, entries, maxId)
    requires n.num == maxId + 1 && n !in objects && n !in origin && id !in entries0
    ensures Growth(objects0, origin0, entries0, maxId0, objects[n := copy], origin[n := id], entries[id := n], maxId + 1)
  {
  }

  /** The reference arm of `clone_obj`. */
  method CloneReference(doc: Document, source: map<ObjectId, Object>, cache: ObjectCache, obj: Object,
                        ghost rank: map<ObjectId, nat>, ghost bound: nat) returns (r: Object)
    requires obj.Reference?
    requires Ready(doc, cache, source) && Ranked(source, rank) && Below(obj, source, rank, bound)
    modifies doc, cache
    ensures Ready(doc, cache, source) && doc.trailer == old(doc.trailer)
    ensures Grew(doc, cache, old(doc.objects), old(doc.origin), old(cache.entries), old(doc.maxId))
    ensures Shallow(obj, r, source, doc.origin)
    ensures obj.id in old(cache.entries) ==>
      r == Reference(old(cache.entries)[obj.id]) && Unchanged(doc, cache, old(doc.objects), old(cache.entries), old(doc.maxId))
    ensures obj.id !in old(cache.entries) && obj.id !in source ==>
      r == Null && Unchanged(doc, cache, old(doc.objects), old(cache.entries), old(doc.maxId))
    ensures obj.id !in old(cache.entries) && obj.id in source ==>
      r == Reference(ObjectId(doc.maxId, 0)) && r.id !in old(doc.objects) && r.id in doc.objects &&
      obj.id in cache.entries && cache.entries[obj.id] == r.id
    ensures obj.id !in old(cache.entries) && obj.id in source && Scalar(source[obj.id]) ==>
      doc.maxId == old(doc.maxId) + 1 && doc.objects == old(doc.objects)[r.id := source[obj.id]]
    decreases bound, obj, 0
  {
    var id := obj.id;
    if id in cache.entries {
      return Reference(cache.entries[id]);
    }
    if id !in source {
      return Null;
    }
    var copy := CloneObj(doc, source, cache, source[id], rank, rank[id]);
    var n := AddCopy(doc, cache, source, id, copy, old(doc.objects), old(doc.origin), old(cache.entries), old(doc.maxId));
    r := Reference(n);
  }

  /** The array arm of `clone_obj`: each element cloned, in order. */
  method CloneItems(doc: Document, source: map<ObjectId, Object>, cache: ObjectCache, obj: Object,
                    ghost rank: map<ObjectId, nat>, ghost bound: nat) returns (out: seq<Object>)
    requires obj.Array?
    requires Ready(doc, cache, source) && Ranked(source, rank) && Below(obj, source, rank, bound)
    modifies doc, cache
    ensures Ready(doc, cache, source) && doc.trailer == old(doc.trailer)
    ensures Grew(doc, cache, old(doc.objects), old(doc.origin), old(cache.entries), old(doc.maxId))
    ensures |out| == |obj.items|
    ensures forall i :: 0 <= i < |out| ==> Shallow(obj.items[i], out[i], source, doc.origin)
    decreases bound, obj, 0
  {
    out := [];
    for i := 0 to |obj.items|
      invariant Ready(doc, cache, source) && doc.trailer == old(doc.trailer)
      invariant Grew(doc, cache, old(doc.objects), old(doc.origin), old(cache.entries), old(doc.maxId))
      invariant |out| == i
      invariant forall j :: 0 <= j < i ==> Shallow(obj.items[j], out[j], source, doc.origin)
    {
      ghost var objects0, origin0, entries0, maxId0 := doc.objects, doc.origin, cache.entries, doc.maxId;
      var c := CloneObj(doc, source, cache, obj.items[i], rank, bound);
      GrowthTrans(old(doc.objects), old(doc.origin), old(cache.entries), old(doc.maxId), objects0, origin0, entries0, maxId0,
                  doc.objects, doc.origin, cache.entries, doc.maxId);
      forall j | 0 <= j < i
        ensures Shallow(obj.items[j], out[j], source, doc.origin)
      {
        ShallowGrows(obj.items[j], out[j], source, origin0, doc.origin);
      }
      out := out + [c];
    }
  }

  /**
   * The dictionary and stream arms of `clone_obj`: each value cloned under
   * its key, in order. The keys of a dictionary are distinct, so each `set`
   * on the new dictionary appends.
   */
  method CloneEntries(doc: Document, source: map<ObjectId, Object>, cache: ObjectCache, obj: Object,
                      ghost rank: map<ObjectId, nat>, ghost bound: nat) returns (out: Dict)
    requires obj.Dictionary? || obj.Stream?
    requires Ready(doc, cache, source) && Ranked(source, rank) && Below(obj, source, rank, bound)
    modifies doc, cache
    ensures Ready(doc, cache, source) && doc.trailer == old(doc.trailer)
    ensures Grew(doc, cache, old(doc.objects), old(doc.origin), old(cache.entries), old(doc.maxId))
    ensures |out| == |obj.dict|
    ensures forall i :: 0 <= i < |out| ==> out[i].0 == obj.dict[i].0 && Shallow(obj.dict[i].1, out[i].1, source, doc.origin)
    decreases bound, obj, 0
  {
    out := [];
    for i := 0 to |obj.dict|
      invariant Ready(doc, cache, source) && doc.trailer == old(doc.trailer)
      invariant Grew(doc, cache, old(doc.objects), old(doc.origin), old(cache.entries), old(doc.maxId))
      invariant |out| == i
      invariant forall j :: 0 <= j < i ==> out[j].0 == obj.dict[j].0 && Shallow(obj.dict[j].1, out[j].1, source, doc.origin)
    {
      ghost var objects0, origin0, entries0, maxId0 := doc.objects, doc.origin, cache.entries, doc.maxId;
      var (key, value) := obj.dict[i];
      var c := CloneObj(doc, source, cache, value, rank, bound);
      GrowthTrans(old(doc.objects), old(doc.origin), old(cache.entries), old(doc.maxId), objects0, origin0, entries0, maxId0,
                  doc.objects, doc.origin, cache.entries, doc.maxId);
      EntriesGrow(obj.dict, out, source, origin0, doc.origin);
      out := out + [(key, c)];
    }
  }

  /** Recording more copies keeps copied entries copies. */
  lemma EntriesGrow(d: Dict, out: Dict, source: map<ObjectId, Object>, origin: map<ObjectId, ObjectId>, origin': map<ObjectId, ObjectId>)
    requires |out| <= |d| && Extends(origin, origin')
    requires forall j :: 0 <= j < |out| ==> out[j].0 == d[j].0 && Shallow(d[j].1, out[j].1, source, origin)
    ensures forall j :: 0 <= j < |out| ==> out[j].0 == d[j].0 && Shallow(d[j].1, out[j].1, source, origin')
  {
    forall j | 0 <= j < |out|
      ensures Shallow(d[j].1, out[j].1, source, origin')
    {
      ShallowGrows(d[j].1, out[j].1, source, origin, origin');
    }
  }

  // ----- the page dictionaries of split -----

  /** The keys `split` sets itself on a page. */
  predicate Fixed(k: string) {
    k == "Type" || k == "Parent" || k == "Contents" || k == "Resources"
  }

  /** The page's Contents refers to a stream holding `content` and nothing else. */
  ghost predicate ContentsOk(objects: map<ObjectId, Object>, d: Dict, content: seq<bv8>) {
    match Get(d, "Contents")
    case Some(Reference(c)) => c in objects && objects[c] == NewStream([], content)
    case _ => false
  }

  /**
   * The page has Resources exactly when the old page has them, and then
   * they refer to an object of their own holding a copy of the old ones.
   */
  ghost predicate ResourcesOk(objects: map<ObjectId, Object>, origin: map<ObjectId, ObjectId>, source: map<ObjectId, Object>,
                              d: Dict, oldPage: Dict)
  {
    match Get(oldPage, "Resources")
    case Some(res) =>
      (match Get(d, "Resources")
       case Some(Reference(rid)) => rid in objects && Shallow(res, objects[rid], source, origin)
       case _ => false)
    case None => !Has(d, "Resources")
  }

  /** Every other key of `oldPage`, and no other, with a copy of its value. */
  ghost predicate CopiedEntries(d: Dict, oldPage: Dict, source: map<ObjectId, Object>, origin: map<ObjectId, ObjectId>) {
    forall k :: !Fixed(k) ==>
      (Has(d, k) <==> Has(oldPage, k)) &&
      (Has(oldPage, k) ==> Shallow(Get(oldPage, k).value, Get(d, k).value, source, origin))
  }

  /** The entries of a new page made from `oldPage`, whose content is `content`. */
  ghost predicate PageEntries(objects: map<ObjectId, Object>, origin: map<ObjectId, ObjectId>, source: map<ObjectId, Object>,
                              d: Dict, pagesId: ObjectId, oldPage: Dict, content: seq<bv8>)
  {
    && Get(d, "Type") == Some(Name("Page"))
    && Get(d, "Parent") == Some(Reference(pagesId))
    && ContentsOk(objects, d, content)
    && ResourcesOk(objects, origin, source, d, oldPage)
    && CopiedEntries(d, oldPage, source, origin)
  }

  /** `objects[pageId]` is the new page made from `oldPage`. */
  ghost predicate PageOk(objects: map<ObjectId, Object>, origin: map<ObjectId, ObjectId>, source: map<ObjectId, Object>,
                         pageId: ObjectId, pagesId: ObjectId, oldPage: Dict, content: seq<bv8>)
  {
    && pageId in objects && objects[pageId].Dictionary?
    && PageEntries(objects, origin, source, objects[pageId].dict, pagesId, oldPage, content)
  }

  /** Recording more copies keeps the copied entries copies. */
  lemma CopiedEntriesGrow(d: Dict, oldPage: Dict, source: map<ObjectId, Object>, origin: map<ObjectId, ObjectId>,
                          origin': map<ObjectId, ObjectId>)
    requires CopiedEntries(d, oldPage, source, origin) && Extends(origin, origin')
    ensures CopiedEntries(d, oldPage, source, origin')
  {
    forall k | !Fixed(k) && Has(oldPage, k)
      ensures Shallow(Get(oldPage, k).value, Get(d, k).value, source, origin')
    {
      ShallowGrows(Get(oldPage, k).value, Get(d, k).value, source, origin, origin');
    }
  }

  /** Page entries stay right while objects are added and copies recorded. */
  lemma PageEntriesGrow(objects: map<ObjectId, Object>, origin: map<ObjectId, ObjectId>, objects': map<ObjectId, Object>,
                        origin': map<ObjectId, ObjectId>, source: map<ObjectId, Object>,
                        d: Dict, pagesId: ObjectId, oldPage: Dict, content: seq<bv8>)
    requires PageEntries(objects, origin, source, d, pagesId, oldPage, content)
    requires Extends(objects, objects') && Extends(origin, origin')
    ensures PageEntries(objects', origin', source, d, pagesId, oldPage, content)
  {
    FixedEntriesGrow(objects, origin, objects', origin', source, d, d, oldPage, content);
    CopiedEntriesGrow(d, oldPage, source, origin, origin');
  }

  /** A finished page stays finished while objects are added and copies recorded. */
  lemma PageOkGrows(objects: map<ObjectId, Object>, origin: map<ObjectId, ObjectId>, objects': map<ObjectId, Object>,
                    origin': map<ObjectId, ObjectId>, source: map<ObjectId, Object>,
                    pageId: ObjectId, pagesId: ObjectId, oldPage: Dict, content: seq<bv8>)
    requires PageOk(objects, origin, source, pageId, pagesId, oldPage, content)
    requires Extends(objects, objects') && Extends(origin, origin')
    ensures PageOk(objects', origin', source, pageId, pagesId, oldPage, content)
  {
    PageEntriesGrow(objects, origin, objects', origin', source, objects[pageId].dict, pagesId, oldPage, content);
  }

  /** A value stored in a dictionary is bounded as the dictionary is. */
  lemma GetBelow(d: Dict, k: string, source: map<ObjectId, Object>, rank: map<ObjectId, nat>, bound: nat)
    requires Below(Dictionary(d), source, rank, bound) && Has(d, k)
    ensures Below(Get(d, k).value, source, rank, bound)
  {
    var i :| 0 <= i < |d| && d[i] == (k, Get(d, k).value);
  }

  /** How the lookups of a dictionary prefix change when the prefix grows by one entry. */
  lemma GetPrefix(d: Dict, i: nat)
    requires i < |d|
    ensures forall k :: Get(d[..i + 1], k) == if Has(d[..i], k) then Get(d[..i], k) else if d[i].0 == k then Some(d[i].1) else None
  {
    assert d[..i + 1] == d[..i] + [d[i]];
    forall k
      ensures Get(d[..i + 1], k) == if Has(d[..i], k) then Get(d[..i], k) else if d[i].0 == k then Some(d[i].1) else None
    {
      GetSnoc(d[..i], d[i], k);
    }
  }

  /** Type, Parent and Contents, the first entries of every page. */
  function PageHead(pagesId: ObjectId, contentId: ObjectId): (d: Dict)
    ensures Get(d, "Type") == Some(Name("Page")) && Get(d, "Parent") == Some(Reference(pagesId))
    ensures Get(d, "Contents") == Some(Reference(contentId)) && !Has(d, "Resources")
    ensures forall k :: !Fixed(k) ==> !Has(d, k)
  {
    var d := [("Type", Name("Page")), ("Parent", Reference(pagesId)), ("Contents", Reference(contentId))];
    assert d[1..] == [("Parent", Reference(pagesId)), ("Contents", Reference(contentId))];
    assert d[1..][1..] == [("Contents", Reference(contentId))];
    assert Get(d[1..][1..], "Contents") == Some(Reference(contentId));
    assert Get(d[1..], "Contents") == Some(Reference(contentId));
    d
  }

  /** `d` and `d'` agree on the keys `split` sets itself. */
  predicate SameFixed(d: Dict, d': Dict) {
    Get(d', "Type") == Get(d, "Type") && Get(d', "Parent") == Get(d, "Parent") &&
    Get(d', "Contents") == Get(d, "Contents") && Get(d', "Resources") == Get(d, "Resources")
  }

  /** The page's own keys that the old page also has are already set. */
  predicate OwnKeysSet(dict: Dict, oldPage: Dict) {
    Has(dict, "Type") && Has(dict, "Parent") && Has(dict, "Contents") && (Has(oldPage, "Resources") ==> Has(dict, "Resources"))
  }

  /** An entry whose key is set already is skipped. */
  lemma SkipEntry(dict: Dict, oldPage: Dict, i: nat, source: map<ObjectId, Object>, origin: map<ObjectId, ObjectId>)
    requires i < |oldPage| && Has(dict, oldPage[i].0) && CopiedEntries(dict, oldPage[..i], source, origin)
    requires OwnKeysSet(dict, oldPage)
    ensures CopiedEntries(dict, oldPage[..i + 1], source, origin)
  {
    GetPrefix(oldPage, i);
  }

  /** An old key that is not set yet is not one of the page's own. */
  lemma NotFixed(dict: Dict, oldPage: Dict, i: nat)
    requires i < |oldPage| && !Has(dict, oldPage[i].0) && OwnKeysSet(dict, oldPage)
    ensures !Fixed(oldPage[i].0)
  {
    assert Has(oldPage, oldPage[i].0);
  }

  /** Setting an old entry whose key is not set yet leaves the page's own entries as they were. */
  lemma SetEntryFixed(dict: Dict, oldPage: Dict, i: nat, copy: Object)
    requires i < |oldPage| && !Has(dict, oldPage[i].0) && OwnKeysSet(dict, oldPage)
    ensures OwnKeysSet(Set(dict, oldPage[i].0, copy), oldPage) && SameFixed(dict, Set(dict, oldPage[i].0, copy))
  {
    NotFixed(dict, oldPage, i);
    var key := oldPage[i].0;
    SetOther(dict, key, copy, "Type");
    SetOther(dict, key, copy, "Parent");
    SetOther(dict, key, copy, "Contents");
    SetOther(dict, key, copy, "Resources");
  }

  lemma SetOther(d: Dict, k: string, v: Object, k': string)
    requires k' != k
    ensures Get(Set(d, k, v), k') == Get(d, k')
  {
  }

  /** An entry whose key is not set yet is set to a copy of its value. */
  lemma SetEntry(dict: Dict, oldPage: Dict, i: nat, copy: Object, source: map<ObjectId, Object>,
                 origin: map<ObjectId, ObjectId>, origin': map<ObjectId, ObjectId>)
    requires i < |oldPage| && !Has(dict, oldPage[i].0) && CopiedEntries(dict, oldPage[..i], source, origin)
    requires Extends(origin, origin') && Shallow(oldPage[i].1, copy, source, origin')
    ensures CopiedEntries(Set(dict, oldPage[i].0, copy), oldPage[..i + 1], source, origin')
  {
    var key, d' := oldPage[i].0, Set(dict, oldPage[i].0, copy);
    var before, after := oldPage[..i], oldPage[..i + 1];
    GetPrefix(oldPage, i);
    forall k | !Fixed(k)
      ensures (Has(d', k) <==> Has(after, k)) && (Has(after, k) ==> Shallow(Get(after, k).value, Get(d', k).value, source, origin'))
    {
      if k == key {
        assert Get(after, k) == Some(oldPage[i].1);
      } else if Has(before, k) {
        assert Get(after, k) == Get(before, k) && Get(d', k) == Get(dict, k);
        ShallowGrows(Get(before, k).value, Get(dict, k).value, source, origin, origin');
      } else {
        assert Get(after, k) == None && Get(d', k) == Get(dict, k);
      }
    }
  }

  lemma ExtendsTrans<K, V>(a: map<K, V>, b: map<K, V>, c: map<K, V>)
    requires Extends(a, b) && Extends(b, c)
    ensures Extends(a, c)
  {
  }

  /** One turn of the entry loop of `split`: the `i`-th old entry, copied and set unless its key is set already. */
  method CopyEntry(doc: Document, source: map<ObjectId, Object>, cache: ObjectCache, oldPage: Dict, i: nat, dict: Dict,
                   ghost rank: map<ObjectId, nat>, ghost bound: nat, ghost objects0: map<ObjectId, Object>,
                   ghost origin0: map<ObjectId, ObjectId>, ghost entries0: map<ObjectId, ObjectId>, ghost maxId0: nat)
    returns (dict': Dict)
    requires i < |oldPage| && Ready(doc, cache, source) && Ranked(source, rank) && Below(Dictionary(oldPage), source, rank, bound)
    requires Grew(doc, cache, objects0, origin0, entries0, maxId0)
    requires OwnKeysSet(dict, oldPage) && CopiedEntries(dict, oldPage[..i], source, doc.origin)
    modifies doc, cache
    ensures Ready(doc, cache, source) && doc.trailer == old(doc.trailer)
    ensures Grew(doc, cache, objects0, origin0, entries0, maxId0)
    ensures OwnKeysSet(dict', oldPage) && CopiedEntries(dict', oldPage[..i + 1], source, doc.origin)
    ensures SameFixed(dict, dict')
  {
    var (key, value) := oldPage[i];
    if Has(dict, key) {
      SkipEntry(dict, oldPage, i, source, doc.origin);
      return dict;
    }
    assert Below(oldPage[i].1, source, rank, bound);
    ghost var objects1, origin1, entries1 := doc.objects, doc.origin, cache.entries;
    var copy := CloneObj(doc, source, cache, value, rank, bound);
    SetEntryFixed(dict, oldPage, i, copy);
    SetEntry(dict, oldPage, i, copy, source, origin1, doc.origin);
    ExtendsTrans(objects0, objects1, doc.objects);
    ExtendsTrans(origin0, origin1, doc.origin);
    ExtendsTrans(entries0, entries1, cache.entries);
    dict' := Set(dict, key, copy);
  }


  /**
   * The entry loop of `split`: every old entry whose key is not set yet is
   * copied and set; the others are skipped.
   */
  method CopyEntries(doc: Document, source: map<ObjectId, Object>, cache: ObjectCache, oldPage: Dict, head: Dict,
                     ghost rank: map<ObjectId, nat>, ghost bound: nat) returns (dict: Dict)
    requires Ready(doc, cache, source) && Ranked(source, rank) && Below(Dictionary(oldPage), source, rank, bound)
    requires OwnKeysSet(head, oldPage) && CopiedEntries(head, [], source, doc.origin)
    modifies doc, cache
    ensures Ready(doc, cache, source) && doc.trailer == old(doc.trailer)
    ensures Grew(doc, cache, old(doc.objects), old(doc.origin), old(cache.entries), old(doc.maxId))
    ensures SameFixed(head, dict) && CopiedEntries(dict, oldPage, source, doc.origin)
  {
    dict := head;
    ghost var objects0, origin0, entries0, maxId0 := doc.objects, doc.origin, cache.entries, doc.maxId;
    assert oldPage[..0] == [];
    for i := 0 to |oldPage|
      invariant Ready(doc, cache, source) && doc.trailer == old(doc.trailer)
      invariant Grew(doc, cache, objects0, origin0, entries0, maxId0)
      invariant SameFixed(head, dict)
      invariant OwnKeysSet(dict, oldPage) && CopiedEntries(dict, oldPage[..i], source, doc.origin)
    {
      dict := CopyEntry(doc, source, cache, oldPage, i, dict, rank, bound, objects0, origin0, entries0, maxId0);
    }
    assert oldPage[..|oldPage|] == oldPage;
  }

  /** The page's own entries, set before the loop, and the copied ones make a whole page. */
  lemma PageFromHead(objects: map<ObjectId, Object>, origin: map<ObjectId, ObjectId>, objects': map<ObjectId, Object>,
                     origin': map<ObjectId, ObjectId>, source: map<ObjectId, Object>, head: Dict, dict: Dict,
                     pagesId: ObjectId, oldPage: Dict, content: seq<bv8>)
    requires Get(head, "Type") == Some(Name("Page")) && Get(head, "Parent") == Some(Reference(pagesId))
    requires ContentsOk(objects, head, content) && ResourcesOk(objects, origin, source, head, oldPage)
    requires SameFixed(head, dict) && CopiedEntries(dict, oldPage, source, origin')
    requires Extends(objects, objects') && Extends(origin, origin')
    ensures PageEntries(objects', origin', source, dict, pagesId, oldPage, content)
  {
    FixedEntriesGrow(objects, origin, objects', origin', source, head, dict, oldPage, content);
  }

  /** Contents and Resources stay right when other entries are set and objects are added. */
  lemma FixedEntriesGrow(objects: map<ObjectId, Object>, origin: map<ObjectId, ObjectId>, objects': map<ObjectId, Object>,
                         origin': map<ObjectId, ObjectId>, source: map<ObjectId, Object>, d: Dict, d': Dict,
                         oldPage: Dict, content: seq<bv8>)
    requires ContentsOk(objects, d, content) && ResourcesOk(objects, origin, source, d, oldPage)
    requires Get(d', "Contents") == Get(d, "Contents") && Get(d', "Resources") == Get(d, "Resources")
    requires Extends(objects, objects') && Extends(origin, origin')
    ensures ContentsOk(objects', d', content) && ResourcesOk(objects', origin', source, d', oldPage)
  {
    if Has(oldPage, "Resources") {
      var rid := Get(d, "Resources").value.id;
      ShallowGrows(Get(oldPage, "Resources").value, objects[rid], source, origin, origin');
    }
  }

  /** `add_object` of an object that is not a copy of a source object. */
  method AddNew(doc: Document, cache: ObjectCache, source: map<ObjectId, Object>, o: Object) returns (id: ObjectId)
    requires Ready(doc, cache, source)
    modifies doc
    ensures Ready(doc, cache, source) && doc.trailer == old(doc.trailer)
    ensures Grew(doc, cache, old(doc.objects), old(doc.origin), old(cache.entries), old(doc.maxId))
    ensures id !in old(doc.objects) && id.num == doc.maxId && doc.objects == old(doc.objects)[id := o]
    ensures doc.origin == old(doc.origin)
  {
    id := doc.AddObject(o);
    CopiesAdd(old(doc.objects), doc.origin, source, id, o);
  }

  /**
   * The Resources part of `split`: when the old page has Resources, they
   * are copied, added as an object, and referred to from the page.
   */
  method AddResources(doc: Document, source: map<ObjectId, Object>, cache: ObjectCache, oldPage: Dict, head: Dict,
                      ghost rank: map<ObjectId, nat>, ghost bound: nat) returns (head': Dict)
    requires Ready(doc, cache, source) && Ranked(source, rank) && Below(Dictionary(oldPage), source, rank, bound)
    requires Has(head, "Type") && Has(head, "Parent") && Has(head, "Contents") && !Has(head, "Resources")
    requires CopiedEntries(head, [], source, doc.origin)
    modifies doc, cache
    ensures Ready(doc, cache, source) && doc.trailer == old(doc.trailer)
    ensures Grew(doc, cache, old(doc.objects), old(doc.origin), old(cache.entries), old(doc.maxId))
    ensures Get(head', "Type") == Get(head, "Type") && Get(head', "Parent") == Get(head, "Parent")
    ensures Get(head', "Contents") == Get(head, "Contents")
    ensures ResourcesOk(doc.objects, doc.origin, source, head', oldPage)
    ensures OwnKeysSet(head', oldPage) && CopiedEntries(head', [], source, doc.origin)
  {
    head' := head;
    if Has(oldPage, "Resources") {
      var res := Get(oldPage, "Resources").value;
      GetBelow(oldPage, "Resources", source, rank, bound);
      var cloned := CloneObj(doc, source, cache, res, rank, bound);
      ghost var objects1, origin1, entries1, maxId1 := doc.objects, doc.origin, cache.entries, doc.maxId;
      var resourcesId := AddNew(doc, cache, source, cloned);
      GrowthTrans(old(doc.objects), old(doc.origin), old(cache.entries), old(doc.maxId), objects1, origin1, entries1, maxId1,
                  doc.objects, doc.origin, cache.entries, doc.maxId);
      head' := Set(head, "Resources", Reference(resourcesId));
      assert forall k :: !Fixed(k) ==> Get(head', k) == Get(head, k);
    }
  }

  /**
   * The body of the page loop of `split`: a content stream, the page
   * dictionary with its own entries first, the old Resources copied and
   * added as an object, then the other old entries copied; the page is
   * added last.
   */
  method BuildPage(doc: Document, source: map<ObjectId, Object>, cache: ObjectCache, pagesId: ObjectId, oldPage: Dict,
                   content: seq<bv8>, ghost rank: map<ObjectId, nat>, ghost bound: nat) returns (pageId: ObjectId)
    requires Ready(doc, cache, source) && Ranked(source, rank) && Below(Dictionary(oldPage), source, rank, bound)
    requires pagesId !in doc.objects && pagesId.num <= doc.maxId
    modifies doc, cache
    ensures Ready(doc, cache, source) && doc.trailer == old(doc.trailer)
    ensures Grew(doc, cache, old(doc.objects), old(doc.origin), old(cache.entries), old(doc.maxId))
    ensures pagesId !in doc.objects && pageId !in old(doc.objects)
    ensures PageOk(doc.objects, doc.origin, source, pageId, pagesId, oldPage, content)
  {
    var contentId := AddNew(doc, cache, source, NewStream([], content));
    ghost var objects1, origin1, entries1, maxId1 := doc.objects, doc.origin, cache.entries, doc.maxId;
    var head := PageHead(pagesId, contentId);
    head := AddResources(doc, source, cache, oldPage, head, rank, bound);
    ghost var objects2, origin2, entries2, maxId2 := doc.objects, doc.origin, cache.entries, doc.maxId;
    assert ContentsOk(objects2, head, content);
    var dict := CopyEntries(doc, source, cache, oldPage, head, rank, bound);
    ghost var objects3, origin3, entries3, maxId3 := doc.objects, doc.origin, cache.entries, doc.maxId;
    PageFromHead(objects2, origin2, objects3, origin3, source, head, dict, pagesId, oldPage, content);
    pageId := AddNew(doc, cache, source, Dictionary(dict));
    PageEntriesGrow(objects3, origin3, doc.objects, doc.origin, source, dict, pagesId, oldPage, content);
    GrowthTrans(old(doc.objects), old(doc.origin), old(cache.entries), old(doc.maxId), objects1, origin1, entries1, maxId1,
                objects2, origin2, entries2, maxId2);
    GrowthTrans(old(doc.objects), old(doc.origin), old(cache.entries), old(doc.maxId), objects2, origin2, entries2, maxId2,
                objects3, origin3, entries3, maxId3);
    GrowthTrans(old(doc.objects), old(doc.origin), old(cache.entries), old(doc.maxId), objects3, origin3, entries3, maxId3,
                doc.objects, doc.origin, cache.entries, doc.maxId);
  }

  /** The Pages node: its kids and their count. */
  function PagesDict(kids: seq<Object>): (d: Dict)
    ensures Get(d, "Type") == Some(Name("Pages"))
    ensures Get(d, "Count") == Some(Integer(|kids|)) && Get(d, "Kids") == Some(Array(kids))
  {
    var d := [("Type", Name("Pages")), ("Count", Integer(|kids|)), ("Kids", Array(kids))];
    assert d[1..] == [("Count", Integer(|kids|)), ("Kids", Array(kids))];
    assert d[1..][1..] == [("Kids", Array(kids))];
    assert Get(d[1..][1..], "Kids") == Some(Array(kids));
    assert Get(d[1..], "Kids") == Some(Array(kids));
    d
  }

  // ----- the Info dictionary of split -----

  /** The `PRODUCER` string of pdf_splitter/src/main.rs. */
  const Producer: string := "pdf_splitter by Connor Slade [https://github.com/Basicprogrammer10/misc/tree/main/pdf_splitter]"

  /** The new Info: Type "Info", the producer, and every other old entry unchanged. */
  ghost predicate Merged(info: Dict, oldInfo: Option<Dict>) {
    && Get(info, "Type") == Some(Name("Info"))
    && Get(info, "Producer") == Some(Text(Producer, Literal))
    && forall k :: k != "Type" && k != "Producer" ==> Get(info, k) == if oldInfo.Some? then Get(oldInfo.value, k) else None
  }

  /**
   * The Info part of `split`: start from Type, add every old entry whose
   * key is not there yet, then set Producer, replacing an old one.
   */
  method MergeInfo(oldInfo: Option<Dict>) returns (info: Dict)
    ensures Merged(info, oldInfo)
  {
    info := [("Type", Name("Info"))];
    if oldInfo.Some? {
      var prior := oldInfo.value;
      for i := 0 to |prior|
        invariant Get(info, "Type") == Some(Name("Info"))
        invariant forall k :: k != "Type" ==> Get(info, k) == Get(prior[..i], k)
      {
        var (key, value) := prior[i];
        assert prior[..i + 1] == prior[..i] + [prior[i]];
        forall k
          ensures Get(prior[..i + 1], k) == if Has(prior[..i], k) then Get(prior[..i], k) else if key == k then Some(value) else None
        {
          GetSnoc(prior[..i], prior[i], k);
        }
        if Has(info, key) {
          continue;
        }
        info := Set(info, key, value);
      }
      assert prior[..|prior|] == prior;
    }
    info := Set(info, "Producer", Text(Producer, Literal));
  }

  // ----- split -----

  /** The dictionary of the `i`-th page of the source, or `None` where `split` panics on it. */
  function PageDict(source: map<ObjectId, Object>, pageIds: seq<ObjectId>, i: nat): (r: Option<Dict>)
    ensures r.Some? <==> i < |pageIds| && pageIds[i] in source && source[pageIds[i]].Dictionary?
    ensures r.Some? ==> source[pageIds[i]] == Dictionary(r.value)
  {
    if i < |pageIds| && pageIds[i] in source && source[pageIds[i]].Dictionary? then Some(source[pageIds[i]].dict) else None
  }

  /** Every page of the job is a page dictionary of the source. */
  ghost predicate AllPages(source: map<ObjectId, Object>, pageIds: seq<ObjectId>, jobPages: seq<nat>) {
    forall t :: 0 <= t < |jobPages| ==> PageDict(source, pageIds, jobPages[t]).Some?
  }

  /**
   * The Metadata object of the source catalog, reached through the
   * trailer's Root; `None` where one of the unwraps on the way panics.
   */
  function MetadataOf(source: map<ObjectId, Object>, trailer: Dict): (r: Option<Object>)
    ensures r.Some? ==> exists m :: m in source && source[m] == r.value
  {
    match Get(trailer, "Root")
    case Some(Reference(root)) =>
      if root in source && source[root].Dictionary? then
        match Get(source[root].dict, "Metadata")
        case Some(Reference(m)) => if m in source then Some(source[m]) else None
        case _ => None
      else None
    case _ => None
  }

  /**
   * The source Info dictionary: `Some(None)` when the trailer has no Info,
   * `None` where an unwrap on it panics.
   */
  function InfoOf(source: map<ObjectId, Object>, trailer: Dict): (r: Option<Option<Dict>>)
    ensures !Has(trailer, "Info") ==> r == Some(None)
    ensures r.Some? && r.value.Some? ==> exists i :: i in source && source[i] == Dictionary(r.value.value)
  {
    match Get(trailer, "Info")
    case None => Some(None)
    case Some(Reference(i)) => if i in source && source[i].Dictionary? then Some(Some(source[i].dict)) else None
    case Some(_) => None
  }

  /**
   * The kids of the Pages node: one new page per job page, in order, each
   * made from its source page, no two the same object.
   */
  ghost predicate KidsOk(objects: map<ObjectId, Object>, origin: map<ObjectId, ObjectId>, source: map<ObjectId, Object>,
                         pagesId: ObjectId, kids: seq<Object>, pageIds: seq<ObjectId>, contents: seq<seq<bv8>>, jobPages: seq<nat>)
    requires |contents| == |pageIds|
  {
    && |kids| == |jobPages| && AllPages(source, pageIds, jobPages)
    && (forall t :: 0 <= t < |kids| ==>
          && kids[t].Reference?
          && PageOk(objects, origin, source, kids[t].id, pagesId, PageDict(source, pageIds, jobPages[t]).value, contents[jobPages[t]]))
    && (forall t, u :: 0 <= t < u < |kids| ==> kids[t] != kids[u])
  }

  /** Finished pages stay finished while objects are added and copies recorded. */
  lemma KidsGrow(objects: map<ObjectId, Object>, origin: map<ObjectId, ObjectId>, objects': map<ObjectId, Object>,
                 origin': map<ObjectId, ObjectId>, source: map<ObjectId, Object>, pagesId: ObjectId, kids: seq<Object>,
                 pageIds: seq<ObjectId>, contents: seq<seq<bv8>>, jobPages: seq<nat>)
    requires |contents| == |pageIds| && KidsOk(objects, origin, source, pagesId, kids, pageIds, contents, jobPages)
    requires Extends(objects, objects') && Extends(origin, origin')
    ensures KidsOk(objects', origin', source, pagesId, kids, pageIds, contents, jobPages)
  {
    forall t | 0 <= t < |kids|
      ensures PageOk(objects', origin', source, kids[t].id, pagesId, PageDict(source, pageIds, jobPages[t]).value, contents[jobPages[t]])
    {
      PageOkGrows(objects, origin, objects', origin', source, kids[t].id, pagesId,
                  PageDict(source, pageIds, jobPages[t]).value, contents[jobPages[t]]);
    }
  }

  /** One more page after the first `|kids|` ones. */
  lemma KidsSnoc(objects: map<ObjectId, Object>, origin: map<ObjectId, ObjectId>, source: map<ObjectId, Object>,
                 pagesId: ObjectId, kids: seq<Object>, pageId: ObjectId, pageIds: seq<ObjectId>, contents: seq<seq<bv8>>,
                 jobPages: seq<nat>, objects0: map<ObjectId, Object>)
    requires |contents| == |pageIds| && |kids| < |jobPages|
    requires KidsOk(objects, origin, source, pagesId, kids, pageIds, contents, jobPages[..|kids|])
    requires PageDict(source, pageIds, jobPages[|kids|]).Some?
    requires PageOk(objects, origin, source, pageId, pagesId, PageDict(source, pageIds, jobPages[|kids|]).value, contents[jobPages[|kids|]])
    requires pageId !in objects0 && forall t :: 0 <= t < |kids| ==> kids[t].id in objects0
    ensures KidsOk(objects, origin, source, pagesId, kids + [Reference(pageId)], pageIds, contents, jobPages[..|kids| + 1])
  {
    var n := |kids|;
    var kids', pages, pages' := kids + [Reference(pageId)], jobPages[..n], jobPages[..n + 1];
    assert forall t :: 0 <= t < n ==> pages'[t] == pages[t];
    assert pages'[n] == jobPages[n];
    assert AllPages(source, pageIds, pages') by {
      forall t | 0 <= t < n + 1
        ensures PageDict(source, pageIds, pages'[t]).Some?
      {
        if t < n {
          assert PageDict(source, pageIds, pages[t]).Some?;
        }
      }
    }
    forall t | 0 <= t < n + 1
      ensures kids'[t].Reference?
      ensures PageOk(objects, origin, source, kids'[t].id, pagesId, PageDict(source, pageIds, pages'[t]).value, contents[pages'[t]])
    {
      if t < n {
        assert kids'[t] == kids[t];
      }
    }
    forall t, u | 0 <= t < u < n + 1
      ensures kids'[t] != kids'[u]
    {
      if u == n {
        assert kids'[t].id in objects0;
      } else {
        assert kids'[t] == kids[t] && kids'[u] == kids[u];
      }
    }
  }

  /** The pages so far, after the objects of one more page were added, and that page. */
  lemma KidsStep(objects: map<ObjectId, Object>, origin: map<ObjectId, ObjectId>, objects': map<ObjectId, Object>,
                 origin': map<ObjectId, ObjectId>, source: map<ObjectId, Object>, pagesId: ObjectId, kids: seq<Object>,
                 pageId: ObjectId, pageIds: seq<ObjectId>, contents: seq<seq<bv8>>, jobPages: seq<nat>)
    requires |contents| == |pageIds| && |kids| < |jobPages|
    requires KidsOk(objects, origin, source, pagesId, kids, pageIds, contents, jobPages[..|kids|])
    requires Extends(objects, objects') && Extends(origin, origin') && pageId !in objects
    requires PageDict(source, pageIds, jobPages[|kids|]).Some?
    requires PageOk(objects', origin', source, pageId, pagesId, PageDict(source, pageIds, jobPages[|kids|]).value, contents[jobPages[|kids|]])
    ensures KidsOk(objects', origin', source, pagesId, kids + [Reference(pageId)], pageIds, contents, jobPages[..|kids| + 1])
  {
    KidsGrow(objects, origin, objects', origin', source, pagesId, kids, pageIds, contents, jobPages[..|kids|]);
    KidsSnoc(objects', origin', source, pagesId, kids, pageId, pageIds, contents, jobPages, objects);
  }

  /**
   * The page loop of `split`: every job page in order, each made into a
   * new page under `pagesId`; `None` where a page lookup panics.
   */
  method SplitPages(doc: Document, cache: ObjectCache, source: map<ObjectId, Object>, pageIds: seq<ObjectId>,
                    contents: seq<seq<bv8>>, jobPages: seq<nat>, pagesId: ObjectId, ghost rank: map<ObjectId, nat>)
    returns (kids: Option<seq<Object>>)
    requires Ready(doc, cache, source) && Ranked(source, rank) && |contents| == |pageIds|
    requires pagesId !in doc.objects && pagesId.num <= doc.maxId
    modifies doc, cache
    ensures Ready(doc, cache, source) && doc.trailer == old(doc.trailer)
    ensures Grew(doc, cache, old(doc.objects), old(doc.origin), old(cache.entries), old(doc.maxId))
    ensures pagesId !in doc.objects
    ensures kids.None? <==> !AllPages(source, pageIds, jobPages)
    ensures kids.Some? ==> KidsOk(doc.objects, doc.origin, source, pagesId, kids.value, pageIds, contents, jobPages)
  {
    var out: seq<Object> := [];
    ghost var objects0, origin0, entries0, maxId0 := doc.objects, doc.origin, cache.entries, doc.maxId;
    for j := 0 to |jobPages|
      invariant Ready(doc, cache, source) && doc.trailer == old(doc.trailer)
      invariant Grew(doc, cache, objects0, origin0, entries0, maxId0)
      invariant pagesId !in doc.objects && pagesId.num <= doc.maxId
      invariant |out| == j && KidsOk(doc.objects, doc.origin, source, pagesId, out, pageIds, contents, jobPages[..j])
    {
      var page := PageDict(source, pageIds, jobPages[j]);
      if page.None? {
        return None;
      }
      var pid := pageIds[jobPages[j]];
      assert Below(Dictionary(page.value), source, rank, rank[pid]);
      ghost var objects1, origin1, entries1, maxId1 := doc.objects, doc.origin, cache.entries, doc.maxId;
      var pageId := BuildPage(doc, source, cache, pagesId, page.value, contents[jobPages[j]], rank, rank[pid]);
      GrowthTrans(objects0, origin0, entries0, maxId0, objects1, origin1, entries1, maxId1,
                  doc.objects, doc.origin, cache.entries, doc.maxId);
      KidsStep(objects1, origin1, doc.objects, doc.origin, source, pagesId, out, pageId, pageIds, contents, jobPages);
      out := out + [Reference(pageId)];
    }
    assert jobPages[..|jobPages|] == jobPages;
    kids := Some(out);
  }

  /** The catalog of the new document. */
  function CatalogDict(pagesId: ObjectId, metadataId: ObjectId): (d: Dict)
    ensures Get(d, "Type") == Some(Name("Catalog"))
    ensures Get(d, "Pages") == Some(Reference(pagesId)) && Get(d, "Metadata") == Some(Reference(metadataId))
  {
    var d := [("Type", Name("Catalog")), ("Pages", Reference(pagesId)), ("Metadata", Reference(metadataId))];
    assert d[1..] == [("Pages", Reference(pagesId)), ("Metadata", Reference(metadataId))];
    assert d[1..][1..] == [("Metadata", Reference(metadataId))];
    assert Get(d[1..][1..], "Metadata") == Some(Reference(metadataId));
    assert Get(d[1..], "Metadata") == Some(Reference(metadataId));
    d
  }

  /** `objects[p]` is the Pages node over the job's pages. */
  ghost predicate PagesOk(objects: map<ObjectId, Object>, origin: map<ObjectId, ObjectId>, source: map<ObjectId, Object>,
                          p: ObjectId, pageIds: seq<ObjectId>, contents: seq<seq<bv8>>, jobPages: seq<nat>)
    requires |contents| == |pageIds|
  {
    && p in objects && objects[p].Dictionary?
    && Get(objects[p].dict, "Type") == Some(Name("Pages"))
    && Get(objects[p].dict, "Count") == Some(Integer(|jobPages|))
    && (match Get(objects[p].dict, "Kids")
        case Some(Array(kids)) => KidsOk(objects, origin, source, p, kids, pageIds, contents, jobPages)
        case _ => false)
  }

  /**
   * The document `split` saves: the trailer's Root is a catalog whose
   * Pages node holds the job's pages and whose Metadata is the source's,
   * and the trailer's Info is the merged Info.
   */
  ghost predicate SplitOk(objects: map<ObjectId, Object>, origin: map<ObjectId, ObjectId>, newTrailer: Dict,
                          source: map<ObjectId, Object>, trailer: Dict, pageIds: seq<ObjectId>, contents: seq<seq<bv8>>,
                          jobPages: seq<nat>)
    requires |contents| == |pageIds|
  {
    && (match Get(newTrailer, "Root")
        case Some(Reference(c)) =>
          && c in objects && objects[c].Dictionary?
          && Get(objects[c].dict, "Type") == Some(Name("Catalog"))
          && (match Get(objects[c].dict, "Metadata")
              case Some(Reference(m)) => m in objects && MetadataOf(source, trailer) == Some(objects[m])
              case _ => false)
          && (match Get(objects[c].dict, "Pages")
              case Some(Reference(p)) => PagesOk(objects, origin, source, p, pageIds, contents, jobPages)
              case _ => false)
        case _ => false)
    && (match Get(newTrailer, "Info")
        case Some(Reference(i)) =>
          i in objects && objects[i].Dictionary? && InfoOf(source, trailer).Some? && Merged(objects[i].dict, InfoOf(source, trailer).value)
        case _ => false)
  }

  /** What `split` needs of the source so that no unwrap panics. */
  ghost predicate Splittable(source: map<ObjectId, Object>, trailer: Dict, pageIds: seq<ObjectId>, jobPages: seq<nat>) {
    AllPages(source, pageIds, jobPages) && MetadataOf(source, trailer).Some? && InfoOf(source, trailer).Some?
  }

  /**
   * `split` up to the save: a new document with one page per job page, the
   * Pages node, the source's Metadata under a new catalog, and the merged
   * Info; `None` where the source makes it panic. `contents[i]` is the
   * content of the `i`-th source page.
   */
  method Split(source: map<ObjectId, Object>, trailer: Dict, pageIds: seq<ObjectId>, contents: seq<seq<bv8>>,
               jobPages: seq<nat>, ghost rank: map<ObjectId, nat>) returns (r: Option<Document>)
    requires Ranked(source, rank) && |contents| == |pageIds|
    ensures r.None? <==> !Splittable(source, trailer, pageIds, jobPages)
    ensures r.Some? ==> fresh(r.value) && r.value.Valid() && Copies(r.value.objects, r.value.origin, source)
    ensures r.Some? ==> SplitOk(r.value.objects, r.value.origin, r.value.trailer, source, trailer, pageIds, contents, jobPages)
  {
    var doc := new Document();
    var cache := new ObjectCache();
    var pagesId := doc.NewObjectId();
    var kids := SplitPages(doc, cache, source, pageIds, contents, jobPages, pagesId, rank);
    if kids.None? {
      return None;
    }
    AddPagesNode(doc, cache, source, pagesId, kids.value, pageIds, contents, jobPages);
    var metadata := MetadataOf(source, trailer);
    if metadata.None? {
      return None;
    }
    var info := InfoOf(source, trailer);
    if info.None? {
      return None;
    }
    ghost var objects2 := doc.objects;
    var metadataId, catalogId, infoId, merged := Finish(doc, cache, source, pagesId, metadata.value, info.value);
    PagesGrow(objects2, doc.origin, doc.objects, doc.origin, source, pagesId, pageIds, contents, jobPages);
    FinishOk(doc.objects, doc.origin, doc.trailer, source, trailer, pageIds, contents, jobPages,
             pagesId, metadataId, catalogId, infoId, merged);
    r := Some(doc);
  }

  /** The tail of `split`: Metadata, catalog, Info, and the trailer's Root and Info. */
  method Finish(doc: Document, cache: ObjectCache, source: map<ObjectId, Object>, pagesId: ObjectId, metadata: Object,
                oldInfo: Option<Dict>) returns (metadataId: ObjectId, catalogId: ObjectId, infoId: ObjectId, info: Dict)
    requires Ready(doc, cache, source) && doc.trailer == []
    modifies doc, cache
    ensures doc.Valid() && Copies(doc.objects, doc.origin, source)
    ensures Extends(old(doc.objects), doc.objects) && doc.origin == old(doc.origin)
    ensures metadataId in doc.objects && doc.objects[metadataId] == metadata
    ensures catalogId in doc.objects && doc.objects[catalogId] == Dictionary(CatalogDict(pagesId, metadataId))
    ensures infoId in doc.objects && doc.objects[infoId] == Dictionary(info) && Merged(info, oldInfo)
    ensures Get(doc.trailer, "Root") == Some(Reference(catalogId)) && Get(doc.trailer, "Info") == Some(Reference(infoId))
  {
    metadataId := AddNew(doc, cache, source, metadata);
    ghost var objects1 := doc.objects;
    catalogId := AddNew(doc, cache, source, Dictionary(CatalogDict(pagesId, metadataId)));
    ghost var objects2 := doc.objects;
    info := MergeInfo(oldInfo);
    infoId := AddNew(doc, cache, source, Dictionary(info));
    ExtendsTrans(old(doc.objects), objects1, objects2);
    ExtendsTrans(old(doc.objects), objects2, doc.objects);
    doc.SetRootAndInfo(catalogId, infoId);
  }

  /** The pieces `split` puts together make the document `SplitOk` describes. */
  lemma FinishOk(objects: map<ObjectId, Object>, origin: map<ObjectId, ObjectId>, newTrailer: Dict,
                 source: map<ObjectId, Object>, trailer: Dict, pageIds: seq<ObjectId>, contents: seq<seq<bv8>>,
                 jobPages: seq<nat>, pagesId: ObjectId, metadataId: ObjectId, catalogId: ObjectId, infoId: ObjectId, info: Dict)
    requires |contents| == |pageIds| && PagesOk(objects, origin, source, pagesId, pageIds, contents, jobPages)
    requires metadataId in objects && MetadataOf(source, trailer) == Some(objects[metadataId])
    requires catalogId in objects && objects[catalogId] == Dictionary(CatalogDict(pagesId, metadataId))
    requires infoId in objects && objects[infoId] == Dictionary(info)
    requires InfoOf(source, trailer).Some? && Merged(info, InfoOf(source, trailer).value)
    requires Get(newTrailer, "Root") == Some(Reference(catalogId)) && Get(newTrailer, "Info") == Some(Reference(infoId))
    ensures SplitOk(objects, origin, newTrailer, source, trailer, pageIds, contents, jobPages)
  {
  }

  /** The insertion of the Pages node in `split`, under the number taken first. */
  method AddPagesNode(doc: Document, cache: ObjectCache, source: map<ObjectId, Object>, pagesId: ObjectId, kids: seq<Object>,
                      pageIds: seq<ObjectId>, contents: seq<seq<bv8>>, jobPages: seq<nat>)
    requires Ready(doc, cache, source) && |contents| == |pageIds|
    requires pagesId !in doc.objects && pagesId.num <= doc.maxId
    requires KidsOk(doc.objects, doc.origin, source, pagesId, kids, pageIds, contents, jobPages)
    modifies doc
    ensures Ready(doc, cache, source) && doc.trailer == old(doc.trailer)
    ensures PagesOk(doc.objects, doc.origin, source, pagesId, pageIds, contents, jobPages)
  {
    doc.InsertObject(pagesId, Dictionary(PagesDict(kids)));
    CopiesAdd(old(doc.objects), doc.origin, source, pagesId, Dictionary(PagesDict(kids)));
    PagesNode(old(doc.objects), doc.origin, source, pagesId, kids, pageIds, contents, jobPages);
  }

  /** Inserting the Pages node over finished kids gives a finished Pages node. */
  lemma PagesNode(objects: map<ObjectId, Object>, origin: map<ObjectId, ObjectId>, source: map<ObjectId, Object>,
                  pagesId: ObjectId, kids: seq<Object>, pageIds: seq<ObjectId>, contents: seq<seq<bv8>>, jobPages: seq<nat>)
    requires |contents| == |pageIds| && KidsOk(objects, origin, source, pagesId, kids, pageIds, contents, jobPages)
    requires pagesId !in objects
    ensures PagesOk(objects[pagesId := Dictionary(PagesDict(kids))], origin, source, pagesId, pageIds, contents, jobPages)
  {
    KidsGrow(objects, origin, objects[pagesId := Dictionary(PagesDict(kids))], origin, source, pagesId, kids, pageIds, contents, jobPages);
  }

  /** A finished Pages node stays finished while objects are added. */
  lemma PagesGrow(objects: map<ObjectId, Object>, origin: map<ObjectId, ObjectId>, objects': map<ObjectId, Object>,
                  origin': map<ObjectId, ObjectId>, source: map<ObjectId, Object>, p: ObjectId, pageIds: seq<ObjectId>,
                  contents: seq<seq<bv8>>, jobPages: seq<nat>)
    requires |contents| == |pageIds| && PagesOk(objects, origin, source, p, pageIds, contents, jobPages)
    requires Extends(objects, objects') && Extends(origin, origin')
    ensures PagesOk(objects', origin', source, p, pageIds, contents, jobPages)
  {
    var kids := Get(objects[p].dict, "Kids").value.items;
    KidsGrow(objects, origin, objects', origin', source, p, kids, pageIds, contents, jobPages);
  }

  /** An object referenced twice is copied once: both references come back as the same new one. */
  method CloneTwice() returns (first: Object, second: Object, added: nat)
    ensures first == second == Reference(ObjectId(1, 0)) && added == 1
  {
    var id := ObjectId(7, 0);
    var source := map[id := Integer(42)];
    var rank := map[id := 0];
    var doc := new Document();
    var cache := new ObjectCache();
    first := CloneObj(doc, source, cache, Reference(id), rank, 1);
    second := CloneObj(doc, source, cache, Reference(id), rank, 1);
    added := doc.maxId;
  }
}

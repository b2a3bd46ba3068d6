/**
 * The part of the PDF object model (the `lopdf` crate) that the splitter
 * touches: objects, dictionaries kept in insertion order, and the output
 * document that objects are added to.
 */
module PdfObject {
  import opened Wrappers

  /** `ObjectId`: object number and generation. */
  datatype ObjectId = ObjectId(num: nat, gen: nat)

  datatype StringFormat = Literal | Hexadecimal

  /** `Object`; names, strings and dictionary keys are byte strings, written here as strings. */
  datatype Object =
    | Null
    | Boolean(b: bool)
    | Integer(i: int)
    | Real(r: real)
    | Name(name: string)
    | Text(text: string, format: StringFormat)
    | Array(items: seq<Object>)
    | Dictionary(dict: seq<(string, Object)>)
    | Stream(dict: seq<(string, Object)>, content: seq<bv8>, allowsCompression: bool)
    | Reference(id: ObjectId)

  /** `Dictionary`: entries in insertion order. */
  type Dict = seq<(string, Object)>

  /** The value stored under `k`. */
  function Get(d: Dict, k: string): (r: Option<Object>)
    ensures r.None? <==> forall i :: 0 <= i < |d| ==> d[i].0 != k
    ensures r.Some? ==> exists i :: 0 <= i < |d| && d[i] == (k, r.value)
  {
    if d == [] then None
    else if d[0].0 == k then Some(d[0].1)
    else Get(d[1..], k)
  }

  /** `Dictionary::has`. */
  predicate Has(d: Dict, k: string) {
    Get(d, k).Some?
  }

  /** `Dictionary::set`: a present key keeps its place and takes the new value; a new one is appended. */
  function Set(d: Dict, k: string, v: Object): (r: Dict)
    ensures Get(r, k) == Some(v)
    ensures forall k' :: k' != k ==> Get(r, k') == Get(d, k')
    ensures |r| == if Has(d, k) then |d| else |d| + 1
    ensures !Has(d, k) ==> r == d + [(k, v)]
    ensures forall i :: 0 <= i < |d| ==> r[i].0 == d[i].0
    ensures forall i :: 0 <= i < |d| && d[i].0 != k ==> r[i] == d[i]
  {
    if d == [] then [(k, v)]
    else if d[0].0 == k then
      var r := [(k, v)] + d[1..];
      assert r[1..] == d[1..];
      r
    else
      var rest := Set(d[1..], k, v);
      SetCons(d, rest, k, v);
      [d[0]] + rest
  }

  /** `Set` on the tail of `d`, behind its first entry, is `Set` on `d`. */
  lemma SetCons(d: Dict, rest: Dict, k: string, v: Object)
    requires d != [] && d[0].0 != k
    requires Get(rest, k) == Some(v)
    requires forall k' :: k' != k ==> Get(rest, k') == Get(d[1..], k')
    requires |rest| == if Has(d[1..], k) then |d| - 1 else |d|
    requires !Has(d[1..], k) ==> rest == d[1..] + [(k, v)]
    requires forall i :: 0 <= i < |d| - 1 ==> rest[i].0 == d[1..][i].0
    requires forall i :: 0 <= i < |d| - 1 && d[1..][i].0 != k ==> rest[i] == d[1..][i]
    ensures var r := [d[0]] + rest;
      && Get(r, k) == Some(v)
      && (forall k' :: k' != k ==> Get(r, k') == Get(d, k'))
      && |r| == (if Has(d, k) then |d| else |d| + 1)
      && (!Has(d, k) ==> r == d + [(k, v)])
      && (forall i :: 0 <= i < |d| ==> r[i].0 == d[i].0)
      && (forall i :: 0 <= i < |d| && d[i].0 != k ==> r[i] == d[i])
  {
    SetConsGet(d, rest, k, v);
    SetConsEntries(d, rest, k, v, Has(d, k));
  }

  lemma SetConsGet(d: Dict, rest: Dict, k: string, v: Object)
    requires d != [] && d[0].0 != k
    requires Get(rest, k) == Some(v)
    requires forall k' :: k' != k ==> Get(rest, k') == Get(d[1..], k')
    ensures var r := [d[0]] + rest;
      && Get(r, k) == Some(v)
      && (forall k' :: k' != k ==> Get(r, k') == Get(d, k'))
      && Has(d, k) == Has(d[1..], k)
  {
    var r := [d[0]] + rest;
    assert r[1..] == rest && r[0] == d[0];
  }

  lemma SetConsEntries(d: Dict, rest: Dict, k: string, v: Object, has: bool)
    requires d != []
    requires |rest| == if has then |d| - 1 else |d|
    requires !has ==> rest == d[1..] + [(k, v)]
    requires forall i :: 0 <= i < |d| - 1 ==> rest[i].0 == d[1..][i].0
    requires forall i :: 0 <= i < |d| - 1 && d[1..][i].0 != k ==> rest[i] == d[1..][i]
    ensures var r := [d[0]] + rest;
      && |r| == (if has then |d| else |d| + 1)
      && (!has ==> r == d + [(k, v)])
      && (forall i :: 0 <= i < |d| ==> r[i].0 == d[i].0)
      && (forall i :: 0 <= i < |d| && d[i].0 != k ==> r[i] == d[i])
  {
    var r := [d[0]] + rest;
    if !has {
      assert d == [d[0]] + d[1..];
    }
    forall i | 0 <= i < |d|
      ensures r[i].0 == d[i].0
      ensures d[i].0 != k ==> r[i] == d[i]
    {
      if i > 0 {
        assert r[i] == rest[i - 1] && d[i] == d[1..][i - 1];
      }
    }
  }

  /** What a lookup sees after one more entry is appended. */
  lemma {:induction false} GetSnoc(d: Dict, e: (string, Object), k: string)
    ensures Get(d + [e], k) == if Has(d, k) then Get(d, k) else if e.0 == k then Some(e.1) else None
  {
    if d != [] {
      assert (d + [e])[1..] == d[1..] + [e];
      GetSnoc(d[1..], e, k);
    }
  }

  /** `Stream::new`: the dictionary gains a `Length` entry with the content's size; compression is allowed. */
  function NewStream(d: Dict, content: seq<bv8>): (r: Object)
    ensures r.Stream? && r.content == content && r.allowsCompression
    ensures Get(r.dict, "Length") == Some(Integer(|content|))
  {
    Stream(Set(d, "Length", Integer(|content|)), content, true)
  }

  /**
   * `Document` as the splitter builds it: the object table, the highest
   * object number handed out, and the trailer. `origin` records, for each
   * object copied out of a source document, the number of the object it
   * copies.
   */
  class Document {
    var objects: map<ObjectId, Object>
    var maxId: nat
    var trailer: Dict
    ghost var origin: map<ObjectId, ObjectId>

    ghost predicate Valid()
      reads this
    {
      && (forall id :: id in objects ==> id.num <= maxId)
      && (forall n :: n in origin ==> n in objects)
    }

    /** `Document::new`. */
    constructor ()
      ensures Valid()
      ensures objects == map[] && maxId == 0 && trailer == [] && origin == map[]
    {
      objects := map[];
      maxId := 0;
      trailer := [];
      origin := map[];
    }

    /** `new_object_id`: the next object number, not yet used. */
    method NewObjectId() returns (id: ObjectId)
      requires Valid()
      modifies this`maxId
      ensures Valid()
      ensures maxId == old(maxId) + 1 && id == ObjectId(maxId, 0) && id !in objects
    {
      maxId := maxId + 1;
      id := ObjectId(maxId, 0);
    }

    /** `trailer.set` of Root, then of Info. */
    method SetRootAndInfo(root: ObjectId, info: ObjectId)
      requires Valid()
      modifies this`trailer
      ensures Valid() && Get(trailer, "Root") == Some(Reference(root)) && Get(trailer, "Info") == Some(Reference(info))
    {
      trailer := Set(trailer, "Root", Reference(root));
      trailer := Set(trailer, "Info", Reference(info));
    }

    /** `objects.insert`: stores `o` under a number already handed out. */
    method InsertObject(id: ObjectId, o: Object)
      requires Valid() && id.num <= maxId
      modifies this`objects
      ensures Valid() && objects == old(objects)[id := o]
    {
      objects := objects[id := o];
    }

    /** `add_object`: stores `o` under the next object number. */
    method AddObject(o: Object) returns (id: ObjectId)
      requires Valid()
      modifies this`maxId, this`objects
      ensures Valid()
      ensures maxId == old(maxId) + 1 && id == ObjectId(maxId, 0)
      ensures id !in old(objects) && objects == old(objects)[id := o]
    {
      maxId := maxId + 1;
      id := ObjectId(maxId, 0);
      objects := objects[id := o];
    }
  }

  // ----- the source document's reference graph -----

  /** Every reference inside `o` that resolves in `source` has a rank below `bound`. */
  ghost predicate Below(o: Object, source: map<ObjectId, Object>, rank: map<ObjectId, nat>, bound: nat)
    decreases o
  {
    match o
    case Array(items) => forall i :: 0 <= i < |items| ==> Below(items[i], source, rank, bound)
    case Dictionary(d) => forall i :: 0 <= i < |d| ==> Below(d[i].1, source, rank, bound)
    case Stream(d, _, _) => forall i :: 0 <= i < |d| ==> Below(d[i].1, source, rank, bound)
    case Reference(id) => id in source ==> id in rank && rank[id] < bound
    case _ => true
  }

  /** `rank` witnesses that the source's references form no cycle. */
  ghost predicate Ranked(source: map<ObjectId, Object>, rank: map<ObjectId, nat>) {
    forall id :: id in source ==> id in rank && Below(source[id], source, rank, rank[id])
  }

  /** A scalar: copied as it is. */
  predicate Scalar(o: Object) {
    o.Null? || o.Boolean? || o.Integer? || o.Real? || o.Name? || o.Text?
  }

  /**
   * `r` is a copy of `o` one level deep: same scalars, arrays element by
   * element, dictionary entries key by key, stream content and compression
   * flag kept (the `Length` entry being reset), and each reference that
   * resolves in `source` replaced by one to an object whose `origin` is the
   * referenced object; a reference that does not resolve becomes `Null`.
   */
  ghost predicate Shallow(o: Object, r: Object, source: map<ObjectId, Object>, origin: map<ObjectId, ObjectId>)
    decreases o
  {
    match o
    case Array(items) =>
      r.Array? && |r.items| == |items| &&
      forall i :: 0 <= i < |items| ==> Shallow(items[i], r.items[i], source, origin)
    case Dictionary(d) =>
      r.Dictionary? && |r.dict| == |d| &&
      forall i :: 0 <= i < |d| ==> r.dict[i].0 == d[i].0 && Shallow(d[i].1, r.dict[i].1, source, origin)
    case Stream(d, content, compress) =>
      r.Stream? && r.content == content && r.allowsCompression == compress &&
      Get(r.dict, "Length") == Some(Integer(|content|)) && |d| <= |r.dict| &&
      forall i :: 0 <= i < |d| ==> r.dict[i].0 == d[i].0 && (d[i].0 != "Length" ==> Shallow(d[i].1, r.dict[i].1, source, origin))
    case Reference(id) =>
      if id in source then r.Reference? && r.id in origin && origin[r.id] == id else r == Null
    case _ => r == o
  }

  /** `m'` keeps every entry of `m`. */
  ghost predicate Extends<K, V>(m: map<K, V>, m': map<K, V>) {
    forall k :: k in m ==> k in m' && m'[k] == m[k]
  }

  /** Recording more copies keeps a copy a copy. */
  lemma {:induction false} ShallowGrows(o: Object, r: Object, source: map<ObjectId, Object>, origin: map<ObjectId, ObjectId>, origin': map<ObjectId, ObjectId>)
    requires Shallow(o, r, source, origin) && Extends(origin, origin')
    ensures Shallow(o, r, source, origin')
    decreases o
  {
    match o
    case Array(items) =>
      forall i | 0 <= i < |items| ensures Shallow(items[i], r.items[i], source, origin') {
        ShallowGrows(items[i], r.items[i], source, origin, origin');
      }
    case Dictionary(d) =>
      forall i | 0 <= i < |d| ensures Shallow(d[i].1, r.dict[i].1, source, origin') {
        ShallowGrows(d[i].1, r.dict[i].1, source, origin, origin');
      }
    case Stream(d, _, _) =>
      forall i | 0 <= i < |d| && d[i].0 != "Length" ensures Shallow(d[i].1, r.dict[i].1, source, origin') {
        ShallowGrows(d[i].1, r.dict[i].1, source, origin, origin');
      }
    case _ =>
  }

  /** Every object recorded as a copy is a one-level copy of its original. */
  ghost predicate Copies(objects: map<ObjectId, Object>, origin: map<ObjectId, ObjectId>, source: map<ObjectId, Object>) {
    forall n :: n in origin ==> n in objects && origin[n] in source && Shallow(source[origin[n]], objects[n], source, origin)
  }

  /** Adding a copy of `source[id]` under a new number and recording it keeps `Copies`. */
  lemma CopiesStep(objects: map<ObjectId, Object>, origin: map<ObjectId, ObjectId>, source: map<ObjectId, Object>, n: ObjectId, id: ObjectId, copy: Object)
    requires Copies(objects, origin, source) && n !in objects && n !in origin && id in source
    requires Shallow(source[id], copy, source, origin)
    ensures Copies(objects[n := copy], origin[n := id], source)
  {
    var origin' := origin[n := id];
    forall m | m in origin'
      ensures m in objects[n := copy] && origin'[m] in source && Shallow(source[origin'[m]], objects[n := copy][m], source, origin')
    {
      if m == n {
        ShallowGrows(source[id], copy, source, origin, origin');
      } else {
        ShallowGrows(source[origin[m]], objects[m], source, origin, origin');
      }
    }
  }

  /** Adding an object that is not a recorded copy keeps `Copies`. */
  lemma CopiesAdd(objects: map<ObjectId, Object>, origin: map<ObjectId, ObjectId>, source: map<ObjectId, Object>, n: ObjectId, o: Object)
    requires Copies(objects, origin, source) && n !in origin
    ensures Copies(objects[n := o], origin, source)
  {
  }
}

/**
 * The growable vector of fixed-size elements of Scripts/vector.c: `length`
 * elements of `elementLength` bytes each, stored one after another at the
 * front of a heap block with room for `capacity` of them.
 */
module CVector {
  import opened Wrappers

  /** Element `i` of `contents` occupies bytes `i·e` up to `i·e + e` of `bytes`. */
  ghost predicate Holds(bytes: seq<bv8>, e: nat, contents: seq<seq<bv8>>) {
    forall i :: 0 <= i < |contents| ==> i * e + e <= |bytes| && bytes[i * e..i * e + e] == contents[i]
  }

  lemma MulLe(a: nat, b: nat, c: nat)
    requires a <= b
    ensures a * c <= b * c
  {
  }

  /** The slots before `n·e` all end by `n·e`. */
  lemma SlotBelow(i: nat, n: nat, e: nat)
    requires i < n
    ensures i * e + e <= n * e
  {
    MulLe(i + 1, n, e);
    assert (i + 1) * e == i * e + e;
  }

  /** `bytes` with `item` copied over it from `offset` on. */
  function Overwrite(bytes: seq<bv8>, offset: nat, item: seq<bv8>): (r: seq<bv8>)
    requires offset + |item| <= |bytes|
    ensures |r| == |bytes| && r[offset..offset + |item|] == item
    ensures r[..offset] == bytes[..offset] && r[offset + |item|..] == bytes[offset + |item|..]
  {
    bytes[..offset] + item + bytes[offset + |item|..]
  }

  /** Writing `item` right after the stored elements stores `contents + [item]`. */
  lemma {:induction false} HoldsPush(bytes: seq<bv8>, e: nat, contents: seq<seq<bv8>>, item: seq<bv8>)
    requires Holds(bytes, e, contents) && |item| == e
    requires |contents| * e + e <= |bytes|
    ensures Holds(Overwrite(bytes, |contents| * e, item), e, contents + [item])
  {
    var n := |contents|;
    var bytes' := Overwrite(bytes, n * e, item);
    var c' := contents + [item];
    forall i | 0 <= i < |c'|
      ensures i * e + e <= |bytes'| && bytes'[i * e..i * e + e] == c'[i]
    {
      if i < n {
        SlotBelow(i, n, e);
        SliceKept(bytes, bytes', n * e, i * e, i * e + e);
      }
    }
  }

  /** Two byte strings that agree up to `m` agree on every slice below it. */
  lemma SliceKept(bytes: seq<bv8>, bytes': seq<bv8>, m: nat, lo: nat, hi: nat)
    requires lo <= hi <= m <= |bytes| && m <= |bytes'| && bytes'[..m] == bytes[..m]
    ensures bytes'[lo..hi] == bytes[lo..hi]
  {
    forall k | lo <= k < hi
      ensures bytes'[k] == bytes[k]
    {
      assert bytes'[k] == bytes'[..m][k] && bytes[k] == bytes[..m][k];
    }
    assert forall k :: 0 <= k < hi - lo ==> bytes'[lo..hi][k] == bytes'[lo + k] && bytes[lo..hi][k] == bytes[lo + k];
  }

  /** Bytes added after the stored elements do not disturb them. */
  lemma HoldsExtend(bytes: seq<bv8>, more: seq<bv8>, e: nat, contents: seq<seq<bv8>>)
    requires Holds(bytes, e, contents)
    ensures Holds(bytes + more, e, contents)
  {
    forall i | 0 <= i < |contents|
      ensures (bytes + more)[i * e..i * e + e] == contents[i]
    {
      assert (bytes + more)[i * e..i * e + e] == bytes[i * e..i * e + e];
    }
  }

  /** The start of `dst` becomes a copy of `src`. */
  method CopyInto(src: array<bv8>, dst: array<bv8>)
    requires src.Length <= dst.Length && src != dst
    modifies dst
    ensures dst[..] == src[..] + old(dst[src.Length..])
  {
    forall j | 0 <= j < src.Length {
      dst[j] := src[j];
    }
    assert dst[..] == src[..] + old(dst[src.Length..]);
  }

  /** `Vector`; `Contents` is the list of elements the bytes stand for. */
  class Vector {
    var length: nat
    var capacity: nat
    var elementLength: nat
    var data: array<bv8>
    ghost var Contents: seq<seq<bv8>>

    ghost predicate Valid()
      reads this, data
    {
      && 0 < capacity && length <= capacity
      && data.Length == capacity * elementLength
      && |Contents| == length
      && Holds(data[..], elementLength, Contents)
    }

    /** `vector_init`: room for 20 elements, none stored. */
    constructor Init(elementLength: nat)
      ensures Valid() && fresh(data)
      ensures Contents == [] && length == 0 && capacity == 20 && this.elementLength == elementLength
    {
      this.elementLength := elementLength;
      capacity := 20;
      length := 0;
      data := new bv8[20 * elementLength];
      Contents := [];
    }

    /**
     * `vector_push` with the growth step it evidently intends: when the
     * block is full it is replaced by one twice as large, in elements, that
     * starts with the old bytes; then the element is copied into the first
     * free slot.
     */
    method Push(item: seq<bv8>)
      requires Valid() && |item| == elementLength
      modifies this, data
      ensures Valid()
      ensures Contents == old(Contents) + [item]
      ensures length == old(length) + 1 && elementLength == old(elementLength)
      ensures capacity == if old(length) == old(capacity) then 2 * old(capacity) else old(capacity)
      ensures data == old(data) || fresh(data)
    {
      if length == capacity {
        Grow();
      }
      SlotBelow(length, capacity, elementLength);
      HoldsPush(data[..], elementLength, Contents, item);
      WriteAt(length * elementLength, item);
      Contents := Contents + [item];
      length := length + 1;
    }

    /** The intended growth: a block twice as large, in elements, starting with the old bytes. */
    method Grow()
      requires Valid() && length == capacity
      modifies this
      ensures Valid() && fresh(data)
      ensures capacity == 2 * old(capacity)
      ensures Contents == old(Contents) && length == old(length) && elementLength == old(elementLength)
    {
      var doubled := capacity * 2;
      var grown := new bv8[doubled * elementLength];
      MulLe(capacity, doubled, elementLength);
      CopyInto(data, grown);
      ghost var oldBytes := data[..];
      ghost var newBytes := grown[..];
      assert newBytes == oldBytes + newBytes[|oldBytes|..];
      HoldsExtend(oldBytes, newBytes[|oldBytes|..], elementLength, Contents);
      assert Holds(grown[..], elementLength, Contents);
      capacity := doubled;
      data := grown;
    }

    /** `memcpy` of `item` to byte `offset` of the block. */
    method WriteAt(offset: nat, item: seq<bv8>)
      requires offset + |item| <= data.Length
      modifies data
      ensures data[..] == Overwrite(old(data[..]), offset, item)
    {
      forall k | 0 <= k < |item| {
        data[offset + k] := item[k];
      }
      assert data[..] == Overwrite(old(data[..]), offset, item);
    }

    /**
     * `vector_push` as written: a full vector gets a block of `length·2`
     * BYTES (not elements) whose contents are not the old ones, and the
     * element is copied to byte `length·elementLength` of it. `inBounds` is
     * false exactly when that copy would run past the end of the block; the
     * state after such a write is not modelled.
     */
    method PushAsWritten(item: seq<bv8>) returns (inBounds: bool)
      requires Valid() && |item| == elementLength
      modifies this, data
      ensures elementLength == old(elementLength)
      ensures inBounds <==> old(length) < old(capacity) || old(length) * elementLength + elementLength <= 2 * old(length)
      ensures old(length) < old(capacity) ==> Valid() && Contents == old(Contents) + [item] && capacity == old(capacity)
      ensures old(length) == old(capacity) ==> capacity == 2 * old(length) && data.Length == 2 * old(length) && fresh(data)
      ensures inBounds ==> length == old(length) + 1
      ensures inBounds ==> (old(length) * elementLength + elementLength <= data.Length &&
        data[old(length) * elementLength..old(length) * elementLength + elementLength] == item)
      ensures data == old(data) || fresh(data)
    {
      if length == capacity {
        var size := length * 2;
        capacity := size;
        data := new bv8[size];
      } else {
        SlotBelow(length, capacity, elementLength);
        HoldsPush(data[..], elementLength, Contents, item);
        Contents := Contents + [item];
      }
      var offset := length * elementLength;
      if offset + elementLength > data.Length {
        return false;
      }
      WriteAt(offset, item);
      length := length + 1;
      inBounds := true;
    }

    /** `vector_get`: the byte offset of element `index`; `None` is the failed assertion. */
    method Get(index: nat) returns (r: Option<nat>)
      requires Valid()
      ensures r.None? <==> index >= length
      ensures r.Some? ==> r.value == index * elementLength && r.value + elementLength <= data.Length
      ensures r.Some? ==> data[r.value..r.value + elementLength] == Contents[index]
    {
      if index >= length {
        return None;
      }
      r := Some(index * elementLength);
    }
  }

  /**
   * `main` pushes ten 8-byte elements (`char *` values) into a fresh vector and reads
   * them back; with room for twenty, the growth step is never reached.
   */
  method PushAndGetTen(items: seq<seq<bv8>>) returns (read: seq<seq<bv8>>)
    requires |items| == 10 && forall i :: 0 <= i < 10 ==> |items[i]| == 8
    ensures read == items
  {
    var v := new Vector.Init(8);
    for i := 0 to 10
      invariant fresh(v) && fresh(v.data) && v.Valid()
      invariant v.elementLength == 8 && v.Contents == items[..i] && v.length == i
    {
      v.Push(items[i]);
    }
    read := [];
    for i := 0 to 10
      invariant v.Valid() && v.Contents == items
      invariant read == items[..i]
    {
      var offset := v.Get(i);
      read := read + [v.data[offset.value..offset.value + 8]];
    }
  }

  /** Pushing twenty one elements of `e` bytes overruns the grown block exactly when `e >= 2`. */
  method TwentyOnePushesAsWritten(e: nat) returns (inBounds: bool)
    ensures inBounds <==> e <= 1
  {
    var v := new Vector.Init(e);
    var item := seq(e, _ => 0 as bv8);
    for i := 0 to 20
      invariant fresh(v) && fresh(v.data) && v.Valid()
      invariant v.elementLength == e && v.length == i && v.capacity == 20
    {
      v.Push(item);
    }
    inBounds := v.PushAsWritten(item);
  }

  /** With the intended growth the twenty-first element is stored and read back, and the capacity doubles. */
  method TwentyOnePushes(e: nat) returns (length: nat, capacity: nat, last: seq<bv8>)
    ensures length == 21 && capacity == 40
    ensures last == seq(e, _ => 0 as bv8)
  {
    var v := new Vector.Init(e);
    var item := seq(e, _ => 0 as bv8);
    for i := 0 to 21
      invariant fresh(v) && fresh(v.data) && v.Valid()
      invariant v.elementLength == e && v.length == i && v.capacity == if i <= 20 then 20 else 40
      invariant v.Contents == seq(i, _ => item)
    {
      v.Push(item);
    }
    var offset := v.Get(20);
    last := v.data[offset.value..offset.value + e];
    length, capacity := v.length, v.capacity;
  }
}

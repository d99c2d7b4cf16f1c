/** The sparse node map `[count u16le][(offset u16le, hash 32)...]`, sorted by offset. */
module Sparse {
  import opened Bytes
  import opened Outcomes
  import opened Slices
  import opened Vectors

  const ENTRY_LEN: nat := 34

  /** BFS index of the node at `(level, index)`; the root is `(0, 0)`. */
  function NodeOffset(level: nat, index: nat): nat {
    Pow2(level) - 1 + index
  }

  /** Breadth-first order: the root comes first. */
  lemma RootFirst()
    ensures NodeOffset(0, 0) == 0
  {
  }

  /** And the two children of the node at `o`, one level below, are at `2o + 1` and `2o + 2`. */
  lemma ChildrenFollow(level: nat, index: nat, below: nat, left: nat)
    requires below == level + 1 && left == 2 * index
    ensures NodeOffset(below, left) == 2 * NodeOffset(level, index) + 1
    ensures NodeOffset(below, left + 1) == 2 * NodeOffset(level, index) + 2
  {
    var unit := Pow2(level);
    DoubleUnit(level, below);
    assert NodeOffset(level, index) == unit - 1 + index;
  }

  lemma DoubleUnit(level: nat, below: nat)
    requires below == level + 1
    ensures Pow2(below) == 2 * Pow2(level)
  {
  }

  function Count(data: seq<Byte>): nat {
    if |data| < 2 then 0 else U16At(data, 0)
  }

  /** The 34 bytes of entry `k`: its offset, then its hash. */
  function EntryAt(data: seq<Byte>, k: nat): (e: seq<Byte>)
    requires 2 + ENTRY_LEN * (k + 1) <= |data|
    ensures |e| == ENTRY_LEN
  {
    data[2 + ENTRY_LEN * k..2 + ENTRY_LEN * (k + 1)]
  }

  function OffsetAt(data: seq<Byte>, k: nat): nat
    requires 2 + ENTRY_LEN * (k + 1) <= |data|
  {
    U16At(EntryAt(data, k), 0)
  }

  function HashAt(data: seq<Byte>, k: nat): Hash
    requires 2 + ENTRY_LEN * (k + 1) <= |data|
  {
    EntryAt(data, k)[2..]
  }

  /** A buffer either program may be handed: empty, or exactly `count` entries in increasing offset order. */
  ghost predicate WellFormed(data: seq<Byte>) {
    || data == []
    || (&& |data| >= 2
        && |data| == 2 + ENTRY_LEN * Count(data)
        && forall j, k :: 0 <= j < k < Count(data) ==> OffsetAt(data, j) < OffsetAt(data, k))
  }

  /** The finite map a well-formed buffer stands for. */
  ghost function Contents(data: seq<Byte>): map<nat, Hash>
    requires WellFormed(data)
  {
    ContentsTo(data, Count(data))
  }

  ghost function ContentsTo(data: seq<Byte>, n: nat): map<nat, Hash>
    requires WellFormed(data) && n <= Count(data)
  {
    if n == 0 then map[] else ContentsTo(data, n - 1)[OffsetAt(data, n - 1) := HashAt(data, n - 1)]
  }

  lemma {:induction false} ContentsAt(data: seq<Byte>, k: nat, n: nat)
    requires WellFormed(data) && k < n <= Count(data)
    ensures OffsetAt(data, k) in ContentsTo(data, n)
    ensures ContentsTo(data, n)[OffsetAt(data, k)] == HashAt(data, k)
  {
    if k < n - 1 {
      ContentsAt(data, k, n - 1);
    }
  }

  lemma {:induction false} IndexIn(data: seq<Byte>, offset: nat, n: nat) returns (k: nat)
    requires WellFormed(data) && n <= Count(data) && offset in ContentsTo(data, n)
    ensures k < n && OffsetAt(data, k) == offset && HashAt(data, k) == ContentsTo(data, n)[offset]
  {
    if OffsetAt(data, n - 1) == offset {
      k := n - 1;
    } else {
      k := IndexIn(data, offset, n - 1);
    }
  }

  lemma IndexOf(data: seq<Byte>, offset: nat) returns (k: nat)
    requires WellFormed(data) && offset in Contents(data)
    ensures k < Count(data) && OffsetAt(data, k) == offset && HashAt(data, k) == Contents(data)[offset]
  {
    k := IndexIn(data, offset, Count(data));
  }

  function ReadOr(m: map<nat, Hash>, o: nat, default: Hash): Hash {
    if o in m then m[o] else default
  }

  /** The offset field of entry `k`, which is all a search looks at. */
  function Probe(data: seq<Byte>, k: nat): nat
    requires 4 + ENTRY_LEN * k <= |data|
  {
    U16At(data, 2 + ENTRY_LEN * k)
  }

  lemma ProbeIsOffset(data: seq<Byte>, k: nat)
    requires 2 + ENTRY_LEN * (k + 1) <= |data|
    ensures Probe(data, k) == OffsetAt(data, k)
  {
    assert EntryAt(data, k)[0] == data[2 + ENTRY_LEN * k] && EntryAt(data, k)[1] == data[2 + ENTRY_LEN * k + 1];
  }

  /** Fewer bytes than the count announces. */
  predicate Truncated(data: seq<Byte>) {
    |data| == 1 || |data| < 2 + ENTRY_LEN * Count(data)
  }

  /** `lo` lies between an entry below `target` and one that is not. */
  predicate Divides(data: seq<Byte>, target: nat, lo: nat) {
    && lo <= Count(data)
    && (lo > 0 ==> 4 + ENTRY_LEN * (lo - 1) <= |data| && Probe(data, lo - 1) < target)
    && (lo < Count(data) ==> 4 + ENTRY_LEN * lo <= |data| && target <= Probe(data, lo))
  }

  /** First entry whose offset is not below `target`. On any bytes at all the result is a dividing point, and only
      bytes that are cut short make the search fail. */
  method LowerBound(data: seq<Byte>, target: nat) returns (r: Outcome<nat>)
    requires |data| >= 2
    ensures r.Done? || (r.Panic? && Truncated(data))
    ensures r.Done? ==> Divides(data, target, r.value)
  {
    var lo: nat, hi := 0, Count(data);
    while lo < hi
      invariant lo <= hi <= Count(data)
      invariant lo > 0 ==> 4 + ENTRY_LEN * (lo - 1) <= |data| && Probe(data, lo - 1) < target
      invariant hi < Count(data) ==> 4 + ENTRY_LEN * hi <= |data| && target <= Probe(data, hi)
    {
      var mid := lo + (hi - lo) / 2;
      if |data| < 4 + mid * ENTRY_LEN {
        return Panic;
      }
      if Probe(data, mid) < target {
        lo := mid + 1;
      } else {
        hi := mid;
      }
    }
    r := Done(lo);
  }

  /** In a sorted buffer a dividing point splits all entries. */
  lemma DividesAll(data: seq<Byte>, target: nat, lo: nat)
    requires WellFormed(data) && Divides(data, target, lo)
    ensures forall k :: 0 <= k < lo ==> OffsetAt(data, k) < target
    ensures forall k :: lo <= k < Count(data) ==> target <= OffsetAt(data, k)
  {
    if lo > 0 {
      ProbeIsOffset(data, lo - 1);
    }
    if lo < Count(data) {
      ProbeIsOffset(data, lo);
    }
  }

  /** The value at the node's offset, or the default. On any bytes at all a value that is not the default was stored
      under that offset. */
  method ReadSparseNode(data: seq<Byte>, level: nat, index: nat, default: Hash) returns (r: Outcome<Hash>)
    ensures r.Done? || (r.Panic? && Truncated(data))
    ensures r.Done? ==> r.value == default || HasEntry(data, AsU16(NodeOffset(level, index)), r.value)
    ensures WellFormed(data) ==> r == Done(ReadOr(Contents(data), AsU16(NodeOffset(level, index)), default))
  {
    if |data| < 2 {
      return Done(default);
    }
    var count := U16At(data, 0);
    if count == 0 {
      return Done(default);
    }
    var target := AsU16(NodeOffset(level, index));
    var lo :- LowerBound(data, target);
    if lo < count {
      if Probe(data, lo) == target {
        if |data| < 2 + (lo + 1) * ENTRY_LEN {
          return Panic;
        }
        ProbeIsOffset(data, lo);
        if WellFormed(data) {
          ContentsAt(data, lo, count);
        }
        return Done(HashAt(data, lo));
      }
    }
    if WellFormed(data) {
      NotFound(data, target, lo);
    }
    return Done(default);
  }

  /** Some entry pairs this offset with this hash. */
  ghost predicate HasEntry(data: seq<Byte>, offset: nat, hash: Hash) {
    exists k: nat :: k < Count(data) && 2 + ENTRY_LEN * (k + 1) <= |data| && OffsetAt(data, k) == offset
                     && HashAt(data, k) == hash
  }

  lemma NotFound(data: seq<Byte>, target: nat, lo: nat)
    requires WellFormed(data) && Divides(data, target, lo)
    requires lo < Count(data) ==> Probe(data, lo) != target
    ensures target !in Contents(data)
    ensures forall k :: 0 <= k < lo ==> OffsetAt(data, k) < target
    ensures forall k :: lo <= k < Count(data) ==> target < OffsetAt(data, k)
  {
    DividesAll(data, target, lo);
    if lo < Count(data) {
      ProbeIsOffset(data, lo);
    }
    AbsentFrom(data, target);
  }

  lemma AbsentFrom(data: seq<Byte>, target: nat)
    requires WellFormed(data) && forall k: nat :: k < Count(data) ==> OffsetAt(data, k) != target
    ensures target !in Contents(data)
  {
    if target in Contents(data) {
      var k := IndexOf(data, target);
    }
  }

  /** The bytes after a write: one more or one changed entry, except that a 65536th entry wraps the count to zero and
      hides every entry. */
  ghost predicate Written(before: seq<Byte>, after: seq<Byte>, target: nat, hash: Hash)
    requires WellFormed(before)
  {
    if target in Contents(before) || Count(before) + 1 < U16_SIZE then
      && WellFormed(after) && after != []
      && Contents(after) == Contents(before)[target := hash]
      && Count(after) == Count(before) + if target in Contents(before) then 0 else 1
    else
      |after| == |before| + ENTRY_LEN && Count(after) == 0
  }

  /** Overwrite the entry at the node's offset, or shift the tail and insert one. */
  method WriteSparseNode(data: Vec<Byte>, level: nat, index: nat, hash: Hash) returns (r: Outcome<()>)
    modifies data
    ensures r.Done? || (r.Panic? && Truncated(old(data.items)))
    ensures WellFormed(old(data.items)) ==>
              r.Done? && Written(old(data.items), data.items, AsU16(NodeOffset(level, index)), hash)
  {
    ghost var was := data.items;
    if |data.items| < 2 {
      data.Resize(2, 0);
      FreshBuffer(was, data.items);
    }
    r := WriteAt(data, AsU16(NodeOffset(level, index)), hash);
  }

  method WriteAt(data: Vec<Byte>, target: nat, hash: Hash) returns (r: Outcome<()>)
    requires |data.items| >= 2 && target < U16_SIZE
    modifies data
    ensures r.Done? || (r.Panic? && Truncated(old(data.items)))
    ensures WellFormed(old(data.items)) ==> r.Done? && Written(old(data.items), data.items, target, hash)
  {
    var count := U16At(data.items, 0);
    var lo :- LowerBound(data.items, target);
    if lo < count {
      if Probe(data.items, lo) == target {
        r := OverwriteHash(data, lo, target, hash);
        return;
      }
    }
    r := InsertEntry(data, count, lo, target, hash);
  }

  /** The entry is there: only its hash changes. */
  method OverwriteHash(data: Vec<Byte>, lo: nat, target: nat, hash: Hash) returns (r: Outcome<()>)
    requires lo < Count(data.items) && 4 + ENTRY_LEN * lo <= |data.items| && Probe(data.items, lo) == target
    modifies data
    ensures r.Done? || (r.Panic? && Truncated(old(data.items)))
    ensures WellFormed(old(data.items)) ==> r.Done? && Written(old(data.items), data.items, target, hash)
  {
    ghost var was := data.items;
    var pos := 2 + lo * ENTRY_LEN;
    if |data.items| < pos + ENTRY_LEN {
      return Panic;
    }
    data.Overwrite(pos + 2, hash);
    if WellFormed(was) {
      ProbeIsOffset(was, lo);
      ContentsAt(was, lo, Count(was));
      OverwriteSpec(was, data.items, lo, hash);
    }
    r := Done(());
  }

  lemma InsertWrites(before: seq<Byte>, after: seq<Byte>, lo: nat, target: nat, hash: Hash)
    requires WellFormed(before) && |before| >= 2 && target < U16_SIZE
    requires Divides(before, target, lo) && (lo < Count(before) ==> Probe(before, lo) != target)
    requires 2 + ENTRY_LEN * lo <= |before|
    requires after == U16Bytes(AsU16(Count(before) + 1)) + before[2..2 + ENTRY_LEN * lo] + (U16Bytes(target) + hash)
                      + before[2 + ENTRY_LEN * lo..]
    ensures Written(before, after, target, hash)
  {
    NotFound(before, target, lo);
    if Count(before) + 1 < U16_SIZE {
      InsertSpec(before, after, lo, target, hash);
    } else {
      var body := before[2..2 + ENTRY_LEN * lo] + (U16Bytes(target) + hash) + before[2 + ENTRY_LEN * lo..];
      assert after == U16Bytes(AsU16(U16_SIZE)) + body;
      CountWraps(body, after);
    }
  }

  /** The 65536th entry is counted as none. */
  lemma CountWraps(body: seq<Byte>, after: seq<Byte>)
    requires after == U16Bytes(AsU16(U16_SIZE)) + body
    ensures Count(after) == 0 && |after| == 2 + |body|
  {
    assert after[0] == 0 && after[1] == 0;
  }

  /** The entry is not there: it is put in between. */
  method InsertEntry(data: Vec<Byte>, count: nat, lo: nat, target: nat, hash: Hash) returns (r: Outcome<()>)
    requires |data.items| >= 2 && count == Count(data.items) && target < U16_SIZE
    requires Divides(data.items, target, lo) && (lo < count ==> Probe(data.items, lo) != target)
    modifies data
    ensures r.Done? || (r.Panic? && Truncated(old(data.items)))
    ensures WellFormed(old(data.items)) ==> r.Done? && Written(old(data.items), data.items, target, hash)
  {
    ghost var was := data.items;
    var pos := 2 + lo * ENTRY_LEN;
    if |data.items| < pos {
      return Panic;
    }
    ShiftAndInsert(data, count, pos, target, hash);
    if WellFormed(was) {
      InsertWrites(was, data.items, lo, target, hash);
    }
    r := Done(());
  }

  /** A buffer too short for a count is grown to one. */
  lemma FreshBuffer(before: seq<Byte>, after: seq<Byte>)
    requires |before| < 2 && after == before + seq(2 - |before|, _ => 0)
    ensures Truncated(after) ==> Truncated(before)
    ensures WellFormed(before) ==> WellFormed(after) && Contents(after) == Contents(before) == map[] && Count(after) == 0
  {
  }

  /** The growing half of a write: make room at `pos`, fill it, bump the count. */
  method ShiftAndInsert(data: Vec<Byte>, count: nat, pos: nat, target: nat, hash: Hash)
    requires 2 <= pos <= |data.items| && target < U16_SIZE
    modifies data
    ensures data.items == U16Bytes(AsU16(count + 1)) + old(data.items)[2..pos] + (U16Bytes(target) + hash)
                          + old(data.items)[pos..]
  {
    ghost var head, tail := data.items[..pos], data.items[pos..];
    assert data.items == head + tail;
    var oldLen := |data.items|;
    ghost var room: seq<Byte> := seq(ENTRY_LEN, _ => 0);
    data.Resize(oldLen + ENTRY_LEN, 0);
    assert data.items == head + tail + room;
    MoveTail(head, tail, room);
    data.CopyWithin(pos, oldLen, pos + ENTRY_LEN);
    ghost var gap := (tail + room)[..ENTRY_LEN];
    assert data.items == head + gap + tail;
    FillGap(data, head, gap, tail, pos, target, hash);
    var newCount := AsU16(count + 1);
    ReplaceFront(head, U16Bytes(target) + hash, tail, U16Bytes(newCount));
    data.Overwrite(0, U16Bytes(newCount));
    SliceOfPrefix(old(data.items), pos, 2, pos);
  }

  /** Write the new entry over whatever lies in the gap. */
  method FillGap(data: Vec<Byte>, ghost head: seq<Byte>, ghost gap: seq<Byte>, ghost tail: seq<Byte>,
                 pos: nat, target: nat, hash: Hash)
    requires data.items == head + gap + tail && |gap| == ENTRY_LEN && |head| == pos && target < U16_SIZE
    modifies data
    ensures data.items == head + (U16Bytes(target) + hash) + tail
  {
    var offset := U16Bytes(target);
    assert head + gap + tail == head + gap[..2] + (gap[2..] + tail);
    ReplaceMiddle(head, gap[..2], gap[2..] + tail, offset);
    data.Overwrite(pos, offset);
    assert head + offset + (gap[2..] + tail) == (head + offset) + gap[2..] + tail;
    ReplaceMiddle(head + offset, gap[2..], tail, hash);
    data.Overwrite(pos + 2, hash);
    assert (head + offset) + hash + tail == head + (offset + hash) + tail;
  }

  /** Overwriting the hash of one entry. */
  lemma OverwriteSpec(before: seq<Byte>, after: seq<Byte>, lo: nat, hash: Hash)
    requires WellFormed(before) && lo < Count(before)
    requires after == before[..4 + ENTRY_LEN * lo] + hash + before[36 + ENTRY_LEN * lo..]
    ensures WellFormed(after) && Count(after) == Count(before)
    ensures Contents(after) == Contents(before)[OffsetAt(before, lo) := hash]
  {
    assert |after| == |before| && Count(after) == Count(before);
    forall k: nat | k < Count(before)
      ensures EntryAt(after, k) == if k == lo then EntryAt(before, k)[..2] + hash else EntryAt(before, k)
    {
      OverwrittenEntry(before, after, lo, hash, k);
    }
    forall k: nat | k < Count(before)
      ensures OffsetAt(after, k) == OffsetAt(before, k)
      ensures OffsetAt(before, k) != OffsetAt(before, lo) ==> HashAt(after, k) == HashAt(before, k)
    {
    }
    UpdatedContents(before, after, OffsetAt(before, lo), hash);
  }

  lemma OverwrittenEntry(before: seq<Byte>, after: seq<Byte>, lo: nat, hash: Hash, k: nat)
    requires |before| == 2 + ENTRY_LEN * Count(before) && lo < Count(before) && k < Count(before)
    requires after == before[..4 + ENTRY_LEN * lo] + hash + before[36 + ENTRY_LEN * lo..]
    ensures EntryAt(after, k) == if k == lo then EntryAt(before, k)[..2] + hash else EntryAt(before, k)
  {
    var at, from, to := 4 + ENTRY_LEN * lo, 2 + ENTRY_LEN * k, 2 + ENTRY_LEN * (k + 1);
    var head, tail := before[..at], before[at + 32..];
    if k < lo {
      SliceLeft(head + hash, tail, from, to);
      SliceLeft(head, hash, from, to);
      SliceOfPrefix(before, at, from, to);
    } else if k == lo {
      SliceLeft(head + hash, tail, from, to);
      assert (head + hash)[from..to] == head[from..] + hash;
      assert head[from..] == before[from..to][..2];
    } else {
      SliceRight(head + hash, tail, from, to);
      SliceOfSuffix(before, at + 32, from - at - 32, to - at - 32);
    }
  }

  /** Shifting the tail and filling the hole with a new entry. */
  lemma InsertSpec(before: seq<Byte>, after: seq<Byte>, lo: nat, target: nat, hash: Hash)
    requires WellFormed(before) && |before| >= 2 && lo <= Count(before) && Count(before) + 1 < U16_SIZE
    requires target < U16_SIZE
    requires forall k :: 0 <= k < lo ==> OffsetAt(before, k) < target
    requires forall k :: lo <= k < Count(before) ==> target < OffsetAt(before, k)
    requires after == U16Bytes(Count(before) + 1) + before[2..2 + ENTRY_LEN * lo] + (U16Bytes(target) + hash)
                      + before[2 + ENTRY_LEN * lo..]
    ensures WellFormed(after) && Count(after) == Count(before) + 1
    ensures Contents(after) == Contents(before)[target := hash]
    ensures target !in Contents(before)
  {
    InsertedEntries(before, after, lo, target, hash);
    InsertSorted(before, after, lo);
    AbsentFrom(before, target);
    assert HasEntry(after, target, hash);
    forall k: nat | k < Count(before)
      ensures HasEntry(after, OffsetAt(before, k), HashAt(before, k))
    {
      var j: nat := if k < lo then k else k + 1;
      assert EntryAt(after, j) == EntryAt(before, if j < lo then j else j - 1);
      assert OffsetAt(after, j) == OffsetAt(before, k) && HashAt(after, j) == HashAt(before, k);
    }
    forall k: nat | k < Count(after) && k != lo
      ensures HasEntry(before, OffsetAt(after, k), HashAt(after, k))
    {
      var j: nat := if k < lo then k else k - 1;
      assert OffsetAt(after, k) == OffsetAt(before, j) && HashAt(after, k) == HashAt(before, j);
    }
    UpdatedContents(before, after, target, hash);
  }

  /** The grown buffer's layout, entry by entry. */
  lemma InsertedEntries(before: seq<Byte>, after: seq<Byte>, lo: nat, target: nat, hash: Hash)
    requires |before| == 2 + ENTRY_LEN * Count(before) && lo <= Count(before) && Count(before) + 1 < U16_SIZE
    requires target < U16_SIZE
    requires after == U16Bytes(Count(before) + 1) + before[2..2 + ENTRY_LEN * lo] + (U16Bytes(target) + hash)
                      + before[2 + ENTRY_LEN * lo..]
    ensures |after| == 2 + ENTRY_LEN * Count(after) && Count(after) == Count(before) + 1
    ensures OffsetAt(after, lo) == target && HashAt(after, lo) == hash
    ensures forall k: nat :: k <= Count(before) && k != lo ==>
              EntryAt(after, k) == EntryAt(before, if k < lo then k else k - 1)
  {
    var entry := U16Bytes(target) + hash;
    forall k: nat | k <= Count(before) && k != lo
      ensures EntryAt(after, k) == EntryAt(before, if k < lo then k else k - 1)
    {
      ShiftedEntry(before, after, lo, entry, k);
    }
    ShiftedEntry(before, after, lo, entry, lo);
  }

  /** Inserting between the smaller and the larger offsets keeps the order. */
  lemma InsertSorted(before: seq<Byte>, after: seq<Byte>, lo: nat)
    requires WellFormed(before) && lo <= Count(before)
    requires |after| == 2 + ENTRY_LEN * Count(after) && Count(after) == Count(before) + 1
    requires forall k: nat :: k < lo ==> OffsetAt(before, k) < OffsetAt(after, lo)
    requires forall k: nat :: lo <= k < Count(before) ==> OffsetAt(after, lo) < OffsetAt(before, k)
    requires forall k: nat :: k <= Count(before) && k != lo ==>
               EntryAt(after, k) == EntryAt(before, if k < lo then k else k - 1)
    ensures WellFormed(after)
  {
    forall j: nat, k: nat | j < k < Count(after)
      ensures OffsetAt(after, j) < OffsetAt(after, k)
    {
      var j', k' := if j < lo then j else j - 1, if k < lo then k else k - 1;
      assert j != lo ==> OffsetAt(after, j) == OffsetAt(before, j');
      assert k != lo ==> OffsetAt(after, k) == OffsetAt(before, k');
    }
  }

  /** Where each entry of the grown buffer comes from. */
  lemma ShiftedEntry(before: seq<Byte>, after: seq<Byte>, lo: nat, entry: seq<Byte>, k: nat)
    requires |before| == 2 + ENTRY_LEN * Count(before) && lo <= Count(before) && k <= Count(before)
    requires |entry| == ENTRY_LEN && Count(before) + 1 < U16_SIZE
    requires after == U16Bytes(Count(before) + 1) + before[2..2 + ENTRY_LEN * lo] + entry + before[2 + ENTRY_LEN * lo..]
    ensures EntryAt(after, k) == if k < lo then EntryAt(before, k)
                                 else if k == lo then entry else EntryAt(before, k - 1)
  {
    var at, from, to := 2 + ENTRY_LEN * lo, 2 + ENTRY_LEN * k, 2 + ENTRY_LEN * (k + 1);
    var count, body, tail := U16Bytes(Count(before) + 1), before[2..at], before[at..];
    if k < lo {
      SliceLeft(count + body + entry, tail, from, to);
      SliceLeft(count + body, entry, from, to);
      SliceRight(count, body, from, to);
      SliceOfMiddle(before, 2, at, from - 2, to - 2);
    } else if k == lo {
      SliceLeft(count + body + entry, tail, from, to);
      SliceRight(count + body, entry, from, to);
    } else {
      SliceRight(count + body + entry, tail, from, to);
      SliceOfSuffix(before, at, from - at - ENTRY_LEN, to - at - ENTRY_LEN);
    }
  }

  lemma EntryIsContents(data: seq<Byte>, offset: nat, hash: Hash)
    requires WellFormed(data) && HasEntry(data, offset, hash)
    ensures offset in Contents(data) && Contents(data)[offset] == hash
  {
    var k: nat :| k < Count(data) && OffsetAt(data, k) == offset && HashAt(data, k) == hash;
    ContentsAt(data, k, Count(data));
  }

  /** A well-formed buffer holding the old entries and a new value at `target` is the updated map. */
  lemma UpdatedContents(before: seq<Byte>, after: seq<Byte>, target: nat, hash: Hash)
    requires WellFormed(before) && WellFormed(after)
    requires HasEntry(after, target, hash)
    requires forall k: nat :: k < Count(before) && OffsetAt(before, k) != target ==>
               HasEntry(after, OffsetAt(before, k), HashAt(before, k))
    requires forall k: nat :: k < Count(after) && OffsetAt(after, k) != target ==>
               HasEntry(before, OffsetAt(after, k), HashAt(after, k))
    ensures Contents(after) == Contents(before)[target := hash]
  {
    var m := Contents(before)[target := hash];
    EntryIsContents(after, target, hash);
    forall o | o in Contents(after)
      ensures o in m && m[o] == Contents(after)[o]
    {
      if o != target {
        var k := IndexOf(after, o);
        EntryIsContents(before, o, HashAt(after, k));
      }
    }
    forall o | o in m
      ensures o in Contents(after)
    {
      if o != target {
        var k := IndexOf(before, o);
        EntryIsContents(after, o, HashAt(before, k));
      }
    }
  }

  // ---- the encoding is canonical ----

  lemma OffsetHeld(data: seq<Byte>, other: seq<Byte>, k: nat) returns (i: nat)
    requires WellFormed(data) && WellFormed(other) && Contents(data) == Contents(other) && k < Count(data)
    ensures i < Count(other) && OffsetAt(other, i) == OffsetAt(data, k) && HashAt(other, i) == HashAt(data, k)
  {
    ContentsAt(data, k, Count(data));
    i := IndexOf(other, OffsetAt(data, k));
  }

  /** Sorted buffers over the same map agree entry by entry. */
  lemma {:induction false} SameEntries(a: seq<Byte>, b: seq<Byte>, n: nat)
    requires WellFormed(a) && WellFormed(b) && Contents(a) == Contents(b)
    requires n <= Count(a)
    ensures n <= Count(b)
    ensures forall k: nat :: k < n ==> OffsetAt(a, k) == OffsetAt(b, k) && HashAt(a, k) == HashAt(b, k)
  {
    if n > 0 {
      var k := n - 1;
      SameEntries(a, b, k);
      var i := OffsetHeld(a, b, k);
      assert i >= k;
      var j := OffsetHeld(b, a, k);
      assert j >= k;
      assert OffsetAt(b, k) <= OffsetAt(b, i);
      assert OffsetAt(a, k) <= OffsetAt(a, j);
      assert OffsetAt(a, k) == OffsetAt(b, k);
      assert i == k;
    }
  }

  /** One map has one non-empty encoding: equal contents mean equal bytes. */
  lemma CanonicalBytes(a: seq<Byte>, b: seq<Byte>)
    requires WellFormed(a) && WellFormed(b) && Contents(a) == Contents(b)
    requires a == [] <==> b == []
    ensures a == b
  {
    if a != [] {
      SameEntries(a, b, Count(a));
      SameEntries(b, a, Count(b));
      assert a[0] == b[0] && a[1] == b[1];
      forall i: nat | 2 <= i < |a|
        ensures a[i] == b[i]
      {
        var k := (i - 2) / ENTRY_LEN;
        EntryDetermined(a, b, k);
        ByteOfEntry(a, i);
        ByteOfEntry(b, i);
      }
    }
  }

  lemma ByteOfEntry(data: seq<Byte>, i: nat)
    requires |data| == 2 + ENTRY_LEN * Count(data) && 2 <= i < |data|
    ensures (i - 2) / ENTRY_LEN < Count(data)
    ensures data[i] == EntryAt(data, (i - 2) / ENTRY_LEN)[(i - 2) % ENTRY_LEN]
  {
  }

  lemma EntryDetermined(a: seq<Byte>, b: seq<Byte>, k: nat)
    requires 2 + ENTRY_LEN * (k + 1) <= |a| && 2 + ENTRY_LEN * (k + 1) <= |b|
    requires OffsetAt(a, k) == OffsetAt(b, k) && HashAt(a, k) == HashAt(b, k)
    ensures EntryAt(a, k) == EntryAt(b, k)
  {
    var x, y := EntryAt(a, k), EntryAt(b, k);
    assert x == x[..2] + x[2..] && y == y[..2] + y[2..];
    assert x[..2] == y[..2];
  }

  /** The stored count is the number of nodes the map holds. */
  lemma {:induction false} CountIsSize(data: seq<Byte>, n: nat)
    requires WellFormed(data) && n <= Count(data)
    ensures |ContentsTo(data, n)| == n
  {
    if n > 0 {
      CountIsSize(data, n - 1);
      if OffsetAt(data, n - 1) in ContentsTo(data, n - 1) {
        var k := IndexIn(data, OffsetAt(data, n - 1), n - 1);
      }
    }
  }
}

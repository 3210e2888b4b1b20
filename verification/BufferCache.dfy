/** The software cache of host objects in device memory: two slots per object, reader/writer locks on the slots,
    write-back on eviction. */
module BufferCache {
  import Indices

  /** One memory cell of a host object or of a device buffer: a coordinate of a point, or a label. */
  datatype Word = Coordinate(r: real) | Label(l: int)

  datatype ObjectMode = ReadWrite | ReadOnly | Transient

  datatype ObjectInfo = ObjectInfo(size: nat, mode: ObjectMode)

  datatype LockStatus = Free | ReadLock | WriteLock

  datatype SlotLock = SlotLock(status: LockStatus, count: nat)

  /** One entry of the vectors that describe the cache slots of a device: the cached object (-1 for none), the offset
      of the chunk in it, its address (an offset again, -1 for the null pointer), its length, and what the device
      buffer contains, which is of no meaning for a slot that is empty or aliases the host. */
  datatype Slot = Slot(object_id: int, buffer_id: nat, ptr: int, length: nat, device: seq<Word>)

  /** What a caller of get receives: a device buffer, named by its slot, and what it holds. */
  datatype BufferDesc = BufferDesc(slot: nat, content_length: nat, buffer_id: nat)

  const DOUBLE_BUFFERING := 2

  // ---------- chunks and overlays ----------

  /** The chunk of an object of the given size that starts at begin ends here. */
  function ChunkEnd(size: nat, chunk: nat, begin: nat): nat {
    if begin + chunk < size then begin + chunk else size
  }

  /** Two different multiples of chunk are at least chunk apart. */
  lemma ChunksApart(chunk: nat, a: nat, b: nat)
    requires chunk > 0 && a % chunk == 0 && b % chunk == 0 && a < b
    ensures a + chunk <= b
  {
    Indices.Split(a, chunk);
    Indices.Split(b, chunk);
    if b / chunk <= a / chunk {
      Indices.Monotone(b / chunk, a / chunk, chunk);
    } else {
      Indices.Monotone(a / chunk + 1, b / chunk, chunk);
      assert chunk * (a / chunk + 1) == chunk * (a / chunk) + chunk;
    }
  }

  /** Memory m with the cells c laid over it from position b on. */
  function Overlay(m: seq<Word>, b: nat, c: seq<Word>): (v: seq<Word>)
    ensures |v| == |m|
    ensures forall a :: 0 <= a < |m| ==> v[a] == if b <= a < b + |c| then c[a - b] else m[a]
  {
    seq(|m|, a requires 0 <= a < |m| => if b <= a < b + |c| then c[a - b] else m[a])
  }

  /** A device buffer cut or padded to n cells: what a transient object finds is whatever was there. */
  function Leftover(m: seq<Word>, n: nat): (v: seq<Word>)
    ensures |v| == n
  {
    seq(n, a requires 0 <= a < n => if a < |m| then m[a] else Label(0))
  }

  // ---------- one slot, one object ----------

  /** Slot s is empty, or holds a chunk of the only object that may use it. */
  ghost predicate GoodSlot(s: int, slot: Slot, objects: seq<ObjectInfo>, step: seq<nat>, host: seq<seq<Word>>,
                           zero_copy: bool)
    requires |objects| == |step| == |host|
  {
    var o, b := slot.object_id, slot.buffer_id;
    if o == -1 then b == 0 && slot.ptr == -1 && slot.length == 0
    else
      && 1 <= o < |objects| && s / DOUBLE_BUFFERING + 1 == o
      && Chunk(objects[o].size, step[o], b, b + slot.length) && slot.ptr == b
      && |host[o]| == objects[o].size
      && (!zero_copy ==> |slot.device| == slot.length)
      && (!zero_copy && objects[o].mode == ReadOnly ==> slot.device == host[o][b..b + slot.length])
  }

  /** The range [begin, end) is one of the chunks an object of the given size is cut into. */
  ghost predicate Chunk(size: nat, chunk: nat, begin: int, end: int) {
    && chunk > 0 && 0 <= begin < size && begin % chunk == 0 && end == ChunkEnd(size, chunk, begin)
  }

  /** Different chunks of an object do not overlap. */
  lemma ChunksDisjoint(size: nat, chunk: nat, b: int, e: int, c: int, f: int)
    requires Chunk(size, chunk, b, e) && Chunk(size, chunk, c, f) && b != c
    ensures e <= c || f <= b
  {
    if b < c {
      ChunksApart(chunk, b, c);
    } else {
      ChunksApart(chunk, c, b);
    }
  }

  /** Two slots do not hold the same chunk of object o. */
  ghost predicate Different(o: int, first: Slot, second: Slot) {
    first.object_id == o && second.object_id == o ==> first.buffer_id != second.buffer_id
  }

  /** Memory m of object o with what a slot has cached of it laid over. */
  ghost function Laid(m: seq<Word>, o: int, slot: Slot): (v: seq<Word>)
    ensures |v| == |m|
  {
    if slot.object_id == o then Overlay(m, slot.buffer_id, slot.device) else m
  }

  /** The value of object o: device content where a chunk that may be written is cached, host content elsewhere. */
  ghost function ValueOf(onDevice: bool, m: seq<Word>, o: int, first: Slot, second: Slot): (v: seq<Word>)
    ensures |v| == |m|
  {
    if onDevice then Laid(Laid(m, o, first), o, second) else m
  }

  /** A slot leaves every chunk that it does not hold alone. */
  lemma LaidBeside(m: seq<Word>, o: int, slot: Slot, from: nat, to: nat)
    requires from <= to <= |m|
    requires slot.object_id == o ==> to <= slot.buffer_id || slot.buffer_id + |slot.device| <= from
    ensures Laid(m, o, slot)[from..to] == m[from..to]
  {
  }

  /** Laying over what is there already changes nothing. */
  lemma LaidOfSame(m: seq<Word>, o: int, slot: Slot)
    requires slot.object_id == o ==>
               slot.buffer_id + |slot.device| <= |m|
               && m[slot.buffer_id..slot.buffer_id + |slot.device|] == slot.device
    ensures Laid(m, o, slot) == m
  {
  }

  /** What a slot holds shows in the value of its object, and writing it back to the host leaves that value. */
  lemma HeldShows(m: seq<Word>, o: int, first: Slot, second: Slot, slot: Slot)
    requires slot == first || slot == second
    requires slot.object_id == o && slot.buffer_id + |slot.device| <= |m|
    requires first.object_id == second.object_id == o ==>
               first.buffer_id + |first.device| <= second.buffer_id
                 || second.buffer_id + |second.device| <= first.buffer_id
    ensures ValueOf(true, m, o, first, second)[slot.buffer_id..slot.buffer_id + |slot.device|] == slot.device
    ensures ValueOf(true, Overlay(m, slot.buffer_id, slot.device), o, first, second) ==
            ValueOf(true, m, o, first, second)
    ensures Overlay(m, slot.buffer_id, slot.device)[slot.buffer_id..slot.buffer_id + |slot.device|] == slot.device
  {
    hide Overlay;
    var from, to, written := slot.buffer_id, slot.buffer_id + |slot.device|, Laid(m, o, slot);
    LaidShows(m, o, slot);
    if slot == first {
      LaidBeside(written, o, second, from, to);
      LaidOfSame(written, o, first);
    } else {
      LaidShows(Laid(m, o, first), o, second);
      LaidTwice(m, o, first, second);
    }
  }

  lemma LaidShows(m: seq<Word>, o: int, slot: Slot)
    requires slot.object_id == o && slot.buffer_id + |slot.device| <= |m|
    ensures Laid(m, o, slot)[slot.buffer_id..slot.buffer_id + |slot.device|] == slot.device
  {
  }

  lemma LaidTwice(m: seq<Word>, o: int, first: Slot, second: Slot)
    ensures Laid(Laid(Laid(m, o, second), o, first), o, second) == Laid(Laid(m, o, first), o, second)
  {
  }

  const EMPTY := Slot(-1, 0, -1, 0, [])

  /** The host has what a slot holds of object o, and the other slot holds something else. */
  ghost predicate Agrees(m: seq<Word>, o: int, slot: Slot, other: Slot) {
    && (slot.object_id == o ==>
          slot.buffer_id + |slot.device| <= |m|
          && m[slot.buffer_id..slot.buffer_id + |slot.device|] == slot.device)
    && (slot.object_id == other.object_id == o ==>
          slot.buffer_id + |slot.device| <= other.buffer_id || other.buffer_id + |other.device| <= slot.buffer_id)
  }

  /** Once the host has what a slot holds, the slot can be emptied; conversely an empty slot can take what the
      host has. */
  lemma SwapSlot(m: seq<Word>, o: int, slot: Slot, other: Slot)
    requires o != -1 && Agrees(m, o, slot, other)
    ensures ValueOf(true, m, o, slot, other) == Laid(m, o, other)
    ensures ValueOf(true, m, o, other, slot) == Laid(m, o, other)
  {
    hide Overlay;
    LaidOfSame(m, o, slot);
    if slot.object_id == o {
      LaidBeside(m, o, other, slot.buffer_id, slot.buffer_id + |slot.device|);
      LaidOfSame(Laid(m, o, other), o, slot);
    }
  }

  /** A kernel that rewrites the buffer of a slot rewrites just that chunk of the value. */
  lemma StoreShows(m: seq<Word>, o: int, first: Slot, second: Slot, b: nat, c: seq<Word>)
    requires b + |c| <= |m|
    requires second.object_id == o ==> b + |c| <= second.buffer_id || second.buffer_id + |second.device| <= b
    requires first.object_id == o && first.buffer_id == b && |first.device| == |c|
    ensures ValueOf(true, m, o, first.(device := c), second) == Overlay(ValueOf(true, m, o, first, second), b, c)
    ensures ValueOf(true, m, o, second, first.(device := c)) == Overlay(ValueOf(true, m, o, second, first), b, c)
  {
  }

  // ---------- locks ----------

  /** How often the chunk in a slot is locked. */
  ghost function Holding(holders: multiset<(int, nat)>, slot: Slot): nat {
    if slot.object_id == -1 then 0 else holders[(slot.object_id, slot.buffer_id)]
  }

  /** A lock is free exactly when nobody holds it, and a writer is alone. */
  ghost predicate GoodLock(lock: SlotLock, held: nat) {
    lock.count == held && (lock.status == Free <==> held == 0) && (lock.status == WriteLock ==> held == 1)
  }

  /** A lock with one reader more, and one that is given back. */
  function OneReaderMore(lock: SlotLock): SlotLock {
    SlotLock(ReadLock, lock.count + 1)
  }

  function OneHolderLess(lock: SlotLock): SlotLock {
    if lock.status == ReadLock && lock.count > 1 then SlotLock(ReadLock, lock.count - 1) else SlotLock(Free, 0)
  }

  ghost predicate IsIn(slots: seq<Slot>, s: int, o: int, b: int) {
    0 <= s < |slots| && o != -1 && slots[s].object_id == o && slots[s].buffer_id == b
  }

  /** The first of the two slots of object o. */
  function First(o: int): int {
    (o - 1) * DOUBLE_BUFFERING
  }

  /** Every lock counts the holders of its slot, and every lock that was handed out belongs to a slot. */
  ghost predicate LocksAgree(slots: seq<Slot>, locks: seq<SlotLock>, holders: multiset<(int, nat)>, objects: nat) {
    && |locks| == |slots|
    && (forall s :: 0 <= s < |slots| ==> GoodLock(locks[s], Holding(holders, slots[s])))
    && (forall h :: h in holders ==>
          1 <= h.0 < objects && (IsIn(slots, First(h.0), h.0, h.1) || IsIn(slots, First(h.0) + 1, h.0, h.1)))
  }

  /** Only slot s holds chunk (o, b). */
  ghost predicate OnlyIn(slots: seq<Slot>, s: int, o: int, b: int) {
    IsIn(slots, s, o, b) && forall t :: IsIn(slots, t, o, b) ==> t == s
  }

  lemma Acquire(slots: seq<Slot>, locks: seq<SlotLock>, holders: multiset<(int, nat)>, objects: nat,
                s: nat, o: int, b: nat, lock: SlotLock)
    requires LocksAgree(slots, locks, holders, objects) && OnlyIn(slots, s, o, b) && 1 <= o < objects
    requires s == First(o) || s == First(o) + 1
    requires GoodLock(lock, holders[(o, b)] + 1)
    ensures LocksAgree(slots, locks[s := lock], holders + multiset{(o, b)}, objects)
  {
    forall t | 0 <= t < |slots|
      ensures GoodLock(locks[s := lock][t], Holding(holders + multiset{(o, b)}, slots[t]))
    {
      if t != s {
        assert !IsIn(slots, t, o, b);
      }
    }
  }

  lemma Release(slots: seq<Slot>, locks: seq<SlotLock>, holders: multiset<(int, nat)>, objects: nat,
                s: nat, o: int, b: nat, lock: SlotLock)
    requires LocksAgree(slots, locks, holders, objects) && OnlyIn(slots, s, o, b) && holders[(o, b)] > 0
    requires GoodLock(lock, holders[(o, b)] - 1)
    ensures LocksAgree(slots, locks[s := lock], holders - multiset{(o, b)}, objects)
  {
    forall t | 0 <= t < |slots|
      ensures GoodLock(locks[s := lock][t], Holding(holders - multiset{(o, b)}, slots[t]))
    {
      if t != s {
        assert !IsIn(slots, t, o, b);
      }
    }
  }

  /** A slot that nobody holds may change its content, as long as nobody waits for the new content elsewhere. */
  lemma Refill(slots: seq<Slot>, locks: seq<SlotLock>, holders: multiset<(int, nat)>, objects: nat, s: nat, slot: Slot)
    requires LocksAgree(slots, locks, holders, objects) && s < |slots|
    requires Holding(holders, slots[s]) == 0 && Holding(holders, slot) == 0
    ensures LocksAgree(slots[s := slot], locks, holders, objects)
  {
    var now := slots[s := slot];
    forall h | h in holders
      ensures IsIn(now, First(h.0), h.0, h.1) || IsIn(now, First(h.0) + 1, h.0, h.1)
    {
      var t := if IsIn(slots, First(h.0), h.0, h.1) then First(h.0) else First(h.0) + 1;
      assert IsIn(slots, t, h.0, h.1);
      assert t != s;
      assert IsIn(now, t, h.0, h.1);
    }
  }

  /** A locked slot keeps its content and stays locked. */
  ghost predicate LockedStay(slots: seq<Slot>, locks: seq<SlotLock>, slots': seq<Slot>, locks': seq<SlotLock>) {
    && |slots| == |locks| == |slots'| == |locks'|
    && forall s :: 0 <= s < |slots| && locks[s].status != Free ==> slots'[s] == slots[s] && locks'[s].status != Free
  }

  lemma LockedStayOn(slots: seq<Slot>, locks: seq<SlotLock>, slots': seq<Slot>, locks': seq<SlotLock>,
                     slots'': seq<Slot>, locks'': seq<SlotLock>)
    requires LockedStay(slots, locks, slots', locks') && LockedStay(slots', locks', slots'', locks'')
    ensures LockedStay(slots, locks, slots'', locks'')
  {
  }

  /** A free slot is locked for writing and filled with a chunk that was not cached. */
  lemma TakeNew(before: seq<Slot>, locks: seq<SlotLock>, holders: multiset<(int, nat)>, objects: nat,
                s: nat, o: int, b: nat, after: seq<Slot>)
    requires LocksAgree(before, locks, holders, objects) && s < |before| && locks[s].status == Free
    requires forall t :: 0 <= t < |before| ==> !IsIn(before, t, o, b)
    requires |after| == |before| && after == before[s := after[s]] && OnlyIn(after, s, o, b) && 1 <= o < objects
    requires s == First(o) || s == First(o) + 1
    ensures LocksAgree(after, locks[s := SlotLock(WriteLock, 1)], holders + multiset{(o, b)}, objects)
  {
    assert GoodLock(locks[s], Holding(holders, before[s]));
    assert (o, b) !in holders;
    Refill(before, locks, holders, objects, s, after[s]);
    Acquire(after, locks, holders, objects, s, o, b, SlotLock(WriteLock, 1));
  }

  class SimpleBufferCache {
    /** The largest range that one slot can hold. */
    const buffer_size: nat
    /** On a CPU a device buffer is the host memory itself. */
    const zero_copy: bool
    const num_slots: nat

    var objects: seq<ObjectInfo>
    /** The memory of the objects, by object id. */
    var host: seq<seq<Word>>
    var slots: seq<Slot>
    var slot_lock: seq<SlotLock>

    /** The chunk size each object is used with. */
    ghost var step: seq<nat>
    /** The locks handed out by get and not yet returned to unlock: (object, buffer id). */
    ghost var holders: multiset<(int, nat)>

    // ---------- invariant ----------

    ghost predicate IsObject(o: int)
      reads this`objects
    {
      1 <= o < |objects|
    }

    ghost predicate Shape()
      reads this`objects, this`host, this`step, this`slots
    {
      && |slots| == num_slots && |host| == |objects| == |step| && |objects| >= 1
      && DOUBLE_BUFFERING * (|objects| - 1) <= num_slots
      && forall o :: IsObject(o) ==> |host[o]| == objects[o].size && 0 < step[o] <= buffer_size
    }

    /** Slots hold whole chunks of their own objects, and none is cached twice. */
    ghost predicate Data()
      reads this`objects, this`host, this`step, this`slots
    {
      && Shape()
      && (forall s :: 0 <= s < num_slots ==> GoodSlot(s, slots[s], objects, step, host, zero_copy))
      && (forall o :: IsObject(o) ==> Different(o, slots[First(o)], slots[First(o) + 1]))
    }

    /** Every lock counts the holders of its slot, and every lock that was handed out belongs to a slot. */
    ghost predicate Locks()
      reads this`objects, this`slots, this`slot_lock, this`holders
    {
      LocksAgree(slots, slot_lock, holders, |objects|)
    }

    ghost predicate Valid()
      reads this
    {
      Data() && |slot_lock| == |slots| && Locks()
    }

    /** The memory the cache stands for: the current value of object o. */
    ghost function View(o: int): (v: seq<Word>)
      requires Shape() && IsObject(o)
      reads this`objects, this`host, this`step, this`slots
      ensures |v| == objects[o].size
    {
      ValueOf(!zero_copy && objects[o].mode == ReadWrite, host[o], o, slots[First(o)], slots[First(o) + 1])
    }

    /** What a kernel finds in the device buffer of slot s. */
    ghost function Content(s: int): seq<Word>
      requires Data() && 0 <= s < num_slots && slots[s].object_id != -1
      reads this`objects, this`host, this`step, this`slots
    {
      var slot := slots[s];
      assert GoodSlot(s, slot, objects, step, host, zero_copy);
      if zero_copy then host[slot.object_id][slot.buffer_id..slot.buffer_id + slot.length] else slot.device
    }

    ghost predicate InObject(o: int, begin: int)
      reads this`objects
    {
      IsObject(o) && 0 <= begin < objects[o].size
    }

    /** The range [begin, end) is a whole chunk of object o. */
    ghost predicate IsChunk(o: int, begin: int, end: int)
      reads this`objects, this`step
    {
      IsObject(o) && |step| == |objects| && Chunk(objects[o].size, step[o], begin, end)
    }

    /** Slot s holds part of object o: it is one of the two slots of o, and disjoint from the other. */
    lemma OwnSlots(s: int, o: int)
      requires Data() && 0 <= s < num_slots && slots[s].object_id == o != -1
      ensures IsObject(o) && (s == First(o) || s == First(o) + 1)
      ensures slots[s].buffer_id + slots[s].length <= objects[o].size
      ensures GoodSlot(s, slots[s], objects, step, host, zero_copy)
      ensures forall t :: t == First(o) || t == First(o) + 1 ==>
                GoodSlot(t, slots[t], objects, step, host, zero_copy)
                && (t != s && slots[t].object_id == o ==>
                      slots[s].buffer_id + slots[s].length <= slots[t].buffer_id
                      || slots[t].buffer_id + slots[t].length <= slots[s].buffer_id)
    {
      assert GoodSlot(s, slots[s], objects, step, host, zero_copy);
      var t := if s == First(o) then s + 1 else s - 1;
      assert GoodSlot(t, slots[t], objects, step, host, zero_copy);
      assert Different(o, slots[First(o)], slots[First(o) + 1]);
      if slots[t].object_id == o {
        var a, b := slots[s], slots[t];
        ChunksDisjoint(objects[o].size, step[o], a.buffer_id, a.buffer_id + a.length, b.buffer_id,
                       b.buffer_id + b.length);
      }
    }

    /** The device buffer of a slot agrees with the value of its object, except for transient objects. */
    lemma ContentIsView(s: int)
      requires Data() && 0 <= s < num_slots && slots[s].object_id != -1
      requires IsObject(slots[s].object_id) && objects[slots[s].object_id].mode != Transient
      ensures var slot := slots[s];
              && slot.buffer_id + slot.length <= objects[slot.object_id].size
              && Content(s) == View(slot.object_id)[slot.buffer_id..slot.buffer_id + slot.length]
    {
      hide ValueOf, Chunk, Different, ChunkEnd;
      var o := slots[s].object_id;
      OwnSlots(s, o);
      if !zero_copy && objects[o].mode == ReadWrite {
        HeldShows(host[o], o, slots[First(o)], slots[First(o) + 1], slots[s]);
      } else {
        assert View(o) == host[o] by {
          ValueOnHost(host[o], o, slots[First(o)], slots[First(o) + 1]);
        }
      }
    }

    static lemma EmptyIsGood(s: int, slot: Slot, objects: seq<ObjectInfo>, step: seq<nat>, host: seq<seq<Word>>,
                             zc: bool)
      requires |objects| == |step| == |host|
      requires slot.object_id == -1 && slot.buffer_id == 0 && slot.ptr == -1 && slot.length == 0
      ensures GoodSlot(s, slot, objects, step, host, zc)
    {
    }

    static lemma ValueOnHost(m: seq<Word>, o: int, first: Slot, second: Slot)
      ensures ValueOf(false, m, o, first, second) == m
    {
    }

    /** Two fillings of a slot that the host agrees with give an object the same value. */
    static lemma SameValue(onDevice: bool, m: seq<Word>, o: int, a: Slot, b: Slot, other: Slot)
      requires o != -1
      requires onDevice ==> Agrees(m, o, a, other) && Agrees(m, o, b, other)
      ensures ValueOf(onDevice, m, o, a, other) == ValueOf(onDevice, m, o, b, other)
      ensures ValueOf(onDevice, m, o, other, a) == ValueOf(onDevice, m, o, other, b)
    {
      if onDevice {
        SwapSlot(m, o, a, other);
        SwapSlot(m, o, b, other);
      } else {
        ValueOnHost(m, o, a, other);
        ValueOnHost(m, o, b, other);
        ValueOnHost(m, o, other, a);
        ValueOnHost(m, o, other, b);
      }
    }

    static lemma FilledIsGood(s: int, slot: Slot, objects: seq<ObjectInfo>, step: seq<nat>, host: seq<seq<Word>>,
                              zc: bool)
      requires |objects| == |step| == |host|
      requires var o, b := slot.object_id, slot.buffer_id;
               && 1 <= o < |objects| && s / DOUBLE_BUFFERING + 1 == o
               && Chunk(objects[o].size, step[o], b, b + slot.length) && slot.ptr == b && |host[o]| == objects[o].size
               && (!zc ==> |slot.device| == slot.length)
               && (!zc && objects[o].mode == ReadOnly ==> slot.device == host[o][b..b + slot.length])
      ensures GoodSlot(s, slot, objects, step, host, zc)
    {
    }

    // ---------- set-up ----------

    /** A cache with one device, whose pool is large enough to be accepted. */
    constructor (buffer_size: nat, cpu: bool, pool_size: nat)
      requires buffer_size > 0 && pool_size > buffer_size * DOUBLE_BUFFERING
      ensures Valid() && holders == multiset{} && objects == [ObjectInfo(0, ReadOnly)] && step == [1]
      ensures this.buffer_size == buffer_size && zero_copy == cpu && num_slots == pool_size / buffer_size
      ensures forall s :: 0 <= s < |slots| ==> slots[s].object_id == -1
    {
      this.buffer_size := buffer_size;
      zero_copy := cpu;
      var n := pool_size / buffer_size;
      num_slots := n;
      objects := [ObjectInfo(0, ReadOnly)];
      host := [[]];
      slots := seq(n, i => EMPTY);
      slot_lock := seq(n, i => SlotLock(Free, 0));
      step := [1];
      holders := multiset{};
    }

    /** Object ids are handed out in order; the caller must leave two slots for every object. */
    method AddObject(data: seq<Word>, mode: ObjectMode, ghost chunk: nat) returns (oid: nat)
      requires Valid() && DOUBLE_BUFFERING * |objects| <= num_slots && 0 < chunk <= buffer_size
      modifies this`objects, this`host, this`step
      ensures Valid()
      ensures oid == |old(objects)| && objects == old(objects) + [ObjectInfo(|data|, mode)]
      ensures step == old(step) + [chunk] && host == old(host) + [data]
      ensures View(oid) == data && forall o :: old(IsObject(o)) ==> View(o) == old(View(o))
    {
      hide Overlay, Chunk, ValueOf, GoodLock, Holding;
      oid := |objects|;
      objects := objects + [ObjectInfo(|data|, mode)];
      host := host + [data];
      step := step + [chunk];
      hide GoodSlot, Different;
      forall s | 0 <= s < num_slots
        ensures GoodSlot(s, slots[s], objects, step, host, zero_copy)
        ensures slots[s].object_id != oid
      {
        GoodSlotGrows(s, slots[s], old(objects), old(step), old(host), zero_copy, objects[oid], chunk, data);
      }
      EmptyShowsNothing(data, oid, slots[First(oid)], slots[First(oid) + 1], !zero_copy && mode == ReadWrite);
    }

    static lemma GoodSlotGrows(s: int, slot: Slot, objects: seq<ObjectInfo>, step: seq<nat>, host: seq<seq<Word>>,
                               zc: bool, info: ObjectInfo, chunk: nat, data: seq<Word>)
      requires |objects| == |step| == |host| && GoodSlot(s, slot, objects, step, host, zc)
      ensures GoodSlot(s, slot, objects + [info], step + [chunk], host + [data], zc)
      ensures slot.object_id < |objects|
    {
    }

    static lemma EmptyShowsNothing(m: seq<Word>, o: int, first: Slot, second: Slot, onDevice: bool)
      requires first.object_id != o && second.object_id != o
      ensures ValueOf(onDevice, m, o, first, second) == m
    {
    }

    // ---------- look-up ----------

    method FindBufferId(oid: int, begin: int) returns (ret: int, buffer_id: nat)
      requires Shape()
      ensures if InObject(oid, begin) then ret == 1 && buffer_id == begin else ret == -1 && buffer_id == 0
    {
      if oid <= 0 || oid >= |objects| || begin < 0 || begin >= objects[oid].size {
        return -1, 0;
      }
      return 1, begin;
    }

    method FindCacheSlot(oid: int, buffer_id: nat) returns (slot: int)
      requires Shape()
      ensures slot >= 0 ==> slot < num_slots && IsIn(slots, slot, oid, buffer_id)
      ensures slot < 0 ==> slot == -1 || slot == -2
      ensures slot == -1 ==> !InObject(oid, buffer_id)
      ensures slot == -2 ==> IsObject(oid) && forall s :: 0 <= s < num_slots ==> !IsIn(slots, s, oid, buffer_id)
    {
      if oid <= 0 || oid >= |objects| || buffer_id >= objects[oid].size + buffer_size - 1 {
        return -1;
      }
      for i := 0 to |slots|
        invariant forall s :: 0 <= s < i ==> !IsIn(slots, s, oid, buffer_id)
      {
        if slots[i].object_id == oid && slots[i].buffer_id == buffer_id {
          return i;
        }
      }
      return -2;
    }

    /** The first of the two slots of an object, unless it is locked. */
    ghost function FreeSlot(oid: int): int
      requires Shape() && |slot_lock| == num_slots && IsObject(oid)
      reads this
    {
      if slot_lock[First(oid)].status == Free then First(oid) else First(oid) + 1
    }

    /** The slot that get hands out: the one the chunk is cached in, or a free one. */
    ghost function Choice(oid: int, begin: int): int
      requires Shape() && |slot_lock| == num_slots && IsObject(oid)
      reads this
    {
      if IsIn(slots, First(oid), oid, begin) then First(oid)
      else if IsIn(slots, First(oid) + 1, oid, begin) then First(oid) + 1
      else FreeSlot(oid)
    }

    method AssignCacheSlot(oid: nat) returns (slot: int)
      requires Shape() && |slot_lock| == num_slots && IsObject(oid)
      ensures slot >= 0 ==>
                slot < num_slots && (slot == First(oid) || slot == First(oid) + 1) && slot_lock[slot].status == Free
      ensures slot >= 0 ==> slot == FreeSlot(oid)
      ensures slot < 0 ==>
                slot == -1 && slot_lock[First(oid)].status != Free && slot_lock[First(oid) + 1].status != Free
    {
      var base_slot := (oid - 1) * DOUBLE_BUFFERING;
      slot := if slot_lock[base_slot].status == Free then base_slot else base_slot + 1;
      if slot_lock[slot].status != Free {
        slot := -1;
      }
    }

    // ---------- locks ----------

    method TryReadLock(slot: nat) returns (ret: int)
      requires |slot_lock| == num_slots
      modifies this`slot_lock
      ensures slot >= num_slots || old(slot_lock[slot].status) == WriteLock ==> ret == -1 && slot_lock == old(slot_lock)
      ensures slot < num_slots && old(slot_lock[slot].status) != WriteLock ==>
                ret == 1 && slot_lock == old(slot_lock)[slot :=
                  SlotLock(ReadLock, if old(slot_lock[slot].status) == Free then 1 else old(slot_lock[slot].count) + 1)]
    {
      if slot >= num_slots {
        return -1;
      }
      var lock := slot_lock[slot];
      if lock.status == Free {
        slot_lock := slot_lock[slot := SlotLock(ReadLock, 1)];
        return 1;
      } else if lock.status == ReadLock {
        slot_lock := slot_lock[slot := lock.(count := lock.count + 1)];
        return 1;
      } else {
        return -1;
      }
    }

    method TryWriteLock(slot: nat) returns (ret: int)
      requires |slot_lock| == num_slots
      modifies this`slot_lock
      ensures slot >= num_slots || old(slot_lock[slot].status) != Free ==> ret == -1 && slot_lock == old(slot_lock)
      ensures slot < num_slots && old(slot_lock[slot].status) == Free ==>
                ret == 1 && slot_lock == old(slot_lock)[slot := SlotLock(WriteLock, 1)]
    {
      if slot >= num_slots {
        return -1;
      }
      if slot_lock[slot].status == Free {
        slot_lock := slot_lock[slot := SlotLock(WriteLock, 1)];
        return 1;
      } else {
        return -1;
      }
    }

    // ---------- write-back ----------

    /** Where no slot holds a chunk, the host has its current value. */
    lemma NotCached(oid: int, begin: int, end: int)
      requires Data() && IsChunk(oid, begin, end)
      requires forall s :: 0 <= s < num_slots ==> !IsIn(slots, s, oid, begin)
      ensures end <= objects[oid].size && host[oid][begin..end] == View(oid)[begin..end]
    {
      hide Overlay, Laid;
      var f := First(oid);
      Elsewhere(f, oid, begin, end);
      Elsewhere(f + 1, oid, begin, end);
      if !zero_copy {
        LaidBeside(host[oid], oid, slots[f], begin, end);
        LaidBeside(Laid(host[oid], oid, slots[f]), oid, slots[f + 1], begin, end);
      }
    }

    /** A slot that does not hold a chunk does not overlap it. */
    lemma Elsewhere(s: int, oid: int, begin: int, end: int)
      requires Data() && IsChunk(oid, begin, end) && 0 <= s < num_slots && !IsIn(slots, s, oid, begin)
      ensures begin < end <= objects[oid].size
      ensures slots[s].object_id == oid ==>
                (end <= slots[s].buffer_id || slots[s].buffer_id + slots[s].length <= begin)
                && (!zero_copy ==> |slots[s].device| == slots[s].length)
    {
      var slot := slots[s];
      assert GoodSlot(s, slot, objects, step, host, zero_copy);
      if slot.object_id == oid {
        ChunksDisjoint(objects[oid].size, step[oid], begin, end, slot.buffer_id, slot.buffer_id + slot.length);
      }
    }

    /** Copies the device buffer of a slot to where its chunk lies on the host. */
    method WriteBack(oid: int, s: nat)
      requires Data() && !zero_copy && s < num_slots && slots[s].object_id == oid && IsObject(oid)
      requires objects[oid].mode == ReadWrite
      modifies this`host
      ensures Data()
      ensures host == old(host)[oid := Overlay(old(host)[oid], slots[s].buffer_id, slots[s].device)]
      ensures forall o :: IsObject(o) ==> View(o) == old(View(o))
      ensures var b, n := slots[s].buffer_id, slots[s].length;
              b + n <= objects[oid].size && host[oid][b..b + n] == slots[s].device == View(oid)[b..b + n]
    {
      hide Overlay, Chunk, ValueOf;
      OwnSlots(s, oid);
      HeldShows(host[oid], oid, slots[First(oid)], slots[First(oid) + 1], slots[s]);
      host := host[oid := Overlay(host[oid], slots[s].buffer_id, slots[s].device)];
      forall t | 0 <= t < num_slots
        ensures GoodSlot(t, slots[t], objects, step, host, zero_copy)
      {
        assert GoodSlot(t, slots[t], objects, step, old(host), zero_copy);
      }
    }

    /** Brings the host up to date with a cached chunk. */
    method Read(oid: int, begin: int, end: int) returns (ret: int)
      requires Data()
      requires InObject(oid, begin) ==> IsChunk(oid, begin, end)
      modifies this`host
      ensures Data()
      ensures forall o :: IsObject(o) ==> View(o) == old(View(o))
      ensures end < begin || end - begin > buffer_size ==> ret == -1
      ensures begin <= end <= begin + buffer_size && !InObject(oid, begin) ==> ret == 0
      ensures InObject(oid, begin) ==>
                ret == 1 && end <= objects[oid].size
                && (objects[oid].mode != Transient ==> host[oid][begin..end] == View(oid)[begin..end])
      ensures forall o :: IsObject(o) && (o != oid || objects[o].mode != ReadWrite) ==> host[o] == old(host)[o]
      ensures forall a :: InObject(oid, a) && (a < begin || end <= a) ==> host[oid][a] == old(host)[oid][a]
    {
      hide ValueOf, Overlay, Different;
      if end < begin || end - begin > buffer_size {
        return -1;
      }
      var size := end - begin;
      var found, buffer_id := FindBufferId(oid, begin);
      if found < 0 {
        return buffer_id;
      }
      var mode := objects[oid].mode;
      if mode == ReadOnly || mode == Transient {
        ValueOnHost(host[oid], oid, slots[First(oid)], slots[First(oid) + 1]);
        return 1;
      }
      var slot := FindCacheSlot(oid, buffer_id);
      if slot == -2 {
        NotCached(oid, begin, end);
        return 1;
      }
      assert GoodSlot(slot, slots[slot], objects, step, host, zero_copy);
      if slots[slot].length > size {
        return -1;
      }
      if !zero_copy {
        WriteBack(oid, slot);
      } else {
        ValueOnHost(host[oid], oid, slots[First(oid)], slots[First(oid) + 1]);
      }
      return 1;
    }

    /** Overwrites the entry of slot s of object p without changing the value of p. */
    method SetSlot(s: nat, p: int, slot: Slot)
      requires Data() && s < num_slots && IsObject(p) && (s == First(p) || s == First(p) + 1)
      requires GoodSlot(s, slot, objects, step, host, zero_copy)
      requires var other := slots[if s == First(p) then s + 1 else s - 1];
               var onDevice := !zero_copy && objects[p].mode == ReadWrite;
               && Different(p, slot, other)
               && ValueOf(onDevice, host[p], p, slot, other) == ValueOf(onDevice, host[p], p, slots[s], other)
               && ValueOf(onDevice, host[p], p, other, slot) == ValueOf(onDevice, host[p], p, other, slots[s])
      modifies this`slots
      ensures Data() && slots == old(slots)[s := slot]
      ensures forall o :: IsObject(o) ==> View(o) == old(View(o))
    {
      hide ValueOf, GoodSlot;
      slots := slots[s := slot];
      forall o | IsObject(o)
        ensures Different(o, slots[First(o)], slots[First(o) + 1]) && View(o) == old(View(o))
      {
        assert Different(o, old(slots)[First(o)], old(slots)[First(o) + 1]);
      }
    }

    // ---------- eviction ----------

    /** Forgets what a slot holds; the host must be up to date with it. */
    method ClearSlot(s: nat)
      requires Data() && s < num_slots && slots[s].object_id != -1 && IsObject(slots[s].object_id)
      requires var slot := slots[s];
               !zero_copy && objects[slot.object_id].mode == ReadWrite ==>
                 slot.buffer_id + slot.length <= |host[slot.object_id]|
                 && host[slot.object_id][slot.buffer_id..slot.buffer_id + slot.length] == slot.device
      modifies this`slots
      ensures Data()
      ensures slots == old(slots)[s := EMPTY.(device := old(slots)[s].device)]
      ensures forall o :: IsObject(o) ==> View(o) == old(View(o))
    {
      hide Overlay, Chunk, ValueOf;
      var slot := slots[s];
      var o := slot.object_id;
      OwnSlots(s, o);
      var other := slots[if s == First(o) then s + 1 else s - 1];
      var cleared := slot.(object_id := -1, buffer_id := 0, ptr := -1, length := 0);
      SameValue(!zero_copy && objects[o].mode == ReadWrite, host[o], o, slot, cleared, other);
      EmptyIsGood(s, cleared, objects, step, host, zero_copy);
      SetSlot(s, o, cleared);
    }

    method EvictCacheSlot(s: nat) returns (ret: int)
      requires Data() && s < num_slots
      modifies this`host, this`slots
      ensures ret == 1
      ensures Data() && slots[s].object_id == -1 && slots == old(slots)[s := slots[s]]
      ensures forall o :: IsObject(o) ==> View(o) == old(View(o))
    {
      hide Chunk, ValueOf;
      var object_id, buffer_id, ptr := slots[s].object_id, slots[s].buffer_id, slots[s].ptr;
      assert GoodSlot(s, slots[s], objects, step, host, zero_copy);
      if object_id == -1 && buffer_id == 0 && ptr == -1 {
        return 1;
      }
      if objects[object_id].mode == ReadOnly || objects[object_id].mode == Transient {
        ClearSlot(s);
        return 1;
      }
      if !zero_copy {
        var back := Read(object_id, ptr, ptr + slots[s].length);
        ContentIsView(s);
        if back < 0 {
          return -1;
        }
      }
      ClearSlot(s);
      return 1;
    }

    // ---------- getting a buffer ----------

    /** Puts a chunk into an empty slot. */
    method Install(s: nat, oid: int, begin: nat, size: nat)
      requires Data() && s < num_slots && slots[s].object_id == -1 && IsObject(oid)
      requires s == First(oid) || s == First(oid) + 1
      requires IsChunk(oid, begin, begin + size)
      requires forall t :: 0 <= t < num_slots ==> !IsIn(slots, t, oid, begin)
      modifies this`slots
      ensures Data() && IsIn(slots, s, oid, begin) && slots == old(slots)[s := slots[s]] && slots[s].length == size
      ensures forall o :: IsObject(o) ==> View(o) == old(View(o))
    {
      hide Overlay, ValueOf, ChunkEnd, Laid, GoodSlot;
      var m := host[oid];
      var was, other := slots[s], slots[if s == First(oid) then s + 1 else s - 1];
      Elsewhere(s, oid, begin, begin + size);
      Elsewhere(if s == First(oid) then s + 1 else s - 1, oid, begin, begin + size);
      var device := if zero_copy then was.device
                    else if objects[oid].mode == Transient then Leftover(was.device, size)
                    else m[begin..begin + size];
      var slot := Slot(oid, begin, begin, size, device);
      SameValue(!zero_copy && objects[oid].mode == ReadWrite, m, oid, was, slot, other);
      FilledIsGood(s, slot, objects, step, host, zero_copy);
      assert Different(oid, slot, other);
      SetSlot(s, oid, slot);
    }

    /** One of the two slots of an object is free. */
    ghost predicate CanAssign(oid: int)
      requires Shape() && |slot_lock| == num_slots && IsObject(oid)
      reads this
    {
      slot_lock[First(oid)].status == Free || slot_lock[First(oid) + 1].status == Free
    }

    /** The buffer that a successful call hands out. */
    ghost predicate HandsOut(oid: int, begin: int, end: int, buffers: seq<BufferDesc>)
      reads this`slots
    {
      && |buffers| == 1 && begin >= 0 && end >= begin
      && buffers[0].buffer_id == begin && buffers[0].content_length == end - begin
      && IsIn(slots, buffers[0].slot, oid, begin)
    }

    /** Nothing is cached twice. */
    lemma NotTwice(s: int, o: int, b: int)
      requires Data() && IsIn(slots, s, o, b)
      ensures OnlyIn(slots, s, o, b) && IsObject(o) && (s == First(o) || s == First(o) + 1)
    {
      hide GoodSlot, Chunk;
      OwnSlots(s, o);
      forall t | IsIn(slots, t, o, b)
        ensures t == s
      {
        OwnSlots(t, o);
        assert Different(o, slots[First(o)], slots[First(o) + 1]);
      }
    }

    /** Reached through a miss only: called directly it could cache a chunk twice. */
    method WriteAndGet(oid: int, begin: int, end: int) returns (ret: int, buffers: seq<BufferDesc>)
      requires Valid()
      requires InObject(oid, begin) ==> IsChunk(oid, begin, end)
      requires forall s :: 0 <= s < num_slots ==> !IsIn(slots, s, oid, begin)
      modifies this`host, this`slots, this`slot_lock, this`holders
      ensures Valid()
      ensures forall o :: IsObject(o) ==> View(o) == old(View(o))
      ensures ret == 1 <==> begin <= end <= begin + buffer_size && InObject(oid, begin) && old(CanAssign(oid))
      ensures ret == 1 ==> HandsOut(oid, begin, end, buffers) && holders == old(holders) + multiset{(oid, begin)}
      ensures ret == 1 ==> old(IsObject(oid)) && buffers[0].slot == old(FreeSlot(oid))
                           && slots == old(slots)[buffers[0].slot := slots[buffers[0].slot]]
      ensures ret == 1 ==> slot_lock == old(slot_lock)[buffers[0].slot := SlotLock(WriteLock, 1)]
      ensures ret != 1 ==> ret == -1 && unchanged(this) && buffers == []
      ensures LockedStay(old(slots), old(slot_lock), slots, slot_lock)
    {
      hide ValueOf, GoodSlot, Different, Chunk, Holding, LocksAgree, OnlyIn;
      buffers := [];
      if end < begin || end - begin > buffer_size {
        return -1, [];
      }
      var size := end - begin;
      var found, buffer_id := FindBufferId(oid, begin);
      if found < 0 {
        return -1, [];
      }
      var s := AssignCacheSlot(oid);
      if s < 0 {
        return -1, [];
      }
      var locked := TryWriteLock(s);
      if locked != 1 {
        return -1, [];
      }
      var evicted := EvictCacheSlot(s);
      if evicted < 0 {
        return -1, [];
      }
      assert forall t :: IsIn(slots, t, oid, begin) ==> IsIn(old(slots), t, oid, begin);
      Install(s, oid, buffer_id, size);
      buffers := [BufferDesc(s, size, buffer_id)];
      ret := 1;
      NotTwice(s, oid, begin);
      TakeNew(old(slots), old(slot_lock), holders, |objects|, s, oid, begin, slots);
      holders := holders + multiset{(oid, begin)};
    }

    /** Whether get can lock a slot for this chunk: the one it is cached in, or a free one. */
    ghost predicate CanGet(oid: int, begin: int)
      requires Shape() && |slot_lock| == num_slots && IsObject(oid)
      reads this
    {
      if IsIn(slots, First(oid), oid, begin) then slot_lock[First(oid)].status != WriteLock
      else if IsIn(slots, First(oid) + 1, oid, begin) then slot_lock[First(oid) + 1].status != WriteLock
      else CanAssign(oid)
    }

    /** A locked device buffer with the chunk [begin, end) of an object. */
    method Get(oid: int, begin: int, end: int) returns (ret: int, buffers: seq<BufferDesc>)
      requires Valid()
      requires InObject(oid, begin) ==> IsChunk(oid, begin, end)
      modifies this`host, this`slots, this`slot_lock, this`holders
      ensures Valid()
      ensures forall o :: IsObject(o) ==> View(o) == old(View(o))
      ensures ret == 1 <==> begin <= end <= begin + buffer_size && InObject(oid, begin) && old(CanGet(oid, begin))
      ensures ret == 1 ==> HandsOut(oid, begin, end, buffers) && holders == old(holders) + multiset{(oid, begin)}
      ensures ret == 1 ==> old(IsObject(oid)) && buffers[0].slot == old(Choice(oid, begin))
                           && slots == old(slots)[buffers[0].slot := slots[buffers[0].slot]]
      ensures ret == 1 ==>
                var s := buffers[0].slot;
                slot_lock ==
                  old(slot_lock)[s := if IsIn(old(slots), s, oid, begin) then OneReaderMore(old(slot_lock)[s])
                                                 else SlotLock(WriteLock, 1)]
      ensures ret != 1 ==> unchanged(this) && buffers == []
      ensures ret != 1 ==> ret == if begin <= end <= begin + buffer_size && !InObject(oid, begin) then 0 else -1
      ensures LockedStay(old(slots), old(slot_lock), slots, slot_lock)
    {
      hide ValueOf, GoodSlot, Different, Chunk, Holding, LocksAgree;
      buffers := [];
      if end < begin || end - begin > buffer_size {
        return -1, [];
      }
      var size := end - begin;
      var found, buffer_id := FindBufferId(oid, begin);
      if found < 0 {
        return buffer_id, [];
      }
      var s := FindCacheSlot(oid, buffer_id);
      if s == -2 {
        ret, buffers := WriteAndGet(oid, begin, end);
        return;
      }
      NotTwice(s, oid, begin);
      HeldLock(s, oid, begin);
      var locked := TryReadLock(s);
      if locked < 0 {
        return -1, [];
      }
      Acquire(slots, old(slot_lock), holders, |objects|, s, oid, begin, slot_lock[s]);
      holders := holders + multiset{(oid, begin)};
      return 1, [BufferDesc(s, size, buffer_id)];
    }

    /** The lock of the slot of a chunk counts the holders of that chunk. */
    lemma HeldLock(s: int, o: int, b: int)
      requires Valid() && IsIn(slots, s, o, b)
      ensures GoodLock(slot_lock[s], holders[(o, b)])
    {
      assert GoodLock(slot_lock[s], Holding(holders, slots[s]));
    }

    /** A chunk that somebody holds is in a slot. */
    lemma HeldIsCached(o: int, b: int)
      requires Valid() && (o, b) in holders
      ensures InObject(o, b) && (IsIn(slots, First(o), o, b) || IsIn(slots, First(o) + 1, o, b))
    {
      var h := (o, b);
      assert h in holders;
      var s := if IsIn(slots, First(o), o, b) then First(o) else First(o) + 1;
      OwnSlots(s, o);
    }

    /** Returns a lock that get handed out. */
    method Unlock(oid: int, buffers: seq<BufferDesc>) returns (ret: int)
      requires Valid()
      modifies this`slot_lock, this`holders
      ensures Valid()
      ensures ret == 1 <==> |buffers| == 1 && (oid, buffers[0].buffer_id as int) in old(holders)
      ensures ret == 1 ==> holders == old(holders) - multiset{(oid, buffers[0].buffer_id as int)}
      ensures ret == 1 ==>
                exists s :: IsIn(slots, s, oid, buffers[0].buffer_id) && s < |old(slot_lock)|
                            && slot_lock == old(slot_lock)[s := OneHolderLess(old(slot_lock)[s])]
      ensures ret != 1 ==> ret == -1 && unchanged(this)
    {
      hide ValueOf, GoodSlot, Different, Chunk, Holding, LocksAgree;
      if |buffers| == 0 {
        return -1;
      } else if |buffers| > 1 {
        return -1;
      }
      var b: nat := buffers[0].buffer_id;
      if (oid, b as int) in holders {
        HeldIsCached(oid, b);
      }
      var s := FindCacheSlot(oid, b);
      if s < 0 {
        return -1;
      }
      NotTwice(s, oid, b);
      HeldLock(s, oid, b);
      var lock := slot_lock[s];
      if lock.status == ReadLock {
        if lock.count == 1 {
          slot_lock := slot_lock[s := SlotLock(Free, 0)];
        } else {
          slot_lock := slot_lock[s := lock.(count := lock.count - 1)];
        }
      } else if lock.status == WriteLock {
        slot_lock := slot_lock[s := SlotLock(Free, 0)];
      } else {
        return -1;
      }
      Release(slots, old(slot_lock), holders, |objects|, s, oid, b, slot_lock[s]);
      holders := holders - multiset{(oid, b as int)};
      return 1;
    }

    // ---------- kernels ----------

    /** What a kernel reads from the device buffer of a slot. */
    method Load(s: nat) returns (content: seq<Word>)
      requires Data() && s < num_slots && slots[s].object_id != -1
      ensures content == Content(s)
    {
      var slot := slots[s];
      assert GoodSlot(s, slot, objects, step, host, zero_copy);
      content := if zero_copy then host[slot.object_id][slot.buffer_id..slot.buffer_id + slot.length] else slot.device;
    }

    method StoreToHost(s: nat, content: seq<Word>)
      requires zero_copy
      requires Valid() && s < num_slots && slots[s].object_id != -1 && |content| == slots[s].length
      requires IsObject(slots[s].object_id) && objects[slots[s].object_id].mode == ReadWrite
      modifies this`host
      ensures Valid()
      ensures slots == old(slots)[s := old(slots)[s].(device := slots[s].device)]
      ensures var slot := slots[s];
              forall o :: IsObject(o) ==>
                View(o) == if o == slot.object_id then Overlay(old(View(o)), slot.buffer_id, content) else old(View(o))
    {
      hide Overlay, ValueOf, Chunk, ChunkEnd;
      var slot := slots[s];
      var o := slot.object_id;
      OwnSlots(s, o);
      host := host[o := Overlay(host[o], slot.buffer_id, content)];
      forall t | 0 <= t < num_slots
        ensures GoodSlot(t, slots[t], objects, step, host, zero_copy)
      {
        assert GoodSlot(t, slots[t], objects, step, old(host), zero_copy);
      }
      forall p | IsObject(p)
        ensures View(p) == host[p] && old(View(p)) == old(host)[p]
      {
        ValueOnHost(host[p], p, slots[First(p)], slots[First(p) + 1]);
        ValueOnHost(old(host)[p], p, slots[First(p)], slots[First(p) + 1]);
      }
    }

    /** A slot with a rewritten buffer is still a good one, and shows the new content. */
    lemma StoredShows(s: nat, content: seq<Word>, stored: Slot)
      requires Data() && !zero_copy && s < num_slots && slots[s].object_id != -1 && |content| == slots[s].length
      requires IsObject(slots[s].object_id) && objects[slots[s].object_id].mode == ReadWrite
      requires stored == slots[s].(device := content)
      ensures var o := slots[s].object_id;
              && GoodSlot(s, stored, objects, step, host, zero_copy) && (s == First(o) || s == First(o) + 1)
              && (s == First(o) ==>
                    ValueOf(true, host[o], o, stored, slots[s + 1]) == Overlay(View(o), stored.buffer_id, content))
              && (s == First(o) + 1 ==>
                    ValueOf(true, host[o], o, slots[s - 1], stored) == Overlay(View(o), stored.buffer_id, content))
    {
      hide Overlay, ValueOf, Chunk, ChunkEnd;
      var slot := slots[s];
      var o := slot.object_id;
      OwnSlots(s, o);
      StoreShows(host[o], o, slot, slots[if s == First(o) then s + 1 else s - 1], slot.buffer_id, content);
    }

    method StoreToDevice(s: nat, content: seq<Word>)
      requires !zero_copy
      requires Valid() && s < num_slots && slots[s].object_id != -1 && |content| == slots[s].length
      requires IsObject(slots[s].object_id) && objects[slots[s].object_id].mode == ReadWrite
      modifies this`slots
      ensures Valid()
      ensures slots == old(slots)[s := old(slots)[s].(device := slots[s].device)]
      ensures var slot := slots[s];
              forall o :: IsObject(o) ==>
                View(o) == if o == slot.object_id then Overlay(old(View(o)), slot.buffer_id, content) else old(View(o))
    {
      hide Overlay, ValueOf, GoodSlot, Different, LocksAgree;
      var stored := slots[s].(device := content);
      StoredShows(s, content, stored);
      slots := slots[s := stored];
      SameKeys(old(slots), slots, slot_lock, holders, |objects|);
    }

    /** What a kernel leaves in the locked device buffer of a slot.  On a CPU that buffer is the host memory itself. */
    method Store(s: nat, content: seq<Word>)
      requires Valid() && s < num_slots && slots[s].object_id != -1 && |content| == slots[s].length
      requires IsObject(slots[s].object_id) && objects[slots[s].object_id].mode == ReadWrite
      requires (slots[s].object_id, slots[s].buffer_id as int) in holders
      modifies this`host, this`slots
      ensures Valid()
      ensures slots == old(slots)[s := old(slots)[s].(device := slots[s].device)]
      ensures var slot := slots[s];
              forall o :: IsObject(o) ==>
                View(o) == if o == slot.object_id then Overlay(old(View(o)), slot.buffer_id, content) else old(View(o))
    {
      if zero_copy {
        StoreToHost(s, content);
      } else {
        StoreToDevice(s, content);
      }
    }

    static lemma SameKeys(before: seq<Slot>, after: seq<Slot>, locks: seq<SlotLock>, holders: multiset<(int, nat)>,
                          n: nat)
      requires LocksAgree(before, locks, holders, n) && |after| == |before|
      requires forall t :: 0 <= t < |before| ==>
                 after[t].object_id == before[t].object_id && after[t].buffer_id == before[t].buffer_id
      ensures LocksAgree(after, locks, holders, n)
      ensures forall p :: 0 <= First(p) < |before| - 1 && Different(p, before[First(p)], before[First(p) + 1]) ==>
                Different(p, after[First(p)], after[First(p) + 1])
    {
      forall t | 0 <= t < |after|
        ensures GoodLock(locks[t], Holding(holders, after[t]))
      {
        assert GoodLock(locks[t], Holding(holders, before[t]));
      }
      forall h | h in holders
        ensures IsIn(after, First(h.0), h.0, h.1) || IsIn(after, First(h.0) + 1, h.0, h.1)
      {
        assert IsIn(before, First(h.0), h.0, h.1) || IsIn(before, First(h.0) + 1, h.0, h.1);
      }
    }
  }
}

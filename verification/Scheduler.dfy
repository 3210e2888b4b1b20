/** The double-buffered scheduler: runs every enqueued kernel on every chunk, at most two chunks at a time. */
module Scheduler {
  import opened BufferCache
  import opened ChunkSchedule
  import Indices

  /** The buffers of one chunk index that are locked on behalf of the kernels that run on it. */
  datatype RState = RState(queue: nat, active_buffers: map<nat, seq<BufferDesc>>)

  const QUEUES := 2

  /** The locks that one chunk index has taken: chunk idx of every object in objs. */
  ghost function Claims(objs: set<nat>, step: seq<nat>, idx: nat): (m: multiset<(int, nat)>)
    ensures forall o: int,
            b: nat :: m[(o, b)] == if o >= 0 && o in objs && o < |step| && b == step[o] * idx then 1 else 0
  {
    multiset(set o | o in objs && o < |step| :: (o as int, step[o] * idx))
  }

  lemma ClaimsGrow(objs: set<nat>, step: seq<nat>, idx: nat, o: nat)
    requires o < |step| && o !in objs
    ensures Claims(objs + {o}, step, idx) == Claims(objs, step, idx) + multiset{(o as int, step[o] * idx)}
  {
  }

  lemma ClaimsShrink(objs: set<nat>, step: seq<nat>, idx: nat, o: nat)
    requires o < |step| && o in objs
    ensures Claims(objs - {o}, step, idx) == Claims(objs, step, idx) - multiset{(o as int, step[o] * idx)}
  {
  }

  ghost function Objects(uses: seq<Use>, m: nat): set<nat>
    requires m <= |uses|
  {
    if m == 0 then {} else Objects(uses, m - 1) + {uses[m - 1].object_id}
  }

  ghost function AllObjects(rs: seq<Runnable>, m: nat): set<nat>
    requires m <= |rs|
  {
    if m == 0 then {} else AllObjects(rs, m - 1) + Objects(rs[m - 1].uses, |rs[m - 1].uses|)
  }

  lemma {:induction false} ObjectsHas(uses: seq<Use>, m: nat, l: nat)
    requires l < m <= |uses|
    ensures uses[l].object_id in Objects(uses, m)
  {
    if l < m - 1 {
      ObjectsHas(uses, m - 1, l);
    }
  }

  lemma {:induction false} AllObjectsHas(rs: seq<Runnable>, m: nat, k: nat, l: nat)
    requires k < m <= |rs| && l < |rs[k].uses|
    ensures rs[k].uses[l].object_id in AllObjects(rs, m)
  {
    if k < m - 1 {
      AllObjectsHas(rs, m - 1, k, l);
    } else {
      ObjectsHas(rs[k].uses, |rs[k].uses|, l);
    }
  }

  ghost function Sizes(objects: seq<ObjectInfo>): (sizes: seq<nat>)
    ensures |sizes| == |objects| && forall o :: 0 <= o < |objects| ==> sizes[o] == objects[o].size
  {
    seq(|objects|, o requires 0 <= o < |objects| => objects[o].size)
  }

  /** The cache stands for the memory mem. */
  ghost predicate Shows(cache: SimpleBufferCache, mem: seq<seq<Word>>)
    reads cache`objects, cache`host, cache`step, cache`slots
  {
    cache.Shape() && Shapes(mem, Sizes(cache.objects)) && forall o :: cache.IsObject(o) ==> cache.View(o) == mem[o]
  }

  /** The buffers are those of chunk idx of object o. */
  ghost predicate OwnsOne(objects: seq<ObjectInfo>, step: seq<nat>, slots: seq<Slot>, o: nat, idx: nat,
                          buffers: seq<BufferDesc>)
  {
    && 1 <= o < |objects| && o < |step| && step[o] > 0 && idx < NumChunks(objects[o].size, step[o])
    && |buffers| == 1 && buffers[0].buffer_id == step[o] * idx
    && buffers[0].buffer_id + buffers[0].content_length == ChunkEnd(objects[o].size, step[o], step[o] * idx)
    && IsIn(slots, buffers[0].slot, o, step[o] * idx)
  }

  /** A chunk state holds the buffers of chunk idx of the objects it mentions. */
  ghost predicate Owns(objects: seq<ObjectInfo>, step: seq<nat>, slots: seq<Slot>, r: RState, idx: nat) {
    forall o :: o in r.active_buffers ==> OwnsOne(objects, step, slots, o, idx, r.active_buffers[o])
  }

  lemma OwnsStays(objects: seq<ObjectInfo>, step: seq<nat>, before: seq<Slot>, after: seq<Slot>, r: RState, idx: nat)
    requires Owns(objects, step, before, r, idx) && |after| == |before|
    requires forall o :: o in r.active_buffers && |r.active_buffers[o]| == 1 ==>
               var s := r.active_buffers[o][0].slot;
               s < |before| && after[s].object_id == before[s].object_id && after[s].buffer_id == before[s].buffer_id
    ensures Owns(objects, step, after, r, idx)
  {
    hide ChunkEnd, NumChunks;
    forall o | o in r.active_buffers
      ensures OwnsOne(objects, step, after, o, idx, r.active_buffers[o])
    {
      assert OwnsOne(objects, step, before, o, idx, r.active_buffers[o]);
    }
  }

  /** How many chunks the objects of a runnable have, -1 if that differs. */
  ghost function ChunksOf(q: Runnable, sizes: seq<nat>, step: seq<nat>): int
    requires Ready(q, sizes, step)
  {
    var fst := NumChunks(sizes[q.uses[0].object_id], q.uses[0].step);
    if |q.uses| == 2 && NumChunks(sizes[q.uses[1].object_id], q.uses[1].step) != fst then -1 else fst
  }

  /** Slot number s holds nothing or a chunk whose turn it is: even chunks sit in the first slot of their object. */
  ghost predicate TurnOf(s: int, slot: Slot, step: seq<nat>) {
    var o := slot.object_id;
    || o == -1
    || (0 <= o < |step|
        && exists i: nat :: slot.buffer_id == step[o] * i && i % DOUBLE_BUFFERING == s % DOUBLE_BUFFERING)
  }

  ghost predicate InTurn(slots: seq<Slot>, step: seq<nat>) {
    forall s :: 0 <= s < |slots| ==> TurnOf(s, slots[s], step)
  }

  /** The chunk before this index of object o is locked. */
  ghost predicate Preceded(others: multiset<(int, nat)>, o: nat, step: seq<nat>, index: nat) {
    index > 0 && o < |step| ==> step[o] * (index - 1) >= 0 && (o as int, step[o] * (index - 1)) in others
  }

  lemma NothingCached(slots: seq<Slot>, step: seq<nat>)
    requires forall s :: 0 <= s < |slots| ==> slots[s].object_id == -1
    ensures InTurn(slots, step)
  {
  }

  lemma TurnOfChunk(s: int, slot: Slot, step: seq<nat>, i: nat)
    requires TurnOf(s, slot, step) && slot.object_id >= 0 && step[slot.object_id] > 0
             && slot.buffer_id == step[slot.object_id] * i
    ensures i % DOUBLE_BUFFERING == s % DOUBLE_BUFFERING
  {
    var d := step[slot.object_id];
    var k: nat :| slot.buffer_id == d * k && k % DOUBLE_BUFFERING == s % DOUBLE_BUFFERING;
    Indices.UniqueQuotient(d, i, 0, k, 0);
  }

  class SingleDeviceScheduler {
    const cache: SimpleBufferCache
    var run_queue: seq<Runnable>
    /** The device memory that kernels accumulate into. */
    var acc: seq<real>

    constructor (cache: SimpleBufferCache, acc: seq<real>)
      ensures this.cache == cache && run_queue == [] && this.acc == acc
    {
      this.cache := cache;
      this.acc := acc;
      run_queue := [];
    }

    method Enqueue(r: Runnable) returns (ret: int)
      modifies this`run_queue
      ensures ret == 1 && run_queue == old(run_queue) + [r]
    {
      run_queue := run_queue + [r];
      return 1;
    }

    /** The number of chunks of the objects of a runnable, -1 if they differ. */
    method RegisterBuffers(q: Runnable) returns (n: int)
      requires cache.Shape() && Ready(q, Sizes(cache.objects), cache.step)
      ensures n == ChunksOf(q, Sizes(cache.objects), cache.step)
    {
      var u := q.uses[0];
      var fst := (cache.objects[u.object_id].size + u.step - 1) / u.step;
      if |q.uses| == 1 {
        return fst;
      }
      var v := q.uses[1];
      var snd := (cache.objects[v.object_id].size + v.step - 1) / v.step;
      return if fst == snd then fst else -1;
    }

    /** No lock is taken on object o beyond the one on its chunk at `at`. */
    static ghost predicate OnlyAt(held: multiset<(int, nat)>, o: int, at: int) {
      forall b: nat :: (o, b) in held ==> b == at
    }

    /** With one other chunk of an object locked at most, a lock for this chunk is to be had. */
    lemma LockToBeHad(o: int, begin: nat, other: int)
      requires cache.Valid() && cache.IsObject(o) && begin as int != other
      requires OnlyAt(cache.holders, o, other)
      ensures cache.CanGet(o, begin)
    {
      hide ValueOf, Chunk, LocksAgree;
      var f := First(o);
      forall s | s == f || s == f + 1
        ensures cache.slot_lock[s].status != Free ==> cache.slots[s].object_id == o && cache.slots[s].buffer_id == other
        ensures IsIn(cache.slots, s, o, begin) ==> cache.slot_lock[s].status == Free
      {
        LockOf(s);
        assert GoodSlot(s, cache.slots[s], cache.objects, cache.step, cache.host, cache.zero_copy);
      }
      assert Different(o, cache.slots[f], cache.slots[f + 1]);
    }

    /** Beside a lock on the chunk before, get takes the slot whose turn it is. */
    lemma ChoiceInTurn(o: nat, index: nat)
      requires cache.Valid() && cache.IsObject(o) && InTurn(cache.slots, cache.step)
      requires OnlyAt(cache.holders, o, cache.step[o] * index - cache.step[o])
               && Preceded(cache.holders, o, cache.step, index)
      ensures cache.Choice(o, cache.step[o] * index) == First(o) + index % DOUBLE_BUFFERING
    {
      hide ValueOf, Chunk, LocksAgree, InTurn;
      var f, d := First(o), cache.step[o];
      forall s | s == f || s == f + 1
        ensures IsIn(cache.slots, s, o, d * index) ==> s % DOUBLE_BUFFERING == index % DOUBLE_BUFFERING
        ensures cache.slot_lock[s].status != Free <==>
                index > 0 && s % DOUBLE_BUFFERING == (index - 1) % DOUBLE_BUFFERING
      {
        SlotInTurn(o, index, s);
      }
    }

    lemma SlotInTurn(o: nat, index: nat, s: int)
      requires cache.Valid() && cache.IsObject(o) && InTurn(cache.slots, cache.step)
               && (s == First(o) || s == First(o) + 1)
      requires OnlyAt(cache.holders, o, cache.step[o] * index - cache.step[o])
               && Preceded(cache.holders, o, cache.step, index)
      ensures IsIn(cache.slots, s, o, cache.step[o] * index) ==> s % DOUBLE_BUFFERING == index % DOUBLE_BUFFERING
      ensures cache.slot_lock[s].status != Free <==> index > 0 && s % DOUBLE_BUFFERING == (index - 1) % DOUBLE_BUFFERING
    {
      hide ValueOf, Chunk, LocksAgree;
      var slot, d := cache.slots[s], cache.step[o];
      LockOf(s);
      assert TurnOf(s, slot, cache.step);
      assert GoodSlot(s, slot, cache.objects, cache.step, cache.host, cache.zero_copy);
      if IsIn(cache.slots, s, o, d * index) {
        TurnOfChunk(s, slot, cache.step, index);
      }
      if cache.slot_lock[s].status != Free {
        assert slot.object_id == o && slot.buffer_id == d * index - d;
        assert index > 0;
        assert d * (index - 1) == d * index - d;
        TurnOfChunk(s, slot, cache.step, index - 1);
      }
      if index > 0 && s % DOUBLE_BUFFERING == (index - 1) % DOUBLE_BUFFERING {
        var b := d * (index - 1);
        cache.HeldIsCached(o, b);
        var t := if IsIn(cache.slots, First(o), o, b) then First(o) else First(o) + 1;
        assert TurnOf(t, cache.slots[t], cache.step);
        TurnOfChunk(t, cache.slots[t], cache.step, index - 1);
        cache.HeldLock(t, o, b);
      }
    }

    lemma LockOf(s: int)
      requires cache.Valid() && 0 <= s < cache.num_slots
      ensures GoodLock(cache.slot_lock[s], Holding(cache.holders, cache.slots[s]))
    {
    }

    /** The buffers of a chunk state are locked. */
    lemma OwnedIsLocked(r: RState, idx: nat, others: multiset<(int, nat)>)
      requires cache.Valid() && Owns(cache.objects, cache.step, cache.slots, r, idx)
      requires cache.holders == others + Claims(r.active_buffers.Keys, cache.step, idx)
      ensures forall o :: o in r.active_buffers ==>
                |r.active_buffers[o]| == 1 && r.active_buffers[o][0].slot < |cache.slot_lock|
                && cache.slot_lock[r.active_buffers[o][0].slot].status != Free
    {
      hide GoodSlot, Different, NumChunks, ChunkEnd, LocksAgree;
      forall o | o in r.active_buffers
        ensures |r.active_buffers[o]| == 1 && r.active_buffers[o][0].slot < |cache.slot_lock|
                && cache.slot_lock[r.active_buffers[o][0].slot].status != Free
      {
        assert OwnsOne(cache.objects, cache.step, cache.slots, o, idx, r.active_buffers[o]);
        var b := cache.step[o] * idx;
        assert Claims(r.active_buffers.Keys, cache.step, idx)[(o as int, b)] == 1;
        cache.HeldLock(r.active_buffers[o][0].slot, o, b);
      }
    }

    lemma NobodyElseHere(r: RState, o: nat, index: nat, others: multiset<(int, nat)>)
      requires o < |cache.step| && o !in r.active_buffers
      requires cache.holders == others + Claims(r.active_buffers.Keys, cache.step, index)
      requires OnlyAt(others, o, cache.step[o] * index - cache.step[o])
      ensures OnlyAt(cache.holders, o, cache.step[o] * index - cache.step[o])
    {
      NobodyElse(others, Claims(r.active_buffers.Keys, cache.step, index), o, cache.step[o] * index - cache.step[o]);
    }

    static lemma NobodyElse(others: multiset<(int, nat)>, claims: multiset<(int, nat)>, o: int, at: int)
      requires OnlyAt(others, o, at) && forall b: nat :: (o, b) !in claims
      ensures OnlyAt(others + claims, o, at)
    {
    }

    static lemma TurnKept(before: seq<Slot>, after: seq<Slot>, step: seq<nat>, s: nat, o: nat, index: nat)
      requires s < |before| == |after| && after == before[s := after[s]] && o < |step| && step[o] * index >= 0
      requires IsIn(after, s, o, step[o] * index)
      ensures InTurn(before, step) && s == First(o) + index % DOUBLE_BUFFERING ==> InTurn(after, step)
    {
      if InTurn(before, step) && s == First(o) + index % DOUBLE_BUFFERING {
        forall t | 0 <= t < |after|
          ensures TurnOf(t, after[t], step)
        {
          if t == s {
            assert after[t].buffer_id == step[o] * index && index % DOUBLE_BUFFERING == t % DOUBLE_BUFFERING;
          } else {
            assert TurnOf(t, before[t], step);
          }
        }
      }
    }

    /** In a cache whose slots take turns, a chunk state has the slots whose turn it is. */
    lemma BufferInTurn(r: RState, idx: nat, o: nat)
      requires cache.Valid() && Owns(cache.objects, cache.step, cache.slots, r, idx) && o in r.active_buffers
      requires InTurn(cache.slots, cache.step)
      ensures |r.active_buffers[o]| == 1 && r.active_buffers[o][0].slot == First(o) + idx % DOUBLE_BUFFERING
    {
      hide NumChunks, ChunkEnd, Chunk, Different, LocksAgree, TurnOf;
      assert OwnsOne(cache.objects, cache.step, cache.slots, o, idx, r.active_buffers[o]);
      var s := r.active_buffers[o][0].slot;
      assert TurnOf(s, cache.slots[s], cache.step);
      TurnOfChunk(s, cache.slots[s], cache.step, idx);
      cache.NotTwice(s, o, cache.step[o] * idx);
    }

    /** Asks the cache for chunk `index` of an object of which at most the chunk before is locked. */
    method GetChunk(o: nat, step: nat, index: nat,
                    ghost mem: seq<seq<Word>>) returns (ret: int, buffers: seq<BufferDesc>)
      requires cache.Valid() && Shows(cache, mem) && cache.IsObject(o) && step == cache.step[o]
      requires index < NumChunks(cache.objects[o].size, step)
      requires OnlyAt(cache.holders, o, step * index - step)
      modifies cache`host, cache`slots, cache`slot_lock, cache`holders
      ensures cache.Valid() && ret == 1
      ensures OwnsOne(cache.objects, cache.step, cache.slots, o, index, buffers)
      ensures cache.holders == old(cache.holders) + multiset{(o as int, step * index)}
      ensures Shows(cache, mem)
      ensures LockedStay(old(cache.slots), old(cache.slot_lock), cache.slots, cache.slot_lock)
      ensures old(InTurn(cache.slots, cache.step) && Preceded(cache.holders, o, cache.step, index)) ==>
                InTurn(cache.slots, cache.step)
    {
      hide ValueOf, GoodSlot, Different, LocksAgree, Chunk, ChunkEnd, NumChunks, InTurn, Preceded;
      var object_size := cache.objects[o].size;
      var offset := step * index;
      var end_offset := if offset + step < object_size then offset + step else object_size;
      ChunkBounds(object_size, step, index);
      LockToBeHad(o, offset, offset - step);
      ghost var slots := cache.slots;
      if InTurn(slots, cache.step) && Preceded(cache.holders, o, cache.step, index) {
        ChoiceInTurn(o, index);
      }
      ret, buffers := cache.Get(o, offset, end_offset);
      TurnKept(slots, cache.slots, cache.step, buffers[0].slot, o, index);
    }

    static lemma StillPreceded(others: multiset<(int, nat)>, claims: multiset<(int, nat)>, o: nat, step: seq<nat>,
                               index: nat)
      ensures Preceded(others, o, step, index) ==> Preceded(others + claims, o, step, index)
    {
    }

    /** Locks chunk `index` of one object, unless an earlier runnable has done so. */
    method ActivateBuffers(r: RState, u: Use, index: nat, ghost others: multiset<(int, nat)>, ghost mem: seq<seq<Word>>)
      returns (ret: int, r': RState)
      requires cache.Valid() && Shows(cache, mem) && cache.IsObject(u.object_id) && u.step == cache.step[u.object_id]
      requires index < NumChunks(cache.objects[u.object_id].size, u.step)
      requires Owns(cache.objects, cache.step, cache.slots, r, index)
      requires cache.holders == others + Claims(r.active_buffers.Keys, cache.step, index)
      requires OnlyAt(others, u.object_id, u.step * index - u.step)
      modifies cache`host, cache`slots, cache`slot_lock, cache`holders
      ensures cache.Valid() && ret == 1
      ensures r'.active_buffers.Keys == r.active_buffers.Keys + {u.object_id} && r'.queue == r.queue
      ensures Owns(cache.objects, cache.step, cache.slots, r', index)
      ensures cache.holders == others + Claims(r'.active_buffers.Keys, cache.step, index)
      ensures Shows(cache, mem)
      ensures LockedStay(old(cache.slots), old(cache.slot_lock), cache.slots, cache.slot_lock)
      ensures old(InTurn(cache.slots, cache.step)) && Preceded(others, u.object_id, cache.step, index) ==>
                InTurn(cache.slots, cache.step)
    {
      hide ValueOf, GoodSlot, Different, LocksAgree, NumChunks, Claims, OwnsOne, OnlyAt, InTurn, Preceded;
      r' := r;
      if u.object_id !in r.active_buffers {
        NobodyElseHere(r, u.object_id, index, others);
        OwnedIsLocked(r, index, others);
        StillPreceded(others, Claims(r.active_buffers.Keys, cache.step, index), u.object_id, cache.step, index);
        var buffers;
        ret, buffers := GetChunk(u.object_id, u.step, index, mem);
        OwnsStays(cache.objects, cache.step, old(cache.slots), cache.slots, r, index);
        r' := r.(active_buffers := r.active_buffers[u.object_id := buffers]);
        ClaimsGrow(r.active_buffers.Keys, cache.step, index, u.object_id);
        assert r'.active_buffers.Keys == r.active_buffers.Keys + {u.object_id};
        if ret < 0 {
          return -1, r';
        }
      } else {
        assert r.active_buffers.Keys == r.active_buffers.Keys + {u.object_id};
      }
      return 1, r';
    }

    static lemma ChunkBounds(size: nat, step: nat, i: nat)
      requires step > 0 && i < NumChunks(size, step)
      ensures var b := step * i;
              var e := if b + step < size then b + step else size;
              e == ChunkEnd(size, step, b) && b < size && b < e <= b + step && Chunk(size, step, b, e)
    {
      ChunkInside(size, step, i);
    }

    lemma AllLockedStay()
      requires cache.Valid()
      ensures cache.Shape() && LockedStay(cache.slots, cache.slot_lock, cache.slots, cache.slot_lock)
    {
    }

    /** The objects of a runnable have a chunk with this index. */
    ghost predicate Runs(q: Runnable, index: nat)
      reads cache`objects, cache`step
    {
      && GoodUses(q.uses, Sizes(cache.objects), cache.step)
      && forall l :: 0 <= l < |q.uses| ==> index < NumChunks(Sizes(cache.objects)[q.uses[l].object_id], q.uses[l].step)
    }

    /** All locks that others hold are on the chunks before this index. */
    static ghost predicate JustBefore(others: multiset<(int, nat)>, step: seq<nat>, index: nat) {
      forall o: nat :: o < |step| ==> OnlyAt(others, o, step[o] * index - step[o])
    }

    /** Locks the chunks that one runnable uses. */
    method ActivateRunnable(q: Runnable, r: RState, index: nat, ghost others: multiset<(int, nat)>,
                            ghost mem: seq<seq<Word>>)
      returns (ret: int, r': RState)
      requires cache.Valid() && Shows(cache, mem) && Runs(q, index)
      requires Owns(cache.objects, cache.step, cache.slots, r, index)
      requires cache.holders == others + Claims(r.active_buffers.Keys, cache.step, index)
      requires JustBefore(others, cache.step, index)
      modifies cache`host, cache`slots, cache`slot_lock, cache`holders
      ensures cache.Valid() && ret == 1
      ensures r'.active_buffers.Keys == r.active_buffers.Keys + Objects(q.uses, |q.uses|) && r'.queue == r.queue
      ensures Owns(cache.objects, cache.step, cache.slots, r', index)
      ensures cache.holders == others + Claims(r'.active_buffers.Keys, cache.step, index)
      ensures Shows(cache, mem)
      ensures LockedStay(old(cache.slots), old(cache.slot_lock), cache.slots, cache.slot_lock)
      ensures old(InTurn(cache.slots, cache.step))
              && (forall l :: 0 <= l < |q.uses| ==> Preceded(others, q.uses[l].object_id, cache.step, index)) ==>
                InTurn(cache.slots, cache.step)
    {
      hide Shows, LockedStay, SimpleBufferCache.Valid, NumChunks, Claims, Owns, OnlyAt, InTurn, Preceded;
      AllLockedStay();
      r' := r;
      for l := 0 to |q.uses|
        invariant cache.Valid()
        invariant r'.active_buffers.Keys == r.active_buffers.Keys + Objects(q.uses, l) && r'.queue == r.queue
        invariant Owns(cache.objects, cache.step, cache.slots, r', index)
        invariant cache.holders == others + Claims(r'.active_buffers.Keys, cache.step, index)
        invariant Shows(cache, mem)
        invariant LockedStay(old(cache.slots), old(cache.slot_lock), cache.slots, cache.slot_lock)
        invariant old(InTurn(cache.slots, cache.step))
                  && (forall l :: 0 <= l < |q.uses| ==> Preceded(others, q.uses[l].object_id, cache.step, index)) ==>
                    InTurn(cache.slots, cache.step)
      {
        ghost var slots, locks := cache.slots, cache.slot_lock;
        ret, r' := ActivateBuffers(r', q.uses[l], index, others, mem);
        LockedStayOn(old(cache.slots), old(cache.slot_lock), slots, locks, cache.slots, cache.slot_lock);
        if ret < 0 {
          return;
        }
      }
      return 1, r';
    }

    /** The chunks before this index of all objects of the functions are locked. */
    static ghost predicate AllPreceded(others: multiset<(int, nat)>, rs: seq<Runnable>, step: seq<nat>, index: nat) {
      forall k, l :: 0 <= k < |rs| && 0 <= l < |rs[k].uses| ==> Preceded(others, rs[k].uses[l].object_id, step, index)
    }

    /** Locks every chunk with this index. */
    method ActivateAll(queue: nat, index: nat, ghost others: multiset<(int, nat)>, ghost mem: seq<seq<Word>>)
      returns (ret: int, r: RState)
      requires cache.Valid() && Shows(cache, mem) && forall k :: 0 <= k < |run_queue| ==> Runs(run_queue[k], index)
      requires cache.holders == others && JustBefore(others, cache.step, index)
      modifies cache`host, cache`slots, cache`slot_lock, cache`holders
      ensures cache.Valid() && ret == 1
      ensures r.active_buffers.Keys == AllObjects(run_queue, |run_queue|) && r.queue == queue
      ensures Owns(cache.objects, cache.step, cache.slots, r, index)
      ensures cache.holders == others + Claims(r.active_buffers.Keys, cache.step, index)
      ensures Shows(cache, mem)
      ensures LockedStay(old(cache.slots), old(cache.slot_lock), cache.slots, cache.slot_lock)
      ensures old(InTurn(cache.slots, cache.step)) && AllPreceded(others, run_queue, cache.step, index) ==>
                InTurn(cache.slots, cache.step)
    {
      hide Shows, LockedStay, Claims, Owns, Runs, JustBefore, SimpleBufferCache.Valid, Objects, InTurn, Preceded;
      AllLockedStay();
      r := RState(queue, map[]);
      NoClaims(cache.step, index);
      OwnsNothing(cache.objects, cache.step, cache.slots, r, index);
      assert r.active_buffers.Keys == {};
      for k := 0 to |run_queue|
        invariant cache.Valid()
        invariant r.active_buffers.Keys == AllObjects(run_queue, k) && r.queue == queue
        invariant Owns(cache.objects, cache.step, cache.slots, r, index)
        invariant cache.holders == others + Claims(r.active_buffers.Keys, cache.step, index)
        invariant Shows(cache, mem)
        invariant LockedStay(old(cache.slots), old(cache.slot_lock), cache.slots, cache.slot_lock)
        invariant old(InTurn(cache.slots, cache.step)) && AllPreceded(others, run_queue, cache.step, index) ==>
                    InTurn(cache.slots, cache.step)
      {
        ghost var slots, locks := cache.slots, cache.slot_lock;
        ret, r := ActivateRunnable(run_queue[k], r, index, others, mem);
        LockedStayOn(old(cache.slots), old(cache.slot_lock), slots, locks, cache.slots, cache.slot_lock);
        if ret < 0 {
          return;
        }
      }
      return 1, r;
    }

    /** Unlocks one object of a chunk state, unless a runnable before has done so. */
    method DeactivateBuffers(r: RState, o: nat, ghost index: nat,
                             ghost others: multiset<(int, nat)>) returns (ret: int, r': RState)
      requires cache.Valid() && o < |cache.step|
      requires Owns(cache.objects, cache.step, cache.slots, r, index)
      requires cache.holders == others + Claims(r.active_buffers.Keys, cache.step, index)
      modifies cache`slot_lock, cache`holders
      ensures cache.Valid() && ret == 1
      ensures r'.active_buffers.Keys == r.active_buffers.Keys - {o}
      ensures Owns(cache.objects, cache.step, cache.slots, r', index)
      ensures cache.holders == others + Claims(r'.active_buffers.Keys, cache.step, index)
    {
      hide ValueOf, GoodSlot, Different, LocksAgree, NumChunks, ChunkEnd;
      r' := r;
      if o in r.active_buffers {
        assert OwnsOne(cache.objects, cache.step, cache.slots, o, index, r.active_buffers[o]);
        assert Claims(r.active_buffers.Keys, cache.step, index)[(o as int, cache.step[o] * index)] == 1;
        ret := cache.Unlock(o, r.active_buffers[o]);
        ClaimsShrink(r.active_buffers.Keys, cache.step, index, o);
        if ret < 0 {
          return;
        }
        r' := r.(active_buffers := r.active_buffers - {o});
        assert r'.active_buffers.Keys == r.active_buffers.Keys - {o};
      }
      return 1, r';
    }

    /** Unlocks every buffer of a chunk state, each once, although runnables share objects. */
    method DeactivateAll(r: RState, ghost index: nat, ghost others: multiset<(int, nat)>) returns (ret: int)
      requires cache.Valid() && forall k :: 0 <= k < |run_queue| ==> Runs(run_queue[k], index)
      requires Owns(cache.objects, cache.step, cache.slots, r, index)
      requires r.active_buffers.Keys == AllObjects(run_queue, |run_queue|)
      requires cache.holders == others + Claims(r.active_buffers.Keys, cache.step, index)
      modifies cache`slot_lock, cache`holders
      ensures cache.Valid() && ret == 1 && cache.holders == others
    {
      hide SimpleBufferCache.Valid, NumChunks, ChunkEnd, Owns, Claims;
      var rest := r;
      for k := 0 to |run_queue|
        invariant cache.Valid()
        invariant rest.active_buffers.Keys == r.active_buffers.Keys - AllObjects(run_queue, k)
        invariant Owns(cache.objects, cache.step, cache.slots, rest, index)
        invariant cache.holders == others + Claims(rest.active_buffers.Keys, cache.step, index)
      {
        var uses := run_queue[k].uses;
        for l := 0 to |uses|
          invariant cache.Valid()
          invariant rest.active_buffers.Keys == r.active_buffers.Keys - AllObjects(run_queue, k) - Objects(uses, l)
          invariant Owns(cache.objects, cache.step, cache.slots, rest, index)
          invariant cache.holders == others + Claims(rest.active_buffers.Keys, cache.step, index)
        {
          ret, rest := DeactivateBuffers(rest, uses[l].object_id, index, others);
          if ret < 0 {
            return -1;
          }
        }
      }
      assert rest.active_buffers.Keys == {};
      NoClaims(cache.step, index);
      return 1;
    }

    static lemma OwnsNothing(objects: seq<ObjectInfo>, step: seq<nat>, slots: seq<Slot>, r: RState, idx: nat)
      requires r.active_buffers == map[]
      ensures Owns(objects, step, slots, r, idx)
    {
    }

    static lemma NoClaims(step: seq<nat>, idx: nat)
      ensures Claims({}, step, idx) == multiset{}
    {
    }

    // ---------- running a kernel ----------

    /** No kernel changes a read-only object, and none uses a transient one. */
    static ghost predicate RespectsModes(q: Runnable, objects: seq<ObjectInfo>)
      requires KeepsLengths(q)
    {
      && (forall l :: 0 <= l < |q.uses| ==>
            q.uses[l].object_id < |objects| && objects[q.uses[l].object_id].mode != Transient)
      && forall contents: seq<seq<Word>>, l ::
           (|contents| == |q.uses| && 0 <= l < |contents| && objects[q.uses[l].object_id].mode == ReadOnly
            ==> q.kernel(contents).0[l] == contents[l])
    }

    /** A kernel finds chunk idx of the memory that the cache stands for. */
    lemma OwnedContent(u: Use, idx: nat, buffers: seq<BufferDesc>, mem: seq<seq<Word>>)
      requires cache.Valid() && Shows(cache, mem) && u.object_id < |mem|
      requires OwnsOne(cache.objects, cache.step, cache.slots, u.object_id, idx, buffers)
      requires u.step == cache.step[u.object_id] && cache.objects[u.object_id].mode != Transient
      ensures |buffers| == 1
      ensures var s := buffers[0].slot;
              && s < cache.num_slots && cache.slots[s].object_id == u.object_id
                 && cache.slots[s].buffer_id == u.step * idx
              && cache.Content(s) == Cut(mem, u, idx) && cache.slots[s].length == |Cut(mem, u, idx)|
    {
      hide ValueOf, Different, LocksAgree, NumChunks;
      var s := buffers[0].slot;
      ChunkBounds(cache.objects[u.object_id].size, u.step, idx);
      cache.OwnSlots(s, u.object_id);
      cache.ContentIsView(s);
    }

    method LoadInputs(q: Runnable, r: RState, index: nat, ghost mem: seq<seq<Word>>) returns (contents: seq<seq<Word>>)
      requires cache.Valid() && Shows(cache, mem) && Runs(q, index)
      requires Owns(cache.objects, cache.step, cache.slots, r, index)
      requires forall l :: 0 <= l < |q.uses| ==>
                 q.uses[l].object_id in r.active_buffers && cache.objects[q.uses[l].object_id].mode != Transient
      ensures contents == Inputs(mem, q.uses, index)
    {
      hide Cut, OwnsOne, GoodSlot, ValueOf, LocksAgree, Different, NumChunks;
      contents := [];
      for l := 0 to |q.uses|
        invariant |contents| == l && forall t :: 0 <= t < l ==> contents[t] == Cut(mem, q.uses[t], index)
      {
        var u := q.uses[l];
        OwnedContent(u, index, r.active_buffers[u.object_id], mem);
        var content := cache.Load(r.active_buffers[u.object_id][0].slot);
        contents := contents + [content];
      }
    }

    /** Slots keep what they hold, whatever happens to its content. */
    static ghost predicate SameKeys(before: seq<Slot>, after: seq<Slot>) {
      && |after| == |before|
      && forall s :: 0 <= s < |before| ==>
           after[s].object_id == before[s].object_id && after[s].buffer_id == before[s].buffer_id
           && after[s].length == before[s].length
    }

    static lemma SameKeysOn(a: seq<Slot>, b: seq<Slot>, c: seq<Slot>)
      ensures SameKeys(a, a)
      ensures SameKeys(a, b) && SameKeys(b, c) ==> SameKeys(a, c)
    {
    }

    /** Stores one result; a read-only buffer is not touched, and its result is what it had. */
    method StoreOutput(u: Use, index: nat, buffers: seq<BufferDesc>, out: seq<Word>, ghost mem: seq<seq<Word>>)
      requires cache.Valid() && Shows(cache, mem) && u.object_id < |mem| && cache.IsObject(u.object_id)
      requires OwnsOne(cache.objects, cache.step, cache.slots, u.object_id, index, buffers)
      requires u.step == cache.step[u.object_id] && cache.objects[u.object_id].mode != Transient
      requires |out| == |Cut(mem, u, index)|
      requires cache.objects[u.object_id].mode == ReadOnly ==> out == Cut(mem, u, index)
      requires (u.object_id as int, u.step * index) in cache.holders
      modifies cache`host, cache`slots
      ensures cache.Valid() && Shows(cache, Put(mem, u, index, out))
      ensures SameKeys(old(cache.slots), cache.slots)
    {
      hide ValueOf, Different, LocksAgree, NumChunks, GoodSlot, Overlay, ChunkEnd;
      OwnedContent(u, index, buffers, mem);
      if cache.objects[u.object_id].mode == ReadWrite {
        hide Cut, OwnsOne;
        cache.Store(buffers[0].slot, out);
      } else {
        PutOfSame(mem, u, index, cache.objects[u.object_id].size);
      }
    }

    static lemma PutOfSame(mem: seq<seq<Word>>, u: Use, i: nat, size: nat)
      requires u.object_id < |mem|
      ensures Put(mem, u, i, Cut(mem, u, i)) == mem
    {
      var m := mem[u.object_id];
      assert Overlay(m, u.step * i, Cut(mem, u, i)) == m;
    }

    method StoreOutputs(q: Runnable, r: RState, index: nat, outs: seq<seq<Word>>, ghost mem: seq<seq<Word>>)
      requires cache.Valid() && Shows(cache, mem) && Runs(q, index) && |outs| == |q.uses|
      requires Owns(cache.objects, cache.step, cache.slots, r, index)
      requires forall l :: 0 <= l < |q.uses| ==>
                 var u := q.uses[l];
                 && u.object_id in r.active_buffers && cache.objects[u.object_id].mode != Transient
                 && |outs[l]| == |Cut(mem, u, index)|
                 && (cache.objects[u.object_id].mode == ReadOnly ==> outs[l] == Cut(mem, u, index))
                 && (u.object_id as int, u.step * index) in cache.holders
      modifies cache`host, cache`slots
      ensures cache.Valid() && Shows(cache, PutAll(mem, q.uses, index, outs, |q.uses|))
      ensures SameKeys(old(cache.slots), cache.slots)
    {
      hide ValueOf, Different, LocksAgree, NumChunks, GoodSlot, Overlay, ChunkEnd, Cut, OwnsOne, SameKeys;
      SameKeysOn(cache.slots, cache.slots, cache.slots);
      var l := 0;
      while l < |q.uses|
        invariant 0 <= l <= |q.uses|
        invariant cache.Valid() && Shows(cache, PutAll(mem, q.uses, index, outs, l))
        invariant SameKeys(old(cache.slots), cache.slots)
        invariant Owns(cache.objects, cache.step, cache.slots, r, index)
      {
        var u := q.uses[l];
        ghost var slots := cache.slots;
        OtherPuts(mem, q.uses, index, outs, l, Sizes(cache.objects), cache.step);
        StoreOutput(u, index, r.active_buffers[u.object_id], outs[l], PutAll(mem, q.uses, index, outs, l));
        SameKeysOn(old(cache.slots), slots, cache.slots);
        KeysOwn(slots, r, index);
        l := l + 1;
      }
    }

    /** Storing the results of the other use does not change what this use had. */
    static lemma OtherPuts(mem: seq<seq<Word>>, uses: seq<Use>, i: nat, outs: seq<seq<Word>>, l: nat,
                           sizes: seq<nat>, step: seq<nat>)
      requires GoodUses(uses, sizes, step) && |mem| == |sizes| && |outs| == |uses| && l < |uses|
      ensures Cut(PutAll(mem, uses, i, outs, l), uses[l], i) == Cut(mem, uses[l], i)
    {
      if l == 1 {
        assert PutAll(mem, uses, i, outs, 1) == Put(PutAll(mem, uses, i, outs, 0), uses[0], i, outs[0]);
      }
    }

    lemma KeysOwn(before: seq<Slot>, r: RState, idx: nat)
      requires Owns(cache.objects, cache.step, before, r, idx) && SameKeys(before, cache.slots)
      ensures Owns(cache.objects, cache.step, cache.slots, r, idx)
    {
      hide NumChunks, ChunkEnd;
      forall o | o in r.active_buffers
        ensures OwnsOne(cache.objects, cache.step, cache.slots, o, idx, r.active_buffers[o])
      {
        assert OwnsOne(cache.objects, cache.step, before, o, idx, r.active_buffers[o]);
      }
    }

    /** Runs one kernel on the buffers of a chunk. */
    method RunKernel(q: Runnable, r: RState, index: nat, ghost mem: seq<seq<Word>>) returns (ret: int)
      requires cache.Valid() && Shows(cache, mem) && Runs(q, index)
      requires Ready(q, Sizes(cache.objects), cache.step) && RespectsModes(q, cache.objects)
      requires Owns(cache.objects, cache.step, cache.slots, r, index)
      requires forall l :: 0 <= l < |q.uses| ==>
                 q.uses[l].object_id in r.active_buffers
                 && (q.uses[l].object_id as int, q.uses[l].step * index) in cache.holders
      modifies cache`host, cache`slots, this`acc
      ensures cache.Valid() && ret == 1
      ensures var t := Fire(q, index, Plain(mem, old(acc)), Sizes(cache.objects), cache.step);
              Shows(cache, t.mem) && acc == t.acc
      ensures Owns(cache.objects, cache.step, cache.slots, r, index)
      ensures SameKeys(old(cache.slots), cache.slots)
    {
      hide SimpleBufferCache.Valid, SimpleBufferCache.View, NumChunks, Cut, OwnsOne, SameKeys, PutAll, Plus;
      var contents := LoadInputs(q, r, index, mem);
      var result := q.kernel(contents);
      StoreOutputs(q, r, index, result.0, mem);
      KeysOwn(old(cache.slots), r, index);
      acc := Plus(acc, result.1);
      return 1;
    }

    // ---------- the run ----------

    /** All enqueued functions ask for n rounds. */
    static ghost predicate AllHave(rs: seq<Runnable>, sizes: seq<nat>, step: seq<nat>, n: int)
      requires AllReady(rs, sizes, step)
    {
      forall k :: 0 <= k < |rs| ==> Ready(rs[k], sizes, step) && ChunksOf(rs[k], sizes, step) == n
    }

    static ghost predicate NoneIsEmpty(rs: seq<Runnable>, sizes: seq<nat>, step: seq<nat>)
      requires AllReady(rs, sizes, step)
    {
      forall k :: 0 <= k < |rs| ==> Ready(rs[k], sizes, step) && ChunksOf(rs[k], sizes, step) != 0
    }

    /** The number of rounds that the first enqueued function asks for. */
    static ghost function Rounds(rs: seq<Runnable>, sizes: seq<nat>, step: seq<nat>): int
      requires AllReady(rs, sizes, step)
    {
      if rs == [] then 0 else ChunksOf(rs[0], sizes, step)
    }

    /** The enqueued functions agree on the number of rounds. */
    static ghost predicate Matching(rs: seq<Runnable>, sizes: seq<nat>, step: seq<nat>)
      requires AllReady(rs, sizes, step)
    {
      Rounds(rs, sizes, step) >= 0 && AllHave(rs, sizes, step, Rounds(rs, sizes, step))
    }

    /** The number of rounds, -1 when the functions do not agree.  A count of 0 is taken for a barrier and skipped. */
    method Register() returns (num_buffers: int)
      requires cache.Shape() && AllReady(run_queue, Sizes(cache.objects), cache.step)
      requires AllHave(run_queue, Sizes(cache.objects), cache.step, 0)
               || NoneIsEmpty(run_queue, Sizes(cache.objects), cache.step)
      ensures num_buffers == if Matching(run_queue, Sizes(cache.objects), cache.step)
                             then Rounds(run_queue, Sizes(cache.objects), cache.step) else -1
    {
      hide ChunksOf, Ready;
      ghost var sizes, step := Sizes(cache.objects), cache.step;
      num_buffers := 0;
      for k := 0 to |run_queue|
        invariant num_buffers >= 0
        invariant num_buffers == 0 ==> k == 0 || AllHave(run_queue, sizes, step, 0)
        invariant num_buffers > 0 ==>
                    num_buffers == Rounds(run_queue, sizes, step)
                    && forall j :: 0 <= j < k ==>
                         Ready(run_queue[j], sizes, step) && ChunksOf(run_queue[j], sizes, step) == num_buffers
      {
        assert Ready(run_queue[k], sizes, step);
        var n := RegisterBuffers(run_queue[k]);
        if n < 0 {
          return -1;
        } else if n == 0 {
        } else if num_buffers == 0 {
          num_buffers := n;
        } else if n != num_buffers {
          return -1;
        }
      }
    }

    /** What a run asks of the functions that were enqueued. */
    ghost predicate Enqueued()
      reads this`run_queue, cache`objects, cache`step
    {
      && AllReady(run_queue, Sizes(cache.objects), cache.step)
      && forall k :: 0 <= k < |run_queue| ==>
           Ready(run_queue[k], Sizes(cache.objects), cache.step) && RespectsModes(run_queue[k], cache.objects)
    }

    /** The functions of the run have a chunk with this index. */
    ghost predicate HasRound(index: nat)
      reads this`run_queue, cache`objects, cache`step
    {
      forall k :: 0 <= k < |run_queue| ==> Runs(run_queue[k], index)
    }

    lemma RoundIsThere(n: nat, index: nat)
      requires Enqueued() && AllHave(run_queue, Sizes(cache.objects), cache.step, n) && index < n
      ensures HasRound(index)
    {
      hide NumChunks, KeepsLengths;
      forall k | 0 <= k < |run_queue|
        ensures Runs(run_queue[k], index)
      {
        assert Ready(run_queue[k], Sizes(cache.objects), cache.step);
      }
    }

    ghost function Used(): set<nat>
      reads this`run_queue
    {
      AllObjects(run_queue, |run_queue|)
    }

    static lemma ClaimsAreJustBefore(objs: set<nat>, step: seq<nat>, index: nat)
      ensures JustBefore(multiset{}, step, index)
      ensures index >= 1 ==> JustBefore(Claims(objs, step, index - 1), step, index)
    {
      if index >= 1 {
        forall o: nat | o < |step|
          ensures OnlyAt(Claims(objs, step, index - 1), o, step[o] * index - step[o])
        {
          assert step[o] * (index - 1) == step[o] * index - step[o];
        }
      }
    }

    /** Runs all kernels on the locked chunk `index`. */
    method RunKernels(r: RState, index: nat, ghost others: multiset<(int, nat)>,
                      ghost mem: seq<seq<Word>>) returns (ret: int)
      requires cache.Valid() && Shows(cache, mem) && Enqueued() && HasRound(index)
      requires Owns(cache.objects, cache.step, cache.slots, r, index) && r.active_buffers.Keys == Used()
      requires cache.holders == others + Claims(Used(), cache.step, index)
      modifies cache`host, cache`slots, this`acc
      ensures cache.Valid() && ret == 1
      ensures var t := FireAll(run_queue, index, Plain(mem, old(acc)), Sizes(cache.objects), cache.step, |run_queue|);
              Shows(cache, t.mem) && acc == t.acc
      ensures Owns(cache.objects, cache.step, cache.slots, r, index)
      ensures SameKeys(old(cache.slots), cache.slots)
    {
      hide SimpleBufferCache.Valid, SimpleBufferCache.View, NumChunks, Owns, Shows, SameKeys, Fire, KeepsLengths,
           RespectsModes, Runs, Claims, AllObjects;
      SameKeysOn(cache.slots, cache.slots, cache.slots);
      ShapesOf(mem);
      ghost var s0 := Plain(mem, acc);
      ghost var sizes := Sizes(cache.objects);
      for k := 0 to |run_queue|
        invariant cache.Valid()
        invariant var t := FireAll(run_queue, index, s0, sizes, cache.step, k);
                  Shows(cache, t.mem) && acc == t.acc
        invariant Owns(cache.objects, cache.step, cache.slots, r, index)
        invariant SameKeys(old(cache.slots), cache.slots)
      {
        ghost var slots := cache.slots;
        assert Runs(run_queue[k], index) && Ready(run_queue[k], sizes, cache.step);
        UsesAreHeld(k, index, others);
        ret := RunKernel(run_queue[k], r, index, FireAll(run_queue, index, s0, sizes, cache.step, k).mem);
        SameKeysOn(old(cache.slots), slots, cache.slots);
        if ret < 0 {
          return -1;
        }
      }
      return 1;
    }

    lemma ShapesOf(mem: seq<seq<Word>>)
      requires Shows(cache, mem)
      ensures Shapes(mem, Sizes(cache.objects)) && cache.Shape()
    {
    }

    lemma UsesAreHeld(k: nat, index: nat, others: multiset<(int, nat)>)
      requires k < |run_queue| && GoodUses(run_queue[k].uses, Sizes(cache.objects), cache.step)
      requires cache.holders == others + Claims(Used(), cache.step, index)
      ensures forall l :: 0 <= l < |run_queue[k].uses| ==>
                run_queue[k].uses[l].object_id in Used()
                && (run_queue[k].uses[l].object_id as int, run_queue[k].uses[l].step * index) in cache.holders
    {
      forall l | 0 <= l < |run_queue[k].uses|
        ensures run_queue[k].uses[l].object_id in Used()
                && (run_queue[k].uses[l].object_id as int, run_queue[k].uses[l].step * index) in cache.holders
      {
        AllObjectsHas(run_queue, |run_queue|, k, l);
        var o := run_queue[k].uses[l].object_id;
        assert Claims(Used(), cache.step, index)[(o as int, cache.step[o] * index)] == 1;
      }
    }

    /** The chunk states that are alive before a round: those of the last one or two rounds, with their locks. */
    ghost predicate Alive(active: seq<RState>, index: nat)
      reads this`run_queue, cache`objects, cache`step, cache`slots, cache`holders
    {
      && |active| <= 2 && |active| <= index
      && (forall a :: 0 <= a < |active| ==>
            active[a].active_buffers.Keys == Used()
            && Owns(cache.objects, cache.step, cache.slots, active[a], index - |active| + a))
      && cache.holders == (if |active| == 2 then Claims(Used(), cache.step, index - 2) else multiset{})
                          + (if |active| >= 1 then Claims(Used(), cache.step, index - 1) else multiset{})
    }

    lemma OthersOf(active: seq<RState>, index: nat)
      requires Alive(active, index) && |active| <= 1
      ensures cache.holders == if |active| == 1 then Claims(Used(), cache.step, index - 1) else multiset{}
      ensures JustBefore(cache.holders, cache.step, index)
    {
      hide Claims;
      ClaimsAreJustBefore(Used(), cache.step, index);
    }

    static lemma SameTurns(before: seq<Slot>, after: seq<Slot>, step: seq<nat>)
      requires SameKeys(before, after) && InTurn(before, step)
      ensures InTurn(after, step)
    {
      forall s | 0 <= s < |after|
        ensures TurnOf(s, after[s], step)
      {
        assert TurnOf(s, before[s], step);
      }
    }

    /** What the round before has locked are the chunks before. */
    lemma UsedArePreceded(index: nat)
      requires index > 0 ==> cache.holders == Claims(Used(), cache.step, index - 1)
      ensures AllPreceded(cache.holders, run_queue, cache.step, index)
    {
      forall k, l | 0 <= k < |run_queue| && 0 <= l < |run_queue[k].uses|
        ensures Preceded(cache.holders, run_queue[k].uses[l].object_id, cache.step, index)
      {
        AllObjectsHas(run_queue, |run_queue|, k, l);
        var o := run_queue[k].uses[l].object_id;
        if index > 0 && o < |cache.step| {
          assert Claims(Used(), cache.step, index - 1)[(o as int, cache.step[o] * (index - 1))] == 1;
        }
      }
    }

    /** Locks the chunks of a round and runs all kernels on them, beside at most one chunk state that is still alive. */
    method RunRound(queue: nat, active: seq<RState>, index: nat,
                    ghost mem: seq<seq<Word>>) returns (ret: int, r: RState)
      requires cache.Valid() && Shows(cache, mem) && Enqueued() && HasRound(index)
      requires Alive(active, index) && |active| == if index == 0 then 0 else 1
      modifies cache`host, cache`slots, cache`slot_lock, cache`holders, this`acc
      ensures cache.Valid() && ret == 1
      ensures var t := FireAll(run_queue, index, Plain(mem, old(acc)), Sizes(cache.objects), cache.step, |run_queue|);
              Shows(cache, t.mem) && acc == t.acc
      ensures Alive(active + [r], index + 1)
      ensures old(InTurn(cache.slots, cache.step)) ==> InTurn(cache.slots, cache.step)
    {
      hide SimpleBufferCache.Valid, SimpleBufferCache.View, NumChunks, Owns, Shows, SameKeys, FireAll, Claims, Runs,
           KeepsLengths, RespectsModes, JustBefore, LockedStay, AllObjects, InTurn, AllPreceded;
      ShapesOf(mem);
      ghost var others := cache.holders;
      OthersOf(active, index);
      UsedArePreceded(index);
      ghost var slots0, locks0 := cache.slots, cache.slot_lock;
      if |active| == 1 {
        assert cache.holders == multiset{} + Claims(active[0].active_buffers.Keys, cache.step, index - 1);
        OwnedIsLocked(active[0], index - 1, multiset{});
      }
      ret, r := ActivateAll(queue, index, others, mem);
      if ret < 0 {
        return;
      }
      if |active| == 1 {
        StillOwned(active[0], index - 1, slots0, locks0);
      }
      ghost var slots1 := cache.slots;
      ret := RunKernels(r, index, others, mem);
      if InTurn(slots1, cache.step) {
        SameTurns(slots1, cache.slots, cache.step);
      }
      if |active| == 1 {
        KeysOwn(slots1, active[0], index - 1);
      }
      if ret < 0 {
        return;
      }
    }

    /** A chunk state whose slots are locked survives when further chunks are locked. */
    lemma StillOwned(r: RState, idx: nat, slots: seq<Slot>, locks: seq<SlotLock>)
      requires Owns(cache.objects, cache.step, slots, r, idx)
      requires LockedStay(slots, locks, cache.slots, cache.slot_lock)
      requires forall o :: o in r.active_buffers ==>
                 |r.active_buffers[o]| == 1 && r.active_buffers[o][0].slot < |locks|
                 && locks[r.active_buffers[o][0].slot].status != Free
      ensures Owns(cache.objects, cache.step, cache.slots, r, idx)
    {
      hide OwnsOne;
      OwnsStays(cache.objects, cache.step, slots, cache.slots, r, idx);
    }

    /** Unlocks the oldest chunk state. */
    method Retire(active: seq<RState>, ghost index: nat) returns (ret: int)
      requires cache.Valid() && Alive(active, index) && |active| >= 1
      requires forall j :: 0 <= j < index ==> HasRound(j)
      modifies cache`slot_lock, cache`holders
      ensures cache.Valid() && ret == 1
      ensures Alive(active[1..], index)
    {
      hide SimpleBufferCache.Valid, Owns, Claims, Runs;
      ghost var idx := index - |active|;
      ghost var others := if |active| == 2 then Claims(Used(), cache.step, index - 1) else multiset{};
      assert HasRound(idx);
      assert cache.holders == others + Claims(Used(), cache.step, idx);
      ret := DeactivateAll(active[0], idx, others);
    }

    /** The loop over chunks. */
    method RunRounds(n: nat, ghost s0: Plain) returns (ret: int, active_rstates: seq<RState>)
      requires cache.Valid() && Shows(cache, s0.mem) && acc == s0.acc && Enqueued() && cache.holders == multiset{}
      requires forall j :: 0 <= j < n ==> HasRound(j)
      modifies this`acc, cache`host, cache`slots, cache`slot_lock, cache`holders
      ensures cache.Valid() && ret == 1 && Alive(active_rstates, n)
      ensures old(InTurn(cache.slots, cache.step)) ==> InTurn(cache.slots, cache.step)
      ensures Shapes(s0.mem, Sizes(cache.objects))
              && var t := ChunkMajor(run_queue, n, s0, Sizes(cache.objects), cache.step, |run_queue|);
                 Shows(cache, t.mem) && acc == t.acc
    {
      hide SimpleBufferCache.Valid, SimpleBufferCache.View, Owns, Shows, FireAll, Claims, HasRound,
           KeepsLengths, RespectsModes, AllObjects, InTurn;
      ShapesOf(s0.mem);
      active_rstates := [];
      var current_queue: nat := 0;
      ghost var rs, sizes := run_queue, Sizes(cache.objects);
      for current_index := 0 to n
        invariant current_queue < QUEUES
        invariant cache.Valid() && Alive(active_rstates, current_index)
        invariant |active_rstates| == if current_index < QUEUES then current_index else QUEUES
        invariant old(InTurn(cache.slots, cache.step)) ==> InTurn(cache.slots, cache.step)
        invariant var t := ChunkMajor(rs, current_index, s0, sizes, cache.step, |rs|);
                  Shows(cache, t.mem) && acc == t.acc
      {
        if |active_rstates| >= QUEUES {
          ret := Retire(active_rstates, current_index);
          active_rstates := active_rstates[1..];
        }
        var active_rstate;
        ret, active_rstate := RunRound(current_queue, active_rstates, current_index,
                                       ChunkMajor(rs, current_index, s0, sizes, cache.step, |rs|).mem);
        if ret < 0 {
          return;
        }
        active_rstates := active_rstates + [active_rstate];
        current_queue := (current_queue + 1) % QUEUES;
      }
      ret := 1;
    }

    /** Unlocks the chunk states that are still alive after the last round. */
    method Drain(active: seq<RState>, ghost n: nat) returns (ret: int)
      requires cache.Valid() && Alive(active, n) && forall j :: 0 <= j < n ==> HasRound(j)
      modifies cache`slot_lock, cache`holders
      ensures cache.Valid() && ret == 1 && cache.holders == multiset{}
    {
      hide SimpleBufferCache.Valid, Owns, Claims, HasRound, AllObjects;
      var active_rstates := active;
      while |active_rstates| != 0
        invariant cache.Valid() && Alive(active_rstates, n)
        decreases |active_rstates|
      {
        ret := Retire(active_rstates, n);
        if ret < 0 {
          return;
        }
        active_rstates := active_rstates[1..];
      }
      ret := 1;
    }

    /** Runs everything that was enqueued, chunk by chunk.  If the functions agree on the number of chunks, the memory
        that the cache stands for and the accumulators end up as if each function in turn had been applied to its whole
        objects, and no lock is left; if they do not, nothing happens. */
    method Run(ghost mem: seq<seq<Word>>) returns (ret: int)
      requires cache.Valid() && Shows(cache, mem) && Enqueued() && cache.holders == multiset{}
      requires AllHave(run_queue, Sizes(cache.objects), cache.step, 0)
               || NoneIsEmpty(run_queue, Sizes(cache.objects), cache.step)
      modifies this`run_queue, this`acc, cache`host, cache`slots, cache`slot_lock, cache`holders
      ensures cache.Valid() && cache.holders == multiset{}
      ensures ret == if old(Matching(run_queue, Sizes(cache.objects), cache.step)) then 1 else -1
      ensures ret == 1 ==>
                var rs := old(run_queue);
                var n := Rounds(rs, Sizes(cache.objects), cache.step);
                && n >= 0 && run_queue == []
                && var t := RunnableMajor(rs, n, Plain(mem, old(acc)), Sizes(cache.objects), cache.step, |rs|);
                   Shows(cache, t.mem) && acc == t.acc
      ensures old(InTurn(cache.slots, cache.step)) ==> InTurn(cache.slots, cache.step)
      ensures ret == -1 ==> unchanged(cache) && unchanged(this)
    {
      hide SimpleBufferCache.Valid, SimpleBufferCache.View, Owns, Shows, FireAll, Claims, AllHave, ChunksOf,
           KeepsLengths, RespectsModes, AllObjects, NoneIsEmpty, RunnableMajor, ChunkMajor, HasRound, InTurn;
      ShapesOf(mem);
      var num_buffers := Register();
      if num_buffers < 0 {
        return -1;
      }
      ghost var s0, rs, sizes := Plain(mem, acc), run_queue, Sizes(cache.objects);
      forall j | 0 <= j < num_buffers
        ensures HasRound(j)
      {
        RoundIsThere(num_buffers, j);
      }
      var active_rstates;
      ret, active_rstates := RunRounds(num_buffers, s0);
      if ret < 0 {
        return;
      }
      ret := Drain(active_rstates, num_buffers);
      if ret < 0 {
        return;
      }
      LoopInterchange(rs, num_buffers, s0, sizes, cache.step, |rs|);
      run_queue := [];
      return 1;
    }
  }
}

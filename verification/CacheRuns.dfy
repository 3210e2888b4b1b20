/** What holds throughout every run of requests to the cache, whoever makes them. */
module CacheRuns {
  import opened BufferCache

  /** A request of a client, for the chunk of an object that begins at some offset. */
  datatype Request = Get(oid: int, begin: int) | Read(oid: int, begin: int) | Unlock(oid: int, buffer_id: nat)

  /** Locks mean what they say, slots stay with their objects, and nothing is cached twice. */
  lemma LocksAndSlotsAreSafe(cache: SimpleBufferCache, s: nat)
    requires cache.Valid() && s < cache.num_slots
    ensures s < |cache.slot_lock| && s < |cache.slots|
    ensures var lock, slot := cache.slot_lock[s], cache.slots[s];
            && (lock.status == Free <==> lock.count == 0)
            && (lock.status == WriteLock ==> lock.count == 1)
            && (slot.object_id != -1 ==>
                  && lock.count == cache.holders[(slot.object_id, slot.buffer_id as int)]
                  && slot.object_id == s / DOUBLE_BUFFERING + 1
                  && forall t :: 0 <= t < cache.num_slots && IsIn(cache.slots, t, slot.object_id, slot.buffer_id) ==>
                                   t == s)
            && (slot.object_id == -1 ==> lock.count == 0)
  {
    hide SimpleBufferCache.Data;
    SlotIsGood(cache, s);
    var slot := cache.slots[s];
    assert GoodLock(cache.slot_lock[s], Holding(cache.holders, slot));
    if slot.object_id != -1 {
      cache.NotTwice(s, slot.object_id, slot.buffer_id);
    }
  }

  lemma SlotIsGood(cache: SimpleBufferCache, s: nat)
    requires cache.Valid() && s < cache.num_slots
    ensures s < |cache.slots| && |cache.slot_lock| == |cache.slots| && cache.Data()
    ensures cache.slots[s].object_id != -1 ==> cache.slots[s].object_id == s / DOUBLE_BUFFERING + 1
  {
    hide Chunk;
    assert GoodSlot(s, cache.slots[s], cache.objects, cache.step, cache.host, cache.zero_copy);
  }

  /** A chunk that somebody holds can always be given back. */
  method GiveBack(cache: SimpleBufferCache, oid: int, begin: nat) returns (ret: int)
    requires cache.Valid() && (oid, begin as int) in cache.holders
    modifies cache`slot_lock, cache`holders
    ensures cache.Valid() && ret == 1
  {
    ret := cache.Unlock(oid, [BufferDesc(0, 0, begin)]);
  }

  // ---------- what a lock means for later requests ----------

  /** How many of the requests get this chunk. */
  function Gets(requests: seq<Request>, oid: int, begin: int): nat {
    if requests == [] then 0
    else Gets(requests[..|requests| - 1], oid, begin) + if requests[|requests| - 1] == Get(oid, begin) then 1 else 0
  }

  /** The slot was locked at first, its chunk has not been given back, and so it is still there: if the lock was for
      writing, every request to get the chunk has been refused; if it was for reading, each of them has been granted and
      has made one reader more. */
  ghost predicate KeptLocked(was: Slot, lock: SlotLock, now: Slot, lock': SlotLock, requests: seq<Request>,
                             answers: seq<int>)
    requires |answers| == |requests|
  {
    var o, b := was.object_id, was.buffer_id;
    && now == was
    && (forall k :: 0 <= k < |requests| && requests[k] == Get(o, b) ==>
          answers[k] == if lock.status == ReadLock then 1 else -1)
    && lock' == if lock.status == ReadLock then SlotLock(ReadLock, lock.count + Gets(requests, o, b)) else lock
  }

  /** What one request does to a slot that is locked, unless it gives the lock back. */
  ghost predicate KeptByOne(was: Slot, lock: SlotLock, now: Slot, lock': SlotLock, r: Request, answer: int) {
    && now == was
    && if r == Get(was.object_id, was.buffer_id) then
         if lock.status == ReadLock then answer == 1 && lock' == OneReaderMore(lock) else answer == -1 && lock' == lock
       else lock' == lock
  }

  predicate GivesBack(r: Request, slot: Slot) {
    r == Unlock(slot.object_id, slot.buffer_id)
  }

  ghost predicate AllKeptByOne(slots: seq<Slot>, locks: seq<SlotLock>, slots': seq<Slot>, locks': seq<SlotLock>,
                               r: Request, answer: int) {
    && |slots| == |locks| == |slots'| == |locks'|
    && forall s :: 0 <= s < |slots| && locks[s].status != Free && !GivesBack(r, slots[s]) ==>
                     KeptByOne(slots[s], locks[s], slots'[s], locks'[s], r, answer)
  }

  ghost predicate AllKept(slots: seq<Slot>, locks: seq<SlotLock>, slots': seq<Slot>, locks': seq<SlotLock>,
                          requests: seq<Request>, answers: seq<int>)
    requires |answers| == |requests|
  {
    && |slots| == |locks| == |slots'| == |locks'|
    && forall s :: 0 <= s < |slots| && locks[s].status != Free
                   && (forall k :: 0 <= k < |requests| ==> !GivesBack(requests[k], slots[s])) ==>
                     KeptLocked(slots[s], locks[s], slots'[s], locks'[s], requests, answers)
  }

  lemma KeptOnce(was: Slot, lock: SlotLock, now: Slot, lock': SlotLock, now': Slot, lock'': SlotLock,
                 requests: seq<Request>, answers: seq<int>, r: Request, answer: int)
    requires |answers| == |requests| && KeptLocked(was, lock, now, lock', requests, answers)
    requires KeptByOne(now, lock', now', lock'', r, answer)
    ensures KeptLocked(was, lock, now', lock'', requests + [r], answers + [answer])
  {
    assert (requests + [r])[..|requests|] == requests;
  }

  lemma AllKeptOn(slots: seq<Slot>, locks: seq<SlotLock>, slots': seq<Slot>, locks': seq<SlotLock>, slots'': seq<Slot>,
                  locks'': seq<SlotLock>, requests: seq<Request>, answers: seq<int>, r: Request, answer: int)
    requires |answers| == |requests| && AllKept(slots, locks, slots', locks', requests, answers)
    requires AllKeptByOne(slots', locks', slots'', locks'', r, answer)
    ensures AllKept(slots, locks, slots'', locks'', requests + [r], answers + [answer])
  {
    hide KeptByOne, GivesBack;
    var more := requests + [r];
    forall s | 0 <= s < |slots| && locks[s].status != Free
      && forall k :: 0 <= k < |more| ==> !GivesBack(more[k], slots[s])
      ensures KeptLocked(slots[s], locks[s], slots''[s], locks''[s], more, answers + [answer])
    {
      forall k | 0 <= k < |requests|
        ensures !GivesBack(requests[k], slots[s])
      {
        assert more[k] == requests[k];
      }
      assert more[|requests|] == r;
      KeptOnce(slots[s], locks[s], slots'[s], locks'[s], slots''[s], locks''[s], requests, answers, r, answer);
    }
  }

  /** Gets a chunk, and what that does to the slots that are locked. */
  method ServeGet(cache: SimpleBufferCache, oid: int, begin: int, end: int) returns (ret: int)
    requires cache.Valid() && (cache.InObject(oid, begin) ==> cache.IsChunk(oid, begin, end))
    modifies cache`host, cache`slots, cache`slot_lock, cache`holders
    ensures cache.Valid()
    ensures forall o :: cache.IsObject(o) ==> cache.View(o) == old(cache.View(o))
    ensures AllKeptByOne(old(cache.slots), old(cache.slot_lock), cache.slots, cache.slot_lock, Get(oid, begin), ret)
  {
    hide SimpleBufferCache.Data, SimpleBufferCache.View, SimpleBufferCache.Locks;
    ghost var slots, locks := cache.slots, cache.slot_lock;
    ShapeOf(cache);
    forall s | 0 <= s < |slots| && IsIn(slots, s, oid, begin)
      ensures cache.InObject(oid, begin) && begin <= end <= begin + cache.buffer_size && s == cache.Choice(oid, begin)
      ensures cache.CanGet(oid, begin) <==> locks[s].status != WriteLock
    {
      CachedIsChosen(cache, s, oid, begin, end);
    }
    LockedIsFull(cache);
    if cache.InObject(oid, begin) && cache.CanGet(oid, begin) {
      ChosenIsFree(cache, oid, begin);
    }
    var buffers;
    ret, buffers := cache.Get(oid, begin, end);
    ShapeOf(cache);
  }

  lemma LockedIsFull(cache: SimpleBufferCache)
    requires cache.Valid()
    ensures |cache.slots| == |cache.slot_lock| == cache.num_slots
    ensures forall s :: 0 <= s < cache.num_slots && cache.slot_lock[s].status != Free ==> cache.slots[s].object_id != -1
  {
    hide SimpleBufferCache.Data;
    ShapeOf(cache);
    forall s | 0 <= s < cache.num_slots && cache.slot_lock[s].status != Free
      ensures cache.slots[s].object_id != -1
    {
      assert GoodLock(cache.slot_lock[s], Holding(cache.holders, cache.slots[s]));
    }
  }

  /** A chunk that is not cached gets a slot that was free. */
  lemma ChosenIsFree(cache: SimpleBufferCache, oid: int, begin: int)
    requires cache.Shape() && |cache.slot_lock| == cache.num_slots && cache.IsObject(oid) && cache.CanGet(oid, begin)
    ensures 0 <= cache.Choice(oid, begin) < cache.num_slots
    ensures IsIn(cache.slots, cache.Choice(oid, begin), oid, begin)
            || cache.slot_lock[cache.Choice(oid, begin)].status == Free
  {
  }

  lemma CachedIsChosen(cache: SimpleBufferCache, s: int, oid: int, begin: int, end: int)
    requires cache.Valid() && IsIn(cache.slots, s, oid, begin)
    requires cache.InObject(oid, begin) ==> cache.IsChunk(oid, begin, end)
    ensures cache.Shape() && cache.InObject(oid, begin) && begin <= end <= begin + cache.buffer_size
    ensures s == cache.Choice(oid, begin)
    ensures cache.CanGet(oid, begin) <==> cache.slot_lock[s].status != WriteLock
  {
    cache.NotTwice(s, oid, begin);
    assert GoodSlot(s, cache.slots[s], cache.objects, cache.step, cache.host, cache.zero_copy);
  }

  /** Any requests whatsoever, answered or refused, leave the cache valid and the memory that it stands for as it was. A
      chunk that was locked at first, and is not given back, stays locked in its slot: nobody gets it while it is locked
      for writing, and everybody does while it is locked for reading. */
  method Serve(cache: SimpleBufferCache, requests: seq<Request>, chunks: seq<nat>) returns (answers: seq<int>)
    requires cache.Valid() && chunks == cache.step
    requires forall r :: r in requests && !r.Unlock? && cache.InObject(r.oid, r.begin) ==> r.begin % chunks[r.oid] == 0
    modifies cache`host, cache`slots, cache`slot_lock, cache`holders
    ensures cache.Valid() && |answers| == |requests|
    ensures forall o :: cache.IsObject(o) ==> cache.View(o) == old(cache.View(o))
    ensures AllKept(old(cache.slots), old(cache.slot_lock), cache.slots, cache.slot_lock, requests, answers)
  {
    hide SimpleBufferCache.Valid, SimpleBufferCache.View, AllKept, AllKeptByOne;
    ShapeOf(cache);
    answers := [];
    NothingServed(cache);
    for k := 0 to |requests|
      invariant cache.Valid() && cache.Shape() && |answers| == k
      invariant forall o :: cache.IsObject(o) ==> cache.View(o) == old(cache.View(o))
      invariant AllKept(old(cache.slots), old(cache.slot_lock), cache.slots, cache.slot_lock, requests[..k], answers)
    {
      var r := requests[k];
      ghost var slots, locks := cache.slots, cache.slot_lock;
      var ret;
      match r {
        case Get(oid, begin) =>
          var end := EndOf(cache, oid, begin, chunks);
          ret := ServeGet(cache, oid, begin, end);
        case Read(oid, begin) =>
          var end := EndOf(cache, oid, begin, chunks);
          ret := ReadValid(cache, oid, begin, end);
        case Unlock(oid, buffer_id) =>
          ret := ServeUnlock(cache, oid, buffer_id);
      }
      AllKeptOn(old(cache.slots), old(cache.slot_lock), slots, locks, cache.slots, cache.slot_lock, requests[..k],
                answers,
                r, ret);
      assert requests[..k] + [r] == requests[..k + 1];
      answers := answers + [ret];
      ShapeOf(cache);
    }
    assert requests[..|requests|] == requests;
  }

  lemma NothingServed(cache: SimpleBufferCache)
    requires cache.Valid()
    ensures AllKept(cache.slots, cache.slot_lock, cache.slots, cache.slot_lock, [], [])
  {
  }

  method ServeUnlock(cache: SimpleBufferCache, oid: int, buffer_id: nat) returns (ret: int)
    requires cache.Valid()
    modifies cache`slot_lock, cache`holders
    ensures cache.Valid()
    ensures forall o :: cache.IsObject(o) ==> cache.View(o) == old(cache.View(o))
    ensures AllKeptByOne(old(cache.slots), old(cache.slot_lock), cache.slots, cache.slot_lock, Unlock(oid, buffer_id),
                         ret)
  {
    hide SimpleBufferCache.Data, SimpleBufferCache.View, SimpleBufferCache.Locks;
    ret := cache.Unlock(oid, [BufferDesc(0, 0, buffer_id)]);
  }

  /** A chunk that was not cached is locked for writing by whoever gets it first: it is refused until it is given back,
      and then any number of readers get it. */
  method GetTwice(cache: SimpleBufferCache, oid: int, begin: nat, end: int)
    returns (first: int, second: int, back: int, third: int, fourth: int)
    requires cache.Valid() && cache.InObject(oid, begin) && cache.IsChunk(oid, begin, end)
    requires cache.Shape() && |cache.slot_lock| == cache.num_slots && cache.CanAssign(oid)
    requires forall s :: 0 <= s < cache.num_slots ==> !IsIn(cache.slots, s, oid, begin)
    modifies cache`host, cache`slots, cache`slot_lock, cache`holders
    ensures first == 1 && second == -1 && back == 1 && third == 1 && fourth == 1
  {
    hide SimpleBufferCache.Data, SimpleBufferCache.View, SimpleBufferCache.Locks;
    ChunkFits(cache, oid, begin, end);
    var buffers, more;
    first, buffers := cache.Get(oid, begin, end);
    ghost var s := buffers[0].slot;
    CachedIsChosen(cache, s, oid, begin, end);
    second, more := cache.Get(oid, begin, end);
    back := cache.Unlock(oid, buffers);
    FoundOnce(cache, s, oid, begin);
    CachedIsChosen(cache, s, oid, begin, end);
    third, more := cache.Get(oid, begin, end);
    CachedIsChosen(cache, s, oid, begin, end);
    fourth, more := cache.Get(oid, begin, end);
  }

  lemma FoundOnce(cache: SimpleBufferCache, s: int, oid: int, begin: int)
    requires cache.Valid() && IsIn(cache.slots, s, oid, begin)
    ensures forall t :: IsIn(cache.slots, t, oid, begin) ==> t == s
  {
    cache.NotTwice(s, oid, begin);
  }

  lemma ChunkFits(cache: SimpleBufferCache, oid: int, begin: int, end: int)
    requires cache.Valid() && cache.InObject(oid, begin) && cache.IsChunk(oid, begin, end)
    ensures begin <= end <= begin + cache.buffer_size
  {
  }

  lemma ShapeOf(cache: SimpleBufferCache)
    requires cache.Valid()
    ensures cache.Shape() && |cache.slot_lock| == cache.num_slots
  {
  }

  lemma ValidIsData(cache: SimpleBufferCache)
    requires cache.Valid()
    ensures cache.Data()
  {
  }

  /** Reading keeps the locks as they are. */
  method ReadValid(cache: SimpleBufferCache, oid: int, begin: int, end: int) returns (ret: int)
    requires cache.Valid() && (cache.InObject(oid, begin) ==> cache.IsChunk(oid, begin, end))
    modifies cache`host
    ensures cache.Valid()
    ensures forall o :: cache.IsObject(o) ==> cache.View(o) == old(cache.View(o))
    ensures AllKeptByOne(old(cache.slots), old(cache.slot_lock), cache.slots, cache.slot_lock, Read(oid, begin), ret)
  {
    hide SimpleBufferCache.Data, SimpleBufferCache.View;
    ret := cache.Read(oid, begin, end);
  }

  method EndOf(cache: SimpleBufferCache, oid: int, begin: int, chunks: seq<nat>) returns (end: int)
    requires cache.Shape() && chunks == cache.step
    requires cache.InObject(oid, begin) ==> begin % chunks[oid] == 0
    ensures cache.InObject(oid, begin) ==> cache.IsChunk(oid, begin, end)
  {
    end := begin;
    if 1 <= oid < |cache.objects| && 0 <= begin < cache.objects[oid].size {
      end := if begin + chunks[oid] < cache.objects[oid].size then begin + chunks[oid] else cache.objects[oid].size;
    }
  }
}

/** Reads of byte ranges through the window cache and the flights in progress. */
module RangeReads {
  import opened Arithmetic
  import opened Content
  import opened ReadCache
  import opened Flights

  const PREFETCH_BYTES := 8 * 0x10_0000

  datatype RangeError = BadLength | NoFsid | NoLink | Canceled | Upstream | ShortRead

  datatype RangeReply = Data(data: Bytes) | Error(error: RangeError)

  datatype Fetch = Got(data: Bytes) | Refused

  /** What the remote store answers to an attempt to read `length` bytes at `offset` of a file. */
  type Client = (int, int, int) -> Fetch

  /** Answers are prefixes of the bytes asked for. */
  ghost predicate Honest(remote: RemoteBytes, fsid: string, client: Client)
  {
    forall offset, length, attempt :: client(offset, length, attempt).Got? ==>
      HonestAnswer(remote, fsid, offset, length, client(offset, length, attempt).data)
  }

  ghost predicate HonestAnswer(remote: RemoteBytes, fsid: string, offset: int, length: int, data: Bytes)
  {
    |data| <= Max(length, 0) && data == Slice(remote, fsid, offset, |data|)
  }

  /** What a reader gets that waits for another reader's flight. */
  datatype Joined = Delivered(outcome: Outcome) | GaveUp

  ghost predicate JoinedTrue(remote: RemoteBytes, key: CacheKey, joined: Joined)
  {
    joined.Delivered? ==> OutcomeTrue(remote, key, joined.outcome)
  }

  // ---------- windows ----------

  function AlignOffset(offset: int, size: int): int
  {
    if size <= 0 || offset <= 0 then 0 else offset / size * size
  }

  /** The aligned window of a nonnegative offset contains it. */
  lemma AlignedContains(offset: int, size: int)
    requires size > 0 && offset >= 0
    ensures 0 <= AlignOffset(offset, size) <= offset < AlignOffset(offset, size) + size
  {
    if offset > 0 { DivMono(0, offset, size); MulMono(0, offset / size, size); }
  }

  function SliceForWindow(data: Bytes, windowOffset: int, offset: int, length: nat): (r: Bytes)
    ensures |r| <= length
  {
    var start := Max(offset - windowOffset, 0);
    if start >= |data| then [] else data[start..Min(start + length, |data|)]
  }

  /** A window that starts at or before the offset gives a prefix of what is asked for; all of it exactly
      if the window reaches far enough. */
  lemma SliceIsPrefix(remote: RemoteBytes, fsid: string, data: Bytes, windowOffset: int, offset: int, length: nat)
    requires windowOffset <= offset && data == Slice(remote, fsid, windowOffset, |data|)
    ensures var r := SliceForWindow(data, windowOffset, offset, length);
      r == Slice(remote, fsid, offset, |r|) && (|r| == length <==> length == 0 || windowOffset + |data| >= offset + length)
  {
    var start := offset - windowOffset;
    if start < |data| {
      SliceOfSlice(remote, fsid, windowOffset, |data|, start, Min(start + length, |data|));
    }
  }

  /** Before the start of a file the window does not contain the offset: a read at a negative offset gets
      the bytes at the start of the file. */
  lemma NegativeOffsetIsShifted(remote: RemoteBytes, fsid: string, data: Bytes, offset: int, length: nat, size: int)
    requires offset < 0 && data == Slice(remote, fsid, AlignOffset(offset, size), |data|)
    ensures SliceForWindow(data, AlignOffset(offset, size), offset, length) == Slice(remote, fsid, 0, Min(length, |data|))
  {
    SliceOfSlice(remote, fsid, 0, |data|, 0, Min(length, |data|));
  }

  /** Such a read is wrong for a file that differs there, at every negative offset. */
  lemma NegativeOffsetIsWrong(fsid: string, data: Bytes, offset: int, length: nat, size: int) returns (remote: RemoteBytes)
    requires offset < 0 && length > 0 && data != [] && forall i :: 0 <= i < |data| ==> data[i] == 7
    ensures data == Slice(remote, fsid, AlignOffset(offset, size), |data|)
    ensures var r := SliceForWindow(data, AlignOffset(offset, size), offset, length);
      |r| > 0 && r != Slice(remote, fsid, offset, |r|)
  {
    remote := (f, i) => if i < 0 then 3 else 7;
    NegativeOffsetIsShifted(remote, fsid, data, offset, length, size);
    var r := SliceForWindow(data, AlignOffset(offset, size), offset, length);
    assert r[0] == 7 && Slice(remote, fsid, offset, |r|)[0] == 3;
  }

  // ---------- fetching ----------

  // What a read of the remote store depends on, said without the reader's own functions.

  /** One cached window of the file holds all of the range. */
  ghost predicate HeldIn(windows: seq<Window>, fsid: string, offset: int, length: int)
  {
    exists w :: w in windows && w.key.fsid == fsid && |w.value| > 0
                && w.key.offset <= offset && offset + length <= w.key.offset + |w.value|
  }

  predicate AttemptOk(client: Client, offset: int, length: nat, exact: bool, attempt: int)
  {
    match client(offset, length, attempt)
    case Got(data) => exact ==> |data| == length
    case Refused => false
  }

  /** One of two attempts is accepted, the second only if the caller has not given up by then. */
  predicate Accepts(client: Client, offset: int, length: nat, exact: bool, cancelled: int -> bool)
  {
    AttemptOk(client, offset, length, exact, 0) || (!cancelled(0) && AttemptOk(client, offset, length, exact, 1))
  }

  /** The bytes of the first accepted attempt. */
  function Accepted(client: Client, offset: int, length: nat, exact: bool): Bytes
  {
    match client(offset, length, if AttemptOk(client, offset, length, exact, 0) then 0 else 1)
    case Got(data) => data
    case Refused => []
  }

  /** The flight that was joined brought bytes. */
  predicate Brings(joined: Joined) { joined.Delivered? && joined.outcome.Fetched? }

  /** How many of the bytes asked for lie in a window of this size. */
  function Part(windowOffset: int, size: nat, offset: int, length: nat): (n: nat)
  {
    var start := if offset > windowOffset then offset - windowOffset else 0;
    if size <= start then 0 else if size - start <= length then size - start else length
  }

  /** A window is fetched around the range: at least 8 MiB, a whole chunk and the range long, and aligned to its length. */
  lemma FetchWindow(offset: int, length: nat, chunkSize: int)
    requires offset >= 0
    ensures var n, at := FetchLength(length, chunkSize), FetchOffset(offset, length, chunkSize);
      && n >= 8 * 0x10_0000 && n >= length && n >= chunkSize && (n == 8 * 0x10_0000 || n == length || n == chunkSize)
      && at <= offset < at + n && at % n == 0
  {
    var n := FetchLength(length, chunkSize);
    AlignedContains(offset, n);
    if offset > 0 { QuotientUnique(offset / n * n, n, offset / n, 0); }
  }

  /** An attempt that the caller accepts: any answer, or only a complete one. */
  predicate Good(client: Client, offset: int, length: nat, exact: bool, attempt: int)
  {
    client(offset, length, attempt).Got? && (exact ==> |client(offset, length, attempt).data| == length)
  }

  /** Tries twice, unless the caller gives up after the first attempt. */
  function Fetched2(client: Client, offset: int, length: nat, exact: bool, cancelled: int -> bool): RangeReply
  {
    if Good(client, offset, length, exact, 0) then Data(client(offset, length, 0).data)
    else if cancelled(0) then Error(Canceled)
    else if Good(client, offset, length, exact, 1) then Data(client(offset, length, 1).data)
    else if cancelled(1) then Error(Canceled)
    else Error(Upstream)
  }

  method FetchTwice(client: Client, offset: int, length: nat, exact: bool, cancelled: int -> bool) returns (reply: RangeReply)
    ensures reply == Fetched2(client, offset, length, exact, cancelled) && (exact && reply.Data? ==> |reply.data| == length)
    ensures reply.Data? <==> Accepts(client, offset, length, exact, cancelled)
    ensures reply.Data? ==> reply.data == Accepted(client, offset, length, exact)
  {
    var attempt := 0;
    while attempt < 2
      invariant 0 <= attempt <= 2
      invariant forall k :: 0 <= k < attempt ==> !Good(client, offset, length, exact, k) && !cancelled(k)
    {
      var answer := client(offset, length, attempt);
      if answer.Got? && (exact ==> |answer.data| == length) { return Data(answer.data); }
      if cancelled(attempt) { return Error(Canceled); }
      attempt := attempt + 1;
    }
    reply := Error(Upstream);
  }

  lemma FetchedIsTrue(remote: RemoteBytes, fsid: string, client: Client, offset: int, length: nat, exact: bool, cancelled: int -> bool)
    requires Honest(remote, fsid, client)
    ensures var r := Fetched2(client, offset, length, exact, cancelled);
      r.Data? ==> HonestAnswer(remote, fsid, offset, length, r.data) && (exact ==> |r.data| == length)
  {
  }

  /** A reply holds only true bytes: a prefix of what was asked for, or all of it. */
  ghost predicate PrefixReply(remote: RemoteBytes, fsid: string, offset: int, length: nat, reply: RangeReply)
  {
    reply.Data? ==> |reply.data| <= length && reply.data == Slice(remote, fsid, offset, |reply.data|)
  }

  ghost predicate ExactReply(remote: RemoteBytes, fsid: string, offset: int, length: nat, reply: RangeReply)
  {
    reply.Data? ==> reply.data == Slice(remote, fsid, offset, length)
  }

  /** Flights that existed are as they were, no flight is left current, and new ones were closed once. */
  ghost predicate Settled(before: Table, after: Table)
  {
    && after.current == before.current
    && (forall id :: id in before.flights ==> id in after.flights && after.flights[id] == before.flights[id])
    && (forall id :: id in after.flights && id !in before.flights ==>
          after.flights[id].closes == 1 && after.flights[id].outcome.Some?)
  }

  /** Flight numbers in use are at most the count. */
  ghost predicate Numbered(t: Table)
  {
    forall id :: id in t.flights ==> id <= t.count
  }

  lemma Completes(remote: RemoteBytes, fsid: string, offset: int, length: nat, data: Bytes, missing: RangeReply)
    requires |data| <= length && data == Slice(remote, fsid, offset, |data|) && missing.Data?
    ensures ExactReply(remote, fsid, offset + |data|, length - |data|, missing) ==>
      ExactReply(remote, fsid, offset, length, Data(data + missing.data))
  {
    SliceConcat(remote, fsid, offset, |data|, length - |data|);
  }

  lemma HeldCovers(windows: seq<Window>, fsid: string, offset: int, length: int)
    ensures HeldIn(windows, fsid, offset, length) <==> exists w :: w in windows && Covers(w, fsid, offset, length)
  {
  }

  lemma PartOfWindow(data: Bytes, windowOffset: int, offset: int, length: nat)
    ensures |SliceForWindow(data, windowOffset, offset, length)| == Part(windowOffset, |data|, offset, length)
  {
  }

  class Reader {
    const cache: Cache
    var table: Table

    constructor (cacheLimit: int)
      requires cacheLimit >= 0
      ensures Valid() && fresh(cache) && table == NO_FLIGHTS
    {
      cache := new Cache(cacheLimit);
      table := NO_FLIGHTS;
    }

    ghost predicate Valid()
      reads this, cache
    {
      cache.Valid() && Numbered(table)
    }

    /** Fetches a window this reader owns and tells everyone who waits for it. */
    method FetchOwned(key: CacheKey, length: nat, exact: bool, client: Client, cancelled: int -> bool, ghost remote: RemoteBytes)
      returns (reply: RangeReply)
      requires Valid() && key !in table.current
      modifies this`table, cache
      ensures Valid() && Settled(old(table), table)
      ensures reply == Fetched2(client, key.offset, length, exact, cancelled) && (exact && reply.Data? ==> |reply.data| == length)
      ensures reply.Data? <==> Accepts(client, key.offset, length, exact, cancelled)
      ensures reply.Data? ==> reply.data == Accepted(client, key.offset, length, exact)
      ensures cache.windows == if reply.Data? then AfterStore(old(cache.windows), key, reply.data, cache.cacheLimit) else old(cache.windows)
      ensures Honest(remote, key.fsid, client) && old(cache.True(remote)) ==> cache.True(remote)
      ensures Honest(remote, key.fsid, client) && reply.Data? ==> OutcomeTrue(remote, key, Fetched(reply.data))
      ensures Honest(remote, key.fsid, client) ==> PrefixReply(remote, key.fsid, key.offset, length, reply)
    {
      reply := FetchAndFinish(key, length, exact, client, cancelled);
      if Honest(remote, key.fsid, client) { FetchedIsTrue(remote, key.fsid, client, key.offset, length, exact, cancelled); }
      if reply.Data? {
        Keep(key, reply.data, remote);
      }
    }

    /** The flight of an owner: begun, fetched, and finished with whatever came of it. */
    method FetchAndFinish(key: CacheKey, length: nat, exact: bool, client: Client, cancelled: int -> bool) returns (reply: RangeReply)
      requires Numbered(table) && key !in table.current
      modifies this`table
      ensures Numbered(table) && Settled(old(table), table)
      ensures reply == Fetched2(client, key.offset, length, exact, cancelled) && (exact && reply.Data? ==> |reply.data| == length)
      ensures reply.Data? <==> Accepts(client, key.offset, length, exact, cancelled)
      ensures reply.Data? ==> reply.data == Accepted(client, key.offset, length, exact)
    {
      ghost var before := table;
      var (t, id, owner) := Begin(table, key);
      table := t;
      reply := FetchTwice(client, key.offset, length, exact, cancelled);
      var outcome := if reply.Data? then Fetched(reply.data) else Broken;
      SettledAfter(before, key, outcome);
      table := Finish(table, id, outcome);
    }

    method Keep(key: CacheKey, data: Bytes, ghost remote: RemoteBytes)
      requires cache.Valid()
      modifies cache
      ensures cache.Valid() && cache.windows == AfterStore(old(cache.windows), key, data, cache.cacheLimit)
      ensures old(cache.True(remote)) && data == Slice(remote, key.fsid, key.offset, |data|) ==> cache.True(remote)
    {
      if cache.True(remote) && data == Slice(remote, key.fsid, key.offset, |data|) {
        StoreTrue(remote, cache.windows, key, data, cache.cacheLimit);
      }
      cache.StoreCached(key.fsid, key.offset, data);
    }

    method Cached(fsid: string, offset: int, length: nat, ghost remote: RemoteBytes) returns (data: Option<Bytes>)
      requires cache.Valid()
      modifies cache`cacheOrder, cache`windows
      ensures cache.Valid() && (data.Some? ==> |data.value| == length)
      ensures data.Some? <==> HeldIn(old(cache.windows), fsid, offset, length)
      ensures data.None? ==> cache.windows == old(cache.windows)
      ensures old(cache.True(remote)) ==> cache.True(remote) && (data.Some? ==> data.value == Slice(remote, fsid, offset, length))
    {
      ghost var hit, before := NewWindow(CacheKey(fsid, offset), []), cache.windows;
      data, hit := cache.ReadCached(fsid, offset, length);
      HeldCovers(before, fsid, offset, length);
      if data.Some? && AllTrue(remote, before) {
        HitIsTrue(remote, hit, fsid, offset, length);
        PushTrue(remote, before, hit);
      }
    }

    /** Fetches the aligned window around the range, or waits for the reader who does. May return less
        than was asked for, but only true bytes. */
    method ReadSequential(fsid: string, offset: int, length: nat, chunkSize: int, client: Client, cancelled: int -> bool,
                          joined: Joined, ghost remote: RemoteBytes) returns (reply: RangeReply)
      requires Valid()
      modifies this`table, cache
      ensures Valid() && Settled(old(table), table)
      ensures (offset >= 0 && Honest(remote, fsid, client) && old(cache.True(remote))
               && JoinedTrue(remote, CacheKey(fsid, FetchOffset(offset, length, chunkSize)), joined)) ==>
        cache.True(remote) && PrefixReply(remote, fsid, offset, length, reply)
      ensures var held := HeldIn(old(cache.windows), fsid, offset, length);
        var at, n := FetchOffset(offset, length, chunkSize), FetchLength(length, chunkSize);
        var inFlight := CacheKey(fsid, at) in old(table.current);
        && (reply.Data? <==> held || (if inFlight then Brings(joined) else Accepts(client, at, n, false, cancelled)))
        && (reply.Data? && held ==> |reply.data| == length)
        && (reply.Data? && !held && inFlight ==> |reply.data| == Part(at, |joined.outcome.data|, offset, length))
        && (reply.Data? && !held && !inFlight ==> |reply.data| == Part(at, |Accepted(client, at, n, false)|, offset, length))
        && (!held && (inFlight || reply.Error?) ==> cache.windows == old(cache.windows))
        && (!held && !inFlight && reply.Data? ==>
              cache.windows == AfterStore(old(cache.windows), CacheKey(fsid, at), Accepted(client, at, n, false), cache.cacheLimit))
    {
      var fetchLength := FetchLength(length, chunkSize);
      var fetchOffset := FetchOffset(offset, length, chunkSize);
      if offset >= 0 { AlignedContains(offset, fetchLength); }
      var hit := Cached(fsid, offset, length, remote);
      if hit.Some? { return Data(hit.value); }
      var key := CacheKey(fsid, fetchOffset);
      if key in table.current {
        reply := FromJoined(joined, fetchOffset, offset, length);
        JoinedIsPrefix(remote, key, joined, offset, length);
        if Brings(joined) { PartOfWindow(joined.outcome.data, fetchOffset, offset, length); }
        return;
      }
      var got := FetchOwned(key, fetchLength, false, client, cancelled, remote);
      if got.Error? { return got; }
      reply := Data(SliceForWindow(got.data, fetchOffset, offset, length));
      PartOfWindow(got.data, fetchOffset, offset, length);
      JoinedIsPrefix(remote, key, Delivered(Fetched(got.data)), offset, length);
    }

    /** Reads one chunk of a concurrent read: all of it, unless it came from a shorter flight. */
    method ReadChunk(fsid: string, offset: int, length: nat, client: Client, cancelled: int -> bool,
                     joined: Joined, ghost remote: RemoteBytes) returns (reply: RangeReply)
      requires Valid()
      modifies this`table, cache
      ensures Valid() && Settled(old(table), table)
      ensures Honest(remote, fsid, client) && old(cache.True(remote)) && JoinedTrue(remote, CacheKey(fsid, offset), joined) ==>
        cache.True(remote) && PrefixReply(remote, fsid, offset, length, reply)
      ensures reply.Data? && |reply.data| < length ==> CacheKey(fsid, offset) in old(table.current) && ShortFlight(joined, reply.data)
      ensures reply.Data? <==>
        HeldIn(old(cache.windows), fsid, offset, length)
        || (if CacheKey(fsid, offset) in old(table.current) then Brings(joined) else Accepts(client, offset, length, true, cancelled))
    {
      var key := CacheKey(fsid, offset);
      var hit := Cached(fsid, offset, length, remote);
      if hit.Some? {
        reply := Data(hit.value);
      } else if key in table.current {
        reply := FromJoined(joined, offset, offset, length);
        JoinedIsPrefix(remote, key, joined, offset, length);
        JoinedWhole(joined, offset, length);
      } else {
        reply := FetchOwned(key, length, true, client, cancelled, remote);
      }
    }

    /** Sequentially, or by a concurrent read, whose outcome is `parallel`. */
    method ReadWithOptions(fsid: string, offset: int, length: nat, concurrency: int, chunkSize: int, client: Client,
                           cancelled: int -> bool, joined: Joined, parallel: RangeReply, ghost remote: RemoteBytes)
      returns (reply: RangeReply)
      requires Valid()
      modifies this`table, cache
      ensures Valid() && Settled(old(table), table)
      ensures (offset >= 0 && Honest(remote, fsid, client) && old(cache.True(remote))
               && JoinedTrue(remote, CacheKey(fsid, FetchOffset(offset, length, Chunk(concurrency, chunkSize))), joined)
               && (Parallel(concurrency, length, chunkSize) ==> ExactReply(remote, fsid, offset, length, parallel))) ==>
        cache.True(remote) && PrefixReply(remote, fsid, offset, length, reply)
      ensures var first := First(old(FirstKey(fsid, offset, length, concurrency, chunkSize) in table.current), offset, length,
                                 concurrency, chunkSize, client, cancelled, joined, parallel);
        !HeldIn(old(cache.windows), fsid, offset, length) ==>
          (reply.Data? <==> first.Some?) && (reply.Data? ==> |reply.data| == first.value)
          && (reply.Data? ==>
                cache.windows == FirstWindows(
                  old(cache.windows), old(FirstKey(fsid, offset, length, concurrency, chunkSize) in table.current),
                  fsid, offset, length, concurrency, chunkSize, client, cache.cacheLimit))
    {
      ParallelLaw(concurrency, length, chunkSize);
      if concurrency <= 1 {
        reply := ReadSequential(fsid, offset, length, chunkSize, client, cancelled, joined, remote);
      } else if length == 0 {
        reply := Data([]);
      } else if (length + Chunk(concurrency, chunkSize) - 1) / Chunk(concurrency, chunkSize) <= 1 {
        reply := ReadSequential(fsid, offset, length, Chunk(concurrency, chunkSize), client, cancelled, joined, remote);
      } else {
        reply := parallel;
      }
    }

    /** Exactly the bytes asked for, or an error: what a first read leaves out, a second one completes. */
    method ReadRange(fsid: string, offset: int, length: int, linked: bool, concurrency: int, chunkSize: int, client: Client,
                     retry: Client, relinked: bool, cancelled: int -> bool, joined: Joined, parallel: RangeReply, ghost remote: RemoteBytes)
      returns (reply: RangeReply)
      requires Valid()
      modifies this`table, cache
      ensures Valid() && Settled(old(table), table)
      ensures length < 0 ==> reply == Error(BadLength)
      ensures length >= 0 && fsid == "" ==> reply == Error(NoFsid)
      ensures length >= 0 && fsid != "" && !linked ==> reply == Error(NoLink)
      ensures (length >= 0 && offset >= 0 && Honest(remote, fsid, client) && Honest(remote, fsid, retry) && old(cache.True(remote))
               && JoinedTrue(remote, CacheKey(fsid, FetchOffset(offset, length, Chunk(concurrency, chunkSize))), joined)
               && (Parallel(concurrency, length, chunkSize) ==> ExactReply(remote, fsid, offset, length, parallel))) ==>
        cache.True(remote) && ExactReply(remote, fsid, offset, length, reply)
      ensures reply.Data? <==>
        length >= 0
        && RangeSucceeds(old(cache.windows), cache.cacheLimit, old(FirstKey(fsid, offset, length, concurrency, chunkSize) in table.current),
                         fsid, offset, length, linked, concurrency, chunkSize, client, retry, relinked, cancelled, joined, parallel)
    {
      if length < 0 { return Error(BadLength); }
      if fsid == "" { return Error(NoFsid); }
      if !linked { return Error(NoLink); }
      var hit := Cached(fsid, offset, length, remote);
      if hit.Some? { return Data(hit.value); }
      reply := ReadUncached(fsid, offset, length, concurrency, chunkSize, client, retry, relinked, cancelled, joined, parallel, remote);
    }

    /** A range that no window holds: its first part, and what that leaves out. */
    method ReadUncached(fsid: string, offset: int, length: nat, concurrency: int, chunkSize: int, client: Client, retry: Client,
                        relinked: bool, cancelled: int -> bool, joined: Joined, parallel: RangeReply, ghost remote: RemoteBytes)
      returns (reply: RangeReply)
      requires Valid() && fsid != "" && !HeldIn(cache.windows, fsid, offset, length)
      modifies this`table, cache
      ensures Valid() && Settled(old(table), table)
      ensures (offset >= 0 && Honest(remote, fsid, client) && Honest(remote, fsid, retry) && old(cache.True(remote))
               && JoinedTrue(remote, CacheKey(fsid, FetchOffset(offset, length, Chunk(concurrency, chunkSize))), joined)
               && (Parallel(concurrency, length, chunkSize) ==> ExactReply(remote, fsid, offset, length, parallel))) ==>
        cache.True(remote) && ExactReply(remote, fsid, offset, length, reply)
      ensures reply.Data? ==
        RangeSucceeds(old(cache.windows), cache.cacheLimit, old(FirstKey(fsid, offset, length, concurrency, chunkSize) in table.current),
                      fsid, offset, length, true, concurrency, chunkSize, client, retry, relinked, cancelled, joined, parallel)
    {
      ghost var windows, inFlight := cache.windows, FirstKey(fsid, offset, length, concurrency, chunkSize) in table.current;
      var first := ReadWithOptions(fsid, offset, length, concurrency, chunkSize, client, cancelled, joined, parallel, remote);
      SucceedsBy(windows, cache.cacheLimit, inFlight, fsid, offset, length, concurrency, chunkSize, client, retry, relinked, cancelled,
                 joined, parallel, first, cache.windows);
      reply := CompleteFirst(fsid, offset, length, first, relinked, retry, cancelled, remote);
    }

    /** A first part as it is if it failed or is all, otherwise with what is missing. */
    method CompleteFirst(fsid: string, offset: int, length: nat, first: RangeReply, linked: bool, client: Client,
                         cancelled: int -> bool, ghost remote: RemoteBytes) returns (reply: RangeReply)
      requires Valid() && fsid != ""
      modifies cache
      ensures Valid()
      ensures Honest(remote, fsid, client) && old(cache.True(remote)) && PrefixReply(remote, fsid, offset, length, first) ==>
        cache.True(remote) && ExactReply(remote, fsid, offset, length, reply)
      ensures reply.Data? == (first.Data?
        && (|first.data| < length ==>
              linked && (HeldIn(old(cache.windows), fsid, offset + |first.data|, length - |first.data|)
                         || Accepts(client, offset + |first.data|, length - |first.data|, true, cancelled))))
    {
      reply := first;
      if first.Data? && |first.data| < length {
        reply := Complete(fsid, offset, length, first.data, linked, client, cancelled, remote);
      }
    }

    /** Reads what is missing behind the first bytes of a range. */
    method Complete(fsid: string, offset: int, length: nat, data: Bytes, linked: bool, client: Client, cancelled: int -> bool,
                    ghost remote: RemoteBytes) returns (reply: RangeReply)
      requires Valid() && |data| < length && fsid != ""
      modifies cache
      ensures Valid()
      ensures Honest(remote, fsid, client) && old(cache.True(remote)) && data == Slice(remote, fsid, offset, |data|) ==>
        cache.True(remote) && ExactReply(remote, fsid, offset, length, reply)
      ensures reply.Data? <==>
        linked && (HeldIn(old(cache.windows), fsid, offset + |data|, length - |data|)
                   || Accepts(client, offset + |data|, length - |data|, true, cancelled))
    {
      var missing := ReadExactRange(fsid, offset + |data|, length - |data|, linked, client, cancelled, remote);
      reply := missing;
      if missing.Data? {
        if data == Slice(remote, fsid, offset, |data|) { Completes(remote, fsid, offset, length, data, missing); }
        reply := Data(data + missing.data);
      }
    }

    /** Reads a range completely, without joining anyone. */
    method ReadExactRange(fsid: string, offset: int, length: int, linked: bool, client: Client, cancelled: int -> bool,
                          ghost remote: RemoteBytes) returns (reply: RangeReply)
      requires Valid()
      modifies cache
      ensures Valid()
      ensures length < 0 ==> reply == Error(BadLength)
      ensures length >= 0 && fsid == "" ==> reply == Error(NoFsid)
      ensures length >= 0 && fsid != "" && !linked ==> reply == Error(NoLink)
      ensures reply.Data? ==> length >= 0 && |reply.data| == length
      ensures length >= 0 && Honest(remote, fsid, client) && old(cache.True(remote)) ==>
        cache.True(remote) && ExactReply(remote, fsid, offset, length, reply)
      ensures reply.Data? <==>
        length >= 0 && fsid != "" && linked
        && (HeldIn(old(cache.windows), fsid, offset, length) || Accepts(client, offset, length, true, cancelled))
    {
      if length < 0 { return Error(BadLength); }
      if fsid == "" { return Error(NoFsid); }
      if !linked { return Error(NoLink); }
      var hit := Cached(fsid, offset, length, remote);
      if hit.Some? { return Data(hit.value); }
      reply := FetchExact(CacheKey(fsid, offset), length, client, cancelled, remote);
    }

    method FetchExact(key: CacheKey, length: nat, client: Client, cancelled: int -> bool, ghost remote: RemoteBytes)
      returns (reply: RangeReply)
      requires cache.Valid()
      modifies cache
      ensures cache.Valid() && (reply.Data? ==> |reply.data| == length)
      ensures reply.Data? <==> Accepts(client, key.offset, length, true, cancelled)
      ensures Honest(remote, key.fsid, client) && old(cache.True(remote)) ==>
        cache.True(remote) && ExactReply(remote, key.fsid, key.offset, length, reply)
    {
      reply := FetchTwice(client, key.offset, length, true, cancelled);
      if Honest(remote, key.fsid, client) { FetchedIsTrue(remote, key.fsid, client, key.offset, length, true, cancelled); }
      if reply.Data? { Keep(key, reply.data, remote); }
    }
  }

  /** The window that the first part of a range read looks for among the flights. */
  function FirstKey(fsid: string, offset: int, length: int, concurrency: int, chunkSize: int): CacheKey
  {
    CacheKey(fsid, FetchOffset(offset, if length < 0 then 0 else length, Chunk(concurrency, chunkSize)))
  }

  /** How much of a range that no window holds its first part brings, if it does not fail: what the workers say of a
      concurrent one, and of a sequential one what lies in the window that is joined or fetched. */
  function First(inFlight: bool, offset: int, length: nat, concurrency: int, chunkSize: int, client: Client, cancelled: int -> bool,
                 joined: Joined, parallel: RangeReply): Option<nat>
  {
    var c := Chunk(concurrency, chunkSize);
    var at, n := FetchOffset(offset, length, c), FetchLength(length, c);
    if concurrency > 1 && length == 0 then Some(0)
    else if concurrency > 1 && length > c then (if parallel.Data? then Some(|parallel.data|) else None)
    else if inFlight then (if Brings(joined) then Some(Part(at, |joined.outcome.data|, offset, length)) else None)
    else if Accepts(client, at, n, false, cancelled) then Some(Part(at, |Accepted(client, at, n, false)|, offset, length))
    else None
  }

  /** The cached windows after a first part that did not fail. */
  function FirstWindows(windows: seq<Window>, inFlight: bool, fsid: string, offset: int, length: nat, concurrency: int, chunkSize: int,
                        client: Client, limit: int): seq<Window>
  {
    var c := Chunk(concurrency, chunkSize);
    var at, n := FetchOffset(offset, length, c), FetchLength(length, c);
    if inFlight || (concurrency > 1 && (length == 0 || length > c)) then windows
    else AfterStore(windows, CacheKey(fsid, at), Accepted(client, at, n, false), limit)
  }

  /** When a range read succeeds: with a link, if a window holds the range, or if the first part does not fail and what
      it leaves out is nothing, or is held by a window then, or is read completely by one of two more attempts. */
  ghost predicate RangeSucceeds(windows: seq<Window>, limit: int, inFlight: bool, fsid: string, offset: int, length: nat, linked: bool,
                                concurrency: int, chunkSize: int, client: Client, retry: Client, relinked: bool,
                                cancelled: int -> bool, joined: Joined, parallel: RangeReply)
  {
    var first := First(inFlight, offset, length, concurrency, chunkSize, client, cancelled, joined, parallel);
    && fsid != "" && linked
    && (|| HeldIn(windows, fsid, offset, length)
        || (first.Some?
            && (|| first.value >= length
                || (relinked
                    && (|| HeldIn(FirstWindows(windows, inFlight, fsid, offset, length, concurrency, chunkSize, client, limit),
                                  fsid, offset + first.value, length - first.value)
                        || Accepts(retry, offset + first.value, length - first.value, true, cancelled))))))
  }

  /** A range read by its first part and, if that is short, by the rest. */
  lemma SucceedsBy(windows: seq<Window>, limit: int, inFlight: bool, fsid: string, offset: int, length: nat, concurrency: int,
                   chunkSize: int, client: Client, retry: Client, relinked: bool, cancelled: int -> bool, joined: Joined,
                   parallel: RangeReply, part: RangeReply, middle: seq<Window>)
    requires fsid != "" && !HeldIn(windows, fsid, offset, length)
    requires var first := First(inFlight, offset, length, concurrency, chunkSize, client, cancelled, joined, parallel);
      (part.Data? <==> first.Some?) && (part.Data? ==> |part.data| == first.value)
    requires part.Data? ==>
      middle == FirstWindows(windows, inFlight, fsid, offset, length, concurrency, chunkSize, client, limit)
    ensures RangeSucceeds(windows, limit, inFlight, fsid, offset, length, true, concurrency, chunkSize, client, retry, relinked, cancelled,
                          joined, parallel)
      == (part.Data?
          && (|part.data| < length ==>
                 relinked && (HeldIn(middle, fsid, offset + |part.data|, length - |part.data|)
                              || Accepts(retry, offset + |part.data|, length - |part.data|, true, cancelled))))
  {
  }

  /** In particular: with a link, and nobody else fetching, a sequential read of a store that answers at once and with
      all the bytes of its window succeeds. */
  lemma PlainReadSucceeds(windows: seq<Window>, limit: int, fsid: string, offset: int, length: nat, chunkSize: int, client: Client,
                          retry: Client, relinked: bool, cancelled: int -> bool, joined: Joined, parallel: RangeReply)
    requires fsid != "" && offset >= 0
    requires var at, n := FetchOffset(offset, length, chunkSize), FetchLength(length, chunkSize);
      client(at, n, 0).Got? && |client(at, n, 0).data| == n && at + n >= offset + length
    ensures RangeSucceeds(windows, limit, false, fsid, offset, length, true, 1, chunkSize, client, retry, relinked, cancelled, joined,
                          parallel)
  {
    FetchWindow(offset, length, chunkSize);
  }

  /** The chunk size of a read; a concurrent one cannot do without. */
  function Chunk(concurrency: int, chunkSize: int): (r: int)
    ensures concurrency > 1 ==> r > 0
  {
    if concurrency > 1 && chunkSize <= 0 then PREFETCH_BYTES else chunkSize
  }

  /** The range is read by several workers. */
  predicate Parallel(concurrency: int, length: int, chunkSize: int)
  {
    concurrency > 1 && length > 0 && (length + Chunk(concurrency, chunkSize) - 1) / Chunk(concurrency, chunkSize) > 1
  }

  /** There is more than one chunk exactly if the range is longer than a chunk. */
  lemma ParallelLaw(concurrency: int, length: nat, chunkSize: int)
    ensures Parallel(concurrency, length, chunkSize) <==> concurrency > 1 && length > Chunk(concurrency, chunkSize)
  {
    if concurrency > 1 && length > 0 {
      var d := Chunk(concurrency, chunkSize);
      if length <= d { DivMono(length + d - 1, 2 * d - 1, d); QuotientUnique(2 * d - 1, d, 1, d - 1); }
      else { DivMono(2 * d, length + d - 1, d); QuotientUnique(2 * d, d, 2, 0); }
    }
  }

  function FetchLength(length: nat, chunkSize: int): nat
  {
    Max(Max(length, PREFETCH_BYTES), chunkSize)
  }

  function FetchOffset(offset: int, length: nat, chunkSize: int): int
  {
    AlignOffset(offset, FetchLength(length, chunkSize))
  }

  function FromJoined(joined: Joined, windowOffset: int, offset: int, length: nat): RangeReply
  {
    match joined
    case GaveUp => Error(Canceled)
    case Delivered(Broken) => Error(Upstream)
    case Delivered(Fetched(data)) => Data(SliceForWindow(data, windowOffset, offset, length))
  }

  lemma JoinedIsPrefix(remote: RemoteBytes, key: CacheKey, joined: Joined, offset: int, length: nat)
    ensures JoinedTrue(remote, key, joined) && key.offset <= offset ==>
      PrefixReply(remote, key.fsid, offset, length, FromJoined(joined, key.offset, offset, length))
  {
    if JoinedTrue(remote, key, joined) && key.offset <= offset && joined.Delivered? && joined.outcome.Fetched? {
      SliceIsPrefix(remote, key.fsid, joined.outcome.data, key.offset, offset, length);
    }
  }

  predicate ShortFlight(joined: Joined, data: Bytes)
  {
    joined.Delivered? && joined.outcome == Fetched(data)
  }

  /** A flight of the chunk's own window that is shorter than the chunk is handed on whole. */
  lemma JoinedWhole(joined: Joined, offset: int, length: nat)
    ensures var r := FromJoined(joined, offset, offset, length);
      r.Data? && |r.data| < length ==> ShortFlight(joined, r.data)
  {
  }

  /** A flight begun and finished by its owner leaves the table as it was, with one closed flight more. */
  lemma SettledAfter(t: Table, key: CacheKey, outcome: Outcome)
    requires Numbered(t) && key !in t.current
    ensures var (u, id, owner) := Begin(t, key);
      owner && id in u.flights && Numbered(Finish(u, id, outcome)) && Settled(t, Finish(u, id, outcome))
  {
    var (u, id, owner) := Begin(t, key);
    assert u.current - {key} == t.current;
  }
}

/** One range read by several workers at once: a dealer hands out chunk numbers in order, workers take them
    in any order and copy what they read into one buffer. */
module ConcurrentReads {
  import opened Arithmetic
  import opened Content
  import opened ReadCache
  import opened RangeReads
  import Flights

  /** The range of a concurrent read and the size of its chunks. */
  datatype Job = Job(fsid: string, offset: int, length: nat, chunkSize: int)
  {
    ghost predicate Ok() { chunkSize > 0 }

    function Total(): int
      requires chunkSize > 0
    {
      (length + chunkSize - 1) / chunkSize
    }

    function Begin(i: int): int { i * chunkSize }

    function End(i: int): int { Min(Begin(i) + chunkSize, length) }
  }

  /** Chunk k / chunkSize, and no other, holds byte k of the request; the chunks have no gap and no overlap. */
  lemma ChunksPartition(j: Job, k: int, i: int)
    requires j.Ok() && 0 <= k < j.length
    ensures j.Begin(i) <= k < j.End(i) <==> i == k / j.chunkSize
    ensures 0 <= k / j.chunkSize < j.Total()
  {
    var d := j.chunkSize;
    if j.Begin(i) <= k < j.End(i) { QuotientUnique(k, d, i, k - j.Begin(i)); }
    assert k == k / d * d + k % d;
    DivMono(0, k, d);
    DivMono(k + d, j.length + d - 1, d);
    DivShift(k + d, d);
  }

  /** Every chunk that is handed out has at least one byte. */
  lemma ChunkNonempty(j: Job, i: int)
    requires j.Ok() && 0 <= i < j.Total()
    ensures 0 <= j.Begin(i) < j.End(i) <= j.length
  {
    var d := j.chunkSize;
    MulMono(0, i, d);
    MulMono(i + 1, j.Total(), d);
    assert (i + 1) * d == i * d + d;
    var x := j.length + d - 1;
    assert x == x / d * d + x % d;
  }

  datatype Worker = Free | Working(index: int) | Gone

  /** `filled` records how many bytes each finished chunk got. */
  datatype State = State(
    next: int, closed: bool, workers: map<int, Worker>, buffer: Bytes, filled: map<int, int>,
    firstError: Option<RangeError>, cancelled: bool)

  datatype Step =
    | Deal(worker: int)
    | CloseDeal
    | Fill(worker: int, chunk: Bytes)
    | Fail(worker: int, error: RangeError)
    | Leave(worker: int)
    | Cancel

  predicate Start(j: Job, s: State)
  {
    && s.next == 0 && !s.closed && s.filled == map[] && s.firstError == None && !s.cancelled
    && |s.buffer| == j.length && (forall k :: 0 <= k < j.length ==> s.buffer[k] == 0) && s.workers != map[]
    && forall w :: w in s.workers ==> s.workers[w] == Free
  }

  /** A chunk that was read is a prefix of its bytes. */
  ghost predicate ChunkRead(remote: RemoteBytes, j: Job, i: int, chunk: Bytes)
  {
    |chunk| <= j.End(i) - j.Begin(i) && chunk == Slice(remote, j.fsid, j.offset + j.Begin(i), |chunk|)
  }

  ghost predicate Enabled(remote: RemoteBytes, j: Job, s: State, step: Step)
    requires j.Ok()
  {
    match step
    case Deal(w) => !s.closed && s.next < j.Total() && w in s.workers && s.workers[w] == Free
    case CloseDeal => !s.closed && (s.next == j.Total() || s.cancelled)
    case Fill(w, chunk) =>
      w in s.workers && s.workers[w].Working? && ChunkRead(remote, j, s.workers[w].index, chunk)
    case Fail(w, error) => w in s.workers && s.workers[w].Working?
    case Leave(w) => w in s.workers && s.workers[w] == Free && (s.closed || s.cancelled)
    case Cancel => true
  }

  /** Copies as much of a chunk as there is over the start of its place in the buffer. */
  function CopyAt(buffer: Bytes, at: int, chunk: Bytes): (r: Bytes)
    ensures |r| == |buffer|
  {
    seq(|buffer|, k requires 0 <= k < |buffer| => if at <= k < at + |chunk| then chunk[k - at] else buffer[k])
  }

  function Apply(j: Job, s: State, step: Step): State
  {
    match step
    case Deal(w) => s.(workers := s.workers[w := Working(s.next)], next := s.next + 1)
    case CloseDeal => s.(closed := true)
    case Fill(w, chunk) =>
      if w in s.workers && s.workers[w].Working? then
        var i := s.workers[w].index;
        s.(buffer := CopyAt(s.buffer, j.Begin(i), chunk), filled := s.filled[i := |chunk|], workers := s.workers[w := Free])
      else s
    case Fail(w, error) =>
      s.(workers := s.workers[w := Gone], firstError := if s.firstError.Some? then s.firstError else Some(error),
         cancelled := true)
    case Leave(w) => s.(workers := s.workers[w := Gone])
    case Cancel => s.(cancelled := true)
  }

  predicate Ended(s: State)
  {
    s.closed && forall w :: w in s.workers ==> s.workers[w] == Gone
  }

  /** What the read returns when all workers are gone. */
  function Returned(s: State): RangeReply
  {
    if s.firstError.Some? then Error(s.firstError.value) else if s.cancelled then Error(Canceled) else Data(s.buffer)
  }

  // ---------- what every step keeps ----------

  ghost predicate Holds(s: State, w: int, i: int) { w in s.workers && s.workers[w] == Working(i) }

  /** A chunk that was handed out is being read, was read, or its reader failed. */
  ghost predicate Accounted(s: State, i: int)
  {
    i in s.filled || s.firstError.Some? || exists w :: Holds(s, w, i)
  }

  /** What byte k of the buffer must be. */
  ghost function Expected(remote: RemoteBytes, j: Job, filled: map<int, int>, k: int): byte
    requires j.Ok()
  {
    var i := k / j.chunkSize;
    if i in filled && k - j.Begin(i) < filled[i] then remote(j.fsid, j.offset + k) else 0
  }

  ghost predicate BufferOk(remote: RemoteBytes, j: Job, s: State)
    requires j.Ok()
  {
    |s.buffer| == j.length && forall k :: 0 <= k < j.length ==> s.buffer[k] == Expected(remote, j, s.filled, k)
  }

  ghost predicate Inv(remote: RemoteBytes, j: Job, s: State)
    requires j.Ok()
  {
    && 0 <= s.next <= j.Total() && (s.closed ==> s.next == j.Total() || s.cancelled) && (s.firstError.Some? ==> s.cancelled)
    && (forall i :: 0 <= i < s.next ==> Accounted(s, i))
    && (forall w, i :: Holds(s, w, i) ==> 0 <= i < s.next && i !in s.filled)
    && (forall v, w, i :: Holds(s, v, i) && Holds(s, w, i) ==> v == w)
    && (forall i :: i in s.filled ==> 0 <= i < s.next && 0 <= s.filled[i] <= j.End(i) - j.Begin(i))
    && BufferOk(remote, j, s)
  }

  lemma TotalNonnegative(j: Job)
    requires j.Ok()
    ensures j.Total() >= 0
  {
    DivMono(0, j.length + j.chunkSize - 1, j.chunkSize);
  }

  /** Filling a chunk changes exactly the bytes it got. */
  lemma FillBuffer(remote: RemoteBytes, j: Job, s: State, w: int, chunk: Bytes)
    requires j.Ok() && Inv(remote, j, s) && Enabled(remote, j, s, Fill(w, chunk))
    ensures BufferOk(remote, j, Apply(j, s, Fill(w, chunk)))
  {
    var i := s.workers[w].index;
    var t := Apply(j, s, Fill(w, chunk));
    assert Holds(s, w, i);
    ChunkNonempty(j, i);
    var at := j.Begin(i);
    forall k | 0 <= k < j.length ensures t.buffer[k] == Expected(remote, j, t.filled, k) {
      ChunksPartition(j, k, i);
      assert s.buffer[k] == Expected(remote, j, s.filled, k);
      if at <= k < at + |chunk| { assert chunk[k - at] == remote(j.fsid, j.offset + at + (k - at)); }
    }
  }

  lemma WorkerSteps(remote: RemoteBytes, j: Job, s: State, step: Step)
    requires j.Ok() && Inv(remote, j, s) && Enabled(remote, j, s, step)
    ensures var t := Apply(j, s, step);
      && (forall i :: 0 <= i < t.next ==> Accounted(t, i))
      && (forall w, i :: Holds(t, w, i) ==> 0 <= i < t.next && i !in t.filled)
      && (forall v, w, i :: Holds(t, v, i) && Holds(t, w, i) ==> v == w)
  {
    var t := Apply(j, s, step);
    forall w, i | Holds(t, w, i) ensures Holds(s, w, i) || (step == Deal(w) && i == s.next) {}
    forall i | 0 <= i < t.next ensures Accounted(t, i) {
      if i < s.next {
        assert Accounted(s, i);
        if w :| Holds(s, w, i) { assert Holds(t, w, i) || i in t.filled || t.firstError.Some?; }
      } else {
        assert Holds(t, step.worker, i);
      }
    }
    if step.Fill? { assert Holds(s, step.worker, s.workers[step.worker].index); }
  }

  lemma StepKeeps(remote: RemoteBytes, j: Job, s: State, step: Step)
    requires j.Ok() && Inv(remote, j, s) && Enabled(remote, j, s, step)
    ensures Inv(remote, j, Apply(j, s, step))
  {
    WorkerSteps(remote, j, s, step);
    if step.Fill? {
      FillBuffer(remote, j, s, step.worker, step.chunk);
      assert Holds(s, step.worker, s.workers[step.worker].index);
    }
  }

  lemma StartHolds(remote: RemoteBytes, j: Job, s: State)
    requires j.Ok() && Start(j, s)
    ensures Inv(remote, j, s)
  {
    TotalNonnegative(j);
  }

  ghost predicate StepAt(remote: RemoteBytes, j: Job, run: seq<State>, steps: seq<Step>, i: int)
    requires j.Ok() && |run| == |steps| + 1 && 0 <= i < |steps|
  {
    Enabled(remote, j, run[i], steps[i]) && run[i + 1] == Apply(j, run[i], steps[i])
  }

  ghost predicate IsRun(remote: RemoteBytes, j: Job, run: seq<State>, steps: seq<Step>)
    requires j.Ok()
  {
    |run| == |steps| + 1 && Start(j, run[0]) && forall i :: 0 <= i < |steps| ==> StepAt(remote, j, run, steps, i)
  }

  lemma {:induction false} EveryState(remote: RemoteBytes, j: Job, run: seq<State>, steps: seq<Step>, i: nat)
    requires j.Ok() && IsRun(remote, j, run, steps) && i < |run|
    ensures Inv(remote, j, run[i])
  {
    if i == 0 {
      StartHolds(remote, j, run[0]);
    } else {
      EveryState(remote, j, run, steps, i - 1);
      assert StepAt(remote, j, run, steps, i - 1);
      StepKeeps(remote, j, run[i - 1], steps[i - 1]);
    }
  }

  // ---------- results ----------

  /** Every chunk of the request was read completely. */
  ghost predicate Whole(j: Job, s: State)
    requires j.Ok()
  {
    forall i :: 0 <= i < j.Total() ==> i in s.filled && s.filled[i] == j.End(i) - j.Begin(i)
  }

  /** Whatever the order in which workers took the chunks: data are returned only if every chunk was read, and
      each byte of them is the byte of the file where its chunk was long enough, and zero where it was not. */
  lemma ConcurrentReply(remote: RemoteBytes, j: Job, run: seq<State>, steps: seq<Step>)
    requires j.Ok() && IsRun(remote, j, run, steps) && Ended(run[|steps|]) && Returned(run[|steps|]).Data?
    ensures var s := run[|steps|];
      && (forall i :: 0 <= i < j.Total() ==> i in s.filled)
      && |Returned(s).data| == j.length
      && (forall k :: 0 <= k < j.length ==> Returned(s).data[k] == Expected(remote, j, s.filled, k))
  {
    var s := run[|steps|];
    EveryState(remote, j, run, steps, |steps|);
    forall i | 0 <= i < j.Total() ensures i in s.filled { assert Accounted(s, i); }
  }

  /** Byte k of the request is not among those its chunk got. */
  ghost predicate LeftOut(j: Job, s: State, k: int)
    requires j.Ok()
  {
    var i := k / j.chunkSize;
    i in s.filled ==> k - j.Begin(i) >= s.filled[i]
  }

  ghost predicate ZeroAt(remote: RemoteBytes, j: Job, k: int) { remote(j.fsid, j.offset + k) == 0 }

  /** The data are exact exactly when every byte that a short chunk left out happens to be zero. */
  lemma ConcurrentExact(remote: RemoteBytes, j: Job, run: seq<State>, steps: seq<Step>)
    requires j.Ok() && IsRun(remote, j, run, steps) && Ended(run[|steps|]) && Returned(run[|steps|]).Data?
    ensures var s := run[|steps|];
      Returned(s).data == Slice(remote, j.fsid, j.offset, j.length) <==>
      forall k :: 0 <= k < j.length && LeftOut(j, s, k) ==> ZeroAt(remote, j, k)
  {
    var s := run[|steps|];
    ConcurrentReply(remote, j, run, steps);
    var exact := Slice(remote, j.fsid, j.offset, j.length);
    forall k | 0 <= k < j.length
      ensures exact[k] == Returned(s).data[k] <==> (LeftOut(j, s, k) ==> ZeroAt(remote, j, k))
    {
      assert Returned(s).data[k] == Expected(remote, j, s.filled, k);
    }
  }

  /** If step k fills a chunk, it fills it whole. */
  ghost predicate FullFill(j: Job, run: seq<State>, steps: seq<Step>, k: int)
    requires |run| == |steps| + 1 && 0 <= k < |steps|
  {
    steps[k].Fill? ==> FillsWhole(j, run[k], steps[k])
  }

  ghost predicate FillsWhole(j: Job, s: State, step: Step)
    requires step.Fill?
  {
    exists i :: Holds(s, step.worker, i) && |step.chunk| == j.End(i) - j.Begin(i)
  }

  /** Every chunk that has been filled is as long as it should be. */
  ghost predicate FilledWhole(j: Job, s: State)
  {
    forall i :: i in s.filled ==> s.filled[i] == j.End(i) - j.Begin(i)
  }

  lemma {:induction false} FillsKeepWhole(remote: RemoteBytes, j: Job, run: seq<State>, steps: seq<Step>, n: nat)
    requires j.Ok() && IsRun(remote, j, run, steps) && n < |run|
    requires forall k :: 0 <= k < n ==> FullFill(j, run, steps, k)
    ensures FilledWhole(j, run[n])
    decreases n
  {
    if n > 0 {
      FillsKeepWhole(remote, j, run, steps, n - 1);
      assert StepAt(remote, j, run, steps, n - 1) && FullFill(j, run, steps, n - 1);
    }
  }

  /** A read that returned data has all its chunks whole exactly if every filling of a chunk was: each byte count is
      that of the one flight or fetch that filled the chunk. */
  lemma WholeIffFullFills(remote: RemoteBytes, j: Job, run: seq<State>, steps: seq<Step>)
    requires j.Ok() && IsRun(remote, j, run, steps) && Ended(run[|steps|]) && Returned(run[|steps|]).Data?
    ensures Whole(j, run[|steps|]) <==> forall k :: 0 <= k < |steps| ==> FullFill(j, run, steps, k)
  {
    ConcurrentReply(remote, j, run, steps);
    if Whole(j, run[|steps|]) {
      forall k | 0 <= k < |steps| ensures FullFill(j, run, steps, k) { WholeFill(remote, j, run, steps, k); }
    }
    if forall k :: 0 <= k < |steps| ==> FullFill(j, run, steps, k) { FillsKeepWhole(remote, j, run, steps, |steps|); }
  }

  lemma WholeFill(remote: RemoteBytes, j: Job, run: seq<State>, steps: seq<Step>, k: nat)
    requires j.Ok() && IsRun(remote, j, run, steps) && k < |steps| && Whole(j, run[|steps|])
    ensures FullFill(j, run, steps, k)
  {
    if steps[k].Fill? {
      EveryState(remote, j, run, steps, k);
      assert StepAt(remote, j, run, steps, k);
      var i := run[k].workers[steps[k].worker].index;
      assert Holds(run[k], steps[k].worker, i);
      FilledStays(remote, j, run, steps, k + 1, |steps|, i);
    }
  }

  /** If every chunk was filled whole, the data are exact for every file. */
  lemma WholeIsExact(remote: RemoteBytes, j: Job, run: seq<State>, steps: seq<Step>)
    requires j.Ok() && IsRun(remote, j, run, steps) && Ended(run[|steps|]) && Returned(run[|steps|]).Data?
    requires Whole(j, run[|steps|])
    ensures Returned(run[|steps|]) == Data(Slice(remote, j.fsid, j.offset, j.length))
  {
    var s := run[|steps|];
    ConcurrentExact(remote, j, run, steps);
    forall k | 0 <= k < j.length ensures !LeftOut(j, s, k) {
      ChunksPartition(j, k, k / j.chunkSize);
    }
  }

  // ---------- the workers and the reader ----------

  /** What a worker does for the chunk it holds: what the reader returns for it fills the chunk or fails. */
  method FetchChunk(reader: Reader, j: Job, w: int, i: int, client: Client, cancelled: int -> bool, joined: Joined,
                    ghost remote: RemoteBytes, ghost s: State) returns (step: Step)
    requires reader.Valid() && j.Ok() && Inv(remote, j, s) && Holds(s, w, i)
    requires Honest(remote, j.fsid, client) && reader.cache.True(remote)
    requires JoinedTrue(remote, CacheKey(j.fsid, j.offset + j.Begin(i)), joined)
    modifies reader`table, reader.cache
    ensures reader.Valid() && reader.cache.True(remote)
    ensures (step.Fill? || step.Fail?) && step.worker == w && Enabled(remote, j, s, step)
    ensures step.Fill? && |step.chunk| < j.End(i) - j.Begin(i) ==> ShortFlight(joined, step.chunk)
    ensures var at, n := j.offset + j.Begin(i), j.End(i) - j.Begin(i);
      n >= 0
      && (step.Fill? == PartComes(old(reader.cache.windows), CacheKey(j.fsid, at) in old(reader.table.current), j.fsid, at, n, client,
                                  cancelled, joined))
  {
    ChunkNonempty(j, i);
    var reply := ReadPart(reader, j.fsid, j.offset + j.Begin(i), j.End(i) - j.Begin(i), client, cancelled, joined, remote);
    step := AsStep(remote, j, s, w, i, joined, reply);
  }

  method AsStep(ghost remote: RemoteBytes, ghost j: Job, ghost s: State, w: int, ghost i: int, ghost joined: Joined, reply: RangeReply)
    returns (step: Step)
    requires j.Ok() && Holds(s, w, i) && j.Begin(i) <= j.End(i)
    requires PrefixReply(remote, j.fsid, j.offset + j.Begin(i), j.End(i) - j.Begin(i), reply)
    requires reply.Data? && |reply.data| < j.End(i) - j.Begin(i) ==> ShortFlight(joined, reply.data)
    ensures (step.Fill? || step.Fail?) && step.worker == w && Enabled(remote, j, s, step)
    ensures step.Fill? && |step.chunk| < j.End(i) - j.Begin(i) ==> ShortFlight(joined, step.chunk)
    ensures step.Fill? == reply.Data?
  {
    step := StepOf(w, reply);
    ReplyEnables(remote, j, s, w, i, reply);
  }

  /** A part of a range comes exactly if a window holds it, or the flight for it brings bytes, or, if nobody is fetching
      it, one of two attempts brings all of it. */
  ghost predicate PartComes(windows: seq<Window>, inFlight: bool, fsid: string, at: int, n: nat, client: Client, cancelled: int -> bool,
                            joined: Joined)
  {
    HeldIn(windows, fsid, at, n) || (if inFlight then Brings(joined) else Accepts(client, at, n, true, cancelled))
  }

  method ReadPart(reader: Reader, fsid: string, offset: int, length: nat, client: Client, cancelled: int -> bool, joined: Joined,
                  ghost remote: RemoteBytes) returns (reply: RangeReply)
    requires reader.Valid() && reader.cache.True(remote)
    requires Honest(remote, fsid, client) && JoinedTrue(remote, CacheKey(fsid, offset), joined)
    modifies reader`table, reader.cache
    ensures reader.Valid() && reader.cache.True(remote)
    ensures PrefixReply(remote, fsid, offset, length, reply)
    ensures reply.Data? && |reply.data| < length ==> ShortFlight(joined, reply.data)
    ensures reply.Data? == PartComes(old(reader.cache.windows), CacheKey(fsid, offset) in old(reader.table.current), fsid, offset, length,
                                     client, cancelled, joined)
  {
    reply := reader.ReadChunk(fsid, offset, length, client, cancelled, joined, remote);
  }

  function StepOf(w: int, reply: RangeReply): Step
  {
    match reply
    case Data(chunk) => Fill(w, chunk)
    case Error(error) => Fail(w, error)
  }

  lemma ReplyEnables(remote: RemoteBytes, j: Job, s: State, w: int, i: int, reply: RangeReply)
    requires j.Ok() && Holds(s, w, i) && j.Begin(i) <= j.End(i)
    requires PrefixReply(remote, j.fsid, j.offset + j.Begin(i), j.End(i) - j.Begin(i), reply)
    ensures var step := StepOf(w, reply);
      (step.Fill? || step.Fail?) && step.worker == w && Enabled(remote, j, s, step)
      && (step.Fill? <==> reply.Data?) && (step.Fill? ==> reply == Data(step.chunk))
  {
  }

  /** An ended read hands on data exactly if no worker failed and nobody gave up; and then every chunk was filled. */
  lemma EndedSucceeds(remote: RemoteBytes, j: Job, run: seq<State>, steps: seq<Step>)
    requires j.Ok() && IsRun(remote, j, run, steps) && Ended(run[|steps|])
    ensures Returned(run[|steps|]).Data? <==> forall k :: 0 <= k < |steps| ==> !GivesUp(steps, k)
    ensures Returned(run[|steps|]).Data? ==> forall i :: 0 <= i < j.Total() ==> i in run[|steps|].filled
  {
    CancelledSince(remote, j, run, steps, |steps|);
    EveryState(remote, j, run, steps, |steps|);
    if Returned(run[|steps|]).Data? { ConcurrentReply(remote, j, run, steps); }
  }

  ghost predicate GivesUp(steps: seq<Step>, k: int)
    requires 0 <= k < |steps|
  {
    steps[k].Fail? || steps[k] == Cancel
  }

  /** A read is cancelled since a worker failed or somebody gave up. */
  lemma {:induction false} CancelledSince(remote: RemoteBytes, j: Job, run: seq<State>, steps: seq<Step>, n: nat)
    requires j.Ok() && IsRun(remote, j, run, steps) && n < |run|
    ensures run[n].cancelled <==> exists k :: 0 <= k < n && GivesUp(steps, k)
    decreases n
  {
    if n > 0 {
      CancelledSince(remote, j, run, steps, n - 1);
      assert StepAt(remote, j, run, steps, n - 1);
      assert run[n].cancelled <==> run[n - 1].cancelled || GivesUp(steps, n - 1);
    }
  }

  /** What an ended read hands on is exact if each of its chunks was whole. */
  lemma EndedIsExact(remote: RemoteBytes, j: Job, run: seq<State>, steps: seq<Step>)
    requires j.Ok() && IsRun(remote, j, run, steps) && Ended(run[|steps|])
    requires Returned(run[|steps|]).Data? ==> Whole(j, run[|steps|])
    ensures ExactReply(remote, j.fsid, j.offset, j.length, Returned(run[|steps|]))
  {
    if Returned(run[|steps|]).Data? { WholeIsExact(remote, j, run, steps); }
  }

  /** A range read in either mode: if it is read concurrently, `last` is the end of a run for its job in which every
      chunk was whole. */
  method ReadRangeEitherWay(reader: Reader, fsid: string, offset: int, length: int, linked: bool, concurrency: int,
                            chunkSize: int, client: Client, retry: Client, relinked: bool, cancelled: int -> bool,
                            joined: Joined, last: State, ghost remote: RemoteBytes, ghost run: seq<State>, ghost steps: seq<Step>)
    returns (reply: RangeReply)
    requires reader.Valid() && |run| == |steps| + 1 && last == run[|steps|]
    modifies reader`table, reader.cache
    ensures reader.Valid()
    ensures (offset >= 0 && length >= 0 && Honest(remote, fsid, client) && Honest(remote, fsid, retry) && old(reader.cache.True(remote))
             && JoinedTrue(remote, CacheKey(fsid, FetchOffset(offset, length, Chunk(concurrency, chunkSize))), joined)
             && (Parallel(concurrency, length, chunkSize) ==>
                   var j := Job(fsid, offset, length, Chunk(concurrency, chunkSize));
                   IsRun(remote, j, run, steps) && Ended(last) && (Returned(last).Data? ==> Whole(j, last)))) ==>
      reader.cache.True(remote) && ExactReply(remote, fsid, offset, length, reply)
    ensures reply.Data? <==>
      length >= 0
      && RangeSucceeds(old(reader.cache.windows), reader.cache.cacheLimit,
                       old(FirstKey(fsid, offset, length, concurrency, chunkSize) in reader.table.current), fsid, offset, length, linked,
                       concurrency, chunkSize, client, retry, relinked, cancelled, joined, Returned(last))
  {
    if offset >= 0 && length >= 0 && Parallel(concurrency, length, chunkSize) {
      ghost var j := Job(fsid, offset, length, Chunk(concurrency, chunkSize));
      if IsRun(remote, j, run, steps) && Ended(last) && (Returned(last).Data? ==> Whole(j, last)) {
        EndedIsExact(remote, j, run, steps);
      }
    }
    reply := reader.ReadRange(fsid, offset, length, linked, concurrency, chunkSize, client, retry, relinked, cancelled,
                              joined, Returned(last), remote);
  }

  // ---------- short flights ----------

  /** The other file has the same bytes wherever the chunks of the request got some. */
  ghost predicate AgreesOn(remote: RemoteBytes, other: RemoteBytes, j: Job, s: State)
    requires j.Ok()
  {
    forall k :: 0 <= k < j.length && !LeftOut(j, s, k) ==> SameAt(remote, other, j, k)
  }

  ghost predicate SameAt(remote: RemoteBytes, other: RemoteBytes, j: Job, k: int)
  {
    other(j.fsid, j.offset + k) == remote(j.fsid, j.offset + k)
  }

  /** A chunk is filled once. */
  lemma {:induction false} FilledStays(remote: RemoteBytes, j: Job, run: seq<State>, steps: seq<Step>, i: nat, k: nat, x: int)
    requires j.Ok() && IsRun(remote, j, run, steps) && i <= k < |run| && x in run[i].filled
    ensures x in run[k].filled && run[k].filled[x] == run[i].filled[x]
    decreases k
  {
    if i < k {
      FilledStays(remote, j, run, steps, i, k - 1, x);
      EveryState(remote, j, run, steps, k - 1);
      assert StepAt(remote, j, run, steps, k - 1);
      var step := steps[k - 1];
      if step.Fill? { assert Holds(run[k - 1], step.worker, run[k - 1].workers[step.worker].index); }
    }
  }

  /** A file that agrees on those bytes could have given the very same run. */
  lemma SameRun(remote: RemoteBytes, other: RemoteBytes, j: Job, run: seq<State>, steps: seq<Step>)
    requires j.Ok() && IsRun(remote, j, run, steps) && AgreesOn(remote, other, j, run[|steps|])
    ensures IsRun(other, j, run, steps)
  {
    forall i | 0 <= i < |steps| ensures StepAt(other, j, run, steps, i) {
      assert StepAt(remote, j, run, steps, i);
      if steps[i].Fill? { SameFill(remote, other, j, run, steps, i); }
    }
  }

  lemma SameFill(remote: RemoteBytes, other: RemoteBytes, j: Job, run: seq<State>, steps: seq<Step>, i: nat)
    requires j.Ok() && IsRun(remote, j, run, steps) && AgreesOn(remote, other, j, run[|steps|])
    requires i < |steps| && steps[i].Fill?
    ensures Enabled(other, j, run[i], steps[i])
  {
    assert StepAt(remote, j, run, steps, i);
    EveryState(remote, j, run, steps, i);
    var w, chunk := steps[i].worker, steps[i].chunk;
    var x := run[i].workers[w].index;
    assert Holds(run[i], w, x);
    ChunkNonempty(j, x);
    FilledStays(remote, j, run, steps, i + 1, |steps|, x);
    var at := j.offset + j.Begin(x);
    forall m | 0 <= m < |chunk| ensures chunk[m] == other(j.fsid, at + m) {
      var k := j.Begin(x) + m;
      ChunksPartition(j, k, x);
      assert !LeftOut(j, run[|steps|], k) && SameAt(remote, other, j, k);
      assert chunk[m] == remote(j.fsid, at + m);
    }
    assert chunk == Slice(other, j.fsid, at, |chunk|);
  }

  /** Exactly when every chunk was whole are the data those of every file that could have given this run. */
  lemma ExactForAllIffWhole(remote: RemoteBytes, j: Job, run: seq<State>, steps: seq<Step>)
    requires j.Ok() && IsRun(remote, j, run, steps) && Ended(run[|steps|]) && Returned(run[|steps|]).Data?
    ensures var s := run[|steps|];
      Whole(j, s) <==>
      forall other :: AgreesOn(remote, other, j, s) ==> Returned(s).data == Slice(other, j.fsid, j.offset, j.length)
  {
    var s := run[|steps|];
    if Whole(j, s) {
      forall other | AgreesOn(remote, other, j, s) ensures Returned(s).data == Slice(other, j.fsid, j.offset, j.length) {
        SameRun(remote, other, j, run, steps);
        WholeIsExact(other, j, run, steps);
      }
    } else {
      var other := ShortIsWrong(remote, j, run, steps);
    }
  }

  /** A chunk that is not whole: for a file that differs in one byte, the same run returns wrong data. */
  lemma ShortIsWrong(remote: RemoteBytes, j: Job, run: seq<State>, steps: seq<Step>) returns (other: RemoteBytes)
    requires j.Ok() && IsRun(remote, j, run, steps) && Ended(run[|steps|]) && Returned(run[|steps|]).Data?
    requires !Whole(j, run[|steps|])
    ensures AgreesOn(remote, other, j, run[|steps|]) && IsRun(other, j, run, steps)
    ensures Returned(run[|steps|]).data != Slice(other, j.fsid, j.offset, j.length)
  {
    var s := run[|steps|];
    ConcurrentReply(remote, j, run, steps);
    EveryState(remote, j, run, steps, |steps|);
    var i :| 0 <= i < j.Total() && s.filled[i] != j.End(i) - j.Begin(i);
    ChunkNonempty(j, i);
    var k := j.Begin(i) + s.filled[i];
    ChunksPartition(j, k, i);
    other := (f, o) => if o == j.offset + k then 1 else remote(f, o);
    assert LeftOut(j, s, k);
    SameRun(remote, other, j, run, steps);
    assert Returned(s).data[k] == Expected(remote, j, s.filled, k) == 0;
    assert Slice(other, j.fsid, j.offset, j.length)[k] == 1;
  }

  // ---------- an example ----------

  const SEVENS: RemoteBytes := (f, i) => 7
  /** The reads of three and of four bytes from the start of a file, in chunks of two. */
  const THREE := Job("1", 0, 3, 2)
  const FOUR := Job("1", 0, 4, 2)
  const LAST_CHUNK := CacheKey("1", 2)

  /** Both reads reach their second chunk at the same offset; the shorter read is first and fetches its one byte,
      the longer one waits for that flight. */
  lemma SharedFlight() returns (run: seq<Flights.State>, steps: seq<Flights.Step>)
    ensures Flights.IsRun(SEVENS, run, steps) && |run| == 4
    ensures THREE.offset + THREE.Begin(1) == FOUR.offset + FOUR.Begin(1) == LAST_CHUNK.offset
    ensures steps[0] == Flights.BeginStep(1, LAST_CHUNK) && Flights.OwnedBy(run[1], 1, 1)
    ensures steps[1] == Flights.BeginStep(2, LAST_CHUNK) && 2 in run[2].readers && run[2].readers[2] == Flights.Waits(1)
    ensures 1 in run[3].table.flights && run[3].table.flights[1].outcome == Some(Flights.Fetched([7]))
    ensures |[7 as byte]| == THREE.End(1) - THREE.Begin(1)
  {
    var f := Flights.Flight(LAST_CHUNK, 0, None);
    var s0 := Flights.State(Flights.NO_FLIGHTS, map[1 := Flights.Idle, 2 := Flights.Idle]);
    var s1 := Flights.State(Flights.Table(map[1 := f], map[LAST_CHUNK := 1], 1), map[1 := Flights.Owns(1), 2 := Flights.Idle]);
    var s2 := s1.(readers := map[1 := Flights.Owns(1), 2 := Flights.Waits(1)]);
    var done := f.(closes := 1, outcome := Some(Flights.Fetched([7])));
    var s3 := Flights.State(Flights.Table(map[1 := done], map[], 1), map[1 := Flights.Idle, 2 := Flights.Waits(1)]);
    run := [s0, s1, s2, s3];
    steps := [Flights.BeginStep(1, LAST_CHUNK), Flights.BeginStep(2, LAST_CHUNK), Flights.FinishStep(1, Flights.Fetched([7]))];
    assert Flights.StepAt(SEVENS, run, steps, 0) && Flights.StepAt(SEVENS, run, steps, 1);
    assert Flights.OutcomeTrue(SEVENS, LAST_CHUNK, Flights.Fetched([7]));
    assert s2.table.current - {LAST_CHUNK} == map[];
    assert Flights.StepAt(SEVENS, run, steps, 2);
  }

  const STARTED := State(0, false, map[1 := Free, 2 := Free], [0, 0, 0, 0], map[], None, false)
  const DEALT_ONE := STARTED.(next := 1, workers := map[1 := Working(0), 2 := Free])
  const DEALT := STARTED.(next := 2, workers := map[1 := Working(0), 2 := Working(1)])
  const HALF := DEALT.(workers := map[1 := Free, 2 := Working(1)], buffer := [7, 7, 0, 0], filled := map[0 := 2])
  const FILLED := DEALT.(workers := map[1 := Free, 2 := Free], buffer := [7, 7, 7, 0], filled := map[0 := 2, 1 := 1])

  const CLOSED := FILLED.(closed := true)
  const LEFT_ONE := CLOSED.(workers := map[1 := Gone, 2 := Free])
  const LEFT := CLOSED.(workers := map[1 := Gone, 2 := Gone])

  lemma Dealing()
    ensures Enabled(SEVENS, FOUR, STARTED, Deal(1)) && Apply(FOUR, STARTED, Deal(1)) == DEALT_ONE
    ensures Enabled(SEVENS, FOUR, DEALT_ONE, Deal(2)) && Apply(FOUR, DEALT_ONE, Deal(2)) == DEALT
  {
    assert FOUR.Total() == 2;
  }

  lemma Leaving()
    ensures Enabled(SEVENS, FOUR, FILLED, CloseDeal) && Apply(FOUR, FILLED, CloseDeal) == CLOSED
    ensures Enabled(SEVENS, FOUR, CLOSED, Leave(1)) && Apply(FOUR, CLOSED, Leave(1)) == LEFT_ONE
    ensures Enabled(SEVENS, FOUR, LEFT_ONE, Leave(2)) && Apply(FOUR, LEFT_ONE, Leave(2)) == LEFT
  {
    assert FOUR.Total() == 2;
  }

  /** A run goes on by a step. */
  lemma Goes(remote: RemoteBytes, j: Job, run: seq<State>, steps: seq<Step>, s: State, step: Step, t: State)
    returns (r: seq<State>, q: seq<Step>)
    requires j.Ok() && IsRun(remote, j, run, steps) && run[|steps|] == s
    requires Enabled(remote, j, s, step) && Apply(j, s, step) == t
    ensures IsRun(remote, j, r, q) && r[|q|] == t
    ensures step in q && forall x :: x in steps ==> x in q
  {
    r, q := run + [t], steps + [step];
    forall i | 0 <= i < |q| ensures StepAt(remote, j, r, q, i) {
      if i < |steps| { assert StepAt(remote, j, run, steps, i); }
    }
  }

  lemma FirstFill()
    ensures Enabled(SEVENS, FOUR, DEALT, Fill(1, [7, 7])) && Apply(FOUR, DEALT, Fill(1, [7, 7])) == HALF
  {
    assert ChunkRead(SEVENS, FOUR, 0, [7, 7]);
    assert CopyAt(DEALT.buffer, 0, [7, 7]) == HALF.buffer;
  }

  /** The flight that was joined gives the longer read one byte. */
  lemma ShortFill()
    ensures FromJoined(Delivered(Flights.Fetched([7])), LAST_CHUNK.offset, FOUR.offset + FOUR.Begin(1), FOUR.End(1) - FOUR.Begin(1))
      == Data([7])
    ensures Enabled(SEVENS, FOUR, HALF, Fill(2, [7])) && Apply(FOUR, HALF, Fill(2, [7])) == FILLED
  {
    assert ChunkRead(SEVENS, FOUR, 1, [7]);
    assert CopyAt(HALF.buffer, 2, [7]) == FILLED.buffer;
  }

  /** The run up to where both chunks are filled. */
  lemma FillingRun() returns (run: seq<State>, steps: seq<Step>)
    ensures FOUR.Ok() && IsRun(SEVENS, FOUR, run, steps) && run[|steps|] == FILLED && Fill(2, [7]) in steps
  {
    Dealing();
    FirstFill();
    ShortFill();
    assert 1 in STARTED.workers && STARTED.workers != map[];
    run, steps := [STARTED], [];
    run, steps := Goes(SEVENS, FOUR, run, steps, STARTED, Deal(1), DEALT_ONE);
    run, steps := Goes(SEVENS, FOUR, run, steps, DEALT_ONE, Deal(2), DEALT);
    run, steps := Goes(SEVENS, FOUR, run, steps, DEALT, Fill(1, [7, 7]), HALF);
    run, steps := Goes(SEVENS, FOUR, run, steps, HALF, Fill(2, [7]), FILLED);
  }

  lemma Returning()
    ensures FOUR.Ok() && Parallel(2, FOUR.length, FOUR.chunkSize) && Ended(LEFT) && Returned(LEFT) == Data([7, 7, 7, 0])
    ensures Returned(LEFT).data != Slice(SEVENS, FOUR.fsid, FOUR.offset, FOUR.length)
  {
    assert Slice(SEVENS, FOUR.fsid, 0, 4)[3] == 7;
  }

  /** So a read of four bytes by two workers, of a file of sevens, ends in a zero. */
  lemma ShortFlightIsWrong() returns (run: seq<State>, steps: seq<Step>)
    ensures FOUR.Ok() && Parallel(2, FOUR.length, FOUR.chunkSize) && IsRun(SEVENS, FOUR, run, steps)
    ensures Fill(2, [7]) in steps && Ended(run[|steps|]) && Returned(run[|steps|]) == Data([7, 7, 7, 0])
    ensures Returned(run[|steps|]).data != Slice(SEVENS, FOUR.fsid, FOUR.offset, FOUR.length)
  {
    Leaving();
    Returning();
    run, steps := FillingRun();
    run, steps := Goes(SEVENS, FOUR, run, steps, FILLED, CloseDeal, CLOSED);
    run, steps := Goes(SEVENS, FOUR, run, steps, CLOSED, Leave(1), LEFT_ONE);
    run, steps := Goes(SEVENS, FOUR, run, steps, LEFT_ONE, Leave(2), LEFT);
  }
}

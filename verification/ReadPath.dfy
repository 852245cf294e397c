/** One read of a handle: guards, one answer per chunk, and the assembly of the answers. */
module ReadPath {
  import opened Arithmetic
  import opened Content
  import opened Naming
  import opened StreamState
  import opened StreamSystem
  import opened StreamTheorems

  datatype ReadError = NoFsid | BadRange | Refused(why: Refusal) | Failed(failure: Failure)

  datatype Reply = Data(data: Bytes) | Error(error: ReadError)

  /** What is left of a request at the end of a file of known size. */
  function Clamped(file: File, offset: int, length: int): int
  {
    if file.size > 0 && offset + length > file.size then file.size - offset else length
  }

  function FirstChunk(cfg: Config, offset: int): int
    requires cfg.chunkSize > 0
  {
    offset / cfg.chunkSize
  }

  function LastChunk(cfg: Config, offset: int, length: int): int
    requires cfg.chunkSize > 0
  {
    (offset + length - 1) / cfg.chunkSize
  }

  /** The part of a chunk, starting at `chunkOffset`, that a read from `offset` still needs. */
  function Piece(chunk: Bytes, chunkOffset: int, offset: int, need: nat): (r: Bytes)
    ensures |r| <= need
  {
    var start := if offset > chunkOffset then offset - chunkOffset else 0;
    var available := Min(|chunk| - start, need);
    if available <= 0 then [] else chunk[start..start + available]
  }

  /** What assembling `chunks`, the first of which starts at `chunkOffset`, adds to the bytes already copied. */
  function Assemble(chunkSize: int, chunks: seq<Bytes>, chunkOffset: int, offset: int, length: nat, done: Bytes): Reply
    requires |done| <= length
    decreases |chunks|, 0
  {
    if chunks == [] then (if |done| == length then Data(done) else Error(Failed(UnexpectedEOF)))
    else
      AssembleOne(chunkSize, chunks[1..], chunkOffset, offset, length, done,
                  Piece(chunks[0], chunkOffset, offset, length - |done|))
  }

  function AssembleOne(chunkSize: int, rest: seq<Bytes>, chunkOffset: int, offset: int, length: nat, done: Bytes, piece: Bytes): Reply
    requires |done| + |piece| <= length
    decreases |rest|, 1
  {
    if piece == [] then Error(Failed(UnexpectedEOF))
    else Assemble(chunkSize, rest, chunkOffset + chunkSize, offset, length, done + piece)
  }

  /** The answers to chunks first..last, up to and without the first failure. */
  function Gather(served: int -> Result, first: int, last: int): (r: (seq<Bytes>, Option<Failure>))
    decreases last - first
  {
    if first > last then ([], None)
    else match served(first)
      case Err(failure) => ([], Some(failure))
      case Ok(data) =>
        var (rest, failure) := Gather(served, first + 1, last);
        ([data] + rest, failure)
  }

  /** `refused` is what the start of the read says: the handle is released, or the manager closed. */
  function ReadSpec(cfg: Config, file: File, offset: int, length: int, refused: Option<Refusal>, served: int -> Result): Reply
    requires cfg.chunkSize > 0
  {
    if file.fsid == "" then Error(NoFsid)
    else if offset < 0 || length < 0 then Error(BadRange)
    else if length == 0 || (file.size > 0 && offset >= file.size) then Data([])
    else if refused.Some? then Error(Refused(refused.value))
    else
      var n := Clamped(file, offset, length);
      var (chunks, failure) := Gather(served, FirstChunk(cfg, offset), LastChunk(cfg, offset, n));
      if failure.Some? then Error(Failed(failure.value))
      else Assemble(cfg.chunkSize, chunks, FirstChunk(cfg, offset) * cfg.chunkSize, offset, n, [])
  }

  lemma {:induction false} GatherSnoc(served: int -> Result, first: int, last: int)
    requires first <= last && Gather(served, first, last - 1).1 == None
    ensures served(last).Ok? ==> Gather(served, first, last) == (Gather(served, first, last - 1).0 + [served(last).data], None)
    ensures served(last).Err? ==> Gather(served, first, last).1 == Some(served(last).failure)
    decreases last - first
  {
    if first == last {
      assert Gather(served, first, last - 1).0 == [];
      assert Gather(served, first + 1, last) == ([], None);
      if served(last).Ok? {
        var x := served(last).data;
        assert Gather(served, first, last) == ([x] + [], None) && [x] + [] == [x] && [] + [x] == [x];
      }
    } else {
      GatherSnoc(served, first + 1, last);
      if served(last).Ok? {
        var rest := Gather(served, first + 1, last - 1).0;
        assert [served(first).data] + (rest + [served(last).data]) == ([served(first).data] + rest) + [served(last).data];
      }
    }
  }

  lemma {:induction false} GatherStops(served: int -> Result, first: int, middle: int, last: int)
    requires first - 1 <= middle <= last && Gather(served, first, middle).1.Some?
    ensures Gather(served, first, last).1 == Gather(served, first, middle).1
    decreases middle - first
  {
    if served(first).Ok? { GatherStops(served, first + 1, middle, last); }
  }

  /** A read of a handle, given what waiting for each chunk returns. */
  method ReadAt(cfg: Config, file: File, offset: int, length: int, refused: Option<Refusal>, served: int -> Result)
    returns (reply: Reply)
    requires cfg.chunkSize > 0
    ensures reply == ReadSpec(cfg, file, offset, length, refused, served)
    ensures file.fsid == "" ==> reply == Error(NoFsid)
    ensures file.fsid != "" && (offset < 0 || length < 0) ==> reply == Error(BadRange)
    ensures file.fsid != "" && offset >= 0 && (length == 0 || (length > 0 && file.size > 0 && offset >= file.size)) ==> reply == Data([])
    ensures file.fsid != "" && offset >= 0 && length > 0 && (file.size > 0 ==> offset < file.size) && refused.Some? ==>
      reply == Error(Refused(refused.value))
  {
    if file.fsid == "" { return Error(NoFsid); }
    if offset < 0 || length < 0 { return Error(BadRange); }
    if length == 0 || (file.size > 0 && offset >= file.size) { return Data([]); }
    var n := length;
    if file.size > 0 && offset + length > file.size { n := file.size - offset; }
    if refused.Some? { return Error(Refused(refused.value)); }
    var first, last := FirstChunk(cfg, offset), LastChunk(cfg, offset, n);
    var chunks, failure := WaitChunks(served, first, last);
    if failure.Some? { return Error(Failed(failure.value)); }
    reply := Copy(cfg, chunks, first, offset, n);
  }

  /** Waits for the chunks in order and stops at the first failure. */
  method WaitChunks(served: int -> Result, first: int, last: int) returns (chunks: seq<Bytes>, failure: Option<Failure>)
    ensures failure == Gather(served, first, last).1
    ensures failure == None ==> chunks == Gather(served, first, last).0
  {
    chunks := [];
    var index := first;
    while index <= last
      invariant first <= index && (index <= last + 1 || first > last)
      invariant Gather(served, first, index - 1) == (chunks, None)
      invariant index > last ==> Gather(served, first, last) == (chunks, None)
    {
      var answer := served(index);
      GatherSnoc(served, first, index);
      if answer.Err? {
        GatherStops(served, first, index, last);
        return chunks, Some(answer.failure);
      }
      chunks := chunks + [answer.data];
      index := index + 1;
    }
    failure := None;
  }

  /** Copies the chunks into one buffer. */
  method Copy(cfg: Config, chunks: seq<Bytes>, first: int, offset: int, length: nat) returns (reply: Reply)
    ensures reply == Assemble(cfg.chunkSize, chunks, first * cfg.chunkSize, offset, length, [])
  {
    var result := new byte[length];
    var written, i := 0, 0;
    var at := first * cfg.chunkSize;
    ghost var rest, done: Bytes := chunks, [];
    ghost var whole := Assemble(cfg.chunkSize, chunks, at, offset, length, []);
    assert chunks[0..] == chunks && result[..0] == [];
    while i < |chunks|
      invariant 0 <= i <= |chunks| && 0 <= written <= length
      invariant done == result[..written] && |done| == written && rest == chunks[i..]
      invariant whole == Assemble(cfg.chunkSize, rest, at, offset, length, done)
    {
      var available := CopyChunk(result, written, chunks, i, at, offset, cfg.chunkSize);
      at := at + cfg.chunkSize;
      if available <= 0 { return Error(Failed(UnexpectedEOF)); }
      done, rest := result[..written + available], chunks[i + 1..];
      written := written + available;
      i := i + 1;
    }
    if written != length { return Error(Failed(UnexpectedEOF)); }
    assert result[..] == result[..written];
    reply := Data(result[..]);
  }

  lemma NextOffset(k: int, size: int)
    ensures (k + 1) * size == k * size + size
  {
  }

  lemma AssembleStep(chunkSize: int, chunks: seq<Bytes>, i: nat, chunkOffset: int, offset: int, length: nat, done: Bytes)
    requires i < |chunks| && |done| <= length
    ensures var piece := Piece(chunks[i], chunkOffset, offset, length - |done|);
      Assemble(chunkSize, chunks[i..], chunkOffset, offset, length, done)
      == if piece == [] then Error(Failed(UnexpectedEOF))
         else Assemble(chunkSize, chunks[i + 1..], chunkOffset + chunkSize, offset, length, done + piece)
  {
    assert chunks[i..][0] == chunks[i] && chunks[i..][1..] == chunks[i + 1..];
  }

  /** Copies what the read needs of one chunk behind the `written` bytes it has. */
  method CopyPiece(target: array<byte>, written: nat, data: Bytes, chunkOffset: int, offset: int) returns (available: int)
    requires written <= target.Length
    modifies target
    ensures var piece := Piece(data, chunkOffset, offset, target.Length - written);
      if available <= 0 then piece == [] && target[..] == old(target[..])
      else available == |piece| && target[..written + available] == old(target[..written]) + piece
  {
    var start := if offset > chunkOffset then offset - chunkOffset else 0;
    available := |data| - start;
    var need := target.Length - written;
    if available > need { available := need; }
    if available > 0 {
      CopyInto(target, written, data[start..start + available]);
    }
  }

  method CopyChunk(target: array<byte>, written: nat, chunks: seq<Bytes>, i: nat, at: int, offset: int, ghost chunkSize: int)
    returns (available: int)
    requires written <= target.Length && i < |chunks|
    modifies target
    ensures available <= target.Length - written
    ensures Assemble(chunkSize, chunks[i..], at, offset, target.Length, old(target[..written]))
      == if available <= 0 then Error(Failed(UnexpectedEOF))
         else Assemble(chunkSize, chunks[i + 1..], at + chunkSize, offset, target.Length, target[..written + available])
  {
    ghost var done := target[..written];
    AssembleStep(chunkSize, chunks, i, at, offset, target.Length, done);
    available := CopyPiece(target, written, chunks[i], at, offset);
  }

  method CopyInto(target: array<byte>, at: nat, data: Bytes)
    requires at + |data| <= target.Length
    modifies target
    ensures target[..at + |data|] == old(target[..at]) + data
  {
    forall k | 0 <= k < |data| { target[at + k] := data[k]; }
  }

  // ---------- exactness ----------

  /** The answer to chunk `index` is an error or the bytes of that chunk. */
  ghost predicate ChunkTrue(remote: RemoteBytes, cfg: Config, file: File, index: int, answer: Result)
  {
    answer.Ok? && ChunkLength(cfg, file, index) >= 0 ==>
      answer.data == Slice(remote, file.fsid, index * cfg.chunkSize, ChunkLength(cfg, file, index))
  }

  lemma ChunkBounds(size: int, offset: int)
    requires size > 0
    ensures offset / size * size <= offset < (offset / size + 1) * size
  {
  }

  lemma ChunkOrder(size: int, a: int, b: int)
    requires size > 0
    ensures a < b ==> (a + 1) * size <= b * size
    ensures a <= b <==> a * size <= b * size
  {
    if a < b { MulMono(a + 1, b, size); } else { MulMono(b, a, size); }
  }

  lemma PieceOfSlice(remote: RemoteBytes, fsid: string, at: int, n: nat, offset: int, done: nat, need: nat)
    requires need > 0 && at <= offset + done < at + n && offset + done == Max(offset, at)
    ensures Piece(Slice(remote, fsid, at, n), at, offset, need)
      == Slice(remote, fsid, offset + done, Min(at + n - (offset + done), need))
  {
    var start := offset + done - at;
    SliceOfSlice(remote, fsid, at, n, start, start + Min(n - start, need));
  }

  lemma PieceExact(remote: RemoteBytes, fsid: string, at: int, n: nat, offset: int, length: nat, done: nat) returns (count: nat)
    requires done < length && at <= offset + done < at + n && offset + done == Max(offset, at)
    ensures count == Min(at + n - (offset + done), length - done) > 0
    ensures Piece(Slice(remote, fsid, at, n), at, offset, length - done) == Slice(remote, fsid, offset + done, count)
    ensures Slice(remote, fsid, offset, done) + Slice(remote, fsid, offset + done, count) == Slice(remote, fsid, offset, done + count)
  {
    count := Min(at + n - (offset + done), length - done);
    PieceOfSlice(remote, fsid, at, n, offset, done, length - done);
    SliceConcat(remote, fsid, offset, done, count);
  }

  /** Chunk `index` of the request, which starts at `at`: it is whole unless it is the last. */
  lemma ChunkPlace(cfg: Config, file: File, index: int, last: int, offset: int, length: nat)
    requires cfg.chunkSize > 0 && offset >= 0 && length > 0 && (file.size > 0 ==> offset + length <= file.size)
    requires last == LastChunk(cfg, offset, length) && FirstChunk(cfg, offset) <= index <= last
    ensures index == FirstChunk(cfg, offset) ==> index * cfg.chunkSize <= offset < index * cfg.chunkSize + cfg.chunkSize
    ensures index > FirstChunk(cfg, offset) ==> offset < index * cfg.chunkSize < offset + length
    ensures index < last ==> ChunkLength(cfg, file, index) == cfg.chunkSize && index * cfg.chunkSize + cfg.chunkSize < offset + length
    ensures index == last ==> 0 < ChunkLength(cfg, file, index) && offset + length <= index * cfg.chunkSize + ChunkLength(cfg, file, index)
  {
    var size := cfg.chunkSize;
    ChunkBounds(size, offset);
    ChunkBounds(size, offset + length - 1);
    assert (index + 1) * size == index * size + size;
    if index > FirstChunk(cfg, offset) { ChunkOrder(size, FirstChunk(cfg, offset), index); }
    ChunkOrder(size, index, last);
  }

  /** The piece of one true chunk follows what was in place before, and reaches up to the next chunk or to the
      end of the request. */
  lemma ChunkExact(remote: RemoteBytes, cfg: Config, file: File, chunk: Bytes, index: int, last: int, at: int, offset: int,
                   length: nat, done: nat) returns (count: nat)
    requires cfg.chunkSize > 0 && offset >= 0 && done < length && (file.size > 0 ==> offset + length <= file.size)
    requires last == LastChunk(cfg, offset, length) && FirstChunk(cfg, offset) <= index <= last
    requires at == index * cfg.chunkSize && offset + done == Max(offset, at)
    requires ChunkLength(cfg, file, index) >= 0 ==> chunk == Slice(remote, file.fsid, at, ChunkLength(cfg, file, index))
    ensures count > 0 && Piece(chunk, at, offset, length - done) == Slice(remote, file.fsid, offset + done, count)
    ensures Slice(remote, file.fsid, offset, done) + Slice(remote, file.fsid, offset + done, count)
      == Slice(remote, file.fsid, offset, done + count)
    ensures index < last ==> at + cfg.chunkSize == (index + 1) * cfg.chunkSize && done + count < length
    ensures index < last ==> offset + done + count == Max(offset, at + cfg.chunkSize)
    ensures index == last ==> done + count == length
  {
    ChunkPlace(cfg, file, index, last, offset, length);
    count := PieceExact(remote, file.fsid, at, ChunkLength(cfg, file, index), offset, length, done);
    NextOffset(index, cfg.chunkSize);
  }

  /** The bytes of the request that lie in chunks before `index` are in place; the rest follows. */
  lemma {:induction false} AssembleExact(remote: RemoteBytes, cfg: Config, file: File, served: int -> Result,
                                         index: int, last: int, at: int, offset: int, length: nat, done: nat)
    requires cfg.chunkSize > 0 && offset >= 0 && done < length && (file.size > 0 ==> offset + length <= file.size)
    requires last == LastChunk(cfg, offset, length) && FirstChunk(cfg, offset) <= index <= last
    requires at == index * cfg.chunkSize && offset + done == Max(offset, at)
    requires forall k :: index <= k <= last ==> ChunkTrue(remote, cfg, file, k, served(k))
    requires Gather(served, index, last).1 == None
    ensures Assemble(cfg.chunkSize, Gather(served, index, last).0, at, offset, length, Slice(remote, file.fsid, offset, done))
         == Data(Slice(remote, file.fsid, offset, length))
    decreases last - index
  {
    var chunks := Gather(served, index, last).0;
    assert chunks[0] == served(index).data && chunks[1..] == Gather(served, index + 1, last).0;
    assert ChunkTrue(remote, cfg, file, index, served(index));
    var soFar := Slice(remote, file.fsid, offset, done);
    var count := ChunkExact(remote, cfg, file, chunks[0], index, last, at, offset, length, done);
    var goal := Data(Slice(remote, file.fsid, offset, length));
    if index < last {
      AssembleExact(remote, cfg, file, served, index + 1, last, at + cfg.chunkSize, offset, length, done + count);
    } else {
      assert chunks[1..] == [];
    }
    AssembleOn(cfg.chunkSize, chunks, at, offset, length, soFar, Slice(remote, file.fsid, offset + done, count), goal);
  }

  lemma AssembleOn(chunkSize: int, chunks: seq<Bytes>, at: int, offset: int, length: nat, done: Bytes, piece: Bytes, goal: Reply)
    requires chunks != [] && |done| <= length && piece == Piece(chunks[0], at, offset, length - |done|) && piece != []
    requires Assemble(chunkSize, chunks[1..], at + chunkSize, offset, length, done + piece) == goal
    ensures Assemble(chunkSize, chunks, at, offset, length, done) == goal
  {
  }

  /** Exactness of one read: if every answer is an error or the true bytes of its chunk, the read fails
      with the first error, or returns exactly the bytes asked for up to the end of the file. */
  lemma ReadExact(remote: RemoteBytes, cfg: Config, file: File, offset: int, length: int, refused: Option<Refusal>,
                  served: int -> Result)
    requires cfg.chunkSize > 0 && file.fsid != "" && offset >= 0 && length > 0 && (file.size > 0 ==> offset < file.size)
    requires var n := Clamped(file, offset, length);
      forall k :: FirstChunk(cfg, offset) <= k <= LastChunk(cfg, offset, n) ==> ChunkTrue(remote, cfg, file, k, served(k))
    ensures var n := Clamped(file, offset, length);
      var r := ReadSpec(cfg, file, offset, length, refused, served);
      n > 0
      && (r.Data? ==> r == Data(Slice(remote, file.fsid, offset, n)))
      && (r.Data? <==> refused == None && forall k :: FirstChunk(cfg, offset) <= k <= LastChunk(cfg, offset, n) ==> served(k).Ok?)
  {
    var n := Clamped(file, offset, length);
    var first, last := FirstChunk(cfg, offset), LastChunk(cfg, offset, n);
    ChunkBounds(cfg.chunkSize, offset);
    ChunkBounds(cfg.chunkSize, offset + n - 1);
    if first > last { ChunkOrder(cfg.chunkSize, last, first); }
    GatherOk(served, first, last);
    if Gather(served, first, last).1 == None {
      AssembleExact(remote, cfg, file, served, first, last, first * cfg.chunkSize, offset, n, 0);
      assert Slice(remote, file.fsid, offset, 0) == [];
    }
  }

  /** A read fails as the first of its chunks that fails. */
  lemma ReadFailsAs(cfg: Config, file: File, offset: int, length: int, served: int -> Result, k: int)
    requires cfg.chunkSize > 0 && file.fsid != "" && offset >= 0 && length > 0 && (file.size > 0 ==> offset < file.size)
    requires var end := if file.size > 0 && file.size < offset + length then file.size else offset + length;
      offset / cfg.chunkSize <= k <= (end - 1) / cfg.chunkSize
    requires served(k).Err? && forall i :: offset / cfg.chunkSize <= i < k ==> served(i).Ok?
    ensures ReadSpec(cfg, file, offset, length, None, served) == Error(Failed(served(k).failure))
  {
    GatherFirst(served, FirstChunk(cfg, offset), LastChunk(cfg, offset, Clamped(file, offset, length)), k);
  }

  lemma {:induction false} GatherFirst(served: int -> Result, first: int, last: int, k: int)
    requires first <= k <= last && served(k).Err? && forall i :: first <= i < k ==> served(i).Ok?
    ensures Gather(served, first, last).1 == Some(served(k).failure)
    decreases k - first
  {
    if first < k { GatherFirst(served, first + 1, last, k); }
  }

  lemma {:induction false} GatherOk(served: int -> Result, first: int, last: int)
    ensures Gather(served, first, last).1 == None <==> forall k :: first <= k <= last ==> served(k).Ok?
    decreases last - first
  {
    if first <= last {
      GatherOk(served, first + 1, last);
      assert served(first).Ok? || Gather(served, first, last).1.Some?;
    }
  }

  // ---------- downloads ----------

  /** An attempt whose bytes are as many as asked for. */
  predicate Complete(answer: Result, length: int) { answer.Ok? && |answer.data| == length }

  /** Every answer of the reader is an error or a prefix of the bytes to download. */
  ghost predicate HonestReader(remote: RemoteBytes, t: TaskState, reader: int -> Result)
  {
    forall k :: reader(k).Ok? ==> reader(k).data == Slice(remote, t.file.fsid, t.offset, |reader(k).data|)
  }

  /** A worker's download: two attempts, the second only if the task is not cancelled by then. With an honest
      reader, what it returns is an error or all the bytes of the task. */
  method Download(t: TaskState, reader: int -> Result, cancelled: int -> bool, ghost remote: RemoteBytes) returns (r: Result)
    requires t.length >= 0
    ensures Complete(reader(0), t.length) ==> r == reader(0)
    ensures !Complete(reader(0), t.length) && !cancelled(0) && Complete(reader(1), t.length) ==> r == reader(1)
    ensures r.Ok? ==> Complete(r, t.length) && (r == reader(0) || (!cancelled(0) && r == reader(1)))
    ensures !Complete(reader(0), t.length) && cancelled(0) ==> r == Err(Canceled)
    ensures !Complete(reader(0), t.length) && !cancelled(0) && !Complete(reader(1), t.length) ==>
      r == Err(if cancelled(1) then Canceled else if reader(1).Err? then reader(1).failure else UnexpectedEOF)
    ensures HonestReader(remote, t, reader) && r.Ok? ==> r.data == TaskBytes(remote, t)
  {
    var last := UnexpectedEOF;
    var attempt := 0;
    while attempt < 2
      invariant 0 <= attempt <= 2
      invariant forall k :: 0 <= k < attempt ==> !Complete(reader(k), t.length) && !cancelled(k)
      invariant attempt > 0 ==> last == (if reader(attempt - 1).Err? then reader(attempt - 1).failure else UnexpectedEOF)
    {
      var answer := reader(attempt);
      if answer.Ok? && |answer.data| == t.length { return answer; }
      last := if answer.Err? then answer.failure else UnexpectedEOF;
      if cancelled(attempt) { return Err(Canceled); }
      attempt := attempt + 1;
    }
    r := Err(last);
  }

  /** In every state of every run in which a worker is downloading, whatever an honest download returns can be
      handed in, and leaves the engine in order; so no run depends on luck with the reader. */
  lemma DownloadHandsIn(remote: RemoteBytes, run: seq<Sys>, steps: seq<Step>, i: nat, w: int, reader: int -> Result, r: Result)
    requires IsRun(remote, run, steps) && i < |run| && w in run[i].workers && run[i].workers[w].Busy?
    requires run[i].workers[w].task in run[i].m.table
    requires var t := run[i].m.table[run[i].workers[w].task];
      HonestReader(remote, t, reader) && (r.Ok? ==> Complete(r, t.length) && (r == reader(0) || r == reader(1)))
    ensures Enabled(remote, run[i], HandInStep(w, r)) && SysInv(remote, Apply(remote, run[i], HandInStep(w, r)))
  {
    EveryState(remote, run, steps, i);
    StepHolds(remote, run[i], HandInStep(w, r));
  }

  // ---------- reads in a run ----------

  /** What waiting for a chunk can return in a state: bytes out of the chunk store, the result of a
      task of that chunk, or a failure. */
  ghost predicate MayServe(s: Sys, file: File, index: int, answer: Result)
  {
    answer.Ok? ==> Answers(s, ChunkKey(ChunkVersion(file, s.m.cfg.chunkSize), index), answer.data)
  }

  /** Caching, sharing, hedging, prefetching and cancelling never change what a read returns: a read whose
      chunks were each served in some state of a run, in any order, succeeds only with the exact bytes. */
  lemma RunReadExact(remote: RemoteBytes, run: seq<Sys>, steps: seq<Step>, file: File, offset: int, length: int,
                     refused: Option<Refusal>, served: int -> Result, moment: int -> nat)
    requires IsRun(remote, run, steps) && NumericFsid(file.fsid) && offset >= 0 && length > 0
    requires file.size > 0 ==> offset < file.size
    requires var cfg := run[0].m.cfg;
      forall k :: FirstChunk(cfg, offset) <= k <= LastChunk(cfg, offset, Clamped(file, offset, length)) ==>
        moment(k) < |run| && MayServe(run[moment(k)], file, k, served(k))
    ensures var n := Clamped(file, offset, length);
      var r := ReadSpec(run[0].m.cfg, file, offset, length, refused, served);
      n > 0
      && (r.Data? ==> r == Data(Slice(remote, file.fsid, offset, n)))
      && (r.Data? <==>
           refused == None
           && forall k :: FirstChunk(run[0].m.cfg, offset) <= k <= LastChunk(run[0].m.cfg, offset, n) ==> served(k).Ok?)
  {
    var cfg := run[0].m.cfg;
    var n := Clamped(file, offset, length);
    forall k | FirstChunk(cfg, offset) <= k <= LastChunk(cfg, offset, n) ensures ChunkTrue(remote, cfg, file, k, served(k)) {
      var i := moment(k);
      RunEvolves(remote, run, steps, 0, i);
      assert MayServe(run[i], file, k, served(k));
      ChunkBounds(cfg.chunkSize, offset + n - 1);
      assert ChunkLength(cfg, file, k) > 0 by {
        ChunkOrder(cfg.chunkSize, k, LastChunk(cfg, offset, n));
      }
      if served(k).Ok? {
        AnswersAreTrue(remote, run, steps, i, ChunkKey(ChunkVersion(file, cfg.chunkSize), k), served(k).data);
      }
    }
    ReadExact(remote, cfg, file, offset, length, refused, served);
  }
}

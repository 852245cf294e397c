/** The priority heap of queued tasks, kept in place; every task in it knows its own position. */
module TaskHeap {
  import opened Content
  import opened Naming
  import opened StreamState

  function WithResult(t: TaskState, r: Result): TaskState
  {
    t.(finished := true, closes := t.closes + 1, result := Some(r))
  }

  class Task {
    const id: int
    const key: ChunkKey
    const file: File
    const offset: int
    const length: int
    const epoch: int
    var priority: Priority
    var index: int
    var cancelled: bool
    var started: bool
    var finished: bool
    var closes: nat
    var result: Option<Result>
    var foreground: bool
    var hedged: bool

    /** A task that nobody has started; it is in no heap yet. */
    constructor (id: int, key: ChunkKey, file: File, offset: int, length: int, epoch: int, priority: Priority)
      ensures this.id == id && index == -1
      ensures View() == TaskState(key, file, offset, length, epoch, priority, false, false, false, 0, None, false, false)
    {
      this.id, this.key, this.file, this.offset, this.length, this.epoch := id, key, file, offset, length, epoch;
      this.priority, this.index := priority, -1;
      cancelled, started, finished, closes, result, foreground, hedged := false, false, false, 0, None, false, false;
    }

    /** Publishes the outcome and closes the channel the callers wait on. */
    method Complete(r: Result)
      modifies this`finished, this`closes, this`result
      ensures View() == WithResult(old(View()), r)
    {
      finished := true;
      result := Some(r);
      closes := closes + 1;
    }

    ghost function View(): TaskState
      reads this
    {
      TaskState(key, file, offset, length, epoch, priority, cancelled, started, finished, closes, result, foreground, hedged)
    }
  }

  predicate Less(a: Task, b: Task)
    reads a`priority, b`priority
  {
    if a.priority != b.priority then a.priority < b.priority else a.id < b.id
  }

  function Parent(i: int): int { (i - 1) / 2 }

  class Heap {
    var h: seq<Task>

    constructor ()
      ensures h == []
    {
      h := [];
    }

    /** Each task knows where it is; in particular no task is in the heap twice. */
    ghost predicate Indexed()
      reads this, h`index
    {
      forall i :: 0 <= i < |h| ==> h[i].index == i
    }

    /** The task at c is not below its parent. */
    ghost predicate Edge(c: int)
      requires 0 < c < |h|
      reads this, h`priority
    {
      !Less(h[c], h[Parent(c)])
    }

    ghost predicate Ordered()
      reads this, h`priority
    {
      forall c :: 0 < c < |h| ==> Edge(c)
    }

    ghost predicate Valid()
      reads this, h`index, h`priority
    {
      Indexed() && Ordered()
    }

    ghost function Items(): set<Task>
      reads this
    {
      set t | t in h
    }

    method Swap(i: nat, j: nat)
      requires i < |h| && j < |h| && Indexed()
      modifies this, {h[i], h[j]}`index
      ensures h == old(h)[i := old(h)[j]][j := old(h)[i]]
      ensures Indexed() && Items() == old(Items())
    {
      var a, b := h[i], h[j];
      h := h[i := b][j := a];
      b.index := i;
      a.index := j;
      assert old(h)[i] == h[j] && old(h)[j] == h[i];
      assert forall t :: t in old(h) ==> t in h by {
        forall t | t in old(h) ensures t in h {
          var k :| 0 <= k < |old(h)| && old(h)[k] == t;
          assert h[if k == i then j else if k == j then i else k] == t;
        }
      }
    }

    /** All edges hold but the one above j, and j's children are not below j's parent. */
    ghost predicate UpFrom(j: int)
      reads this, h`priority
    {
      && 0 <= j < |h|
      && (forall c :: 0 < c < |h| && c != j ==> Edge(c))
      && (forall c :: 0 < c < |h| && Parent(c) == j && j > 0 ==> !Less(h[c], h[Parent(j)]))
    }

    method Up(start: nat)
      requires Indexed() && UpFrom(start)
      modifies this, h`index
      ensures Valid() && Items() == old(Items()) && |h| == |old(h)|
    {
      var j: nat := start;
      while true
        invariant Indexed() && UpFrom(j) && Items() == old(Items()) && |h| == |old(h)|
        decreases j
      {
        var i: nat := if j == 0 then 0 else Parent(j);
        if i == j || !Less(h[j], h[i]) {
          break;
        }
        assert h[j] in Items() && h[i] in Items();
        label before:
        Swap(i, j);
        forall c | 0 < c < |h| && c != i ensures Edge(c) {
          if c != j { assert old@before(Edge(c)); }
        }
        forall c | 0 < c < |h| && Parent(c) == i && i > 0 ensures !Less(h[c], h[Parent(i)]) {
          assert old@before(Edge(i)) && (c != j ==> old@before(Edge(c)));
        }
        j := i;
      }
    }

    /** Within the first n tasks all edges hold but those below i, and i's children are not below i's parent. */
    ghost predicate DownFrom(i: int, n: int)
      reads this, h`priority
    {
      && 0 <= i && n <= |h|
      && (forall c :: 0 < c < n && Parent(c) != i ==> c == i || Edge(c))
      && (forall c :: 0 < c < n && Parent(c) == i && i > 0 ==> !Less(h[c], h[Parent(i)]))
    }

    /** Exchanges the task at i with its least child j. */
    method SwapDown(i: nat, j: nat, n: nat)
      requires Indexed() && DownFrom(i, n) && 0 < j < n && Parent(j) == i && Less(h[j], h[i])
      requires forall c :: 0 < c < n && Parent(c) == i ==> !Less(h[c], h[j])
      modifies this, {h[i], h[j]}`index
      ensures Indexed() && DownFrom(j, n) && Edge(j) && (0 < i ==> Edge(i))
      ensures Items() == old(Items()) && h == old(h)[i := old(h)[j]][j := old(h)[i]]
    {
      label before:
      Swap(i, j);
      forall c | 0 < c < n && Parent(c) != j && c != j ensures Edge(c) {
        if Parent(c) != i && c != i { assert old@before(Edge(c)); }
      }
      forall c | 0 < c < n && Parent(c) == j ensures !Less(h[c], h[Parent(j)]) {
        assert old@before(Edge(c));
      }
    }

    method LeastChild(i: nat, n: nat) returns (j: nat)
      requires 2 * i + 1 < n <= |h|
      ensures 0 < j < n && Parent(j) == i
      ensures forall c :: 0 < c < n && Parent(c) == i ==> !Less(h[c], h[j])
    {
      j := 2 * i + 1;
      if j + 1 < n && Less(h[j + 1], h[j]) { j := j + 1; }
      forall c | 0 < c < n && Parent(c) == i ensures !Less(h[c], h[j]) {
        assert c == 2 * i + 1 || c == 2 * i + 2;
      }
    }

    /** What sinking has done when the task from `start` has reached i: nothing yet, or the edges
        above i and above `start` hold. */
    ghost predicate Sunk(start: int, i: int, n: int)
      reads this, h`priority
    {
      && 0 <= start <= i && DownFrom(i, n)
      && (start < i ==> i < n && Edge(i) && (0 < start ==> Edge(start)))
    }

    /** Sinks the task at `start` among the first n tasks; says whether it moved. */
    method Down(start: nat, n: nat) returns (moved: bool)
      requires Indexed() && DownFrom(start, n)
      modifies this, h`index
      ensures Indexed() && Items() == old(Items()) && |h| == |old(h)|
      ensures forall k :: n <= k < |h| ==> h[k] == old(h)[k]
      ensures forall c :: 0 < c < n && c != start ==> Edge(c)
      ensures moved && 0 < start ==> start < |h| && Edge(start)
      ensures !moved ==> h == old(h)
    {
      ghost var was := h;
      var i := start;
      while 2 * i + 1 < n
        invariant Sinking(start, i, n, was)
        decreases n - i
      {
        var j := LeastChild(i, n);
        if !Less(h[j], h[i]) {
          NoChildBelow(i, j, n);
          break;
        }
        assert h[i] in Items() && h[j] in Items();
        SinkOnce(start, i, j, n, was);
        i := j;
      }
      moved := i > start;
    }

    lemma NoChildBelow(i: nat, j: nat, n: nat)
      requires 2 * i + 1 < n <= |h| && 0 < j < n && Parent(j) == i && !Less(h[j], h[i])
      requires forall c :: 0 < c < n && Parent(c) == i ==> !Less(h[c], h[j])
      ensures forall c :: 0 < c < n && Parent(c) == i ==> Edge(c)
    {
    }

    /** Sinking keeps the tasks, and those behind the first n where they are. */
    ghost predicate Sinking(start: int, i: int, n: nat, was: seq<Task>)
      reads this, h`index, h`priority
    {
      && Indexed() && Sunk(start, i, n) && Items() == (set t | t in was) && |h| == |was|
      && (forall k :: n <= k < |h| ==> h[k] == was[k]) && (i == start ==> h == was)
    }

    method SinkOnce(start: nat, i: nat, j: nat, n: nat, ghost was: seq<Task>)
      requires Sinking(start, i, n, was) && 0 < j < n && Parent(j) == i && Less(h[j], h[i])
      requires forall c :: 0 < c < n && Parent(c) == i ==> !Less(h[c], h[j])
      modifies this, {h[i], h[j]}`index
      ensures Sinking(start, j, n, was)
    {
      label before:
      SwapDown(i, j, n);
      if start < i && 0 < start { assert old@before(Edge(start)); }
    }

    // ---------- the operations of a heap ----------

    method Push(t: Task)
      requires Valid() && t !in h
      modifies this, h`index, t`index
      ensures Valid() && Items() == old(Items()) + {t}
    {
      t.index := |h|;
      h := h + [t];
      assert Items() == old(Items()) + {t};
      assert forall c :: 0 < c < |h| - 1 ==> Edge(c) by {
        forall c | 0 < c < |h| - 1 ensures Edge(c) { assert old(Edge(c)); }
      }
      Up(|h| - 1);
    }

    /** The task at the root is the least. */
    lemma {:induction false} RootIsLeast(c: int)
      requires Ordered() && 0 <= c < |h|
      ensures !Less(h[c], h[0])
      decreases c
    {
      if c > 0 {
        RootIsLeast(Parent(c));
        assert Edge(c);
      }
    }

    /** Takes the least task out. */
    method Pop() returns (t: Task)
      requires Valid() && |h| > 0
      modifies this, h`index
      ensures Valid() && t in old(Items()) && t.index == -1 && Items() == old(Items()) - {t} && |h| == |old(h)| - 1
      ensures forall o :: o in old(Items()) ==> !Less(o, t)
    {
      var n := |h| - 1;
      forall o | o in Items() ensures !Less(o, h[0]) {
        var k :| 0 <= k < |h| && h[k] == o;
        RootIsLeast(k);
      }
      label start:
      Swap(0, n);
      forall c | 0 < c < n && Parent(c) != 0 ensures Edge(c) { assert old@start(Edge(c)); }
      var moved := Down(0, n);
      t := h[n];
      label full:
      h := h[..n];
      t.index := -1;
      assert old@full(h) == h + [t];
      forall i | 0 <= i < n ensures h[i] != t { assert old@full(h)[i].index == i; }
      forall c | 0 < c < |h| ensures Edge(c) { assert old@full(Edge(c)); }
    }

    /** Restores the order after the priority of the task at i changed. */
    method Fix(i: nat)
      requires Indexed() && i < |h|
      requires forall c :: 0 < c < |h| && c != i && Parent(c) != i ==> Edge(c)
      requires forall c :: 0 < c < |h| && Parent(c) == i && i > 0 ==> !Less(h[c], h[Parent(i)])
      modifies this, h`index
      ensures Valid() && Items() == old(Items())
    {
      var moved := Down(i, |h|);
      if !moved {
        Up(i);
      }
    }

    /** Makes a task in the heap more urgent and moves it to its new place. */
    method Promote(t: Task, priority: Priority)
      requires Valid() && t in h && priority < t.priority
      modifies this, h`index, t`priority
      ensures Valid() && Items() == old(Items()) && t.priority == priority
    {
      label before:
      assert 0 <= t.index < |h| && h[t.index] == t by {
        var k :| 0 <= k < |h| && h[k] == t;
      }
      t.priority := priority;
      forall c | 0 < c < |h| && c != t.index && Parent(c) != t.index ensures Edge(c) {
        assert old@before(Edge(c));
      }
      forall c | 0 < c < |h| && Parent(c) == t.index && t.index > 0 ensures !Less(h[c], h[Parent(t.index)]) {
        assert old@before(Edge(c)) && old@before(Edge(t.index));
      }
      Fix(t.index);
    }
  }
}

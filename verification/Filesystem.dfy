/** The mounted tree: refreshes its metadata table from the remote store. */
module Filesystem {
  import opened Content
  import opened Paths
  import opened MetadataStore
  import opened MetadataRefresh

  /** Every path a remote tree mentions. */
  ghost function AllPaths(r: Remote): set<string>
  {
    r.tree.Keys + (set d, i | d in r.tree && 0 <= i < |r.tree[d]| :: r.tree[d][i].path)
  }

  lemma {:induction false} UpsertKeys(t: Table, entries: seq<PathRow>, universe: set<string>)
    requires t.Keys <= universe && forall k :: 0 <= k < |entries| ==> entries[k].path in universe
    ensures UpsertAll(t, entries).Keys <= universe
    decreases |entries|
  {
    if entries != [] {
      assert forall k :: 0 <= k < |entries[1..]| ==> entries[1..][k] == entries[k + 1];
      UpsertKeys(t[entries[0].path := entries[0].row], entries[1..], universe);
    }
  }

  predicate Stale(t: Table, path: string) { path in t ==> t[path].expires == 0 }

  /** What refreshing the root makes of the table, and whether it succeeds. */
  function AfterRoot(t: Table, root: string, r: Remote, clock: Clock, faults: Faults): (Table, bool)
  {
    match r.List(root)
    case None => (t, false)
    case Some(entries) =>
      if ROOT_ID in faults.replacing then (t, false)
      else if root in faults.writing then (Replaced(t, ROOT_ID, RootEntries(root, entries, clock)), false)
      else (RefreshedRoot(t, root, entries, clock, root in faults.reading), true)
  }

  /** What refreshing another directory makes of the table, and whether it succeeds. */
  function AfterDir(t: Table, dir: string, fsid: string, r: Remote, clock: Clock, faults: Faults): (Table, bool)
  {
    match r.List(dir)
    case None => (t, false)
    case Some(entries) =>
      if fsid in faults.replacing then (t, false)
      else if dir in faults.writing then (Replaced(t, fsid, DirEntries(fsid, entries, clock)), false)
      else (RefreshedDir(t, dir, fsid, entries, clock, dir in faults.reading), true)
  }

  lemma RefreshedKeys(r: Remote, t: Table, dir: string, fsid: string, clock: Clock, faults: Faults, universe: set<string>)
    requires t.Keys <= universe && dir in universe && AllPaths(r) <= universe
    ensures AfterDir(t, dir, fsid, r, clock, faults).0.Keys <= universe
  {
    if r.List(dir).Some? {
      var entries := r.List(dir).value;
      forall i | 0 <= i < |entries| ensures DirEntries(fsid, entries, clock)[i].path in universe {
        assert r.tree[dir][i].path in AllPaths(r);
      }
      UpsertKeys(WithoutChildren(t, fsid), DirEntries(fsid, entries, clock), universe);
    }
  }

  lemma FewerLeft(universe: set<string>, visited: set<string>, current: string, after: set<string>)
    requires current in universe && current !in visited && visited + {current} <= after
    ensures |universe - after| < |universe - visited|
  {
    SubsetSize(universe - after, universe - visited - {current});
  }

  /** What a descent relies on to end: all paths it can meet are in a finite set. */
  ghost predicate Bounded(r: Remote, t: Table, visited: set<string>, universe: set<string>)
  {
    t.Keys <= universe && AllPaths(r) <= universe && visited <= universe
  }

  /** The children found for a directory that is listed correctly are those of the remote directory. */
  ghost predicate IsChild(r: Remote, current: string, child: PathRow, e: RemoteEntry)
  {
    Lists(r, current, e) && e.path == child.path && e.fsid == child.row.fsid && e.isDir == child.row.isDir
  }

  lemma ListedChildren(r: Remote, root: string, t: Table, current: string, id: string, children: seq<PathRow>)
    requires WellFormed(r, root) && IsDir(r, root, current, id) && DirOk(r, t, current, id)
    requires current in t && t[current].fsid == id
    requires forall c :: c in children <==> c in Listing(t, current)
    ensures forall c :: c in children ==> exists e :: IsChild(r, current, c, e)
    ensures forall e :: Lists(r, current, e) ==> exists c :: c in children && IsChild(r, current, c, e)
  {
    SlashIsRoot(r, root, current, id);
    forall c | c in children ensures exists e :: IsChild(r, current, c, e) {
      assert Listed(r.tree[current], c.path);
      var e :| e in r.tree[current] && e.path == c.path;
      assert IsChild(r, current, c, e);
    }
    forall e | Lists(r, current, e) ensures exists c :: c in children && IsChild(r, current, c, e) {
      assert Matches(t[e.path], e, id);
      var c := PathRow(e.path, t[e.path]);
      assert c in Listing(t, current);
      assert IsChild(r, current, c, e);
    }
  }

  /** The global root can only be the configured root. */
  lemma SlashIsRoot(r: Remote, root: string, current: string, id: string)
    requires WellFormed(r, root) && IsDir(r, root, current, id)
    ensures current == "/" ==> id == ROOT_ID
  {
    if current != root {
      var p, e :| Lists(r, p, e) && e.isDir && e.path == current && e.fsid == id;
      assert EntryOk(r, root, p, e);
      assert |Child(p, e.name)| > 1;
    }
  }

  /** Whatever comes of refreshing the child of a directory being descended into, if its row can be read, no
      listing is spoiled; and if it succeeds, the child is ready in turn. */
  lemma ChildReady(r: Remote, root: string, t: Table, current: string, id: string, e: RemoteEntry, visited: set<string>,
                   clock: Clock, faults: Faults)
    requires WellFormed(r, root) && IsDir(r, root, current, id) && DirOk(r, t, current, id) && RootRow(t, root)
    requires Lists(r, current, e) && e.isDir && forall x :: x in visited ==> !Under(e.path, x)
    ensures IsDir(r, root, e.path, e.fsid) && e.path != "/"
    ensures var (w, ok) := AfterDir(t, e.path, e.fsid, r, clock, faults);
      && (ok <==> e.path !in r.broken && e.fsid !in faults.replacing && e.path !in faults.writing)
      && (e.path !in faults.reading ==> Keeps(r, root, t, w) && RootRow(w, root) && DirOk(r, w, current, id))
      && (e.path !in faults.reading && ok ==> Ready(r, root, w, e.path, e.fsid, visited))
  {
    DirRefreshed(r, root, t, current, id, e, clock);
    DirHalf(r, root, t, current, id, e, clock);
    RootRowKept(r, root, t, current, e, clock);
    ChildKnown(r, root, t, current, id, e);
  }

  /** The visited paths below the first children are not under a later one. */
  lemma LaterChildUnvisited(r: Remote, root: string, current: string, e: RemoteEntry, before: set<string>, visited: set<string>,
                            passed: seq<PathRow>)
    requires WellFormed(r, root) && Lists(r, current, e)
    requires forall x :: x in before ==> !Under(current, x)
    requires forall c :: c in passed ==> c.path != e.path && exists f :: IsChild(r, current, c, f)
    requires forall x :: x in visited ==> x in before || x == current || exists c :: c in passed && Under(c.path, x)
    ensures forall x :: x in visited ==> !Under(e.path, x)
  {
    assert EntryOk(r, root, current, e);
    forall x | x in visited ensures !Under(e.path, x) {
      if Under(e.path, x) {
        UnderChild(current, e.name, x);
        var c :| c in passed && Under(c.path, x);
        var f :| IsChild(r, current, c, f);
        assert EntryOk(r, root, current, f);
        UnderOneChild(current, e.name, f.name, x);
      }
    }
  }

  class Filesystem {
    const root: string
    const store: Store
    /** The refresh token is taken. */
    var refreshing: bool

    constructor (root: string, store: Store)
      ensures this.store == store && this.root == (if root == "" then "/" else root) && !refreshing
    {
      this.root := if root == "" then "/" else root;
      this.store := store;
      refreshing := false;
    }

    /** What the program does before it mounts the tree: the rows of "/" and of the root become stale, so that they are
        listed anew. No listing changes, and a table that shows the tree still does. */
    method ExpireAtStart(ghost r: Remote, faults: Faults) returns (ok: bool)
      modifies store
      ensures ok <==> "/" !in faults.writing && root !in faults.writing
      ensures ok ==> Stale(store.rows, "/") && Stale(store.rows, root)
      ensures store.rows.Keys == old(store.rows.Keys)
      ensures forall d :: Infos(Listing(store.rows, d)) == old(Infos(Listing(store.rows, d)))
      ensures old(ShowsTree(r, root, store.rows)) ==> ShowsTree(r, root, store.rows)
    {
      ghost var t := store.rows;
      ExpiryShowsTheSame(r, root, t, "/");
      ok := store.ExpirePath("/", faults);
      if !ok { return; }
      ExpiryShowsTheSame(r, root, store.rows, root);
      ok := store.ExpirePath(root, faults);
    }

    /** Lists the root and replaces its children; the row of the root is rewritten with the time of its old one. */
    method RefreshRoot(r: Remote, clock: Clock, faults: Faults) returns (ok: bool)
      modifies store
      ensures (store.rows, ok) == AfterRoot(old(store.rows), root, r, clock, faults)
      ensures WellFormed(r, root) && ok ==>
        RowsWritten(store.rows, r.tree[root], ROOT_ID, clock)
        && root in store.rows && store.rows[root].lastSync == clock.now && store.rows[root].expires == clock.now + clock.ttl
    {
      if WellFormed(r, root) { RootWrites(r, root, store.rows, clock, root in faults.reading); }
      var entries := r.List(root);
      if entries.None? { return false; }
      var mapped := MapRoot(entries.value, clock);
      ok := store.ReplaceChildren(ROOT_ID, mapped, faults);
      if !ok { return; }
      var mtime := ExistingMTime(root, faults);
      ok := store.UpsertEntry(PathRow(root, Row(ROOT_ID, "", "", 0, true, mtime, "", clock.now, clock.now + clock.ttl)), faults);
    }

    method MapRoot(entries: seq<RemoteEntry>, clock: Clock) returns (mapped: seq<PathRow>)
      ensures mapped == RootEntries(root, entries, clock)
    {
      mapped := [];
      var i := 0;
      while i < |entries|
        invariant 0 <= i <= |entries| && mapped == RootEntries(root, entries[..i], clock)
      {
        var e := entries[i];
        var relative := TrimRootPrefix(root, e.path);
        if relative == "" { relative := e.name; }
        if relative != "" && relative[0] != '/' { relative := "/" + relative; }
        assert entries[..i + 1] == entries[..i] + [e];
        mapped := mapped + [PathRow(Join(root, relative), RowOf(e, ROOT_ID, clock))];
        i := i + 1;
      }
      assert entries[..i] == entries;
    }

    method ExistingMTime(path: string, faults: Faults) returns (mtime: int)
      ensures mtime == MTime(store.rows, path, path in faults.reading)
    {
      var ok, row := store.GetByPath(path, faults);
      mtime := if row.None? then 0 else row.value.mtime;
    }

    /** Lists a directory and replaces the rows kept under its identifier; its own row keeps its parent, if it can
        be read. */
    method RefreshDir(dir: string, fsid: string, r: Remote, clock: Clock, faults: Faults) returns (ok: bool)
      modifies store
      ensures (store.rows, ok) == AfterDir(old(store.rows), dir, fsid, r, clock, faults)
      ensures WellFormed(r, root) && dir in r.tree && ok ==>
        RowsWritten(store.rows, r.tree[dir], fsid, clock)
        && dir in store.rows && store.rows[dir].lastSync == clock.now && store.rows[dir].expires == clock.now + clock.ttl
    {
      if WellFormed(r, root) && dir in r.tree { DirWrites(r, root, store.rows, dir, fsid, clock, dir in faults.reading); }
      var entries := r.List(dir);
      if entries.None? { return false; }
      ok := store.ReplaceChildren(fsid, DirEntries(fsid, entries.value, clock), faults);
      if !ok { return; }
      var parent := ROOT_ID;
      var readable, row := store.GetByPath(dir, faults);
      if readable && row.Some? && row.value.parent != "" { parent := row.value.parent; }
      var mtime := ExistingMTime(dir, faults);
      ok := store.UpsertEntry(
        PathRow(dir, Row(fsid, parent, Base(dir), 0, true, mtime, "", clock.now, clock.now + clock.ttl)), faults);
    }

    /** Refreshes one directory found in the table and descends into it. */
    method RefreshChild(child: PathRow, r: Remote, clock: Clock, faults: Faults, visited: set<string>, ghost universe: set<string>,
                        ghost current: string, ghost id: string, ghost e: RemoteEntry)
      returns (ok: bool, after: set<string>)
      requires Bounded(r, store.rows, visited, universe) && child.path in universe
      modifies store
      ensures Bounded(r, store.rows, after, universe) && visited <= after
      ensures ChildGood(r, root, old(store.rows), current, id, child, e, visited) ==> (ok <==> AllSmooth(r, root, faults, child.path))
      ensures ChildGood(r, root, old(store.rows), current, id, child, e, visited) && (ok || faults.reading == {}) ==>
        Descended(r, root, old(store.rows), store.rows, child.path, visited, after) && DirOk(r, store.rows, current, id)
      ensures ChildGood(r, root, old(store.rows), current, id, child, e, visited) && ok ==> Done(r, root, store.rows, child.path)
      decreases |universe - visited|, 1
    {
      after := visited;
      ghost var t, good := store.rows, ChildGood(r, root, store.rows, current, id, child, e, visited);
      RefreshedKeys(r, t, child.path, child.row.fsid, clock, faults, universe);
      if good {
        ChildReady(r, root, t, current, id, e, visited, clock, faults);
        SmoothBelow(r, root, faults, e.path, e.fsid);
        assert !Under(e.path, e.path) || e.path !in visited;
      }
      ok := RefreshDir(child.path, child.row.fsid, r, clock, faults);
      if !ok { return; }
      ok, after := RefreshKnownDirectories(child.path, child.row.fsid, r, clock, faults, visited, universe);
    }

    /** Descends from a directory whose own rows are fresh. */
    method RefreshKnownDirectories(current: string, ghost id: string, r: Remote, clock: Clock, faults: Faults,
                                   visited: set<string>, ghost universe: set<string>) returns (ok: bool, after: set<string>)
      requires Bounded(r, store.rows, visited, universe) && current in universe
      modifies store
      ensures Bounded(r, store.rows, after, universe) && visited <= after
      ensures current !in visited && current != "/" && current in faults.reading ==> !ok
      ensures Ready(r, root, old(store.rows), current, id, visited) ==> (ok <==> BelowSmooth(r, root, faults, current))
      ensures Ready(r, root, old(store.rows), current, id, visited) && (ok || faults.reading == {}) ==>
        Descended(r, root, old(store.rows), store.rows, current, visited, after)
      ensures Ready(r, root, old(store.rows), current, id, visited) && ok ==> Done(r, root, store.rows, current)
      decreases |universe - visited|, 0
    {
      after := visited;
      if current in visited { return true, after; }
      after := after + {current};
      var children;
      ok, children := store.ListChildren(current, faults);
      if !ok { return; }
      ghost var good, t := Ready(r, root, store.rows, current, id, visited), store.rows;
      StartDescent(r, root, faults, universe, good, t, current, id, visited, after, children);
      var i := 0;
      while i < |children|
        invariant 0 <= i <= |children| && visited <= after
        invariant Descending(r, root, faults, universe, good, t, store.rows, current, id, visited, after, children, i)
      {
        FewerLeft(universe, visited, current, after);
        ok, after := VisitChild(children, i, r, clock, faults, after, universe, good, current, id, t, visited);
        if !ok { return; }
        i := i + 1;
      }
      if good { EndDescent(r, root, faults, universe, t, store.rows, current, id, visited, after, children); }
      ok := true;
    }

    /** Deals with one child: a directory is refreshed and descended into, a file is left alone. */
    method VisitChild(children: seq<PathRow>, i: nat, r: Remote, clock: Clock, faults: Faults, visited: set<string>,
                      ghost universe: set<string>, ghost good: bool, ghost current: string, ghost id: string,
                      ghost before: Table, ghost first: set<string>)
      returns (ok: bool, after: set<string>)
      requires i < |children|
      requires Descending(r, root, faults, universe, good, before, store.rows, current, id, first, visited, children, i)
      modifies store
      ensures Bounded(r, store.rows, after, universe) && visited <= after
      ensures ok ==> Descending(r, root, faults, universe, good, before, store.rows, current, id, first, after, children, i + 1)
      ensures good && !ok ==> !BelowSmooth(r, root, faults, current)
      ensures good && !ok && faults.reading == {} ==> Descended(r, root, before, store.rows, current, first, after)
      decreases |universe - visited|, 2
    {
      after := visited;
      ghost var t := store.rows;
      if !children[i].row.isDir {
        PassFile(r, root, faults, universe, good, before, t, current, id, first, visited, children, i);
        return true, after;
      }
      ghost var e := RemoteEntry("", "", "", 0, false, 0, "");
      assert children[i].path in universe;
      if good { e := GoingOn(r, root, before, t, current, id, first, visited, children, i); }
      ok, after := RefreshChild(children[i], r, clock, faults, visited, universe, current, id, e);
      if good && (ok || faults.reading == {}) {
        DescendedSoFar(r, root, before, t, store.rows, current, first, visited, after, children, children[i]);
      }
      if ok {
        PassDirectory(r, root, faults, universe, good, before, t, store.rows, current, id, first, visited, after, children, i);
      } else if good {
        RoughChild(r, root, faults, current, children, i);
        if faults.reading == {} { ChildrenSoFar(r, root, before, store.rows, current, first, after, children); }
      }
    }

    /** Refreshes the root and then everything below it; does nothing while another refresh is under way. On a
        well-formed tree it succeeds exactly if nothing stands in the way of any directory of the tree, and then
        the table shows the tree; and even if it fails no correct listing is spoiled, as long as rows can be read. */
    method RefreshAll(r: Remote, clock: Clock, faults: Faults) returns (ok: bool)
      modifies this`refreshing, store
      ensures refreshing == old(refreshing)
      ensures old(refreshing) ==> ok && store.rows == old(store.rows)
      ensures WellFormed(r, root) && !old(refreshing) ==> (ok <==> AllSmooth(r, root, faults, root))
      ensures WellFormed(r, root) && !old(refreshing) && ok ==> ShowsTree(r, root, store.rows)
      ensures WellFormed(r, root) && !old(refreshing) && (ok || faults.reading == {}) ==> Keeps(r, root, old(store.rows), store.rows)
    {
      if refreshing { return true; }
      refreshing := true;
      ghost var t := store.rows;
      ok := RefreshRoot(r, clock, faults);
      if WellFormed(r, root) {
        SmoothBelow(r, root, faults, root, ROOT_ID);
        RootReady(r, root, t, clock, faults);
      }
      if ok {
        ghost var universe := store.rows.Keys + AllPaths(r) + {root};
        var visited;
        ok, visited := RefreshKnownDirectories(root, ROOT_ID, r, clock, faults, {}, universe);
        if WellFormed(r, root) && ok { DoneShowsTree(r, root, store.rows); }
      }
      refreshing := false;
    }
  }

  /** Whatever comes of refreshing the root, no listing is spoiled; and if it succeeds, the root is ready. */
  lemma RootReady(r: Remote, root: string, t: Table, clock: Clock, faults: Faults)
    requires WellFormed(r, root)
    ensures var (w, ok) := AfterRoot(t, root, r, clock, faults);
      && (ok <==> root !in r.broken && ROOT_ID !in faults.replacing && root !in faults.writing)
      && Keeps(r, root, t, w) && (ok ==> Ready(r, root, w, root, ROOT_ID, {}))
  {
    RootRefreshed(r, root, t, clock, root in faults.reading);
    RootHalf(r, root, t, clock);
  }

  // ---------- when a descent succeeds ----------

  /** The directory can be listed in the table, and nothing stands in the way below it. */
  ghost predicate BelowSmooth(r: Remote, root: string, faults: Faults, current: string)
  {
    && current !in faults.listing && (current != "/" ==> current !in faults.reading)
    && forall e :: Lists(r, current, e) && e.isDir ==> AllSmooth(r, root, faults, e.path)
  }

  /** Nothing stood in the way of the first i children. */
  ghost predicate SmoothTo(r: Remote, root: string, faults: Faults, children: seq<PathRow>, i: nat)
    requires i <= |children|
  {
    forall k :: 0 <= k < i && children[k].row.isDir ==> AllSmooth(r, root, faults, children[k].path)
  }

  lemma RoughChild(r: Remote, root: string, faults: Faults, current: string, children: seq<PathRow>, i: nat)
    requires i < |children| && children[i].row.isDir && !AllSmooth(r, root, faults, children[i].path)
    requires forall c :: c in children ==> exists e :: IsChild(r, current, c, e)
    ensures !BelowSmooth(r, root, faults, current)
  {
    assert children[i] in children;
    var e :| IsChild(r, current, children[i], e);
    assert Lists(r, current, e) && e.isDir && e.path == children[i].path;
  }

  lemma SmoothChildren(r: Remote, root: string, faults: Faults, current: string, children: seq<PathRow>)
    requires SmoothTo(r, root, faults, children, |children|)
    requires forall e :: Lists(r, current, e) ==> exists c :: c in children && IsChild(r, current, c, e)
    requires current !in faults.listing && (current != "/" ==> current !in faults.reading)
    ensures BelowSmooth(r, root, faults, current)
  {
    forall e | Lists(r, current, e) && e.isDir ensures AllSmooth(r, root, faults, e.path) {
      var c :| c in children && IsChild(r, current, c, e);
      var k :| 0 <= k < |children| && children[k] == c;
    }
  }

  // ---------- the loop over the children of a directory ----------

  /** The first i children have been dealt with. */
  ghost predicate Progress(r: Remote, root: string, before: Table, t: Table, current: string, id: string, visited: set<string>,
                           after: set<string>, children: seq<PathRow>, i: nat)
    requires i <= |children|
  {
    && Keeps(r, root, before, t) && RootRow(t, root) && DirOk(r, t, current, id)
    && (forall x :: x in after ==> x in visited || x == current || exists c :: c in children[..i] && Under(c.path, x))
    && (forall k :: 0 <= k < i && children[k].row.isDir ==> Done(r, root, t, children[k].path))
  }

  /** What holds after any child, even one that could not be refreshed. */
  ghost predicate SoFar(r: Remote, root: string, before: Table, t: Table, current: string, visited: set<string>,
                        after: set<string>, children: seq<PathRow>)
  {
    && Keeps(r, root, before, t) && RootRow(t, root)
    && forall x :: x in after ==> x in visited || x == current || exists c :: c in children && Under(c.path, x)
  }

  lemma ProgressSoFar(r: Remote, root: string, before: Table, t: Table, current: string, id: string, visited: set<string>,
                      after: set<string>, children: seq<PathRow>, i: nat)
    requires i <= |children| && Progress(r, root, before, t, current, id, visited, after, children, i)
    ensures SoFar(r, root, before, t, current, visited, after, children)
  {
    forall x | x in after && x !in visited && x != current ensures exists c :: c in children && Under(c.path, x) {
      var c :| c in children[..i] && Under(c.path, x);
      assert c in children;
    }
  }

  lemma DescendedSoFar(r: Remote, root: string, before: Table, t: Table, u: Table, current: string, visited: set<string>,
                       middle: set<string>, after: set<string>, children: seq<PathRow>, child: PathRow)
    requires SoFar(r, root, before, t, current, visited, middle, children) && child in children
    requires Descended(r, root, t, u, child.path, middle, after)
    ensures SoFar(r, root, before, u, current, visited, after, children)
  {
  }

  /** All that was visited below the children of a directory lies below the directory. */
  lemma ChildrenSoFar(r: Remote, root: string, before: Table, t: Table, current: string, visited: set<string>,
                      after: set<string>, children: seq<PathRow>)
    requires SoFar(r, root, before, t, current, visited, after, children) && WellFormed(r, root)
    requires forall c :: c in children ==> exists e :: IsChild(r, current, c, e)
    ensures Descended(r, root, before, t, current, visited, after)
  {
    forall x | x in after ensures x in visited || Under(current, x) {
      if x !in visited && x != current {
        var c :| c in children && Under(c.path, x);
        var e :| IsChild(r, current, c, e);
        assert EntryOk(r, root, current, e);
        UnderChild(current, e.name, x);
      }
    }
  }

  lemma ProgressStep(r: Remote, root: string, before: Table, t: Table, u: Table, current: string, id: string, visited: set<string>,
                     middle: set<string>, after: set<string>, children: seq<PathRow>, i: nat)
    requires i < |children| && Progress(r, root, before, t, current, id, visited, middle, children, i)
    requires Descended(r, root, t, u, children[i].path, middle, after) && DirOk(r, u, current, id)
    requires Done(r, root, u, children[i].path)
    ensures Progress(r, root, before, u, current, id, visited, after, children, i + 1)
  {
    assert children[..i + 1] == children[..i] + [children[i]];
    forall k | 0 <= k < i + 1 && children[k].row.isDir ensures Done(r, root, u, children[k].path) {
      if k < i { DoneKept(r, root, t, u, children[k].path); }
    }
    forall x | x in after ensures x in visited || x == current || exists c :: c in children[..i + 1] && Under(c.path, x) {
      if x !in middle { assert children[i] in children[..i + 1]; }
    }
  }

  lemma ProgressFile(r: Remote, root: string, before: Table, t: Table, current: string, id: string, visited: set<string>,
                     after: set<string>, children: seq<PathRow>, i: nat)
    requires i < |children| && Progress(r, root, before, t, current, id, visited, after, children, i) && !children[i].row.isDir
    ensures Progress(r, root, before, t, current, id, visited, after, children, i + 1)
  {
    assert children[..i + 1] == children[..i] + [children[i]];
  }

  /** A descent from a directory that was ready, between two children. */
  ghost predicate Going(r: Remote, root: string, before: Table, t: Table, current: string, id: string, visited: set<string>,
                        after: set<string>, children: seq<PathRow>, i: nat)
    requires i <= |children|
  {
    && WellFormed(r, root) && IsDir(r, root, current, id) && (forall x :: x in visited ==> !Under(current, x))
    && AllKnown(r, current, children) && Progress(r, root, before, t, current, id, visited, after, children, i)
  }

  /** The rows found are those of the remote directory. */
  ghost predicate AllKnown(r: Remote, current: string, children: seq<PathRow>)
  {
    && (forall c :: c in children ==> exists e :: IsChild(r, current, c, e))
    && (forall e :: Lists(r, current, e) ==> exists c :: c in children && IsChild(r, current, c, e))
  }

  /** Between two children of any descent. */
  ghost predicate Descending(r: Remote, root: string, faults: Faults, universe: set<string>, good: bool, before: Table, t: Table,
                             current: string, id: string, visited: set<string>, after: set<string>, children: seq<PathRow>, i: nat)
    requires i <= |children|
  {
    && DistinctPaths(children) && (forall k :: 0 <= k < |children| ==> children[k].path in universe)
    && Bounded(r, t, after, universe) && visited + {current} <= after
    && (good ==> Going(r, root, before, t, current, id, visited, after, children, i) && SmoothTo(r, root, faults, children, i)
                 && current !in faults.listing && (current != "/" ==> current !in faults.reading))
  }

  lemma StartDescent(r: Remote, root: string, faults: Faults, universe: set<string>, good: bool, t: Table, current: string,
                     id: string, visited: set<string>, after: set<string>, children: seq<PathRow>)
    requires Bounded(r, t, visited, universe) && current in universe && after == visited + {current}
    requires DistinctPaths(children) && forall c :: c in children ==> c.path in t
    requires current !in faults.listing && (current != "/" ==> current !in faults.reading)
    requires current in t ==> forall c :: c in children <==> c in Listing(t, current)
    requires good ==> Ready(r, root, t, current, id, visited)
    ensures Descending(r, root, faults, universe, good, t, t, current, id, visited, after, children, 0)
  {
    forall k | 0 <= k < |children| ensures children[k].path in universe { assert children[k] in children; }
    if good { ListedChildren(r, root, t, current, id, children); }
  }

  lemma EndDescent(r: Remote, root: string, faults: Faults, universe: set<string>, before: Table, t: Table, current: string,
                   id: string, visited: set<string>, after: set<string>, children: seq<PathRow>)
    requires Descending(r, root, faults, universe, true, before, t, current, id, visited, after, children, |children|)
    ensures Descended(r, root, before, t, current, visited, after) && Done(r, root, t, current)
    ensures BelowSmooth(r, root, faults, current)
  {
    AllChildrenDone(r, root, before, t, current, id, visited, after, children);
    SmoothChildren(r, root, faults, current, children);
  }

  lemma PassFile(r: Remote, root: string, faults: Faults, universe: set<string>, good: bool, before: Table, t: Table,
                 current: string, id: string, visited: set<string>, after: set<string>, children: seq<PathRow>, i: nat)
    requires i < |children| && !children[i].row.isDir
    requires Descending(r, root, faults, universe, good, before, t, current, id, visited, after, children, i)
    ensures Descending(r, root, faults, universe, good, before, t, current, id, visited, after, children, i + 1)
  {
    if good { ProgressFile(r, root, before, t, current, id, visited, after, children, i); }
  }

  lemma PassDirectory(r: Remote, root: string, faults: Faults, universe: set<string>, good: bool, before: Table, t: Table, u: Table,
                      current: string, id: string, visited: set<string>, middle: set<string>, after: set<string>,
                      children: seq<PathRow>, i: nat)
    requires i < |children| && Bounded(r, u, after, universe) && middle <= after
    requires Descending(r, root, faults, universe, good, before, t, current, id, visited, middle, children, i)
    requires good ==> Descended(r, root, t, u, children[i].path, middle, after) && DirOk(r, u, current, id)
    requires good ==> Done(r, root, u, children[i].path) && AllSmooth(r, root, faults, children[i].path)
    ensures Descending(r, root, faults, universe, good, before, u, current, id, visited, after, children, i + 1)
  {
    if good { ProgressStep(r, root, before, t, u, current, id, visited, middle, after, children, i); }
  }

  lemma GoingOn(r: Remote, root: string, before: Table, t: Table, current: string, id: string, visited: set<string>,
                after: set<string>, children: seq<PathRow>, i: nat) returns (e: RemoteEntry)
    requires i < |children| && DistinctPaths(children) && children[i].row.isDir
    requires Going(r, root, before, t, current, id, visited, after, children, i)
    ensures ChildGood(r, root, t, current, id, children[i], e, after)
    ensures SoFar(r, root, before, t, current, visited, after, children)
    ensures WellFormed(r, root) && AllKnown(r, current, children)
  {
    ProgressSoFar(r, root, before, t, current, id, visited, after, children, i);
    e := NextChild(r, root, before, t, current, id, visited, after, children, i);
  }

  /** A child about to be refreshed in a descent from a directory that was ready. */
  ghost predicate ChildGood(r: Remote, root: string, t: Table, current: string, id: string, child: PathRow, e: RemoteEntry,
                            visited: set<string>)
  {
    && WellFormed(r, root) && IsDir(r, root, current, id) && DirOk(r, t, current, id) && RootRow(t, root)
    && IsChild(r, current, child, e) && e.isDir && forall x :: x in visited ==> !Under(e.path, x)
  }

  /** The next child to descend into has not been visited. */
  lemma NextChild(r: Remote, root: string, before: Table, t: Table, current: string, id: string, visited: set<string>,
                  after: set<string>, children: seq<PathRow>, i: nat) returns (e: RemoteEntry)
    requires i < |children| && Progress(r, root, before, t, current, id, visited, after, children, i) && DistinctPaths(children)
    requires WellFormed(r, root) && forall x :: x in visited ==> !Under(current, x)
    requires forall c :: c in children ==> exists f :: IsChild(r, current, c, f)
    ensures IsChild(r, current, children[i], e) && forall x :: x in after ==> !Under(e.path, x)
  {
    assert children[i] in children;
    e :| IsChild(r, current, children[i], e);
    forall c | c in children[..i] ensures c.path != e.path && exists f :: IsChild(r, current, c, f) {
      var k :| 0 <= k < i && children[k] == c;
      assert c in children;
    }
    LaterChildUnvisited(r, root, current, e, visited, after, children[..i]);
  }

  lemma AllChildrenDone(r: Remote, root: string, before: Table, t: Table, current: string, id: string, visited: set<string>,
                        after: set<string>, children: seq<PathRow>)
    requires Progress(r, root, before, t, current, id, visited, after, children, |children|)
    requires WellFormed(r, root) && IsDir(r, root, current, id)
    requires forall c :: c in children ==> exists e :: IsChild(r, current, c, e)
    requires forall e :: Lists(r, current, e) ==> exists c :: c in children && IsChild(r, current, c, e)
    ensures Descended(r, root, before, t, current, visited, after) && Done(r, root, t, current)
  {
    forall e | Lists(r, current, e) && e.isDir ensures Done(r, root, t, e.path) {
      var c :| c in children && IsChild(r, current, c, e);
      var k :| 0 <= k < |children| && children[k] == c;
    }
    DoneFromChildren(r, root, t, current, id);
    ProgressSoFar(r, root, before, t, current, id, visited, after, children, |children|);
    ChildrenSoFar(r, root, before, t, current, visited, after, children);
  }
}

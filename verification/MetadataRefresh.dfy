/** Refreshing the metadata table from the remote tree, one directory at a time, starting at the root. */
module MetadataRefresh {
  import opened Content
  import opened Paths
  import opened MetadataStore

  datatype RemoteEntry = RemoteEntry(fsid: string, path: string, name: string, size: int, isDir: bool, mtime: int, md5: string)

  /** A static remote tree: the listing of each directory, and the directories that cannot be listed. */
  datatype Remote = Remote(tree: map<string, seq<RemoteEntry>>, broken: set<string>)
  {
    function List(path: string): Option<seq<RemoteEntry>>
    {
      if path in broken then None else if path in tree then Some(tree[path]) else Some([])
    }
  }

  /** What the clock says, and how long a listing stays fresh. */
  datatype Clock = Clock(now: int, ttl: int)

  function ChildExpires(clock: Clock, isDir: bool): int { if isDir then 0 else clock.now + clock.ttl }

  predicate HasPrefix(s: string, prefix: string) { |prefix| <= |s| && s[..|prefix|] == prefix }

  function TrimRootPrefix(root: string, path: string): string
  {
    if root == "" || root == "/" then path
    else if path == root then ""
    else if HasPrefix(path, root + "/") then path[|root|..]
    else path
  }

  /** Where an entry of the root directory is kept. */
  function LocalPath(root: string, e: RemoteEntry): string
  {
    var trimmed := TrimRootPrefix(root, e.path);
    var relative := if trimmed == "" then e.name else trimmed;
    Join(root, if relative != "" && relative[0] != '/' then "/" + relative else relative)
  }

  function RowOf(e: RemoteEntry, parent: string, clock: Clock): Row
  {
    Row(e.fsid, parent, e.name, e.size, e.isDir, e.mtime, e.md5, clock.now, ChildExpires(clock, e.isDir))
  }

  function RootEntries(root: string, entries: seq<RemoteEntry>, clock: Clock): (r: seq<PathRow>)
    ensures |r| == |entries|
  {
    seq(|entries|, i requires 0 <= i < |entries| => PathRow(LocalPath(root, entries[i]), RowOf(entries[i], ROOT_ID, clock)))
  }

  function DirEntries(fsid: string, entries: seq<RemoteEntry>, clock: Clock): (r: seq<PathRow>)
    ensures |r| == |entries|
  {
    seq(|entries|, i requires 0 <= i < |entries| => PathRow(entries[i].path, RowOf(entries[i], fsid, clock)))
  }

  function MTime(t: Table, path: string, unread: bool): int { if !unread && path in t then t[path].mtime else 0 }

  /** The parent to write into the row of a path: the old one, unless there is none or it cannot be read. */
  function ParentOr(t: Table, path: string, unread: bool): string
  {
    if !unread && path in t && t[path].parent != "" then t[path].parent else ROOT_ID
  }

  /** The table after refreshing the root; `unread` says that the row of the root could not be read. */
  function RefreshedRoot(t: Table, root: string, entries: seq<RemoteEntry>, clock: Clock, unread: bool): Table
  {
    var u := Replaced(t, ROOT_ID, RootEntries(root, entries, clock));
    u[root := Row(ROOT_ID, "", "", 0, true, MTime(u, root, unread), "", clock.now, clock.now + clock.ttl)]
  }

  /** The table after refreshing another directory. */
  function RefreshedDir(t: Table, dir: string, fsid: string, entries: seq<RemoteEntry>, clock: Clock, unread: bool): Table
  {
    var u := Replaced(t, fsid, DirEntries(fsid, entries, clock));
    u[dir := Row(fsid, ParentOr(u, dir, unread), Base(dir), 0, true, MTime(u, dir, unread), "", clock.now, clock.now + clock.ttl)]
  }

  // ---------- well-formed trees ----------

  ghost predicate Lists(r: Remote, dir: string, e: RemoteEntry) { dir in r.tree && e in r.tree[dir] }

  ghost predicate EntryOk(r: Remote, root: string, dir: string, e: RemoteEntry)
  {
    && ValidName(e.name) && e.path == Child(dir, e.name) && e.path != root
    && e.fsid != "" && e.fsid != ROOT_ID
    && (e.isDir ==> e.path in r.tree)
  }

  /** Every entry has a proper name, lies in its directory, and has an identifier of its own. */
  ghost predicate WellFormed(r: Remote, root: string)
  {
    && Normal(root) && root in r.tree && "" !in r.tree
    && (forall d, e :: Lists(r, d, e) ==> EntryOk(r, root, d, e))
    && (forall d, i, j :: d in r.tree && 0 <= i < j < |r.tree[d]| ==> r.tree[d][i].name != r.tree[d][j].name)
    && (forall d, e, f, x :: Lists(r, d, e) && Lists(r, f, x) && e.fsid == x.fsid ==> e.path == x.path)
  }

  /** The identifier under which the children of a directory are kept. */
  ghost predicate IsDir(r: Remote, root: string, dir: string, id: string)
  {
    if dir == root then id == ROOT_ID else exists p, e :: Lists(r, p, e) && e.isDir && e.path == dir && e.fsid == id
  }

  // ---------- what a good listing is ----------

  /** The row says of the entry what the remote store does; size and checksum of a directory are not shown. */
  ghost predicate Matches(row: Row, e: RemoteEntry, id: string)
  {
    && row.fsid == e.fsid && row.name == e.name && row.isDir == e.isDir && row.parent == id && row.mtime == e.mtime
    && (!e.isDir ==> row.size == e.size && row.md5 == e.md5)
  }

  ghost predicate Listed(entries: seq<RemoteEntry>, path: string) { exists e :: e in entries && e.path == path }

  /** The rows with this parent are exactly those of the entries. */
  ghost predicate ListingOk(t: Table, entries: seq<RemoteEntry>, id: string)
  {
    && (forall e :: e in entries ==> e.path in t && Matches(t[e.path], e, id))
    && (forall p :: p in t && t[p].parent == id ==> Listed(entries, p))
  }

  ghost predicate DirOk(r: Remote, t: Table, dir: string, id: string)
  {
    dir in r.tree && ListingOk(t, r.tree[dir], id)
  }

  /** Whatever directory was listed correctly still is. */
  ghost predicate Keeps(r: Remote, root: string, t: Table, u: Table)
  {
    forall d, id :: IsDir(r, root, d, id) && DirOk(r, t, d, id) ==> DirOk(r, u, d, id)
  }

  ghost predicate RootRow(t: Table, root: string) { root in t && t[root].fsid == ROOT_ID && t[root].parent == "" }

  // ---------- facts about well-formed trees ----------

  lemma SamePathSameDir(r: Remote, root: string, d: string, e: RemoteEntry, f: string, x: RemoteEntry)
    requires WellFormed(r, root) && Lists(r, d, e) && Lists(r, f, x) && e.path == x.path
    ensures d == f && e.name == x.name && e == x
  {
    assert EntryOk(r, root, d, e) && EntryOk(r, root, f, x);
    ChildInjective(d, e.name, f, x.name);
    var i :| 0 <= i < |r.tree[d]| && r.tree[d][i] == e;
    var j :| 0 <= j < |r.tree[d]| && r.tree[d][j] == x;
    assert i == j;
  }

  lemma SameIdSameDir(r: Remote, root: string, d: string, f: string, id: string)
    requires WellFormed(r, root) && IsDir(r, root, d, id) && IsDir(r, root, f, id)
    ensures d == f
  {
    if d != root { var p, e :| Lists(r, p, e) && e.isDir && e.path == d && e.fsid == id; assert EntryOk(r, root, p, e); }
    if f != root { var p, e :| Lists(r, p, e) && e.isDir && e.path == f && e.fsid == id; assert EntryOk(r, root, p, e); }
  }

  lemma IdNonempty(r: Remote, root: string, d: string, id: string)
    requires WellFormed(r, root) && IsDir(r, root, d, id)
    ensures id != "" && d in r.tree && (d != root <==> id != ROOT_ID)
  {
    if d != root { var p, e :| Lists(r, p, e) && e.isDir && e.path == d && e.fsid == id; assert EntryOk(r, root, p, e); }
  }

  lemma LocalPathIsPath(r: Remote, root: string, e: RemoteEntry)
    requires WellFormed(r, root) && Lists(r, root, e)
    ensures LocalPath(root, e) == e.path
  {
    assert EntryOk(r, root, root, e);
    JoinChild(root, e.name);
    if root != "/" {
      assert e.path == root + "/" + e.name;
      assert e.path[..|root + "/"|] == root + "/";
      assert e.path[|root|..] == "/" + e.name;
    }
  }

  // ---------- one refresh ----------

  /** The entries written for a directory: one row for each of its remote entries, at that entry's path. */
  ghost predicate Writes(written: seq<PathRow>, entries: seq<RemoteEntry>, id: string)
  {
    && |written| == |entries|
    && forall i :: 0 <= i < |entries| ==> written[i].path == entries[i].path && Matches(written[i].row, entries[i], id)
  }

  lemma WrittenPaths(r: Remote, root: string, d: string, written: seq<PathRow>, id: string)
    requires WellFormed(r, root) && d in r.tree && Writes(written, r.tree[d], id)
    ensures DistinctPaths(written)
    ensures forall p :: HasPath(written, p) <==> Listed(r.tree[d], p)
  {
    var entries := r.tree[d];
    forall i, j | 0 <= i < j < |written| ensures written[i].path != written[j].path {
      assert Lists(r, d, entries[i]) && Lists(r, d, entries[j]);
      assert EntryOk(r, root, d, entries[i]) && EntryOk(r, root, d, entries[j]);
      assert entries[i].name != entries[j].name;
      if entries[i].path == entries[j].path { ChildInjective(d, entries[i].name, d, entries[j].name); }
    }
    forall p ensures HasPath(written, p) <==> Listed(entries, p) {
      if HasPath(written, p) {
        var k :| 0 <= k < |written| && written[k].path == p;
        assert entries[k] in entries;
      }
      if Listed(entries, p) {
        var e :| e in entries && e.path == p;
        var k :| 0 <= k < |entries| && entries[k] == e;
        assert written[k].path == p;
      }
    }
  }

  /** What replacing the children of a directory leaves at a path. */
  lemma ReplacedAt(r: Remote, root: string, t: Table, d: string, written: seq<PathRow>, id: string, p: string)
    requires WellFormed(r, root) && d in r.tree && Writes(written, r.tree[d], id)
    ensures var u := Replaced(t, id, written);
      && (!Listed(r.tree[d], p) ==> (p in u <==> p in t && t[p].parent != id) && (p in u ==> u[p] == t[p]))
      && (forall e :: e in r.tree[d] && e.path == p ==> p in u && Matches(u[p], e, id))
      && (Listed(r.tree[d], p) ==> p in u && u[p].parent == id)
  {
    var u := Replaced(t, id, written);
    var rest := WithoutChildren(t, id);
    WrittenPaths(r, root, d, written, id);
    if !Listed(r.tree[d], p) { UpsertElsewhere(rest, written, p); }
    forall e | e in r.tree[d] && e.path == p ensures p in u && Matches(u[p], e, id) {
      var i :| 0 <= i < |r.tree[d]| && r.tree[d][i] == e;
      UpsertThere(rest, written, i);
    }
  }

  /** The directory's own row is not touched by writing its children. */
  lemma OwnPathNotListed(r: Remote, root: string, d: string)
    requires WellFormed(r, root) && d in r.tree
    ensures !Listed(r.tree[d], d)
  {
    if Listed(r.tree[d], d) {
      var e :| e in r.tree[d] && e.path == d;
      assert Lists(r, d, e) && EntryOk(r, root, d, e);
      ChildBelow(d, e.name);
    }
  }

  /** The tables agree except perhaps at one path. */
  ghost predicate Apart(u: Table, w: Table, d: string)
  {
    forall p :: p != d ==> (p in w <==> p in u) && (p in u ==> w[p] == u[p])
  }

  /** After the children were replaced, and whatever happened to the directory's own row as long as that is not
      its own child, the directory is listed correctly. */
  lemma SelfListed(r: Remote, root: string, t: Table, d: string, written: seq<PathRow>, id: string, w: Table)
    requires WellFormed(r, root) && d in r.tree && Writes(written, r.tree[d], id)
    requires Apart(Replaced(t, id, written), w, d) && (d in w ==> w[d].parent != id)
    ensures DirOk(r, w, d, id)
  {
    var u := Replaced(t, id, written);
    OwnPathNotListed(r, root, d);
    forall e | e in r.tree[d] ensures e.path in w && Matches(w[e.path], e, id) {
      ReplacedAt(r, root, t, d, written, id, e.path);
      assert Listed(r.tree[d], e.path);
    }
    forall p | p in w && w[p].parent == id ensures Listed(r.tree[d], p) {
      ReplacedAt(r, root, t, d, written, id, p);
    }
  }

  /** Writing the children of one directory leaves the listing of any other as it was. */
  lemma OtherListed(r: Remote, root: string, t: Table, d: string, written: seq<PathRow>, id: string, w: Table, f: string, other: string)
    requires WellFormed(r, root) && d in r.tree && Writes(written, r.tree[d], id)
    requires IsDir(r, root, d, id) && IsDir(r, root, f, other) && f != d && DirOk(r, t, f, other)
    requires Apart(Replaced(t, id, written), w, d) && (d in w && w[d].parent == other ==> Listed(r.tree[f], d))
    requires forall e :: e in r.tree[f] && e.path == d ==> d in w && Matches(w[d], e, other)
    ensures DirOk(r, w, f, other)
  {
    var u := Replaced(t, id, written);
    assert id != other by { if id == other { SameIdSameDir(r, root, d, f, id); } }
    forall e | e in r.tree[f] ensures e.path in w && Matches(w[e.path], e, other) {
      NotListedTwice(r, root, d, f, e);
      ReplacedAt(r, root, t, d, written, id, e.path);
    }
    forall p | p in w && w[p].parent == other ensures Listed(r.tree[f], p) {
      ReplacedAt(r, root, t, d, written, id, p);
    }
  }

  lemma NotListedTwice(r: Remote, root: string, d: string, f: string, e: RemoteEntry)
    requires WellFormed(r, root) && d in r.tree && f in r.tree && d != f && e in r.tree[f]
    ensures !Listed(r.tree[d], e.path)
  {
    if Listed(r.tree[d], e.path) {
      var x :| x in r.tree[d] && x.path == e.path;
      SamePathSameDir(r, root, d, x, f, e);
    }
  }

  lemma SameDirSameId(r: Remote, root: string, d: string, id: string, other: string)
    requires WellFormed(r, root) && IsDir(r, root, d, id) && IsDir(r, root, d, other)
    ensures id == other
  {
    if d != root {
      var p, e :| Lists(r, p, e) && e.isDir && e.path == d && e.fsid == id;
      var q, x :| Lists(r, q, x) && x.isDir && x.path == d && x.fsid == other;
      SamePathSameDir(r, root, p, e, q, x);
    }
  }

  /** Once the root's children are written, whether or not its own row is, the root is listed correctly, whatever
      the table was, and no other listing is spoiled. */
  lemma RootWritten(r: Remote, root: string, t: Table, clock: Clock, w: Table)
    requires WellFormed(r, root) && Apart(Replaced(t, ROOT_ID, RootEntries(root, r.tree[root], clock)), w, root)
    requires root in w ==> w[root].parent == "" || (root in t && w[root] == t[root] && t[root].parent != ROOT_ID)
    ensures DirOk(r, w, root, ROOT_ID) && Keeps(r, root, t, w)
  {
    var written := RootEntries(root, r.tree[root], clock);
    forall i | 0 <= i < |written| ensures written[i].path == r.tree[root][i].path {
      assert Lists(r, root, r.tree[root][i]);
      LocalPathIsPath(r, root, r.tree[root][i]);
    }
    SelfListed(r, root, t, root, written, ROOT_ID, w);
    forall f, other | IsDir(r, root, f, other) && DirOk(r, t, f, other) ensures DirOk(r, w, f, other) {
      if f == root {
        SameDirSameId(r, root, f, other, ROOT_ID);
      } else {
        IdNonempty(r, root, f, other);
        forall e | e in r.tree[f] ensures e.path != root { assert Lists(r, f, e) && EntryOk(r, root, f, e); }
        OtherListed(r, root, t, root, written, ROOT_ID, w, f, other);
      }
    }
  }

  /** Refreshing the root lists it correctly, whatever the table was, and spoils no other listing. */
  lemma RootRefreshed(r: Remote, root: string, t: Table, clock: Clock, unread: bool)
    requires WellFormed(r, root)
    ensures var w := RefreshedRoot(t, root, r.tree[root], clock, unread);
      DirOk(r, w, root, ROOT_ID) && RootRow(w, root) && Keeps(r, root, t, w)
  {
    RootWritten(r, root, t, clock, RefreshedRoot(t, root, r.tree[root], clock, unread));
  }

  /** Even if the row of the root cannot be written in the end, no listing is spoiled. */
  lemma RootHalf(r: Remote, root: string, t: Table, clock: Clock)
    requires WellFormed(r, root)
    ensures Keeps(r, root, t, Replaced(t, ROOT_ID, RootEntries(root, r.tree[root], clock)))
  {
    var written := RootEntries(root, r.tree[root], clock);
    forall i | 0 <= i < |written| ensures written[i].path == r.tree[root][i].path {
      assert Lists(r, root, r.tree[root][i]);
      LocalPathIsPath(r, root, r.tree[root][i]);
    }
    OwnPathNotListed(r, root, root);
    ReplacedAt(r, root, t, root, written, ROOT_ID, root);
    RootWritten(r, root, t, clock, Replaced(t, ROOT_ID, written));
  }

  // ---------- what a refresh writes, field by field ----------

  /** Every entry has a row with its own fields, read now; a file's is good for the time of a listing, a directory's is
      stale, so that it is listed when it is first entered. */
  ghost predicate RowsWritten(t: Table, entries: seq<RemoteEntry>, id: string, clock: Clock)
  {
    forall e :: e in entries ==>
      e.path in t && t[e.path] == Row(e.fsid, id, e.name, e.size, e.isDir, e.mtime, e.md5, clock.now,
                                      if e.isDir then 0 else clock.now + clock.ttl)
  }

  lemma DirWrites(r: Remote, root: string, t: Table, dir: string, fsid: string, clock: Clock, unread: bool)
    requires WellFormed(r, root) && dir in r.tree
    ensures var w := RefreshedDir(t, dir, fsid, r.tree[dir], clock, unread);
      && RowsWritten(w, r.tree[dir], fsid, clock)
      && dir in w && w[dir].fsid == fsid && w[dir].isDir && w[dir].name == Base(dir) && w[dir].size == 0 && w[dir].md5 == ""
      && w[dir].lastSync == clock.now && w[dir].expires == clock.now + clock.ttl
      && (unread ==> w[dir].parent == ROOT_ID && w[dir].mtime == 0)
      && (!unread && dir in t && t[dir].parent != fsid && t[dir].parent != "" ==> w[dir].parent == t[dir].parent)
      && (!unread && dir in t && t[dir].parent != fsid ==> w[dir].mtime == t[dir].mtime)
  {
    var written := DirEntries(fsid, r.tree[dir], clock);
    WritesLaw(r, root, t, dir, written, fsid, clock);
    OwnPathNotListed(r, root, dir);
    ReplacedAt(r, root, t, dir, written, fsid, dir);
  }

  lemma RootWrites(r: Remote, root: string, t: Table, clock: Clock, unread: bool)
    requires WellFormed(r, root)
    ensures var w := RefreshedRoot(t, root, r.tree[root], clock, unread);
      && RowsWritten(w, r.tree[root], ROOT_ID, clock)
      && root in w && w[root].fsid == ROOT_ID && w[root].isDir && w[root].name == "" && w[root].parent == ""
      && w[root].size == 0 && w[root].md5 == "" && w[root].lastSync == clock.now && w[root].expires == clock.now + clock.ttl
      && (unread ==> w[root].mtime == 0)
      && (!unread && root in t && t[root].parent != ROOT_ID ==> w[root].mtime == t[root].mtime)
  {
    var written := RootEntries(root, r.tree[root], clock);
    forall i | 0 <= i < |written| ensures written[i].path == r.tree[root][i].path {
      assert Lists(r, root, r.tree[root][i]);
      LocalPathIsPath(r, root, r.tree[root][i]);
    }
    WritesLaw(r, root, t, root, written, ROOT_ID, clock);
    OwnPathNotListed(r, root, root);
    ReplacedAt(r, root, t, root, written, ROOT_ID, root);
  }

  /** Rows at the paths of the entries are there after the children are replaced. */
  lemma WritesLaw(r: Remote, root: string, t: Table, d: string, written: seq<PathRow>, id: string, clock: Clock)
    requires WellFormed(r, root) && d in r.tree && |written| == |r.tree[d]| && Writes(written, r.tree[d], id)
    requires forall i :: 0 <= i < |written| ==> written[i].row == RowOf(r.tree[d][i], id, clock)
    ensures RowsWritten(Replaced(t, id, written), r.tree[d], id, clock)
  {
    WrittenPaths(r, root, d, written, id);
    forall e | e in r.tree[d]
      ensures e.path in Replaced(t, id, written) && Replaced(t, id, written)[e.path] == RowOf(e, id, clock) {
      var i :| 0 <= i < |r.tree[d]| && r.tree[d][i] == e;
      UpsertThere(WithoutChildren(t, id), written, i);
    }
  }

  /** The row of a directory whose parent is listed correctly survives the writing of its children. */
  lemma OwnRow(r: Remote, root: string, t: Table, p: string, pid: string, e: RemoteEntry, clock: Clock)
    requires WellFormed(r, root) && Lists(r, p, e) && e.isDir && IsDir(r, root, p, pid) && DirOk(r, t, p, pid)
    ensures IsDir(r, root, e.path, e.fsid) && e.path in r.tree && e.path != p && pid != e.fsid && pid != ""
    ensures Base(e.path) == e.name
    ensures var u := Replaced(t, e.fsid, DirEntries(e.fsid, r.tree[e.path], clock));
      e.path in u && Matches(u[e.path], e, pid)
  {
    assert EntryOk(r, root, p, e);
    ChildBelow(p, e.name);
    ChildBase(p, e.name);
    IdNonempty(r, root, p, pid);
    if pid == e.fsid { SameIdSameDir(r, root, p, e.path, pid); }
    var written := DirEntries(e.fsid, r.tree[e.path], clock);
    OwnPathNotListed(r, root, e.path);
    ReplacedAt(r, root, t, e.path, written, e.fsid, e.path);
    assert Matches(t[e.path], e, pid);
  }

  /** Once a directory's children are written and its own row still fits its parent's listing, it is listed
      correctly and no listing is spoiled. */
  lemma DirWritten(r: Remote, root: string, t: Table, p: string, pid: string, e: RemoteEntry, clock: Clock, w: Table)
    requires WellFormed(r, root) && Lists(r, p, e) && e.isDir && IsDir(r, root, p, pid) && DirOk(r, t, p, pid)
    requires e.path in r.tree && Apart(Replaced(t, e.fsid, DirEntries(e.fsid, r.tree[e.path], clock)), w, e.path)
    requires e.path in w && Matches(w[e.path], e, pid)
    ensures DirOk(r, w, e.path, e.fsid) && Keeps(r, root, t, w)
  {
    OwnRow(r, root, t, p, pid, e, clock);
    var d, id := e.path, e.fsid;
    var written := DirEntries(id, r.tree[d], clock);
    SelfListed(r, root, t, d, written, id, w);
    forall f, other | IsDir(r, root, f, other) && DirOk(r, t, f, other) ensures DirOk(r, w, f, other) {
      if f == d {
        SameDirSameId(r, root, f, other, id);
      } else {
        OwnRowFits(r, root, p, pid, e, w[d], f, other);
        OtherListed(r, root, t, d, written, id, w, f, other);
      }
    }
  }

  /** Refreshing a directory whose parent is listed correctly lists it correctly and spoils no listing. */
  lemma DirRefreshed(r: Remote, root: string, t: Table, p: string, pid: string, e: RemoteEntry, clock: Clock)
    requires WellFormed(r, root) && Lists(r, p, e) && e.isDir && IsDir(r, root, p, pid) && DirOk(r, t, p, pid)
    ensures IsDir(r, root, e.path, e.fsid) && e.path in r.tree
    ensures var w := RefreshedDir(t, e.path, e.fsid, r.tree[e.path], clock, false);
      DirOk(r, w, e.path, e.fsid) && Keeps(r, root, t, w)
  {
    OwnRow(r, root, t, p, pid, e, clock);
    DirWritten(r, root, t, p, pid, e, clock, RefreshedDir(t, e.path, e.fsid, r.tree[e.path], clock, false));
  }

  /** Even if the row of the directory cannot be written in the end, no listing is spoiled. */
  lemma DirHalf(r: Remote, root: string, t: Table, p: string, pid: string, e: RemoteEntry, clock: Clock)
    requires WellFormed(r, root) && Lists(r, p, e) && e.isDir && IsDir(r, root, p, pid) && DirOk(r, t, p, pid)
    ensures e.path in r.tree && Keeps(r, root, t, Replaced(t, e.fsid, DirEntries(e.fsid, r.tree[e.path], clock)))
  {
    OwnRow(r, root, t, p, pid, e, clock);
    DirWritten(r, root, t, p, pid, e, clock, Replaced(t, e.fsid, DirEntries(e.fsid, r.tree[e.path], clock)));
  }

  /** If the directory's own row cannot be read, its parent and its modification time are forgotten and the refresh
      puts it below the root. The listing of the parent stays correct if and only if the row was read, or the parent
      is the root and the directory has no modification time. */
  lemma UnreadRowMovesDirectory(r: Remote, root: string, t: Table, p: string, pid: string, e: RemoteEntry, clock: Clock, unread: bool)
    requires WellFormed(r, root) && Lists(r, p, e) && e.isDir && IsDir(r, root, p, pid) && DirOk(r, t, p, pid)
    ensures e.path in r.tree
    ensures var w := RefreshedDir(t, e.path, e.fsid, r.tree[e.path], clock, unread);
      DirOk(r, w, p, pid) <==> !unread || (p == root && e.mtime == 0)
  {
    OwnRow(r, root, t, p, pid, e, clock);
    IdNonempty(r, root, p, pid);
    var w := RefreshedDir(t, e.path, e.fsid, r.tree[e.path], clock, unread);
    if !unread || (p == root && e.mtime == 0) {
      DirWritten(r, root, t, p, pid, e, clock, w);
    } else {
      assert w[e.path].parent == ROOT_ID && w[e.path].mtime == 0 && !Matches(w[e.path], e, pid);
    }
  }

  /** A row that matches an entry fits the listing of every directory. */
  lemma OwnRowFits(r: Remote, root: string, p: string, pid: string, e: RemoteEntry, own: Row, f: string, other: string)
    requires WellFormed(r, root) && Lists(r, p, e) && IsDir(r, root, p, pid) && IsDir(r, root, f, other) && f in r.tree
    requires Matches(own, e, pid)
    ensures own.parent == other ==> Listed(r.tree[f], e.path)
    ensures forall x :: x in r.tree[f] && x.path == e.path ==> Matches(own, x, other)
  {
    if own.parent == other { SameIdSameDir(r, root, p, f, other); }
    forall x | x in r.tree[f] && x.path == e.path ensures Matches(own, x, other) {
      assert Lists(r, f, x);
      SamePathSameDir(r, root, f, x, p, e);
      SameDirSameId(r, root, p, pid, other);
    }
  }

  /** A refresh of another directory, complete or not, leaves the row of the root. */
  lemma RootRowKept(r: Remote, root: string, t: Table, p: string, e: RemoteEntry, clock: Clock)
    requires WellFormed(r, root) && Lists(r, p, e) && e.isDir && RootRow(t, root)
    ensures e.path in r.tree
    ensures RootRow(RefreshedDir(t, e.path, e.fsid, r.tree[e.path], clock, false), root)
    ensures RootRow(Replaced(t, e.fsid, DirEntries(e.fsid, r.tree[e.path], clock)), root)
  {
    assert EntryOk(r, root, p, e);
    var entries := r.tree[e.path];
    forall x | x in entries ensures x.path != root { assert Lists(r, e.path, x) && EntryOk(r, root, e.path, x); }
    ReplacedAt(r, root, t, e.path, DirEntries(e.fsid, entries, clock), e.fsid, root);
  }

  // ---------- the whole tree ----------

  /** d is n directories below `from`. */
  ghost predicate Reaches(r: Remote, from: string, d: string, n: nat)
    decreases n
  {
    if n == 0 then from == d else exists e :: Lists(r, from, e) && e.isDir && Reaches(r, e.path, d, n - 1)
  }

  /** Every directory at or below this one is listed correctly. */
  ghost predicate Done(r: Remote, root: string, t: Table, from: string)
  {
    forall d, id, n: nat :: Reaches(r, from, d, n) && IsDir(r, root, d, id) ==> DirOk(r, t, d, id)
  }

  lemma DoneKept(r: Remote, root: string, t: Table, u: Table, from: string)
    requires Done(r, root, t, from) && Keeps(r, root, t, u)
    ensures Done(r, root, u, from)
  {
  }

  lemma DoneFromChildren(r: Remote, root: string, t: Table, from: string, id: string)
    requires WellFormed(r, root) && IsDir(r, root, from, id) && DirOk(r, t, from, id)
    requires forall e :: Lists(r, from, e) && e.isDir ==> Done(r, root, t, e.path)
    ensures Done(r, root, t, from)
  {
    forall d, other, n: nat | Reaches(r, from, d, n) && IsDir(r, root, d, other) ensures DirOk(r, t, d, other) {
      if n == 0 {
        SameDirSameId(r, root, d, id, other);
      } else {
        var e :| Lists(r, from, e) && e.isDir && Reaches(r, e.path, d, n - 1);
        assert Done(r, root, t, e.path);
      }
    }
  }

  // ---------- when a refresh succeeds ----------

  /** Nothing stands in the way of refreshing a directory and descending into it. */
  ghost predicate Smooth(r: Remote, faults: Faults, d: string, id: string)
  {
    && d !in r.broken && id !in faults.replacing && d !in faults.writing && d !in faults.listing
    && (d != "/" ==> d !in faults.reading)
  }

  /** Nothing stands in the way of refreshing any directory at or below this one. */
  ghost predicate AllSmooth(r: Remote, root: string, faults: Faults, from: string)
  {
    forall d, id, n: nat :: Reaches(r, from, d, n) && IsDir(r, root, d, id) ==> Smooth(r, faults, d, id)
  }

  lemma SmoothBelow(r: Remote, root: string, faults: Faults, from: string, id: string)
    requires WellFormed(r, root) && IsDir(r, root, from, id)
    ensures AllSmooth(r, root, faults, from) <==>
      Smooth(r, faults, from, id) && forall e :: Lists(r, from, e) && e.isDir ==> AllSmooth(r, root, faults, e.path)
  {
    if AllSmooth(r, root, faults, from) {
      assert Reaches(r, from, from, 0);
      forall e | Lists(r, from, e) && e.isDir ensures AllSmooth(r, root, faults, e.path) {
        forall d, other, n: nat | Reaches(r, e.path, d, n) && IsDir(r, root, d, other) ensures Smooth(r, faults, d, other) {
          assert Reaches(r, from, d, n + 1);
        }
      }
    }
    if Smooth(r, faults, from, id) && forall e :: Lists(r, from, e) && e.isDir ==> AllSmooth(r, root, faults, e.path) {
      forall d, other, n: nat | Reaches(r, from, d, n) && IsDir(r, root, d, other) ensures Smooth(r, faults, d, other) {
        if n == 0 {
          SameDirSameId(r, root, d, id, other);
        } else {
          var e :| Lists(r, from, e) && e.isDir && Reaches(r, e.path, d, n - 1);
          assert AllSmooth(r, root, faults, e.path);
        }
      }
    }
  }

  /** A directory that is about to be descended into: listed correctly, known under its identifier, and
      nothing at or below it visited yet. */
  ghost predicate Ready(r: Remote, root: string, t: Table, current: string, id: string, visited: set<string>)
  {
    && WellFormed(r, root) && IsDir(r, root, current, id) && DirOk(r, t, current, id) && RootRow(t, root)
    && current in t && t[current].fsid == id
    && forall x :: x in visited ==> !Under(current, x)
  }

  /** What the descent into a directory has done. */
  ghost predicate Descended(r: Remote, root: string, t: Table, u: Table, current: string, before: set<string>, after: set<string>)
  {
    && Keeps(r, root, t, u) && RootRow(u, root)
    && forall x :: x in after ==> x in before || Under(current, x)
  }

  // ---------- what a reader of the table sees ----------

  datatype Info = Info(fsid: string, path: string, name: string, isDir: bool, size: int, mtime: int, md5: string)

  /** What a listing shows of a row: of a directory neither size nor checksum. */
  function InfoOf(e: PathRow): Info
  {
    Info(e.row.fsid, e.path, e.row.name, e.row.isDir, if e.row.isDir then 0 else e.row.size, e.row.mtime,
         if e.row.isDir then "" else e.row.md5)
  }

  function Infos(entries: set<PathRow>): set<Info> { set e | e in entries :: InfoOf(e) }

  function RemoteInfo(e: RemoteEntry): Info
  {
    Info(e.fsid, e.path, e.name, e.isDir, if e.isDir then 0 else e.size, e.mtime, if e.isDir then "" else e.md5)
  }

  function RemoteInfos(entries: seq<RemoteEntry>): set<Info> { set e | e in entries :: RemoteInfo(e) }

  /** Every directory of the remote tree is listed in the table as it is remotely. */
  ghost predicate ShowsTree(r: Remote, root: string, t: Table)
  {
    forall d, n: nat :: Reaches(r, root, d, n) ==> d in r.tree && Infos(Listing(t, d)) == RemoteInfos(r.tree[d])
  }

  lemma ListingMatches(r: Remote, t: Table, d: string, id: string)
    requires DirOk(r, t, d, id)
    ensures Infos(ChildrenOf(t, id)) == RemoteInfos(r.tree[d])
  {
    forall i ensures i in Infos(ChildrenOf(t, id)) <==> i in RemoteInfos(r.tree[d]) {
      if i in Infos(ChildrenOf(t, id)) {
        var c :| c in ChildrenOf(t, id) && InfoOf(c) == i;
        assert Listed(r.tree[d], c.path);
        var e :| e in r.tree[d] && e.path == c.path;
        assert Matches(t[e.path], e, id) && RemoteInfo(e) == i;
      }
      if i in RemoteInfos(r.tree[d]) {
        var e :| e in r.tree[d] && RemoteInfo(e) == i;
        assert Matches(t[e.path], e, id);
        var c := PathRow(e.path, t[e.path]);
        assert c in ChildrenOf(t, id) && InfoOf(c) == i;
      }
    }
  }

  /** The last step to a directory below `from`. */
  lemma {:induction false} LastStep(r: Remote, from: string, d: string, n: nat) returns (p: string, e: RemoteEntry)
    requires n > 0 && Reaches(r, from, d, n)
    ensures Reaches(r, from, p, n - 1) && Lists(r, p, e) && e.isDir && e.path == d
    decreases n
  {
    var x :| Lists(r, from, x) && x.isDir && Reaches(r, x.path, d, n - 1);
    if n == 1 {
      p, e := from, x;
    } else {
      p, e := LastStep(r, x.path, d, n - 1);
    }
  }

  /** A reachable directory has an identifier, and the table knows it by that. */
  lemma {:induction false} ReachedIsDir(r: Remote, root: string, t: Table, d: string, n: nat) returns (id: string)
    requires WellFormed(r, root) && RootRow(t, root) && Done(r, root, t, root) && Reaches(r, root, d, n)
    ensures IsDir(r, root, d, id) && DirOk(r, t, d, id) && d in t && t[d].fsid == id && (d == "/" ==> id == ROOT_ID)
    decreases n
  {
    if n == 0 {
      id := ROOT_ID;
    } else {
      var p, e := LastStep(r, root, d, n);
      var pid := ReachedIsDir(r, root, t, p, n - 1);
      id := e.fsid;
      ChildKnown(r, root, t, p, pid, e);
    }
    DoneAt(r, root, t, d, n, id);
  }

  lemma DoneAt(r: Remote, root: string, t: Table, d: string, n: nat, id: string)
    requires Done(r, root, t, root) && Reaches(r, root, d, n) && IsDir(r, root, d, id)
    ensures DirOk(r, t, d, id)
  {
  }

  lemma ChildKnown(r: Remote, root: string, t: Table, p: string, pid: string, e: RemoteEntry)
    requires WellFormed(r, root) && DirOk(r, t, p, pid) && Lists(r, p, e) && e.isDir
    ensures IsDir(r, root, e.path, e.fsid) && e.path in t && t[e.path].fsid == e.fsid && e.path != "/"
  {
    assert EntryOk(r, root, p, e) && Matches(t[e.path], e, pid);
    assert |Child(p, e.name)| > 1;
  }

  /** A table that has been refreshed from the root down mirrors the remote tree. */
  lemma DoneShowsTree(r: Remote, root: string, t: Table)
    requires WellFormed(r, root) && RootRow(t, root) && Done(r, root, t, root)
    ensures ShowsTree(r, root, t)
  {
    forall d, n: nat | Reaches(r, root, d, n) ensures d in r.tree && Infos(Listing(t, d)) == RemoteInfos(r.tree[d]) {
      var id := ReachedIsDir(r, root, t, d, n);
      ListingMatches(r, t, d, id);
    }
  }

  /** Making a row stale changes no listing. */
  lemma ExpiryShowsTheSame(r: Remote, root: string, t: Table, path: string)
    ensures forall d :: Infos(Listing(Expired(t, path), d)) == Infos(Listing(t, d))
    ensures ShowsTree(r, root, t) ==> ShowsTree(r, root, Expired(t, path))
  {
    var u := Expired(t, path);
    forall d ensures Infos(Listing(u, d)) == Infos(Listing(t, d)) {
      var q := if d == "/" then ROOT_ID else if d in t then t[d].fsid else "";
      forall i ensures i in Infos(ChildrenOf(u, q)) <==> i in Infos(ChildrenOf(t, q)) {
        if i in Infos(ChildrenOf(u, q)) {
          var c :| c in ChildrenOf(u, q) && InfoOf(c) == i;
          assert PathRow(c.path, t[c.path]) in ChildrenOf(t, q) && InfoOf(PathRow(c.path, t[c.path])) == i;
        }
        if i in Infos(ChildrenOf(t, q)) {
          var c :| c in ChildrenOf(t, q) && InfoOf(c) == i;
          assert PathRow(c.path, u[c.path]) in ChildrenOf(u, q) && InfoOf(PathRow(c.path, u[c.path])) == i;
        }
      }
    }
  }
}

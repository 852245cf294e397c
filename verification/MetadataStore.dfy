/** The metadata table: one row for each path, found again by the file identifier of its parent. */
module MetadataStore {
  import opened Content

  datatype Row = Row(
    fsid: string, parent: string, name: string, size: int, isDir: bool, mtime: int, md5: string, lastSync: int, expires: int)

  datatype PathRow = PathRow(path: string, row: Row)

  type Table = map<string, Row>

  const ROOT_ID := "0"

  function UpsertAll(t: Table, entries: seq<PathRow>): Table
    decreases |entries|
  {
    if entries == [] then t else UpsertAll(t[entries[0].path := entries[0].row], entries[1..])
  }

  function WithoutChildren(t: Table, parent: string): Table
  {
    map p | p in t && t[p].parent != parent :: t[p]
  }

  function Replaced(t: Table, parent: string, entries: seq<PathRow>): Table
  {
    UpsertAll(WithoutChildren(t, parent), entries)
  }

  function ChildrenOf(t: Table, parent: string): set<PathRow>
  {
    set p | p in t && t[p].parent == parent :: PathRow(p, t[p])
  }

  /** The rows below a path: the global root is its own identifier, any other path needs a row. */
  function Listing(t: Table, path: string): set<PathRow>
  {
    if path == "/" then ChildrenOf(t, ROOT_ID)
    else if path in t then ChildrenOf(t, t[path].fsid)
    else {}
  }

  lemma {:induction false} UpsertSnoc(t: Table, entries: seq<PathRow>, e: PathRow)
    ensures UpsertAll(t, entries + [e]) == UpsertAll(t, entries)[e.path := e.row]
    decreases |entries|
  {
    if entries == [] {
      assert [e][1..] == [] && [] + [e] == [e];
    } else {
      assert (entries + [e])[1..] == entries[1..] + [e];
      UpsertSnoc(t[entries[0].path := entries[0].row], entries[1..], e);
    }
  }

  /** Some entry has this path. */
  predicate HasPath(entries: seq<PathRow>, path: string) { exists k :: 0 <= k < |entries| && entries[k].path == path }

  ghost predicate DistinctPaths(entries: seq<PathRow>)
  {
    forall i, j :: 0 <= i < j < |entries| ==> entries[i].path != entries[j].path
  }

  /** Rows at other paths stay. */
  lemma {:induction false} UpsertElsewhere(t: Table, entries: seq<PathRow>, path: string)
    requires !HasPath(entries, path)
    ensures path in UpsertAll(t, entries) <==> path in t
    ensures path in t ==> UpsertAll(t, entries)[path] == t[path]
    decreases |entries|
  {
    if entries != [] {
      assert entries[0].path != path;
      assert forall k :: 0 <= k < |entries[1..]| ==> entries[1..][k] == entries[k + 1];
      UpsertElsewhere(t[entries[0].path := entries[0].row], entries[1..], path);
    }
  }

  /** Entries with different paths are all there. */
  lemma {:induction false} UpsertThere(t: Table, entries: seq<PathRow>, i: nat)
    requires DistinctPaths(entries) && i < |entries|
    ensures entries[i].path in UpsertAll(t, entries) && UpsertAll(t, entries)[entries[i].path] == entries[i].row
    decreases |entries|
  {
    var rest := entries[1..];
    assert forall k :: 0 <= k < |rest| ==> rest[k] == entries[k + 1];
    if i == 0 {
      UpsertElsewhere(t[entries[0].path := entries[0].row], rest, entries[0].path);
    } else {
      UpsertThere(t[entries[0].path := entries[0].row], rest, i - 1);
    }
  }

  /** The children of q once the row is written. */
  function WithRow(children: set<PathRow>, e: PathRow, q: string): set<PathRow>
  {
    (set c | c in children && c.path != e.path) + (if q == e.row.parent then {e} else {})
  }

  lemma UpsertListing(t: Table, e: PathRow, q: string)
    ensures ChildrenOf(t[e.path := e.row], q) == WithRow(ChildrenOf(t, q), e, q)
  {
    var u := t[e.path := e.row];
    forall c ensures c in ChildrenOf(u, q) <==> c in WithRow(ChildrenOf(t, q), e, q) {
      assert c in ChildrenOf(u, q) <==> c.path in u && u[c.path] == c.row && c.row.parent == q;
    }
  }

  // ---------- names in order ----------

  predicate NameLeq(a: string, b: string)
  {
    a == "" || (b != "" && (a[0] < b[0] || (a[0] == b[0] && NameLeq(a[1..], b[1..]))))
  }

  lemma {:induction false} NamesTotal(a: string, b: string)
    ensures NameLeq(a, b) || NameLeq(b, a)
  {
    if a != "" && b != "" && a[0] == b[0] { NamesTotal(a[1..], b[1..]); }
  }

  lemma {:induction false} NamesTransitive(a: string, b: string, c: string)
    requires NameLeq(a, b) && NameLeq(b, c)
    ensures NameLeq(a, c)
  {
    if a != "" && a[0] == b[0] && b[0] == c[0] { NamesTransitive(a[1..], b[1..], c[1..]); }
  }

  ghost predicate ByName(rows: seq<PathRow>)
  {
    forall i, j :: 0 <= i < j < |rows| ==> NameLeq(rows[i].row.name, rows[j].row.name)
  }

  /** Puts a row behind those whose names do not come after its own. */
  function InsertByName(rows: seq<PathRow>, e: PathRow): (r: seq<PathRow>)
    ensures |r| == |rows| + 1
  {
    if rows == [] || !NameLeq(rows[0].row.name, e.row.name) then [e] + rows
    else [rows[0]] + InsertByName(rows[1..], e)
  }

  lemma {:induction false} InsertHas(rows: seq<PathRow>, e: PathRow, x: PathRow)
    ensures x in InsertByName(rows, e) <==> x == e || x in rows
  {
    if rows != [] && NameLeq(rows[0].row.name, e.row.name) {
      InsertHas(rows[1..], e, x);
      assert rows == [rows[0]] + rows[1..];
    }
  }

  lemma {:induction false} InsertSorts(rows: seq<PathRow>, e: PathRow)
    requires ByName(rows)
    ensures ByName(InsertByName(rows, e))
  {
    var r := InsertByName(rows, e);
    if rows == [] {
    } else if !NameLeq(rows[0].row.name, e.row.name) {
      NamesTotal(rows[0].row.name, e.row.name);
      forall j | 1 <= j < |r| ensures NameLeq(e.row.name, r[j].row.name) {
        if j > 1 { NamesTransitive(e.row.name, rows[0].row.name, rows[j - 1].row.name); }
      }
    } else {
      InsertSorts(rows[1..], e);
      forall j | 1 <= j < |r| ensures NameLeq(rows[0].row.name, r[j].row.name) {
        InsertHas(rows[1..], e, r[j]);
        if r[j] != e { var k :| 0 <= k < |rows[1..]| && rows[1..][k] == r[j]; assert rows[k + 1] == r[j]; }
      }
    }
  }

  lemma {:induction false} InsertDistinct(rows: seq<PathRow>, e: PathRow)
    requires DistinctPaths(rows) && forall x :: x in rows ==> x.path != e.path
    ensures DistinctPaths(InsertByName(rows, e))
  {
    if rows != [] && NameLeq(rows[0].row.name, e.row.name) {
      var rest := rows[1..];
      assert forall x :: x in rest ==> x in rows;
      InsertDistinct(rest, e);
      var r := InsertByName(rest, e);
      assert rows[0] in rows;
      forall j | 0 <= j < |r| ensures r[j].path != rows[0].path {
        InsertHas(rest, e, r[j]);
        if r[j] != e { var k :| 0 <= k < |rest| && rest[k] == r[j]; assert rows[k + 1] == r[j]; }
      }
    } else {
      forall j | 0 <= j < |rows| ensures rows[j].path != e.path { assert rows[j] in rows; }
    }
  }

  // ---------- the store ----------

  /** What the database refuses: replacements of the children of some parents, each at one of its statements;
      writing the row of some paths; listing, and reading the row of, some paths. */
  datatype Faults = Faults(replacing: map<string, nat>, writing: set<string>, listing: set<string>, reading: set<string>)

  class Store {
    var rows: Table

    constructor ()
      ensures rows == map[]
    {
      rows := map[];
    }

    /** The row leaves the listing it was in and enters that of its parent; no other listing changes. */
    method UpsertEntry(e: PathRow, faults: Faults) returns (ok: bool)
      modifies this
      ensures ok <==> e.path !in faults.writing
      ensures rows == if ok then old(rows)[e.path := e.row] else old(rows)
      ensures ok ==> forall q :: ChildrenOf(rows, q) == WithRow(ChildrenOf(old(rows), q), e, q)
    {
      if e.path in faults.writing { return false; }
      forall q ensures ChildrenOf(rows[e.path := e.row], q) == WithRow(ChildrenOf(rows, q), e, q) {
        UpsertListing(rows, e, q);
      }
      rows := rows[e.path := e.row];
      ok := true;
    }

    /** Replaces the rows with this parent in one transaction; if one of its statements fails, nothing changes. */
    method ReplaceChildren(parent: string, entries: seq<PathRow>, faults: Faults) returns (ok: bool)
      modifies this
      ensures ok <==> parent !in faults.replacing
      ensures rows == if ok then Replaced(old(rows), parent, entries) else old(rows)
    {
      var tx := map p | p in rows && rows[p].parent != parent :: rows[p];
      var i := 0;
      while i < |entries|
        invariant 0 <= i <= |entries| && rows == old(rows)
        invariant tx == UpsertAll(WithoutChildren(rows, parent), entries[..i])
      {
        if parent in faults.replacing && faults.replacing[parent] == i { return false; }
        assert entries[..i + 1] == entries[..i] + [entries[i]];
        UpsertSnoc(WithoutChildren(rows, parent), entries[..i], entries[i]);
        tx := tx[entries[i].path := entries[i].row];
        i := i + 1;
      }
      assert entries[..i] == entries;
      if parent in faults.replacing { return false; }
      rows := tx;
      ok := true;
    }

    /** Finds a row exactly if some listing has one for the path, and then that one. */
    method GetByPath(path: string, faults: Faults) returns (ok: bool, row: Option<Row>)
      ensures ok <==> path !in faults.reading
      ensures row == if ok && path in rows then Some(rows[path]) else None
      ensures row.Some? ==> PathRow(path, row.value) in ChildrenOf(rows, row.value.parent)
      ensures ok && row.None? ==> forall q, e :: e in ChildrenOf(rows, q) ==> e.path != path
    {
      ok := path !in faults.reading;
      row := if ok && path in rows then Some(rows[path]) else None;
    }

    /** Each row below the path, once, in the order of the names. */
    method ListChildren(path: string, faults: Faults) returns (ok: bool, entries: seq<PathRow>)
      ensures ok <==> path !in faults.listing && (path != "/" ==> path !in faults.reading)
      ensures ok ==> forall e :: e in entries <==> e in Listing(rows, path)
      ensures DistinctPaths(entries) && ByName(entries)
    {
      entries := [];
      var parent := ROOT_ID;
      if path != "/" {
        var row;
        ok, row := GetByPath(path, faults);
        if !ok { return; }
        if row.None? { return path !in faults.listing, entries; }
        parent := row.value.fsid;
      }
      if path in faults.listing { return false, entries; }
      var left := rows.Keys;
      while left != {}
        invariant left <= rows.Keys && DistinctPaths(entries) && ByName(entries)
        invariant forall e :: e in entries <==> e in ChildrenOf(rows, parent) && e.path !in left
      {
        NonEmpty(left);
        var p :| p in left;
        left := left - {p};
        if rows[p].parent == parent {
          var e := PathRow(p, rows[p]);
          forall x ensures x in InsertByName(entries, e) <==> x == e || x in entries { InsertHas(entries, e, x); }
          InsertSorts(entries, e);
          InsertDistinct(entries, e);
          entries := InsertByName(entries, e);
        }
      }
      ok := true;
    }

    /** Makes the row of a path stale. */
    method ExpirePath(path: string, faults: Faults) returns (ok: bool)
      modifies this
      ensures ok <==> path !in faults.writing
      ensures rows == if ok then Expired(old(rows), path) else old(rows)
    {
      if path in faults.writing { return false; }
      if path in rows { rows := rows[path := rows[path].(expires := 0)]; }
      ok := true;
    }
  }

  function Expired(t: Table, path: string): Table
  {
    if path in t then t[path := t[path].(expires := 0)] else t
  }
}

/** Least-recently-used lists: entries in order of use, the least recent first, beside a map from keys. */
module Lru {
  datatype Entry<K, V> = Entry(key: K, value: V, size: nat)

  function Total<K, V>(s: seq<Entry<K, V>>): nat
  {
    if s == [] then 0 else s[0].size + Total(s[1..])
  }

  ghost predicate Distinct<K, V>(s: seq<Entry<K, V>>)
  {
    forall i, j :: 0 <= i < j < |s| ==> s[i].key != s[j].key
  }

  /** The map and the list hold the same entries. */
  ghost predicate Mirrors<K, V>(m: map<K, Entry<K, V>>, s: seq<Entry<K, V>>)
  {
    && Distinct(s)
    && (forall e :: e in s ==> e.key in m && m[e.key] == e)
    && (forall k :: k in m ==> m[k] in s && m[k].key == k)
  }

  function Remove<K(==), V>(s: seq<Entry<K, V>>, key: K): seq<Entry<K, V>>
  {
    if s == [] then [] else Unless(s[0].key == key, s[0], Remove(s[1..], key))
  }

  /** The list behind an entry, with the entry unless it is to go. */
  function Unless<K, V>(gone: bool, e: Entry<K, V>, rest: seq<Entry<K, V>>): seq<Entry<K, V>>
  {
    if gone then rest else [e] + rest
  }

  /** The entries with other keys, in the same order. */
  function Without<K(==), V>(s: seq<Entry<K, V>>, keys: set<K>): seq<Entry<K, V>>
  {
    if s == [] then [] else Unless(s[0].key in keys, s[0], Without(s[1..], keys))
  }

  lemma {:induction false} WithoutMore<K, V>(s: seq<Entry<K, V>>, keys: set<K>, key: K)
    ensures Remove(Without(s, keys), key) == Without(s, keys + {key})
  {
    if s != [] {
      WithoutMore(s[1..], keys, key);
      if s[0].key !in keys {
        assert ([s[0]] + Without(s[1..], keys))[1..] == Without(s[1..], keys);
      }
    }
  }

  lemma {:induction false} WithoutHas<K, V>(s: seq<Entry<K, V>>, keys: set<K>, e: Entry<K, V>)
    requires e in Without(s, keys)
    ensures e in s
  {
    if e != s[0] { WithoutHas(s[1..], keys, e); }
  }

  lemma {:induction false} WithoutNone<K, V>(s: seq<Entry<K, V>>)
    ensures Without(s, {}) == s
  {
    if s != [] { WithoutNone(s[1..]); }
  }

  /** Drops entries from the front until the rest fits. */
  function Evict<K, V>(s: seq<Entry<K, V>>, limit: int): seq<Entry<K, V>>
  {
    if Total(s) > limit && s != [] then Evict(s[1..], limit) else s
  }

  /** The entry is now the most recently used one. */
  function Push<K(==), V>(s: seq<Entry<K, V>>, e: Entry<K, V>): seq<Entry<K, V>>
  {
    Remove(s, e.key) + [e]
  }

  lemma {:induction false} RemoveHas<K, V>(s: seq<Entry<K, V>>, key: K, e: Entry<K, V>)
    ensures e in Remove(s, key) <==> e in s && e.key != key
  {
    if s != [] {
      RemoveHas(s[1..], key, e);
      assert s == [s[0]] + s[1..];
    }
  }

  lemma {:induction false} RemoveDistinct<K, V>(s: seq<Entry<K, V>>, key: K)
    requires Distinct(s)
    ensures Distinct(Remove(s, key))
  {
    if s != [] {
      RemoveDistinct(s[1..], key);
      if s[0].key != key {
        var r := Remove(s[1..], key);
        forall j | 0 <= j < |r| ensures r[j].key != s[0].key {
          RemoveHas(s[1..], key, r[j]);
          var i :| 0 <= i < |s[1..]| && s[1..][i] == r[j];
          assert s[i + 1] == r[j];
        }
      }
    }
  }

  lemma {:induction false} RemoveAbsent<K, V>(s: seq<Entry<K, V>>, key: K)
    requires forall e :: e in s ==> e.key != key
    ensures Remove(s, key) == s
  {
    if s != [] {
      assert s[0] in s;
      assert forall e :: e in s[1..] ==> e in s;
      RemoveAbsent(s[1..], key);
      assert s == [s[0]] + s[1..];
    }
  }

  lemma {:induction false} RemoveTotal<K, V>(s: seq<Entry<K, V>>, e: Entry<K, V>)
    requires Distinct(s) && e in s
    ensures Total(Remove(s, e.key)) == Total(s) - e.size
  {
    if s[0] == e {
      forall x | x in s[1..] ensures x.key != e.key {
        var i :| 0 <= i < |s[1..]| && s[1..][i] == x;
        assert s[i + 1] == x;
      }
      RemoveAbsent(s[1..], e.key);
    } else {
      assert e in s[1..] by { var i :| 0 <= i < |s| && s[i] == e; assert s[1..][i - 1] == e; }
      RemoveTotal(s[1..], e);
      assert s[0].key != e.key by { var i :| 0 <= i < |s| && s[i] == e; }
      var r := Remove(s[1..], e.key);
      assert ([s[0]] + r)[1..] == r;
    }
  }

  lemma {:induction false} TotalAppend<K, V>(s: seq<Entry<K, V>>, t: seq<Entry<K, V>>)
    ensures Total(s + t) == Total(s) + Total(t)
  {
    if s == [] {
      assert s + t == t;
    } else {
      TotalAppend(s[1..], t);
      assert (s + t)[1..] == s[1..] + t;
    }
  }

  lemma MirrorsRemove<K, V>(m: map<K, Entry<K, V>>, s: seq<Entry<K, V>>, key: K)
    requires Mirrors(m, s)
    ensures Mirrors(m - {key}, Remove(s, key))
    ensures Total(Remove(s, key)) == Total(s) - (if key in m then m[key].size else 0)
    ensures key !in m ==> Remove(s, key) == s
  {
    RemoveDistinct(s, key);
    var n := m - {key};
    forall k | k in n ensures n[k] in Remove(s, key) && n[k].key == k { RemoveHas(s, key, m[k]); }
    forall e | e in Remove(s, key) ensures e.key in n && n[e.key] == e { RemoveHas(s, key, e); }
    if key in m { assert m[key].key == key && m[key] in s; RemoveTotal(s, m[key]); } else { RemoveAbsent(s, key); }
  }

  lemma MirrorsAppend<K, V>(m: map<K, Entry<K, V>>, s: seq<Entry<K, V>>, e: Entry<K, V>)
    requires Mirrors(m, s) && e.key !in m
    ensures Mirrors(m[e.key := e], s + [e])
    ensures Total(s + [e]) == Total(s) + e.size
  {
    TotalAppend(s, [e]);
    assert [e][1..] == [];
  }

  /** Adding or replacing an entry. */
  lemma MirrorsPush<K, V>(m: map<K, Entry<K, V>>, s: seq<Entry<K, V>>, e: Entry<K, V>)
    requires Mirrors(m, s)
    ensures Mirrors(m[e.key := e], Push(s, e))
    ensures Total(Push(s, e)) == Total(s) + e.size - (if e.key in m then m[e.key].size else 0)
  {
    MirrorsRemove(m, s, e.key);
    MirrorsAppend(m - {e.key}, Remove(s, e.key), e);
    RemoveThenPut(m, e.key, e);
    MirrorsSame((m - {e.key})[e.key := e], m[e.key := e], Push(s, e));
  }

  lemma RemoveThenPut<K, V>(m: map<K, V>, key: K, value: V)
    ensures (m - {key})[key := value] == m[key := value]
  {
  }

  lemma MirrorsSame<K, V>(m: map<K, Entry<K, V>>, n: map<K, Entry<K, V>>, s: seq<Entry<K, V>>)
    requires Mirrors(m, s) && m == n
    ensures Mirrors(n, s)
  {
  }

  lemma RemoveFront<K, V>(s: seq<Entry<K, V>>)
    requires Distinct(s) && s != []
    ensures Remove(s, s[0].key) == s[1..]
  {
    var t := s[1..];
    forall e | e in t ensures e.key != s[0].key {
      var i :| 0 <= i < |t| && t[i] == e;
      assert s[i + 1] == e;
    }
    RemoveAbsent(t, s[0].key);
  }

  lemma MirrorsFront<K, V>(m: map<K, Entry<K, V>>, s: seq<Entry<K, V>>)
    requires Mirrors(m, s) && s != []
    ensures s[0].key in m && m[s[0].key] == s[0]
    ensures Mirrors(m - {s[0].key}, s[1..])
    ensures Total(s[1..]) == Total(s) - s[0].size
  {
    assert s[0] in s;
    MirrorsRemove(m, s, s[0].key);
    RemoveFront(s);
  }

  /** Eviction removes the shortest least-recent prefix that makes the rest fit. */
  /** What putting an entry into a list with a limit makes of it: the entry is last, of the others those without its key
      stay in their order, and as few of the least recent ones as possible are gone. */
  lemma PutShortest<K, V>(s: seq<Entry<K, V>>, e: Entry<K, V>, limit: int) returns (k: nat)
    requires limit >= 0
    ensures k <= |Remove(s, e.key)| + 1 && Evict(Push(s, e), limit) == (Remove(s, e.key) + [e])[k..]
    ensures Total(Evict(Push(s, e), limit)) <= limit && forall j :: 0 <= j < k ==> Total((Remove(s, e.key) + [e])[j..]) > limit
  {
    k := EvictShortest(Push(s, e), limit);
  }

  lemma {:induction false} EvictShortest<K, V>(s: seq<Entry<K, V>>, limit: int) returns (k: nat)
    requires limit >= 0
    ensures k <= |s| && Evict(s, limit) == s[k..] && Total(s[k..]) <= limit
    ensures forall j :: 0 <= j < k ==> Total(s[j..]) > limit
  {
    if Total(s) > limit {
      k := EvictShortest(s[1..], limit);
      assert s[1..][k..] == s[k + 1..];
      forall j | 0 <= j < k + 1 ensures Total(s[j..]) > limit {
        if j > 0 { assert s[1..][j - 1..] == s[j..]; } else { assert s[0..] == s; }
      }
      k := k + 1;
    } else {
      k := 0;
      assert s[0..] == s;
    }
  }

  /** An entry that fits on its own survives being added, as the most recent one. */
  lemma PushedStays<K, V>(s: seq<Entry<K, V>>, e: Entry<K, V>, limit: int)
    requires 0 <= e.size <= limit
    ensures var r := Evict(Push(s, e), limit); r != [] && r[|r| - 1] == e
  {
    var p := Push(s, e);
    var k := EvictShortest(p, limit);
    assert p[|p| - 1..] == [e] && [e][1..] == [];
    assert Total(p[|p| - 1..]) == e.size;
  }

  lemma {:induction false} EvictKeeps<K, V>(s: seq<Entry<K, V>>, limit: int, e: Entry<K, V>)
    requires e in Evict(s, limit)
    ensures e in s
  {
    if Total(s) > limit && s != [] {
      EvictKeeps(s[1..], limit, e);
      assert s == [s[0]] + s[1..];
    }
  }

  lemma EntryKnown<K, V>(m: map<K, Entry<K, V>>, s: seq<Entry<K, V>>, e: Entry<K, V>)
    requires Mirrors(m, s) && e in s
    ensures e.key in m
  {
  }

  /** Forgetting an entry that was just moved to the back is forgetting it where it was. */
  lemma RemovePushed<K, V>(s: seq<Entry<K, V>>, e: Entry<K, V>)
    ensures Remove(Push(s, e), e.key) == Remove(s, e.key)
  {
    RemoveJoin(Remove(s, e.key), [e], e.key);
    forall x | x in Remove(s, e.key) ensures x.key != e.key { RemoveHas(s, e.key, x); }
    RemoveAbsent(Remove(s, e.key), e.key);
    assert [e][1..] == [] && Remove([e][1..], e.key) == [];
  }

  lemma {:induction false} RemoveJoin<K, V>(s: seq<Entry<K, V>>, t: seq<Entry<K, V>>, key: K)
    ensures Remove(s + t, key) == Remove(s, key) + Remove(t, key)
  {
    if s == [] {
      assert s + t == t;
    } else {
      RemoveJoin(s[1..], t, key);
      assert (s + t)[1..] == s[1..] + t;
    }
  }

  /** The entry is in the list behind place p. */
  ghost predicate Behind<K, V>(s: seq<Entry<K, V>>, p: int, e: Entry<K, V>)
  {
    exists x :: p < x < |s| && 0 <= x && s[x] == e
  }

  lemma BehindFirst<K, V>(first: Entry<K, V>, rest: seq<Entry<K, V>>, e: Entry<K, V>)
    requires e in rest
    ensures Behind([first] + rest, 0, e)
  {
    var y :| 0 <= y < |rest| && rest[y] == e;
    assert ([first] + rest)[y + 1] == e;
  }

  lemma BehindLater<K, V>(first: Entry<K, V>, rest: seq<Entry<K, V>>, p: nat, e: Entry<K, V>)
    requires Behind(rest, p, e)
    ensures Behind([first] + rest, p + 1, e)
  {
    var y :| p < y < |rest| && 0 <= y && rest[y] == e;
    assert ([first] + rest)[y + 1] == e;
  }

  /** An entry with another key stays, and what was behind it stays behind it. */
  lemma {:induction false} RemoveKeepsPlace<K, V>(s: seq<Entry<K, V>>, key: K, p: nat) returns (q: nat)
    requires p < |s| && s[p].key != key
    ensures q < |Remove(s, key)| && Remove(s, key)[q] == s[p]
    ensures forall k :: q < k < |Remove(s, key)| ==> Behind(s, p, Remove(s, key)[k])
  {
    var rest := s[1..];
    var r, below := Remove(s, key), Remove(rest, key);
    assert s == [s[0]] + rest && r == Unless(s[0].key == key, s[0], below);
    var b: int := -1;
    if p > 0 { b := RemoveKeepsPlace(rest, key, p - 1); }
    var shift := if s[0].key == key then 0 else 1;
    q := b + shift;
    forall k | q < k < |r| ensures Behind(s, p, r[k]) {
      var e := below[k - shift];
      assert e in below && r[k] == e;
      if p == 0 {
        RemoveHas(rest, key, e);
        BehindFirst(s[0], rest, e);
      } else {
        BehindLater(s[0], rest, p - 1, e);
      }
    }
  }

  /** The keys of a list, in order. */
  function Keys<K, V>(s: seq<Entry<K, V>>): (r: seq<K>)
    ensures |r| == |s| && forall i :: 0 <= i < |s| ==> r[i] == s[i].key
  {
    seq(|s|, i requires 0 <= i < |s| => s[i].key)
  }

  /** Removing a key is cutting out the one place where it is. */
  lemma {:induction false} RemoveAt<K, V>(s: seq<Entry<K, V>>, i: nat)
    requires Distinct(s) && i < |s|
    ensures Remove(s, s[i].key) == s[..i] + s[i + 1..]
  {
    if i == 0 {
      RemoveFront(s);
    } else {
      assert s[1..][i - 1] == s[i] && s[0].key != s[i].key;
      RemoveAt(s[1..], i - 1);
      assert s[1..][..i - 1] == s[1..i] && s[1..][i..] == s[i + 1..];
      assert [s[0]] + (s[1..i] + s[i + 1..]) == s[..i] + s[i + 1..];
    }
  }
}

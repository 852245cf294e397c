/** The window cache of the remote reader: windows of files by their start, in order of use, with one
    bucket of windows for each file. */
module ReadCache {
  import opened Content
  import opened Lru

  datatype CacheKey = CacheKey(fsid: string, offset: int)

  type Window = Entry<CacheKey, Bytes>

  function NewWindow(key: CacheKey, data: Bytes): Window { Entry(key, data, |data|) }

  /** The window holds all of the bytes asked for. */
  predicate Covers(w: Window, fsid: string, offset: int, length: int)
  {
    w.key.fsid == fsid && w.value != [] && w.key.offset <= offset && offset + length <= w.key.offset + |w.value|
  }

  /** The bytes asked for, out of a window that covers them. */
  function HitBytes(w: Window, fsid: string, offset: int, length: nat): (r: Bytes)
    requires Covers(w, fsid, offset, length)
    ensures |r| == length
  {
    w.value[offset - w.key.offset..offset - w.key.offset + length]
  }

  ghost predicate WindowTrue(remote: RemoteBytes, w: Window)
  {
    w.value == Slice(remote, w.key.fsid, w.key.offset, |w.value|)
  }

  /** The windows after storing one. */
  function AfterStore(s: seq<Window>, key: CacheKey, data: Bytes, limit: int): seq<Window>
  {
    if data == [] || |data| > limit then s else Evict(Push(s, NewWindow(key, data)), limit)
  }

  /** A window is stored exactly if it is not empty and fits the limit on its own; of the others as few as possible go. */
  lemma WindowStoreLaw(s: seq<Window>, key: CacheKey, data: Bytes, limit: int) returns (k: nat)
    ensures data == [] || |data| > limit ==> AfterStore(s, key, data, limit) == s
    ensures data != [] && |data| <= limit ==>
      var pushed := Remove(s, key) + [NewWindow(key, data)];
      && k < |pushed| && AfterStore(s, key, data, limit) == pushed[k..]
      && Total(pushed[k..]) <= limit && forall j :: 0 <= j < k ==> Total(pushed[j..]) > limit
  {
    k := 0;
    if data != [] && |data| <= limit {
      var w := NewWindow(key, data);
      k := PutShortest(s, w, limit);
      var last := |Remove(s, key)|;
      assert (Remove(s, key) + [w])[last..] == [w];
      assert Total([w]) == |data|;
    }
  }

  /** Every file with windows has a bucket with exactly their keys; no bucket is empty. */
  ghost predicate BucketsOk(cached: map<CacheKey, Window>, buckets: map<string, set<CacheKey>>)
  {
    && (forall k :: k in cached ==> k.fsid in buckets && k in buckets[k.fsid])
    && (forall f :: f in buckets ==> buckets[f] != {} && forall k :: k in buckets[f] ==> k in cached && k.fsid == f)
  }

  lemma BucketsAdd(cached: map<CacheKey, Window>, buckets: map<string, set<CacheKey>>, w: Window)
    requires BucketsOk(cached, buckets)
    ensures var before := if w.key.fsid in buckets then buckets[w.key.fsid] else {};
      BucketsOk(cached[w.key := w], buckets[w.key.fsid := before + {w.key}])
  {
  }

  lemma BucketsDrop(cached: map<CacheKey, Window>, buckets: map<string, set<CacheKey>>, key: CacheKey)
    requires BucketsOk(cached, buckets) && key in cached
    ensures key.fsid in buckets
    ensures var rest := buckets[key.fsid] - {key};
      BucketsOk(cached - {key}, if rest == {} then buckets - {key.fsid} else buckets[key.fsid := rest])
  {
  }

  /** The map, the order and the buckets hold the same keys; the byte count is exact. */
  ghost predicate Shaped(cached: map<CacheKey, Window>, buckets: map<string, set<CacheKey>>, order: seq<CacheKey>,
                         bytes: int, windows: seq<Window>)
  {
    && Mirrors(cached, windows) && order == Keys(windows) && BucketsOk(cached, buckets)
    && bytes == Total(windows) && Plain(windows)
  }

  /** The size of every entry is the length of its bytes. */
  ghost predicate Plain(windows: seq<Window>)
  {
    forall w :: w in windows ==> w == NewWindow(w.key, w.value)
  }

  lemma PlainRemove(windows: seq<Window>, key: CacheKey)
    requires Plain(windows)
    ensures Plain(Remove(windows, key))
  {
    forall x | x in Remove(windows, key) ensures x == NewWindow(x.key, x.value) { RemoveHas(windows, key, x); }
  }

  lemma KeysCut(s: seq<Window>, i: nat)
    requires i < |s|
    ensures Keys(s[..i] + s[i + 1..]) == Keys(s)[..i] + Keys(s)[i + 1..]
  {
  }

  lemma KeysJoin(s: seq<Window>, t: seq<Window>)
    ensures Keys(s + t) == Keys(s) + Keys(t)
  {
  }

  /** Moving the most recent entry to the back changes nothing. */
  lemma PushLast(s: seq<Window>)
    requires Distinct(s) && s != []
    ensures Push(s, s[|s| - 1]) == s
  {
    RemoveAt(s, |s| - 1);
  }

  function WithKey(buckets: map<string, set<CacheKey>>, key: CacheKey): map<string, set<CacheKey>>
  {
    buckets[key.fsid := (if key.fsid in buckets then buckets[key.fsid] else {}) + {key}]
  }

  function WithoutKey(buckets: map<string, set<CacheKey>>, key: CacheKey): map<string, set<CacheKey>>
  {
    if key.fsid !in buckets then buckets
    else if buckets[key.fsid] - {key} == {} then buckets - {key.fsid}
    else buckets[key.fsid := buckets[key.fsid] - {key}]
  }

  lemma ShapedAppend(cached: map<CacheKey, Window>, buckets: map<string, set<CacheKey>>, order: seq<CacheKey>,
                     bytes: int, windows: seq<Window>, w: Window)
    requires Shaped(cached, buckets, order, bytes, windows) && w.key !in cached && w == NewWindow(w.key, w.value)
    ensures Shaped(cached[w.key := w], WithKey(buckets, w.key), order + [w.key], bytes + |w.value|, windows + [w])
  {
    MirrorsAppend(cached, windows, w);
    BucketsAdd(cached, buckets, w);
    KeysJoin(windows, [w]);
    assert Keys([w]) == [w.key];
  }

  lemma ShapedRemove(cached: map<CacheKey, Window>, buckets: map<string, set<CacheKey>>, order: seq<CacheKey>,
                     bytes: int, windows: seq<Window>, i: nat, key: CacheKey) returns (rest: seq<Window>)
    requires Shaped(cached, buckets, order, bytes, windows) && i < |windows| && order[i] == key
    ensures key in cached && cached[key] == windows[i] && key.fsid in buckets && key in buckets[key.fsid]
    ensures key in cached && rest == Remove(windows, key) && rest == windows[..i] + windows[i + 1..]
    ensures Shaped(cached - {key}, WithoutKey(buckets, key), order[..i] + order[i + 1..], bytes - |cached[key].value|, rest)
  {
    var w := windows[i];
    assert w in windows && w.key == key;
    RemoveAt(windows, i);
    KeysCut(windows, i);
    PlainRemove(windows, key);
    MirrorsRemove(cached, windows, key);
    BucketsDrop(cached, buckets, key);
    rest := Remove(windows, key);
  }

  lemma ShapedFront(cached: map<CacheKey, Window>, buckets: map<string, set<CacheKey>>, order: seq<CacheKey>,
                    bytes: int, windows: seq<Window>)
    requires Shaped(cached, buckets, order, bytes, windows) && windows != []
    ensures order[0] in cached
    ensures Shaped(cached - {order[0]}, WithoutKey(buckets, order[0]), order[1..], bytes - |cached[order[0]].value|, windows[1..])
  {
    MirrorsFront(cached, windows);
    BucketsDrop(cached, buckets, windows[0].key);
    KeysTail(windows);
    PlainTail(windows);
  }

  lemma KeysTail(s: seq<Window>)
    requires s != []
    ensures Keys(s[1..]) == Keys(s)[1..] && Keys(s)[0] == s[0].key
  {
  }

  lemma PlainTail(s: seq<Window>)
    requires Plain(s) && s != []
    ensures Plain(s[1..]) && s[0] == NewWindow(s[0].key, s[0].value)
  {
    assert s[0] in s && forall w :: w in s[1..] ==> w in s;
  }

  lemma ShapedMove(cached: map<CacheKey, Window>, buckets: map<string, set<CacheKey>>, order: seq<CacheKey>,
                   bytes: int, windows: seq<Window>, i: nat) returns (moved: seq<Window>, order': seq<CacheKey>)
    requires Shaped(cached, buckets, order, bytes, windows) && i < |windows|
    ensures moved == Push(windows, windows[i]) && order' == order[..i] + order[i + 1..] + [order[i]]
    ensures Shaped(cached, buckets, order', bytes, moved)
  {
    var w, key := windows[i], order[i];
    assert w in windows && w.key == key;
    var rest := ShapedRemove(cached, buckets, order, bytes, windows, i, key);
    ShapedAppend(cached - {key}, WithoutKey(buckets, key), order[..i] + order[i + 1..], bytes - |w.value|, rest, w);
    KeyBack(cached, buckets, key);
    moved, order' := rest + [w], order[..i] + order[i + 1..] + [order[i]];
    ShapedSame((cached - {key})[key := w], cached, WithKey(WithoutKey(buckets, key), key), buckets,
               order[..i] + order[i + 1..] + [order[i]], bytes, rest + [w]);
  }

  lemma ShapedSame(cached: map<CacheKey, Window>, cached': map<CacheKey, Window>, buckets: map<string, set<CacheKey>>,
                   buckets': map<string, set<CacheKey>>, order: seq<CacheKey>, bytes: int, windows: seq<Window>)
    requires Shaped(cached, buckets, order, bytes, windows) && cached == cached' && buckets == buckets'
    ensures Shaped(cached', buckets', order, bytes, windows)
  {
  }

  lemma KeyBack(cached: map<CacheKey, Window>, buckets: map<string, set<CacheKey>>, key: CacheKey)
    requires key in cached && key.fsid in buckets && key in buckets[key.fsid]
    ensures (cached - {key})[key := cached[key]] == cached
    ensures WithKey(WithoutKey(buckets, key), key) == buckets
  {
    var bucket := buckets[key.fsid];
    assert bucket - {key} + {key} == bucket;
    assert bucket - {key} == {} ==> {} + {key} == bucket;
  }

  class Cache {
    const cacheLimit: int
    var cached: map<CacheKey, Window>
    var cacheByFSID: map<string, set<CacheKey>>
    var cacheOrder: seq<CacheKey>
    var cacheBytes: int
    /** The windows in the order of `cacheOrder`. */
    ghost var windows: seq<Window>

    constructor (cacheLimit: int)
      requires cacheLimit >= 0
      ensures Valid() && windows == [] && this.cacheLimit == cacheLimit
    {
      this.cacheLimit := cacheLimit;
      cached, cacheByFSID, cacheOrder, cacheBytes, windows := map[], map[], [], 0, [];
    }

    ghost predicate Shape()
      reads this
    {
      Shaped(cached, cacheByFSID, cacheOrder, cacheBytes, windows)
    }

    ghost predicate Valid()
      reads this
    {
      Shape() && cacheBytes <= cacheLimit
    }

    ghost predicate True(remote: RemoteBytes)
      reads this`windows
    {
      forall w :: w in windows ==> WindowTrue(remote, w)
    }

    /** Moves the key at this place of the order to the back. */
    method MoveToBack(index: nat)
      requires Shape() && index < |cacheOrder|
      modifies this`cacheOrder, this`windows
      ensures Shape() && windows == Push(old(windows), old(windows)[index])
    {
      ghost var moved, order := ShapedMove(cached, cacheByFSID, cacheOrder, cacheBytes, windows, index);
      cacheOrder := cacheOrder[..index] + cacheOrder[index + 1..] + [cacheOrder[index]];
      windows := moved;
      assert cacheOrder == order;
    }

    /** Looks for a window with the bytes, in any order. A hit makes that window the most recent one and
        changes nothing else; a miss means that no window has all of the bytes. */
    method ReadCached(fsid: string, offset: int, length: nat) returns (data: Option<Bytes>, ghost hit: Window)
      requires Valid()
      modifies this`cacheOrder, this`windows
      ensures Valid()
      ensures data.None? ==> windows == old(windows) && forall w :: w in windows ==> !Covers(w, fsid, offset, length)
      ensures data.Some? ==> hit in old(windows) && Covers(hit, fsid, offset, length) && windows == Push(old(windows), hit)
      ensures data.Some? ==> data.value == HitBytes(hit, fsid, offset, length)
    {
      var found := FindWindow(fsid, offset, length);
      data, hit := None, NewWindow(CacheKey(fsid, offset), []);
      if found.Some? {
        hit := cached[found.value];
        data := Some(HitBytes(cached[found.value], fsid, offset, length));
        UseKey(found.value);
      }
    }

    /** Goes through the bucket of the file, in any order. */
    method FindWindow(fsid: string, offset: int, length: nat) returns (found: Option<CacheKey>)
      requires Valid()
      ensures found.Some? ==> found.value in cached && cached[found.value] in windows
      ensures found.Some? ==> cached[found.value].key == found.value && Covers(cached[found.value], fsid, offset, length)
      ensures found.None? ==> forall w :: w in windows ==> !Covers(w, fsid, offset, length)
    {
      var bucket := if fsid in cacheByFSID then cacheByFSID[fsid] else {};
      while bucket != {}
        invariant forall key :: key in bucket ==> key in cached && key.fsid == fsid
        invariant forall w :: w in windows && Covers(w, fsid, offset, length) ==> w.key in bucket
      {
        NonEmpty(bucket);
        var key :| key in bucket;
        bucket := bucket - {key};
        var w := cached[key];
        if w.value != [] && offset >= w.key.offset && offset + length <= w.key.offset + |w.value| {
          return Some(key);
        }
      }
      return None;
    }

    /** The window becomes the most recent one. */
    method UseKey(key: CacheKey)
      requires Valid() && key in cached
      modifies this`cacheOrder, this`windows
      ensures Valid() && windows == Push(old(windows), cached[key])
    {
      var index := FindKey(key);
      if index != |cacheOrder| - 1 { MoveToBack(index); } else { PushLast(windows); }
    }

    method FindKey(key: CacheKey) returns (index: nat)
      requires Shape() && key in cached
      ensures index < |cacheOrder| && cacheOrder[index] == key && windows[index] == cached[key]
    {
      assert cached[key] in windows;
      ghost var place :| 0 <= place < |windows| && windows[place] == cached[key];
      index := 0;
      while cacheOrder[index] != key
        invariant index <= place
        decreases place - index
      {
        index := index + 1;
      }
    }

    /** Forgets a window; the caller takes it out of the order. */
    method RemoveCachedKey(key: CacheKey)
      requires key in cached ==> key.fsid in cacheByFSID
      modifies this`cached, this`cacheByFSID, this`cacheBytes
      ensures cached == old(cached) - {key}
      ensures key in old(cached) ==>
        cacheByFSID == WithoutKey(old(cacheByFSID), key) && cacheBytes == old(cacheBytes) - |old(cached)[key].value|
      ensures key !in old(cached) ==> cacheByFSID == old(cacheByFSID) && cacheBytes == old(cacheBytes)
    {
      if key !in cached { return; }
      cacheBytes := cacheBytes - |cached[key].value|;
      cached := cached - {key};
      var bucket := cacheByFSID[key.fsid] - {key};
      cacheByFSID := if bucket == {} then cacheByFSID - {key.fsid} else cacheByFSID[key.fsid := bucket];
    }

    method DropKey(key: CacheKey)
      requires Shape() && key in cached
      modifies this`cached, this`cacheByFSID, this`cacheBytes, this`cacheOrder, this`windows
      ensures Shape() && cached == old(cached) - {key} && windows == Remove(old(windows), key)
    {
      var index := FindKey(key);
      DropAt(index, key);
    }

    method DropAt(index: nat, key: CacheKey)
      requires Shape() && index < |cacheOrder| && cacheOrder[index] == key
      modifies this`cached, this`cacheByFSID, this`cacheBytes, this`cacheOrder, this`windows
      ensures Shape() && cached == old(cached) - {key} && windows == Remove(old(windows), key)
    {
      ghost var buckets, bytes := WithoutKey(cacheByFSID, key), cacheBytes;
      windows := ShapedRemove(cached, cacheByFSID, cacheOrder, cacheBytes, windows, index, key);
      cacheOrder := cacheOrder[..index] + cacheOrder[index + 1..];
      RemoveCachedKey(key);
      assert cacheByFSID == buckets;
    }

    /** The window becomes the most recent one; then the least recent ones go until the rest fits. */
    method StoreCached(fsid: string, offset: int, data: Bytes)
      requires Valid()
      modifies this
      ensures Valid() && windows == AfterStore(old(windows), CacheKey(fsid, offset), data, cacheLimit)
      ensures data != [] && |data| <= cacheLimit ==> CacheKey(fsid, offset) in cached && cached[CacheKey(fsid, offset)].value == data
    {
      if data == [] || |data| > cacheLimit { return; }
      var key := CacheKey(fsid, offset);
      var w := NewWindow(key, data);
      PushedStays(windows, w, cacheLimit);
      if key in cached { DropKey(key); } else { MirrorsRemove(cached, windows, key); }
      AppendWindow(w);
      EvictWindows();
      assert windows[|windows| - 1] in windows;
    }

    method AppendWindow(w: Window)
      requires Shape() && w.key !in cached && w == NewWindow(w.key, w.value)
      modifies this
      ensures Shape() && windows == old(windows) + [w]
    {
      ShapedAppend(cached, cacheByFSID, cacheOrder, cacheBytes, windows, w);
      cached := cached[w.key := w];
      cacheByFSID := WithKey(cacheByFSID, w.key);
      cacheOrder := cacheOrder + [w.key];
      windows := windows + [w];
      cacheBytes := cacheBytes + |w.value|;
    }

    method EvictWindows()
      requires Shape() && cacheLimit >= 0
      modifies this
      ensures Valid() && windows == Evict(old(windows), cacheLimit)
    {
      while cacheBytes > cacheLimit && |cacheOrder| > 0
        invariant Shape() && Evict(windows, cacheLimit) == Evict(old(windows), cacheLimit)
        decreases |cacheOrder|
      {
        EvictOne();
      }
    }

    method EvictOne()
      requires Shape() && windows != [] && cacheBytes > cacheLimit
      modifies this
      ensures Shape() && windows == old(windows)[1..] && Evict(windows, cacheLimit) == Evict(old(windows), cacheLimit)
    {
      ShapedFront(cached, cacheByFSID, cacheOrder, cacheBytes, windows);
      var oldest := cacheOrder[0];
      cacheOrder := cacheOrder[1..];
      windows := windows[1..];
      RemoveCachedKey(oldest);
    }

    method ClearReadCache() returns (reclaimed: int)
      requires Valid()
      modifies this
      ensures Valid() && windows == [] && reclaimed == Total(old(windows))
    {
      reclaimed := cacheBytes;
      cached, cacheByFSID, cacheOrder, cacheBytes, windows := map[], map[], [], 0, [];
    }
  }

  // ---------- truth ----------

  /** Whichever covering window answers, the bytes are those asked for. */
  lemma HitIsTrue(remote: RemoteBytes, w: Window, fsid: string, offset: int, length: nat)
    requires WindowTrue(remote, w) && Covers(w, fsid, offset, length)
    ensures HitBytes(w, fsid, offset, length) == Slice(remote, fsid, offset, length)
  {
    var start := offset - w.key.offset;
    SliceOfSlice(remote, w.key.fsid, w.key.offset, |w.value|, start, start + length);
  }

  ghost predicate AllTrue(remote: RemoteBytes, s: seq<Window>)
  {
    forall w :: w in s ==> WindowTrue(remote, w)
  }

  lemma PushTrue(remote: RemoteBytes, s: seq<Window>, w: Window)
    requires AllTrue(remote, s) && WindowTrue(remote, w)
    ensures AllTrue(remote, Push(s, w))
  {
    forall x | x in Push(s, w) ensures WindowTrue(remote, x) {
      if x != w { RemoveHas(s, w.key, x); }
    }
  }

  /** Storing true bytes keeps every window true. */
  lemma StoreTrue(remote: RemoteBytes, s: seq<Window>, key: CacheKey, data: Bytes, limit: int)
    requires AllTrue(remote, s) && data == Slice(remote, key.fsid, key.offset, |data|)
    ensures AllTrue(remote, AfterStore(s, key, data, limit))
  {
    if data != [] && |data| <= limit {
      PushTrue(remote, s, NewWindow(key, data));
      forall x | x in AfterStore(s, key, data, limit) ensures WindowTrue(remote, x) {
        EvictKeeps(Push(s, NewWindow(key, data)), limit, x);
      }
    }
  }
}

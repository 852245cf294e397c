/** Names of cached chunks: the version string of a file and the file name of a chunk on disk. */
module Naming {
  import opened Content

  datatype File = File(fsid: string, size: int, mtm: int)

  datatype ChunkKey = ChunkKey(version: string, index: int)

  // ---------- decimal numbers ----------

  predicate IsDigit(c: char) { '0' <= c <= '9' }

  predicate AllDigits(s: string) { forall i :: 0 <= i < |s| ==> IsDigit(s[i]) }

  function Digit(d: nat): (c: char)
    requires d < 10
    ensures IsDigit(c) && c as int - '0' as int == d
  {
    '0' + d as char
  }

  function Digits(n: nat): (s: string)
    ensures s != "" && AllDigits(s)
  {
    if n < 10 then [Digit(n)] else Digits(n / 10) + [Digit(n % 10)]
  }

  function FormatInt(n: int): string
  {
    if n < 0 then "-" + Digits(-n) else Digits(n)
  }

  function Value(s: string): (n: nat)
    requires AllDigits(s)
  {
    if s == "" then 0 else 10 * Value(s[..|s| - 1]) + (s[|s| - 1] as int - '0' as int)
  }

  /** Decimal parsing with an optional sign, as the index of a chunk file is parsed. */
  function ParseInt(s: string): Option<int>
  {
    if s != "" && s[0] == '-' then
      if |s| > 1 && AllDigits(s[1..]) then Some(0 - Value(s[1..]) as int) else None
    else if s != "" && s[0] == '+' then
      if |s| > 1 && AllDigits(s[1..]) then Some(Value(s[1..])) else None
    else if s != "" && AllDigits(s) then Some(Value(s))
    else None
  }

  lemma {:induction false} ValueOfDigits(n: nat)
    ensures Value(Digits(n)) == n
  {
    if n >= 10 {
      ValueOfDigits(n / 10);
      var s := Digits(n);
      assert s[..|s| - 1] == Digits(n / 10);
    }
  }

  lemma ParseFormat(n: int)
    ensures ParseInt(FormatInt(n)) == Some(n)
  {
    if n < 0 { ParseNegative(-n); } else { ParseNatural(n); }
  }

  lemma ParseNatural(n: nat)
    ensures ParseInt(Digits(n)) == Some(n)
  {
    ValueOfDigits(n);
    assert IsDigit(Digits(n)[0]);
  }

  lemma ParseNegative(n: nat)
    ensures ParseInt("-" + Digits(n)) == Some(0 - n)
  {
    ValueOfDigits(n);
    assert ("-" + Digits(n))[1..] == Digits(n);
  }

  // ---------- versions ----------

  function FileVersion(f: File): string
  {
    f.fsid + "-" + FormatInt(f.size) + "-" + FormatInt(f.mtm)
  }

  function ChunkVersion(f: File, chunkSize: int): string
  {
    FileVersion(f) + "-chunk-" + FormatInt(chunkSize)
  }

  /** Baidu file identifiers are decimal numbers. */
  predicate NumericFsid(fsid: string) { fsid != "" && AllDigits(fsid) }

  /** A decimal number with an optional minus sign. */
  predicate SignedToken(s: string)
  {
    (s != "" && AllDigits(s)) || (|s| > 1 && s[0] == '-' && AllDigits(s[1..]))
  }

  /** A leading number that a dash follows can be read back. */
  lemma TokenSplit(a: string, x: string, b: string, y: string)
    requires SignedToken(a) && SignedToken(b)
    requires a + "-" + x == b + "-" + y
    ensures a == b && x == y
  {
    var s := a + "-" + x;
    var t := b + "-" + y;
    assert s[|a|] == '-' && t[|b|] == '-';
    assert forall i :: 0 <= i < |a| ==> s[i] == a[i];
    assert forall i :: 0 <= i < |b| ==> t[i] == b[i];
    assert forall i :: 1 <= i < |a| ==> IsDigit(a[i]) by {
      forall i | 1 <= i < |a| ensures IsDigit(a[i]) {
        if !AllDigits(a) { assert a[i] == a[1..][i - 1]; }
      }
    }
    assert forall i :: 1 <= i < |b| ==> IsDigit(b[i]) by {
      forall i | 1 <= i < |b| ensures IsDigit(b[i]) {
        if !AllDigits(b) { assert b[i] == b[1..][i - 1]; }
      }
    }
    assert t[|a|] == '-' && s[|b|] == '-';
    assert |a| == |b|;
    assert a == s[..|a|] == t[..|b|] == b;
    assert x == s[|a| + 1..] == t[|b| + 1..] == y;
  }

  lemma FormatIsToken(n: int)
    ensures SignedToken(FormatInt(n))
  {
    if n < 0 { assert FormatInt(n)[1..] == Digits(-n); }
  }

  lemma Regroup(a: string, b: string, c: string, d: string)
    ensures (a + "-" + b + "-" + c) + "-chunk-" + d == a + "-" + (b + "-" + (c + "-" + ("chunk-" + d)))
  {
    var x := "chunk-" + d;
    assert "-chunk-" + d == "-" + x;
    assert (a + "-" + b + "-" + c) + ("-" + x) == a + "-" + (b + "-" + (c + "-" + x));
    assert (a + "-" + b + "-" + c) + "-chunk-" + d == (a + "-" + b + "-" + c) + ("-chunk-" + d);
  }

  lemma FormatInjective(m: int, n: int)
    requires FormatInt(m) == FormatInt(n)
    ensures m == n
  {
    ParseFormat(m);
    ParseFormat(n);
  }

  /** The version of a chunk determines the file and the chunk size. */
  lemma ChunkVersionInjective(f: File, c: int, g: File, d: int)
    requires NumericFsid(f.fsid) && NumericFsid(g.fsid)
    requires ChunkVersion(f, c) == ChunkVersion(g, d)
    ensures f == g && c == d
  {
    var fs, fm, fc := FormatInt(f.size), FormatInt(f.mtm), FormatInt(c);
    var gs, gm, gc := FormatInt(g.size), FormatInt(g.mtm), FormatInt(d);
    Regroup(f.fsid, fs, fm, fc);
    Regroup(g.fsid, gs, gm, gc);
    FormatIsToken(f.size); FormatIsToken(g.size); FormatIsToken(f.mtm); FormatIsToken(g.mtm);
    TokenSplit(f.fsid, fs + "-" + (fm + "-" + ("chunk-" + fc)), g.fsid, gs + "-" + (gm + "-" + ("chunk-" + gc)));
    TokenSplit(fs, fm + "-" + ("chunk-" + fc), gs, gm + "-" + ("chunk-" + gc));
    TokenSplit(fm, "chunk-" + fc, gm, "chunk-" + gc);
    assert fc == ("chunk-" + fc)[6..] && gc == ("chunk-" + gc)[6..];
    FormatInjective(f.size, g.size);
    FormatInjective(f.mtm, g.mtm);
    FormatInjective(c, d);
  }

  // ---------- chunk files ----------

  predicate Unsafe(c: char) { c == '/' || c == '\\' || c == ':' }

  /** Replaces path separators, colons and double dots, left to right. */
  function Sanitize(s: string): string
  {
    if s == "" then ""
    else if Unsafe(s[0]) then "_" + Sanitize(s[1..])
    else if |s| >= 2 && s[0] == '.' && s[1] == '.' then "_" + Sanitize(s[2..])
    else [s[0]] + Sanitize(s[1..])
  }

  function ChunkFileName(key: ChunkKey): string
  {
    Sanitize(key.version) + "-" + FormatInt(key.index) + ".chunk"
  }

  /** Nothing in a sanitized version can be taken for a path. */
  lemma {:induction false} SanitizeSafe(s: string)
    ensures var r := Sanitize(s);
      && (forall i :: 0 <= i < |r| ==> r[i] != '/' && r[i] != '\\' && r[i] != ':')
      && (forall i :: 0 <= i < |r| - 1 ==> !(r[i] == '.' && r[i + 1] == '.'))
      && (r != "" && r[0] == '.' ==> s[0] == '.' && !(|s| >= 2 && s[1] == '.'))
    decreases |s|
  {
    if s != "" {
      var rest := if !Unsafe(s[0]) && |s| >= 2 && s[0] == '.' && s[1] == '.' then s[2..] else s[1..];
      SanitizeSafe(rest);
      assert Sanitize(s)[1..] == Sanitize(rest);
    }
  }

  /** A version and a file name, written out. */
  lemma NameExample()
    ensures ChunkVersion(File("1", 2, -3), 4) == "1-2--3-chunk-4" && ChunkFileName(ChunkKey("a:b/c", 5)) == "a_b_c-5.chunk"
  {
    VersionExample();
    FileNameExample();
  }

  lemma VersionExample()
    ensures ChunkVersion(File("1", 2, -3), 4) == "1-2--3-chunk-4"
  {
    assert Digits(2) == "2" && Digits(3) == "3" && Digits(4) == "4" && FormatInt(-3) == "-3";
  }

  lemma FileNameExample()
    ensures ChunkFileName(ChunkKey("a:b/c", 5)) == "a_b_c-5.chunk"
  {
    assert Digits(5) == "5";
    assert "a:b/c"[1..] == ":b/c" && ":b/c"[1..] == "b/c" && "b/c"[1..] == "/c" && "/c"[1..] == "c" && "c"[1..] == "";
    assert Sanitize("c") == "c" && Sanitize("/c") == "_c" && Sanitize("b/c") == "b_c" && Sanitize(":b/c") == "_b_c";
  }

  function LastDash(s: string): (i: int)
    ensures -1 <= i < |s|
    ensures i >= 0 ==> s[i] == '-'
    ensures forall j :: i < j < |s| ==> s[j] != '-'
  {
    if s == "" then -1
    else if s[|s| - 1] == '-' then |s| - 1
    else LastDash(s[..|s| - 1])
  }

  function TrimChunkSuffix(name: string): string
  {
    if |name| >= 6 && name[|name| - 6..] == ".chunk" then name[..|name| - 6] else name
  }

  function ParseChunkFileName(name: string): Option<ChunkKey>
  {
    var base := TrimChunkSuffix(name);
    if base == name then None
    else
      var separator := LastDash(base);
      if separator <= 0 || separator == |base| - 1 then None
      else
        match ParseInt(base[separator + 1..])
        case None => None
        case Some(index) =>
          if index < 0 then None else Some(ChunkKey(base[..separator], index))
  }

  /** A name splits at its last dash. */
  lemma {:induction false} LastDashSplits(prefix: string, tail: string)
    requires AllDigits(tail)
    ensures LastDash(prefix + "-" + tail) == |prefix|
  {
    var s := prefix + "-" + tail;
    if tail == "" {
      assert s[|s| - 1] == '-';
    } else {
      var rest := tail[..|tail| - 1];
      assert IsDigit(tail[|tail| - 1]);
      assert s[|s| - 1] == tail[|tail| - 1];
      assert s[..|s| - 1] == prefix + "-" + rest;
      LastDashSplits(prefix, rest);
    }
  }

  lemma {:induction false} SanitizeNonempty(s: string)
    ensures Sanitize(s) == "" <==> s == ""
  {
  }

  /** What parsing makes of the name of any key. */
  lemma ParseOfName(key: ChunkKey)
    ensures key.version == "" && key.index >= 0 ==> ParseChunkFileName(ChunkFileName(key)) == None
    ensures key.version != "" && key.index >= 0 ==>
      ParseChunkFileName(ChunkFileName(key)) == Some(ChunkKey(Sanitize(key.version), key.index))
    ensures key.index < 0 ==> ParseChunkFileName(ChunkFileName(key)) != Some(key)
  {
    var name := ChunkFileName(key);
    var version := Sanitize(key.version);
    var base := version + "-" + FormatInt(key.index);
    assert name == base + ".chunk";
    assert name[|name| - 6..] == ".chunk" && name[..|name| - 6] == base;
    SanitizeNonempty(key.version);
    ParseFormat(key.index);
    if key.index >= 0 {
      LastDashSplits(version, FormatInt(key.index));
      assert base[..|version|] == version && base[|version| + 1..] == FormatInt(key.index);
    }
  }

  /** A chunk file gives its key back exactly when the version is nonempty, needs no sanitizing,
      and the index is not negative. */
  lemma FileNameRoundTrip(key: ChunkKey)
    ensures ParseChunkFileName(ChunkFileName(key)) == Some(key)
      <==> key.version != "" && Sanitize(key.version) == key.version && key.index >= 0
  {
    ParseOfName(key);
  }

  predicate PlainChar(c: char) { !Unsafe(c) && c != '.' }

  lemma {:induction false} SanitizePlain(s: string)
    requires forall i :: 0 <= i < |s| ==> PlainChar(s[i])
    ensures Sanitize(s) == s
  {
    if s != "" {
      assert PlainChar(s[0]);
      SanitizePlain(s[1..]);
      assert s == [s[0]] + s[1..];
    }
  }

  /** Distinct chunks of numeric files live in distinct disk files, and each file names its chunk. */
  lemma ChunkFilesDistinct(f: File, i: int, g: File, j: int, chunkSize: int)
    requires NumericFsid(f.fsid) && NumericFsid(g.fsid) && i >= 0 && j >= 0
    requires ChunkFileName(ChunkKey(ChunkVersion(f, chunkSize), i)) == ChunkFileName(ChunkKey(ChunkVersion(g, chunkSize), j))
    ensures f == g && i == j
  {
    PlainVersion(f, chunkSize);
    PlainVersion(g, chunkSize);
    FileNameRoundTrip(ChunkKey(ChunkVersion(f, chunkSize), i));
    FileNameRoundTrip(ChunkKey(ChunkVersion(g, chunkSize), j));
    ChunkVersionInjective(f, chunkSize, g, chunkSize);
  }

  lemma PlainFormat(n: int)
    ensures forall i :: 0 <= i < |FormatInt(n)| ==> PlainChar(FormatInt(n)[i])
  {
    var d := if n < 0 then Digits(-n) else Digits(n);
    assert forall i :: 0 <= i < |d| ==> IsDigit(d[i]);
  }

  lemma PlainVersion(f: File, chunkSize: int)
    requires NumericFsid(f.fsid)
    ensures ChunkVersion(f, chunkSize) != "" && Sanitize(ChunkVersion(f, chunkSize)) == ChunkVersion(f, chunkSize)
  {
    PlainFormat(f.size); PlainFormat(f.mtm); PlainFormat(chunkSize);
    assert forall i :: 0 <= i < |f.fsid| ==> IsDigit(f.fsid[i]);
    SanitizePlain(ChunkVersion(f, chunkSize));
  }
}

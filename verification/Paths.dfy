/** Slash-separated paths: cleaning, joining, the last element, and the paths of children. */
module Paths {
  // ---------- splitting and rendering ----------

  function Split(s: string): (r: seq<string>)
    ensures |r| >= 1
  {
    if s == "" then [""] else Prepend(s[0], Split(s[1..]))
  }

  function Prepend(c: char, rest: seq<string>): seq<string>
    requires |rest| >= 1
  {
    if c == '/' then [""] + rest else [[c] + rest[0]] + rest[1..]
  }

  function Render(segments: seq<string>): string
  {
    if segments == [] then ""
    else if |segments| == 1 then segments[0]
    else segments[0] + "/" + Render(segments[1..])
  }

  lemma PrependJoin(c: char, x: seq<string>, y: seq<string>)
    requires |x| >= 1
    ensures Prepend(c, x + y) == Prepend(c, x) + y
  {
    assert (x + y)[1..] == x[1..] + y;
  }

  lemma {:induction false} SplitSlash(a: string, b: string)
    ensures Split(a + "/" + b) == Split(a) + Split(b)
  {
    var s := a + "/" + b;
    if a == "" {
      assert s[1..] == b && s[0] == '/';
    } else {
      var t := a[1..];
      SplitSlash(t, b);
      assert s[1..] == t + "/" + b && s[0] == a[0];
      PrependJoin(a[0], Split(t), Split(b));
    }
  }

  predicate NoSlash(s: string) { forall i :: 0 <= i < |s| ==> s[i] != '/' }

  lemma {:induction false} SplitPlain(s: string)
    requires NoSlash(s)
    ensures Split(s) == [s]
  {
    if s != "" {
      SplitPlain(s[1..]);
      assert Prepend(s[0], [s[1..]]) == [[s[0]] + s[1..]];
      assert [s[0]] + s[1..] == s;
    }
  }

  lemma {:induction false} SplitHasNoSlash(s: string, k: nat)
    requires k < |Split(s)|
    ensures NoSlash(Split(s)[k])
  {
    if s != "" {
      if s[0] == '/' {
        if k > 0 { SplitHasNoSlash(s[1..], k - 1); }
      } else {
        SplitHasNoSlash(s[1..], k);
      }
    }
  }

  // ---------- cleaning ----------

  /** A name a directory entry can have. */
  predicate ValidName(s: string) { s != "" && s != "." && s != ".." && NoSlash(s) }

  ghost predicate ValidNames(names: seq<string>) { forall k :: 0 <= k < |names| ==> ValidName(names[k]) }

  /** Removes empty and "." elements and resolves "..". */
  function CleanSegments(rooted: bool, done: seq<string>, segments: seq<string>): seq<string>
    decreases |segments|
  {
    if segments == [] then done
    else CleanSegments(rooted, CleanOne(rooted, done, segments[0]), segments[1..])
  }

  function CleanOne(rooted: bool, done: seq<string>, s: string): seq<string>
  {
    if s == "" || s == "." then done
    else if s == ".." then
      if done != [] && done[|done| - 1] != ".." then done[..|done| - 1]
      else if rooted then done
      else done + [s]
    else done + [s]
  }

  function Clean(path: string): string
  {
    if path == "" then "."
    else
      var rooted := path[0] == '/';
      var out := Render(CleanSegments(rooted, [], Split(path)));
      if rooted then "/" + out else if out == "" then "." else out
  }

  /** Joins two elements, ignoring empty ones. */
  function Join(a: string, b: string): string
  {
    if a == "" && b == "" then ""
    else if a == "" then Clean(b)
    else if b == "" then Clean(a)
    else Clean(a + "/" + b)
  }

  lemma {:induction false} CleanTwice(rooted: bool, done: seq<string>, a: seq<string>, b: seq<string>)
    ensures CleanSegments(rooted, done, a + b) == CleanSegments(rooted, CleanSegments(rooted, done, a), b)
    decreases |a|
  {
    if a == [] {
      assert a + b == b;
    } else {
      assert (a + b)[1..] == a[1..] + b;
      CleanTwice(rooted, CleanOne(rooted, done, a[0]), a[1..], b);
    }
  }

  /** A rooted path cleans to valid names. */
  lemma {:induction false} CleanIsValid(done: seq<string>, segments: seq<string>)
    requires ValidNames(done) && forall k :: 0 <= k < |segments| ==> NoSlash(segments[k])
    ensures ValidNames(CleanSegments(true, done, segments))
    decreases |segments|
  {
    if segments != [] {
      assert NoSlash(segments[0]);
      CleanIsValid(CleanOne(true, done, segments[0]), segments[1..]);
    }
  }

  lemma {:induction false} RenderSnoc(names: seq<string>, name: string)
    ensures Render(names + [name]) == if names == [] then name else Render(names) + "/" + name
  {
    if |names| == 0 {
      assert names + [name] == [name];
    } else {
      var all := names + [name];
      assert all[1..] == names[1..] + [name] && all[0] == names[0] && |all| > 1;
      RenderSnoc(names[1..], name);
      if |names| > 1 {
        assert names[0] + "/" + (Render(names[1..]) + "/" + name) == (names[0] + "/" + Render(names[1..])) + "/" + name;
      }
    }
  }

  // ---------- roots and children ----------

  /** A cleaned absolute path. */
  predicate Normal(path: string) { path != "" && path[0] == '/' && Clean(path) == path }

  function Child(dir: string, name: string): string
  {
    if dir == "/" then "/" + name else dir + "/" + name
  }

  /** The names on a normal path. */
  lemma NormalNames(path: string) returns (names: seq<string>)
    requires Normal(path)
    ensures ValidNames(names) && path == "/" + Render(names) && names == CleanSegments(true, [], Split(path))
    ensures path == "/" <==> names == []
  {
    names := CleanSegments(true, [], Split(path));
    forall k | 0 <= k < |Split(path)| ensures NoSlash(Split(path)[k]) { SplitHasNoSlash(path, k); }
    CleanIsValid([], Split(path));
    if names != [] { assert ValidName(names[0]); assert Render(names) != ""; }
  }

  lemma SplitChild(dir: string, name: string)
    requires ValidName(name)
    ensures Split(dir + "/" + ("/" + name)) == Split(dir) + ["", name]
  {
    SplitSlash(dir, "/" + name);
    SplitSlash("", name);
    assert "" + "/" + name == "/" + name;
    SplitPlain(name);
    assert [""] + [name] == ["", name];
  }

  lemma CleanTail(names: seq<string>, name: string)
    requires ValidName(name)
    ensures CleanSegments(true, names, ["", name]) == names + [name]
  {
    var tail := ["", name];
    assert tail[1..] == [name] && [name][1..] == [];
    assert CleanOne(true, names, "") == names;
    assert CleanSegments(true, names, [name]) == CleanSegments(true, names + [name], []);
  }

  lemma SlashFirst(a: string, b: string)
    ensures "/" + (a + "/" + b) == ("/" + a) + "/" + b
  {
  }

  /** Joining a normal directory with the absolute path of a name in it gives the child. */
  lemma JoinChild(dir: string, name: string)
    requires Normal(dir) && ValidName(name)
    ensures Join(dir, "/" + name) == Child(dir, name)
  {
    var names := NormalNames(dir);
    var whole := dir + "/" + ("/" + name);
    SplitChild(dir, name);
    CleanTwice(true, [], Split(dir), ["", name]);
    CleanTail(names, name);
    RenderSnoc(names, name);
    assert whole[0] == '/' && Clean(whole) == "/" + Render(names + [name]);
    if dir != "/" { SlashFirst(Render(names), name); }
  }

  /** Going up from a name, or staying with ".", leads back to the directory; and from the top nowhere. */
  lemma UpFromChild(dir: string, name: string)
    requires Normal(dir) && ValidName(name)
    ensures Clean(dir + "/" + (name + "/" + "..")) == dir && Clean(dir + "/" + ".") == dir && Clean("/" + "..") == "/"
  {
    var names := NormalNames(dir);
    var tail := [name, ".."];
    SplitSlash(dir, name + "/" + "..");
    SplitSlash(name, "..");
    SplitSlash(dir, ".");
    SplitSlash("", "..");
    SplitPlain(name);
    SplitPlain("..");
    SplitPlain(".");
    assert [name] + [".."] == tail && tail[1..] == [".."] && [".."][1..] == [] && ["."][1..] == [];
    CleanTwice(true, [], Split(dir), tail);
    CleanTwice(true, [], Split(dir), ["."]);
    assert CleanOne(true, names, name) == names + [name] && CleanOne(true, names + [name], "..") == names;
    assert CleanSegments(true, names, tail) == CleanSegments(true, names + [name], [".."]) == CleanSegments(true, names, []);
    assert CleanSegments(true, names, ["."]) == CleanSegments(true, names, []);
    assert "" + "/" + ".." == "/" + ".." && [""] + [".."] == ["", ".."] && ["", ".."][1..] == [".."];
    assert CleanSegments(true, [], ["", ".."]) == CleanSegments(true, [], [".."]) == CleanSegments(true, [], []);
  }

  // ---------- last elements ----------

  function AfterLastSlash(s: string): string
  {
    if s == "" || s[|s| - 1] == '/' then "" else AfterLastSlash(s[..|s| - 1]) + [s[|s| - 1]]
  }

  function BeforeLastSlash(s: string): string
  {
    if s == "" then "" else if s[|s| - 1] == '/' then s[..|s| - 1] else BeforeLastSlash(s[..|s| - 1])
  }

  function TrimSlashes(s: string): string
  {
    if s != "" && s[|s| - 1] == '/' then TrimSlashes(s[..|s| - 1]) else s
  }

  /** The last element of a path. */
  function Base(path: string): string
  {
    if path == "" then "."
    else
      var s := TrimSlashes(path);
      if s == "" then "/" else AfterLastSlash(s)
  }

  lemma {:induction false} LastElement(dir: string, name: string)
    requires NoSlash(name)
    ensures AfterLastSlash(dir + "/" + name) == name && BeforeLastSlash(dir + "/" + name) == dir
    decreases |name|
  {
    var s := dir + "/" + name;
    if name == "" {
      assert s[..|s| - 1] == dir;
    } else {
      var rest := name[..|name| - 1];
      assert s[..|s| - 1] == dir + "/" + rest && s[|s| - 1] == name[|name| - 1];
      LastElement(dir, rest);
      assert rest + [name[|name| - 1]] == name;
    }
  }

  lemma ChildBase(dir: string, name: string)
    requires ValidName(name)
    ensures Base(Child(dir, name)) == name
  {
    var s := Child(dir, name);
    assert s[|s| - 1] == name[|name| - 1];
    assert "" + "/" + name == "/" + name;
    LastElement(if dir == "/" then "" else dir, name);
  }

  /** A child determines its directory and its name. */
  lemma ChildInjective(d: string, m: string, e: string, n: string)
    requires ValidName(m) && ValidName(n) && d != "" && e != "" && Child(d, m) == Child(e, n)
    ensures d == e && m == n
  {
    assert "" + "/" + m == "/" + m && "" + "/" + n == "/" + n;
    LastElement(if d == "/" then "" else d, m);
    LastElement(if e == "/" then "" else e, n);
  }

  // ---------- subtrees ----------

  /** The path is the directory or lies below it. */
  predicate Under(dir: string, path: string)
  {
    path == dir || Below(dir, path)
  }

  predicate Below(dir: string, path: string)
  {
    var prefix := if dir == "/" then "/" else dir + "/";
    |path| > |prefix| && path[..|prefix|] == prefix
  }

  lemma ChildBelow(dir: string, name: string)
    requires ValidName(name)
    ensures Below(dir, Child(dir, name)) && Child(dir, name) != dir
  {
  }

  /** What is under a child is below the directory. */
  lemma UnderChild(dir: string, name: string, path: string)
    requires ValidName(name) && Under(Child(dir, name), path)
    ensures Below(dir, path) && path != dir
  {
    var prefix := if dir == "/" then "/" else dir + "/";
    var child := Child(dir, name);
    assert child == prefix + name;
    assert path[..|child|] == child;
    assert path[..|prefix|] == path[..|child|][..|prefix|] == prefix;
  }

  function UntilSlash(s: string): string
  {
    if s == "" || s[0] == '/' then "" else [s[0]] + UntilSlash(s[1..])
  }

  lemma {:induction false} UntilSlashOf(name: string, rest: string)
    requires NoSlash(name) && (rest == "" || rest[0] == '/')
    ensures UntilSlash(name + rest) == name
  {
    if name == "" {
      assert name + rest == rest;
    } else {
      UntilSlashOf(name[1..], rest);
      assert (name + rest)[1..] == name[1..] + rest;
      assert [name[0]] + name[1..] == name;
    }
  }

  lemma AfterPrefix(a: string, b: string, c: string)
    ensures (a + b + c)[|a|..] == b + c
  {
  }

  /** The first name below the directory, of whatever is under a child, is the child's. */
  lemma UnderNames(dir: string, name: string, path: string)
    requires ValidName(name) && Under(Child(dir, name), path)
    ensures var prefix := if dir == "/" then "/" else dir + "/";
      |path| >= |prefix| && UntilSlash(path[|prefix|..]) == name
  {
    var prefix := if dir == "/" then "/" else dir + "/";
    var child := prefix + name;
    assert Child(dir, name) == child && path[..|child|] == child;
    var rest := path[|child|..];
    assert path == prefix + name + rest;
    AfterPrefix(prefix, name, rest);
    if path != child { assert path[..|child| + 1][|child|] == '/'; }
    UntilSlashOf(name, rest);
  }

  /** Nothing is under two children of different names. */
  lemma UnderOneChild(dir: string, m: string, n: string, path: string)
    requires ValidName(m) && ValidName(n) && Under(Child(dir, m), path) && Under(Child(dir, n), path)
    ensures m == n
  {
    UnderNames(dir, m, path);
    UnderNames(dir, n, path);
  }
}

/** Node's `path.normalize` and `path.join` on POSIX paths, for paths taken
    relative to one directory (the server's): the text between slashes is cut
    into segments, which are resolved from left to right. An absolute path
    stops climbing at the filesystem root; that cap is not modelled. */
module Paths {
  import opened Strings

  /** A segment that names an entry, so that a following `..` cancels it. */
  predicate Plain(seg: string) {
    seg != "" && seg != "." && seg != ".." && '/' !in seg
  }

  /** A resolved segment list: no empty or `.` segment, and every `..` is at
      the front. */
  predicate Resolved(segs: seq<string>) {
    && (forall i :: 0 <= i < |segs| ==> segs[i] != "" && segs[i] != ".")
    && (forall i, j :: 0 <= i < j < |segs| && segs[j] == ".." ==> segs[i] == "..")
  }

  /** The segments `segs` resolved onto the already resolved `acc`: empty and
      `.` segments vanish, and `..` removes the segment before it unless
      there is none or that one is itself `..`, in which case it stays. */
  function Resolve(acc: seq<string>, segs: seq<string>): (r: seq<string>)
    requires Resolved(acc)
    ensures Resolved(r)
    ensures |r| <= |acc| + |segs|
    decreases |segs|
  {
    if segs == [] then acc
    else if segs[0] == "" || segs[0] == "." then Resolve(acc, segs[1..])
    else if segs[0] == ".." && acc != [] && acc[|acc| - 1] != ".." then Resolve(acc[..|acc| - 1], segs[1..])
    else
      assert segs[0] == ".." ==> forall i :: 0 <= i < |acc| ==> acc[i] == "..";
      Resolve(acc + [segs[0]], segs[1..])
  }

  /** `path.normalize(p)` for a p that does not start with a slash: the
      resolved segments joined by slashes, `.` when none is left, and a
      trailing slash kept. */
  function Normalize(p: string): (r: string)
    ensures r != ""
  {
    var segs := Resolve([], Split(p, '/'));
    var trailing := |p| > 0 && p[|p| - 1] == '/';
    if segs == [] then (if trailing then "./" else ".")
    else Join(segs, '/') + (if trailing then "/" else "")
  }

  /** `path.join(base, rest)` for a non-empty base: an empty rest is dropped,
      otherwise the two are glued with a slash and normalised. */
  function JoinPath(base: string, rest: string): string {
    Normalize(if rest == "" then base else base + "/" + rest)
  }

  /** Resolving plain segments keeps them all. */
  lemma {:induction false} ResolvePlain(acc: seq<string>, segs: seq<string>)
    requires Resolved(acc)
    requires forall i :: 0 <= i < |segs| ==> Plain(segs[i])
    ensures Resolve(acc, segs) == acc + segs
    decreases |segs|
  {
    if segs != [] {
      assert Plain(segs[0]);
      ResolvePlain(acc + [segs[0]], segs[1..]);
      assert acc + [segs[0]] + segs[1..] == acc + segs;
    }
  }

  /** One segment that names an entry is pushed onto the resolved prefix. */
  lemma ResolvePush(acc: seq<string>, seg: string, rest: seq<string>)
    requires Resolved(acc) && Plain(seg)
    ensures Resolve(acc, [seg] + rest) == Resolve(acc + [seg], rest)
  {
    assert ([seg] + rest)[1..] == rest;
  }

  /** An empty or `.` segment is dropped. */
  lemma ResolveSkip(acc: seq<string>, seg: string, rest: seq<string>)
    requires Resolved(acc) && (seg == "" || seg == ".")
    ensures Resolve(acc, [seg] + rest) == Resolve(acc, rest)
  {
    assert ([seg] + rest)[1..] == rest;
  }

  /** A `..` with nothing to cancel stays. */
  lemma ResolveKeepsClimb(rest: seq<string>)
    ensures Resolve([], [".."] + rest) == Resolve([".."], rest)
  {
    var segs := [".."] + rest;
    assert segs[0] == ".." && segs[1..] == rest;
    assert [] + [".."] == [".."];
  }

  /** Join peels its first part off. */
  lemma JoinCons(a: string, rest: seq<string>)
    requires |rest| >= 1
    ensures Join([a] + rest, '/') == a + "/" + Join(rest, '/')
  {
    assert ([a] + rest)[1..] == rest;
  }

  /** Split undoes Join on slash-free parts. */
  lemma {:induction false} SplitJoined(segs: seq<string>)
    requires |segs| >= 1
    requires forall k :: 0 <= k < |segs| ==> '/' !in segs[k]
    ensures Split(Join(segs, '/'), '/') == segs
  {
    if |segs| == 1 {
      SplitNone(segs[0], '/');
    } else {
      SplitJoined(segs[1..]);
      SplitAfter(segs[0], '/', Join(segs[1..], '/'));
      assert [segs[0]] + segs[1..] == segs;
    }
  }

  /** A joined path ends where its last part ends. */
  lemma {:induction false} JoinLast(segs: seq<string>)
    requires |segs| >= 1 && segs[|segs| - 1] != ""
    ensures var p := Join(segs, '/'); |p| > 0 && p[|p| - 1] == segs[|segs| - 1][|segs[|segs| - 1]| - 1]
  {
    if |segs| > 1 {
      JoinLast(segs[1..]);
    }
  }

  /** Normalising a joined path that does not end in a slash resolves its
      parts. */
  lemma NormalizeJoined(segs: seq<string>)
    requires |segs| >= 1 && segs[|segs| - 1] != ""
    requires forall k :: 0 <= k < |segs| ==> '/' !in segs[k]
    ensures Normalize(Join(segs, '/'))
            == (var r := Resolve([], segs); if r == [] then "." else Join(r, '/'))
  {
    SplitJoined(segs);
    JoinLast(segs);
    var last := segs[|segs| - 1];
    assert last[|last| - 1] in last;
  }

  /** A plain name joined onto a plain two-level directory stays under it. */
  lemma JoinPlainName(dir: string, sub: string, name: string)
    requires Plain(dir) && Plain(sub) && Plain(name)
    ensures JoinPath(dir + "/" + sub, name) == dir + "/" + sub + "/" + name
  {
    JoinCons(sub, [name]);
    JoinCons(dir, [sub, name]);
    assert dir + "/" + sub + "/" + name == Join([dir, sub, name], '/');
    NormalizeJoined([dir, sub, name]);
    ResolvePlain([], [dir, sub, name]);
    assert [] + [dir, sub, name] == [dir, sub, name];
  }

  /** A directory, a slash-led path below it and a plain file name join to
      the path one would write by hand. */
  lemma JoinPlain(dir: string, sub: string, name: string)
    requires Plain(dir) && Plain(sub) && Plain(name)
    ensures JoinPath(dir, "/" + sub + "/" + name) == dir + "/" + sub + "/" + name
  {
    PlainJoin(dir, sub, name);
    NormalizeJoined([dir, "", sub, name]);
    PlainResolves(dir, sub, name);
    JoinCons(sub, [name]);
    JoinCons(dir, [sub, name]);
  }

  lemma PlainResolves(dir: string, sub: string, name: string)
    requires Plain(dir) && Plain(sub) && Plain(name)
    ensures Resolve([], [dir, "", sub, name]) == [dir, sub, name]
  {
    assert [dir, "", sub, name] == [dir] + ["", sub, name];
    ResolvePush([], dir, ["", sub, name]);
    assert [] + [dir] == [dir];
    ResolveSkip([dir], "", [sub, name]);
    assert [""] + [sub, name] == ["", sub, name];
    ResolvePlain([dir], [sub, name]);
    assert [dir] + [sub, name] == [dir, sub, name];
  }

  lemma PlainJoin(dir: string, sub: string, name: string)
    ensures dir + "/" + ("/" + sub + "/" + name) == Join([dir, "", sub, name], '/')
  {
    JoinCons(sub, [name]);
    JoinCons("", [sub, name]);
    JoinCons(dir, ["", sub, name]);
  }

  lemma ClimbJoin(dir: string, name: string)
    ensures dir + "/" + ("/../" + name) == Join([dir, "", "..", name], '/')
  {
    JoinCons("..", [name]);
    JoinCons("", ["..", name]);
    JoinCons(dir, ["", "..", name]);
  }

  lemma ClimbTwiceJoin(dir: string, name: string)
    ensures dir + "/" + ("/../../" + name) == Join([dir, "", "..", "..", name], '/')
  {
    JoinCons("..", [name]);
    JoinCons("..", ["..", name]);
    JoinCons("", ["..", "..", name]);
    JoinCons(dir, ["", "..", "..", name]);
  }

  /** A `..` right after the directory cancels it: the name lands beside the
      directory, not inside it. */
  lemma JoinClimbsOut(dir: string, name: string)
    requires Plain(dir) && Plain(name)
    ensures JoinPath(dir, "/../" + name) == name
  {
    ClimbJoin(dir, name);
    NormalizeJoined([dir, "", "..", name]);
    ClimbResolves(dir, name);
  }

  lemma ClimbResolves(dir: string, name: string)
    requires Plain(dir) && Plain(name)
    ensures Resolve([], [dir, "", "..", name]) == [name]
  {
    assert [dir, "", "..", name] == [dir] + ["", "..", name];
    ResolvePush([], dir, ["", "..", name]);
    assert [] + [dir] == [dir];
    ResolveSkip([dir], "", ["..", name]);
    assert [""] + ["..", name] == ["", "..", name];
    assert Resolve([dir], ["..", name]) == Resolve([], [name]);
    ResolvePlain([], [name]);
  }

  /** Two `..` after the directory leave the base directory altogether. */
  lemma JoinClimbsTwice(dir: string, name: string)
    requires Plain(dir) && Plain(name)
    ensures JoinPath(dir, "/../../" + name) == "../" + name
  {
    ClimbTwiceJoin(dir, name);
    NormalizeJoined([dir, "", "..", "..", name]);
    ClimbTwiceResolves(dir, name);
    JoinCons("..", [name]);
  }

  lemma ClimbTwiceResolves(dir: string, name: string)
    requires Plain(dir) && Plain(name)
    ensures Resolve([], [dir, "", "..", "..", name]) == ["..", name]
  {
    assert [dir, "", "..", "..", name] == [dir] + ["", "..", "..", name];
    ResolvePush([], dir, ["", "..", "..", name]);
    assert [] + [dir] == [dir];
    ResolveSkip([dir], "", ["..", "..", name]);
    assert [""] + ["..", "..", name] == ["", "..", "..", name];
    assert Resolve([dir], ["..", "..", name]) == Resolve([], ["..", name]);
    ResolveKeepsClimb([name]);
    assert [".."] + [name] == ["..", name];
    ResolvePlain([".."], [name]);
  }

  /** A `.` segment changes nothing. */
  lemma JoinSkipsDot(dir: string, sub: string, name: string)
    requires Plain(dir) && Plain(sub) && Plain(name)
    ensures JoinPath(dir, "/" + sub + "/./" + name) == dir + "/" + sub + "/" + name
  {
    var segs := [dir, "", sub, ".", name];
    DottedJoin(dir, sub, name);
    NormalizeJoined(segs);
    DottedResolve(dir, sub, name);
    JoinCons(sub, [name]);
    JoinCons(dir, [sub, name]);
  }

  lemma DottedJoin(dir: string, sub: string, name: string)
    ensures dir + "/" + ("/" + sub + "/./" + name) == Join([dir, "", sub, ".", name], '/')
  {
    JoinCons(".", [name]);
    JoinCons(sub, [".", name]);
    JoinCons("", [sub, ".", name]);
    JoinCons(dir, ["", sub, ".", name]);
  }

  lemma DottedResolve(dir: string, sub: string, name: string)
    requires Plain(dir) && Plain(sub) && Plain(name)
    ensures Resolve([], [dir, "", sub, ".", name]) == [dir, sub, name]
  {
    assert [dir, "", sub, ".", name] == [dir] + ["", sub, ".", name];
    ResolvePush([], dir, ["", sub, ".", name]);
    assert [] + [dir] == [dir];
    ResolveSkip([dir], "", [sub, ".", name]);
    assert [""] + [sub, ".", name] == ["", sub, ".", name];
    ResolvePush([dir], sub, [".", name]);
    assert [sub] + [".", name] == [sub, ".", name] && [dir] + [sub] == [dir, sub];
    ResolveSkip([dir, sub], ".", [name]);
    assert ["."] + [name] == [".", name];
    ResolvePlain([dir, sub], [name]);
  }
}

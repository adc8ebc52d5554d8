/**
 * The POSIX behaviour of Node's path.join, path.normalize and path.extname that the static
 * server relies on, over '/'-separated segments.
 */
module Paths {
  import opened Base
  import Text

  /** A piece of a path between separators. */
  type Segment = s: string | '/' !in s

  /** `p.split('/')`: the pieces between separators, read from the left. */
  function Split(p: string): (r: seq<Segment>)
    ensures |r| >= 1
  {
    if p == [] then [""]
    else
      var rest := Split(p[1..]);
      if p[0] == '/' then [""] + rest
      else [[p[0]] + rest[0]] + rest[1..]
  }

  /** Splitting at a separator splits the two sides independently. */
  lemma {:induction false} SplitAppend(x: string, y: string)
    ensures Split(x + "/" + y) == Split(x) + Split(y)
  {
    if x == [] {
      var s := x + "/" + y;
      assert s[1..] == y;
    } else {
      var c, t := x[0], x[1..];
      SplitAppend(t, y);
      assert x == [c] + t;
      assert x + "/" + y == [c] + (t + "/" + y);
      SplitHead(c, t);
      SplitHead(c, t + "/" + y);
      SplitAppendStep(c, Split([c] + t), Split(t), Split(y));
    }
  }

  /** One unfolding of `Split` at its first character. */
  lemma SplitHead(c: char, t: string)
    ensures Split([c] + t) == if c == '/' then [""] + Split(t) else [[c] + Split(t)[0]] + Split(t)[1..]
  {
    assert ([c] + t)[1..] == t;
  }

  lemma SplitAppendStep(c: char, head: seq<string>, a: seq<string>, b: seq<string>)
    requires a != []
    requires head == if c == '/' then [""] + a else [[c] + a[0]] + a[1..]
    ensures (if c == '/' then [""] + (a + b) else [[c] + (a + b)[0]] + (a + b)[1..]) == head + b
  {
    if c != '/' {
      assert (a + b)[0] == a[0];
      assert (a + b)[1..] == a[1..] + b;
    }
  }

  lemma {:induction false} SplitPlain(x: string)
    requires '/' !in x
    ensures Split(x) == [x]
  {
    if x != [] {
      assert '/' !in x[1..] by {
        assert forall k :: 0 <= k < |x[1..]| ==> x[1..][k] == x[k + 1];
      }
      SplitPlain(x[1..]);
      assert [x[0]] + x[1..] == x;
    }
  }

  lemma SplitCons(x: string, rest: string)
    requires '/' !in x
    ensures Split(x + "/" + rest) == [x] + Split(rest)
  {
    SplitAppend(x, rest);
    SplitPlain(x);
  }

  /** A segment normalisation keeps: not empty, not '.', not '..'. */
  predicate IsName(seg: string) {
    seg != "" && seg != "." && seg != ".." && '/' !in seg
  }

  predicate AllNames(segs: seq<string>) {
    forall i :: 0 <= i < |segs| ==> IsName(segs[i])
  }

  /** normalizeString for an absolute path: empty and '.' segments are skipped, '..' drops the
      last kept segment and is ignored at the root. */
  function Resolve(kept: seq<string>, segs: seq<Segment>): (r: seq<string>)
    requires AllNames(kept)
    ensures AllNames(r)
    decreases |segs|
  {
    if segs == [] then kept
    else
      var s := segs[0];
      if s == "" || s == "." then Resolve(kept, segs[1..])
      else if s == ".." then Resolve(if kept == [] then [] else kept[..|kept| - 1], segs[1..])
      else Resolve(kept + [s], segs[1..])
  }

  lemma {:induction false} ResolveAppend(kept: seq<string>, a: seq<Segment>, b: seq<Segment>)
    requires AllNames(kept)
    ensures Resolve(kept, a + b) == Resolve(Resolve(kept, a), b)
    decreases |a|
  {
    if a != [] {
      assert (a + b)[1..] == a[1..] + b;
      var s := a[0];
      if s == "" || s == "." {
        ResolveAppend(kept, a[1..], b);
      } else if s == ".." {
        ResolveAppend(if kept == [] then [] else kept[..|kept| - 1], a[1..], b);
      } else {
        ResolveAppend(kept + [s], a[1..], b);
      }
    } else {
      assert a + b == b;
    }
  }

  /** The names among `segs`, in order. */
  function Names(segs: seq<string>): seq<string> {
    if segs == [] then []
    else (if IsName(segs[0]) then [segs[0]] else []) + Names(segs[1..])
  }

  /** Without '..' segments nothing already kept is ever dropped. */
  lemma {:induction false} ResolveWithoutParent(kept: seq<string>, segs: seq<Segment>)
    requires AllNames(kept)
    requires forall i :: 0 <= i < |segs| ==> segs[i] != ".."
    ensures Resolve(kept, segs) == kept + Names(segs)
    decreases |segs|
  {
    if segs != [] {
      var s := segs[0];
      if s == "" || s == "." {
        ResolveWithoutParent(kept, segs[1..]);
      } else {
        ResolveWithoutParent(kept + [s], segs[1..]);
      }
    }
  }

  /** `segs.join('/')`. */
  function JoinSegments(segs: seq<string>): string {
    if segs == [] then "" else if |segs| == 1 then segs[0] else segs[0] + "/" + JoinSegments(segs[1..])
  }

  lemma {:induction false} JoinSegmentsAppend(a: seq<string>, b: seq<string>)
    requires a != [] && b != []
    ensures JoinSegments(a + b) == JoinSegments(a) + "/" + JoinSegments(b)
  {
    if |a| == 1 {
      assert (a + b)[1..] == b;
    } else {
      assert (a + b)[1..] == a[1..] + b;
      JoinSegmentsAppend(a[1..], b);
    }
  }

  lemma {:induction false} SplitJoinSegments(segs: seq<string>)
    requires segs != [] && AllNames(segs)
    ensures Split(JoinSegments(segs)) == segs
  {
    if |segs| == 1 {
      SplitPlain(segs[0]);
    } else {
      SplitCons(segs[0], JoinSegments(segs[1..]));
      SplitJoinSegments(segs[1..]);
    }
  }

  predicate IsAbsolute(p: string) { p != [] && p[0] == '/' }

  /** path.posix.normalize for an absolute path. */
  function Normalize(p: string): (r: string)
    requires IsAbsolute(p)
    ensures IsAbsolute(r)
    ensures p[|p| - 1] == '/' ==> r[|r| - 1] == '/'
  {
    var body := JoinSegments(Resolve([], Split(p)));
    if body == "" then "/" else "/" + body + (if p[|p| - 1] == '/' then "/" else "")
  }

  /** path.posix.join(root, p) for an absolute root. */
  function Join(root: string, p: string): (r: string)
    requires IsAbsolute(root)
    ensures IsAbsolute(r)
  {
    Normalize(if p == "" then root else root + "/" + p)
  }

  /** Normalising a path does not change the segments it resolves to. */
  lemma NormalizeKeepsSegments(p: string)
    requires IsAbsolute(p)
    ensures Resolve([], Split(Normalize(p))) == Resolve([], Split(p))
  {
    var segs := Resolve([], Split(p));
    var q := PathOf(segs);
    ResolvePathOf(segs);
    if segs != [] {
      NormalizeOnto(p, segs);
      if p[|p| - 1] == '/' {
        SplitAppend(q, "");
        assert q + "/" == q + "/" + "";
        ResolveAppend([], Split(q), [""]);
        assert Split("") == [""];
        assert Resolve(segs, [""]) == Resolve(segs, []) == segs;
      } else {
        assert Normalize(p) == q + "" == q;
      }
    } else {
      assert Normalize(p) == q;
    }
  }

  /** path.join resolves the path's segments onto the root's. */
  lemma JoinResolves(root: string, p: string)
    requires IsAbsolute(root)
    ensures Resolve([], Split(Join(root, p))) ==
      if p == "" then Resolve([], Split(root)) else Resolve(Resolve([], Split(root)), Split(p))
  {
    var q := if p == "" then root else root + "/" + p;
    NormalizeKeepsSegments(q);
    if p != "" {
      SplitAppend(root, p);
      ResolveAppend([], Split(root), Split(p));
    }
  }

  /** The absolute path with the given segments; a process's working directory has this form. */
  function PathOf(segs: seq<string>): (r: string)
    ensures IsAbsolute(r)
  {
    if segs == [] then "/" else "/" + JoinSegments(segs)
  }

  /** `p` is `dir` itself or lies below it. */
  predicate Within(dir: string, p: string) {
    p == dir || StartsWith(p, if dir == "/" then "/" else dir + "/")
  }

  lemma SplitPathOf(segs: seq<string>)
    requires AllNames(segs)
    ensures Split(PathOf(segs)) == if segs == [] then ["", ""] else [""] + segs
  {
    if segs == [] {
      assert PathOf(segs) == "" + "/" + "";
      SplitCons("", "");
    } else {
      assert PathOf(segs) == "" + "/" + JoinSegments(segs);
      SplitCons("", JoinSegments(segs));
      SplitJoinSegments(segs);
    }
  }

  lemma ResolvePathOf(segs: seq<string>)
    requires AllNames(segs)
    ensures Resolve([], Split(PathOf(segs))) == segs
  {
    SplitPathOf(segs);
    if segs != [] {
      ResolveWithoutParent([], [""] + segs);
      NamesOfNames([""] + segs);
      assert ([""] + segs)[1..] == segs;
    } else {
      assert Resolve([], ["", ""]) == Resolve([], [""]) == Resolve([], []);
    }
  }

  lemma {:induction false} NamesOfNames(segs: seq<string>)
    requires |segs| >= 1 && segs[0] == "" && AllNames(segs[1..])
    ensures Names(segs) == segs[1..]
  {
    NamesAll(segs[1..]);
  }

  lemma {:induction false} NamesAreNames(segs: seq<string>)
    ensures AllNames(Names(segs))
  {
    if segs != [] {
      NamesAreNames(segs[1..]);
    }
  }

  lemma {:induction false} NamesAll(segs: seq<string>)
    requires AllNames(segs)
    ensures Names(segs) == segs
  {
    if segs != [] {
      NamesAll(segs[1..]);
    }
  }

  /** The segments kept when a path without '..' segments is joined onto a directory. */
  lemma ResolveJoined(rootSegs: seq<string>, p: string)
    requires AllNames(rootSegs)
    requires forall i :: 0 <= i < |Split(p)| ==> Split(p)[i] != ".."
    ensures p != "" ==> Resolve([], Split(PathOf(rootSegs) + "/" + p)) == rootSegs + Names(Split(p))
    ensures Resolve([], Split(PathOf(rootSegs))) == rootSegs
  {
    var root := PathOf(rootSegs);
    ResolvePathOf(rootSegs);
    if p != "" {
      SplitAppend(root, p);
      ResolveAppend([], Split(root), Split(p));
      ResolveWithoutParent(rootSegs, Split(p));
    }
  }

  /** A normalised path whose segments extend `rootSegs` lies within `PathOf(rootSegs)`. */
  lemma NormalizeWithin(rootSegs: seq<string>, q: string, tail: seq<string>)
    requires AllNames(rootSegs) && AllNames(tail) && IsAbsolute(q)
    requires Resolve([], Split(q)) == rootSegs + tail
    ensures Within(PathOf(rootSegs), Normalize(q))
  {
    if rootSegs == [] {
      WithinTop(Normalize(q));
    } else if tail == [] {
      assert rootSegs + tail == rootSegs;
      NormalizeOnto(q, rootSegs);
      WithinSelf(rootSegs, Normalize(q));
    } else {
      NormalizeOnto(q, rootSegs + tail);
      JoinSegmentsAppend(rootSegs, tail);
      WithinBelow(rootSegs, JoinSegments(tail), Normalize(q));
    }
  }

  /** Every absolute path lies within "/". */
  lemma WithinTop(r: string)
    requires IsAbsolute(r)
    ensures Within(PathOf([]), r)
  {
    assert r[..1] == "/";
  }

  /** A path normalises to the path of its resolved segments, keeping a trailing separator. */
  lemma NormalizeOnto(q: string, segs: seq<string>)
    requires IsAbsolute(q)
    requires segs != [] && AllNames(segs) && Resolve([], Split(q)) == segs
    ensures Normalize(q) == PathOf(segs) + (if q[|q| - 1] == '/' then "/" else "")
  {
    assert JoinSegments(segs) != "" by {
      if |segs| > 1 {
        assert JoinSegments(segs) == segs[0] + "/" + JoinSegments(segs[1..]);
      }
    }
  }

  lemma WithinSelf(segs: seq<string>, r: string)
    requires segs != [] && AllNames(segs)
    requires r == PathOf(segs) || r == PathOf(segs) + "/"
    ensures Within(PathOf(segs), r)
  {
    var root := PathOf(segs);
    assert root != "/" by {
      assert |JoinSegments(segs)| > 0 by {
        if |segs| > 1 {
          assert JoinSegments(segs) == segs[0] + "/" + JoinSegments(segs[1..]);
        }
      }
    }
    if r != root {
      assert r[..|root| + 1] == root + "/";
    }
  }

  lemma WithinBelow(segs: seq<string>, rest: string, r: string)
    requires segs != []
    requires r == "/" + (JoinSegments(segs) + "/" + rest) || r == "/" + (JoinSegments(segs) + "/" + rest) + "/"
    ensures Within(PathOf(segs), r)
  {
    var root := PathOf(segs);
    assert r == root + "/" + rest || r == root + "/" + rest + "/";
    assert r[..|root| + 1] == root + "/";
  }

  /** Joining a path without '..' segments onto a directory never leaves the directory. */
  lemma JoinStaysWithin(rootSegs: seq<string>, p: string)
    requires AllNames(rootSegs)
    requires forall i :: 0 <= i < |Split(p)| ==> Split(p)[i] != ".."
    ensures Within(PathOf(rootSegs), Join(PathOf(rootSegs), p))
  {
    ResolveJoined(rootSegs, p);
    var root := PathOf(rootSegs);
    if p == "" {
      assert rootSegs + [] == rootSegs;
      NormalizeWithin(rootSegs, root, []);
    } else {
      NamesAreNames(Split(p));
      NormalizeWithin(rootSegs, root + "/" + p, Names(Split(p)));
    }
  }

  /** Index of the last occurrence of `c` in `s`. */
  function LastIndexOf(s: string, c: char): (r: Option<nat>)
    ensures r.None? <==> c !in s
    ensures r.Some? ==> r.value < |s| && s[r.value] == c && c !in s[r.value + 1..]
  {
    if s == [] then None
    else if s[|s| - 1] == c then Some(|s| - 1)
    else
      var r := LastIndexOf(s[..|s| - 1], c);
      assert r.Some? ==> s[r.value + 1..] == s[..|s| - 1][r.value + 1..] + [s[|s| - 1]];
      r
  }

  /** The last non-empty segment: the base name, trailing separators ignored. */
  function BaseName(segs: seq<string>): string {
    if segs == [] then ""
    else if segs[|segs| - 1] != "" then segs[|segs| - 1]
    else BaseName(segs[..|segs| - 1])
  }

  /** The last occurrence is the one with no occurrence after it. */
  lemma LastIndexOfUnique(s: string, c: char, i: nat)
    requires i < |s| && s[i] == c && c !in s[i + 1..]
    ensures LastIndexOf(s, c) == Some(i)
  {
    assert s[i] in s;
  }

  /** path.posix.extname: from the last '.' of the base name, unless the base name has no
      '.', begins with its only '.', or is '..'. The result is a proper suffix of the base
      name that starts with its only '.'. */
  function Extname(p: string): (r: string)
    ensures var b := BaseName(Split(p));
      r == [] <==> '.' !in b || (b[0] == '.' && '.' !in b[1..]) || b == ".."
    ensures var b := BaseName(Split(p));
      r != [] ==> r[0] == '.' && '.' !in r[1..] && |r| < |b| && r == b[|b| - |r|..]
  {
    var b := BaseName(Split(p));
    match LastIndexOf(b, '.')
    case None => ""
    case Some(i) =>
      if i == 0 || b == ".." then ""
      else
        assert b[i..][1..] == b[i + 1..];
        assert '.' !in b[1..] ==> false by {
          assert b[i] == b[1..][i - 1];
        }
        b[i..]
  }

  /** A file that is not a dotfile keeps the extension after its last dot: `app.js`,
      `app.min.js`, `.eslintrc.json` and `notes.` give `.js`, `.js`, `.json` and `.`. */
  lemma ExtnameOfFile(dir: string, stem: string, ext: string)
    requires stem != [] && '/' !in stem
    requires '.' !in ext && '/' !in ext
    requires stem + "." + ext != ".."
    ensures Extname(dir + "/" + stem + "." + ext) == "." + ext
  {
    var name := stem + "." + ext;
    NameHasNoSlash(stem, ext);
    assert dir + "/" + stem + "." + ext == dir + "/" + name;
    BaseNameOfJoin(dir, name);
    LastDotOfName(stem, ext);
    assert name[|stem|..] == "." + ext;
  }

  /** A dotfile with no other dot, such as `.env`, has no extension. */
  lemma ExtnameOfDotFile(dir: string, rest: string)
    requires '.' !in rest && '/' !in rest
    ensures Extname(dir + "/" + "." + rest) == ""
  {
    var name := "." + rest;
    assert '/' !in name by {
      assert forall k :: 0 <= k < |name| ==> name[k] == if k == 0 then '.' else rest[k - 1];
    }
    assert dir + "/" + "." + rest == dir + "/" + name;
    BaseNameOfJoin(dir, name);
    assert name[1..] == rest;
  }

  lemma NameHasNoSlash(stem: string, ext: string)
    requires '/' !in stem && '/' !in ext
    ensures '/' !in stem + "." + ext
  {
    var name := stem + "." + ext;
    assert forall i :: 0 <= i < |name| ==> name[i] == (if i < |stem| then stem[i] else if i == |stem| then '.' else ext[i - |stem| - 1]);
  }

  /** The base name of `dir/name` is `name`. */
  lemma BaseNameOfJoin(dir: string, name: string)
    requires name != [] && '/' !in name
    ensures BaseName(Split(dir + "/" + name)) == name
  {
    SplitAppend(dir, name);
    SplitPlain(name);
    assert BaseName(Split(dir) + [name]) == name;
  }

  lemma LastDotOfName(stem: string, ext: string)
    requires '.' !in ext
    ensures LastIndexOf(stem + "." + ext, '.') == Some(|stem|)
  {
    var name := stem + "." + ext;
    assert name[|stem| + 1..] == ext;
    LastIndexOfUnique(name, '.', |stem|);
  }

  function LowerChar(c: char): char {
    if 'A' <= c <= 'Z' then (c as int - 'A' as int + 'a' as int) as char else c
  }

  /** `s.toLowerCase()` on the ASCII letters. */
  function Lower(s: string): (r: string)
    ensures |r| == |s| && forall i :: 0 <= i < |s| ==> r[i] == LowerChar(s[i])
  {
    seq(|s|, i requires 0 <= i < |s| => LowerChar(s[i]))
  }
}

/**
 * Stand-ins for the POSIX `os.path` functions the scripts use to form artifact paths:
 * `join` with two arguments, `dirname`, `basename`, `normpath`, `abspath` (with the
 * process's working directory as a parameter) and `relpath`. Each follows CPython's
 * `posixpath` algorithm on plain strings; POSIX's rule that keeps exactly two leading
 * slashes in `normpath` is the one part left out.
 */
module Paths {

  predicate IsAbsolute(p: string)
  {
    |p| > 0 && p[0] == '/'
  }

  predicate NoSlash(s: string)
  {
    '/' !in s
  }

  predicate AllSlashes(s: string)
  {
    forall j :: 0 <= j < |s| ==> s[j] == '/'
  }

  lemma NoSlashConcat(a: string, b: string)
    requires NoSlash(a) && NoSlash(b)
    ensures NoSlash(a + b)
  {
    assert forall c :: c in a + b ==> c in a || c in b;
  }

  /** `os.path.join(a, b)`: an absolute `b` replaces `a`; otherwise one separator is put between them. */
  function Join(a: string, b: string): (r: string)
    ensures IsAbsolute(a) ==> IsAbsolute(r)
    ensures IsAbsolute(b) ==> r == b
    ensures !IsAbsolute(b) ==> a <= r
  {
    if IsAbsolute(b) then b
    else if a == [] || a[|a| - 1] == '/' then a + b
    else a + "/" + b
  }

  /** `p.rfind('/') + 1`: the index just past the last separator, 0 when there is none. */
  function SplitPoint(p: string): (i: nat)
    ensures i <= |p|
  {
    if |p| == 0 then 0
    else if p[|p| - 1] == '/' then |p|
    else SplitPoint(p[..|p| - 1])
  }

  /** The split point follows a separator, and no separator comes after it. */
  lemma {:induction false} SplitPointSpec(p: string)
    ensures SplitPoint(p) > 0 ==> p[SplitPoint(p) - 1] == '/'
    ensures forall j :: SplitPoint(p) <= j < |p| ==> p[j] != '/'
    decreases |p|
  {
    if |p| > 0 && p[|p| - 1] != '/' {
      SplitPointSpec(p[..|p| - 1]);
    }
  }

  /** `s.rstrip('/')` */
  function RStripSlashes(s: string): (r: string)
    ensures r <= s
  {
    if |s| > 0 && s[|s| - 1] == '/' then RStripSlashes(s[..|s| - 1]) else s
  }

  /** What `rstrip` removed is separators only, and what it kept does not end in one. */
  lemma {:induction false} RStripSpec(s: string)
    ensures RStripSlashes(s) == [] || RStripSlashes(s)[|RStripSlashes(s)| - 1] != '/'
    ensures forall j :: |RStripSlashes(s)| <= j < |s| ==> s[j] == '/'
    decreases |s|
  {
    if |s| > 0 && s[|s| - 1] == '/' {
      RStripSpec(s[..|s| - 1]);
    }
  }

  /** `os.path.dirname(p)`: everything before the last separator, trailing separators removed
      unless the head consists of separators only (then stripping would leave nothing). */
  function Dirname(p: string): (r: string)
    ensures r <= p
    ensures p != [] && p[|p| - 1] != '/' ==> |r| < |p|
  {
    SplitPointSpec(p);
    var head := p[..SplitPoint(p)];
    var stripped := RStripSlashes(head);
    if stripped == [] then head else stripped
  }

  /** `os.path.basename(p)`: everything after the last separator. */
  function Basename(p: string): (r: string)
    ensures NoSlash(r)
  {
    SplitPointSpec(p);
    p[SplitPoint(p)..]
  }

  /** The shape every `dirname` result has: empty, separators only, or not ending in a separator. */
  predicate DirForm(d: string)
  {
    d == [] || AllSlashes(d) || d[|d| - 1] != '/'
  }

  lemma DirnameDirForm(p: string)
    ensures DirForm(Dirname(p))
  {
    var head := p[..SplitPoint(p)];
    RStripSpec(head);
  }

  /** Joining a name that does not end in a separator gives a path in dirname form. */
  lemma JoinNamedDirForm(a: string, b: string)
    requires b != [] && b[|b| - 1] != '/'
    ensures DirForm(Join(a, b))
  {
  }

  /** Joining a plain name onto a directory in dirname form is undone by `dirname` and `basename`. */
  lemma {:induction false} JoinSplits(d: string, name: string)
    requires DirForm(d) && NoSlash(name)
    ensures Dirname(Join(d, name)) == d
    ensures Basename(Join(d, name)) == name
  {
    var p := Join(d, name);
    SplitPointSpec(p);
    var i := SplitPoint(p);
    if d == [] {
      assert p == name;
      assert i == 0;
      assert p[..i] == [];
    } else if d[|d| - 1] == '/' {
      assert p == d + name;
      assert i == |d| by {
        assert p[|d| - 1] == '/';
      }
      assert p[..i] == d;
      RStripSpec(d);
      assert RStripSlashes(d) == [];
      assert p[i..] == name;
    } else {
      assert p == d + "/" + name;
      assert i == |d| + 1 by {
        assert p[|d|] == '/';
      }
      var head := p[..i];
      assert head == d + "/";
      assert head[..|head| - 1] == d;
      assert RStripSlashes(head) == RStripSlashes(d);
      assert RStripSlashes(d) == d;
      assert p[i..] == name;
    }
  }

  /** `s.split('/')` */
  function Split(s: string): (parts: seq<string>)
    ensures |parts| >= 1
    ensures forall k :: 0 <= k < |parts| ==> NoSlash(parts[k])
  {
    if |s| == 0 then [""]
    else
      var rest := Split(s[1..]);
      if s[0] == '/' then [""] + rest
      else [[s[0]] + rest[0]] + rest[1..]
  }

  /** `'/'.join(parts)` */
  function JoinAll(parts: seq<string>): string
  {
    if |parts| == 0 then ""
    else if |parts| == 1 then parts[0]
    else parts[0] + "/" + JoinAll(parts[1..])
  }

  predicate PlainSegments(parts: seq<string>)
  {
    forall k :: 0 <= k < |parts| ==> parts[k] != "" && NoSlash(parts[k])
  }

  lemma {:induction false} JoinAllEnds(parts: seq<string>)
    requires parts != [] && PlainSegments(parts)
    ensures JoinAll(parts) != [] && JoinAll(parts)[0] != '/'
    ensures JoinAll(parts)[|JoinAll(parts)| - 1] != '/'
  {
    if |parts| > 1 {
      JoinAllEnds(parts[1..]);
    }
  }

  /** The component loop of `os.path.normpath`: drops empty and `.` components and lets `..`
      cancel the previous component (above the root of a rooted path it is dropped). */
  function Collapse(parts: seq<string>, rooted: bool, acc: seq<string>): (r: seq<string>)
    requires PlainSegments(acc)
    requires forall k :: 0 <= k < |parts| ==> NoSlash(parts[k])
    ensures PlainSegments(r)
    decreases |parts|
  {
    if parts == [] then acc
    else
      var c := parts[0];
      if c == "" || c == "." then Collapse(parts[1..], rooted, acc)
      else if c != ".." || (!rooted && acc == []) || (acc != [] && acc[|acc| - 1] == "..") then
        Collapse(parts[1..], rooted, acc + [c])
      else if acc != [] then Collapse(parts[1..], rooted, acc[..|acc| - 1])
      else Collapse(parts[1..], rooted, acc)
  }

  /** `os.path.normpath(p)`, without the special case for exactly two leading slashes. */
  function Normpath(p: string): (r: string)
    ensures r != []
  {
    if p == [] then "."
    else
      var rooted := p[0] == '/';
      var body := JoinAll(Collapse(Split(p), rooted, []));
      var r := (if rooted then "/" else "") + body;
      if r == [] then "." else r
  }

  /** `os.path.abspath(p)` run in working directory `cwd`. */
  function Abspath(cwd: string, p: string): (r: string)
    ensures IsAbsolute(cwd) ==> IsAbsolute(r)
  {
    NormpathShape(Join(cwd, p));
    Normpath(Join(cwd, p))
  }

  /** A normalised path never ends in a separator, except the root itself; an absolute input
      stays absolute. */
  lemma NormpathShape(p: string)
    ensures DirForm(Normpath(p))
    ensures IsAbsolute(p) ==> IsAbsolute(Normpath(p))
  {
    if p != [] {
      var parts := Collapse(Split(p), p[0] == '/', []);
      if parts != [] {
        JoinAllEnds(parts);
      }
    }
  }

  /** A plain name joined onto an `abspath` result lies directly in it. */
  lemma AbspathChild(cwd: string, p: string, name: string)
    requires NoSlash(name)
    ensures Dirname(Join(Abspath(cwd, p), name)) == Abspath(cwd, p)
  {
    NormpathShape(Join(cwd, p));
    JoinSplits(Abspath(cwd, p), name);
  }

  /** `[x for x in p.split('/') if x]` */
  function Components(parts: seq<string>): (r: seq<string>)
    requires forall k :: 0 <= k < |parts| ==> NoSlash(parts[k])
    ensures PlainSegments(r)
  {
    if parts == [] then []
    else if parts[0] == "" then Components(parts[1..])
    else [parts[0]] + Components(parts[1..])
  }

  /** The length of the longest common prefix of two component lists. */
  function CommonPrefix(a: seq<string>, b: seq<string>): (n: nat)
    ensures n <= |a| && n <= |b|
    ensures a[..n] == b[..n]
    ensures n < |a| && n < |b| ==> a[n] != b[n]
  {
    if a == [] || b == [] || a[0] != b[0] then 0
    else 1 + CommonPrefix(a[1..], b[1..])
  }

  function Repeat(s: string, n: nat): (r: seq<string>)
    ensures |r| == n && forall k :: 0 <= k < n ==> r[k] == s
  {
    if n == 0 then [] else [s] + Repeat(s, n - 1)
  }

  /** `os.path.relpath(path, start)` run in working directory `cwd`. */
  function Relpath(cwd: string, path: string, start: string): (r: string)
    ensures r != []
  {
    var s := Components(Split(Abspath(cwd, start)));
    var t := Components(Split(Abspath(cwd, path)));
    var i := CommonPrefix(s, t);
    var rel := Repeat("..", |s| - i) + t[i..];
    if rel == [] then "." else JoinAllEnds(rel); JoinAll(rel)
  }

  // ---------------------------------------------------------------------------------------
  // Paths made of ordinary components: no empty, `.` or `..` component.

  predicate CleanSegments(parts: seq<string>)
  {
    forall k :: 0 <= k < |parts| ==> parts[k] != "" && parts[k] != "." && parts[k] != ".." && NoSlash(parts[k])
  }

  /** The absolute path `/a/b/c` of its components. */
  function Rooted(parts: seq<string>): string
  {
    "/" + JoinAll(parts)
  }

  lemma {:induction false} JoinAllConcat(a: seq<string>, b: seq<string>)
    requires a != [] && b != []
    ensures JoinAll(a + b) == JoinAll(a) + "/" + JoinAll(b)
  {
    if |a| == 1 {
      assert (a + b)[1..] == b;
    } else {
      assert (a + b)[1..] == a[1..] + b;
      JoinAllConcat(a[1..], b);
    }
  }

  /** Splitting a string that starts with a component without separator. */
  lemma {:induction false} SplitPrefix(x: string, rest: string)
    requires NoSlash(x)
    ensures Split(x + rest) == [x + Split(rest)[0]] + Split(rest)[1..]
  {
    if x != [] {
      assert x[0] != '/' by { assert x[0] in x; }
      var y := x + rest;
      assert y[0] == x[0] && y[1..] == x[1..] + rest;
      SplitPrefix(x[1..], rest);
      var t := Split(y[1..]);
      assert Split(y) == [[x[0]] + t[0]] + t[1..];
      assert t[0] == x[1..] + Split(rest)[0] && t[1..] == Split(rest)[1..];
      assert [x[0]] + (x[1..] + Split(rest)[0]) == x + Split(rest)[0];
    } else {
      var t := Split(rest);
      assert x + rest == rest && x + t[0] == t[0];
      assert t == [t[0]] + t[1..];
    }
  }

  /** `'/'.join` and `split('/')` are inverse on components without separators. */
  lemma {:induction false} SplitJoinAll(parts: seq<string>)
    requires parts != [] && forall k :: 0 <= k < |parts| ==> NoSlash(parts[k])
    ensures Split(JoinAll(parts)) == parts
  {
    if |parts| == 1 {
      SplitPrefix(parts[0], "");
      assert parts[0] + "" == parts[0];
    } else {
      var tail := JoinAll(parts[1..]);
      SplitJoinAll(parts[1..]);
      assert parts[0] + "/" + tail == parts[0] + ("/" + tail);
      SplitPrefix(parts[0], "/" + tail);
      assert ("/" + tail)[1..] == tail;
      assert parts[0] + "" == parts[0];
    }
  }

  lemma SplitRooted(parts: seq<string>)
    requires PlainSegments(parts)
    ensures Split(Rooted(parts)) == [""] + (if parts == [] then [""] else parts)
  {
    assert Rooted(parts)[1..] == JoinAll(parts);
    if parts != [] {
      SplitJoinAll(parts);
    }
  }

  lemma {:induction false} CollapseClean(parts: seq<string>, acc: seq<string>)
    requires PlainSegments(acc) && CleanSegments(parts)
    ensures Collapse(parts, true, acc) == acc + parts
  {
    if parts == [] {
      assert acc + parts == acc;
    } else {
      assert acc + [parts[0]] + parts[1..] == acc + parts;
      CollapseClean(parts[1..], acc + [parts[0]]);
    }
  }

  lemma {:induction false} ComponentsClean(parts: seq<string>)
    requires CleanSegments(parts)
    ensures Components(parts) == parts
  {
    if parts != [] {
      ComponentsClean(parts[1..]);
    }
  }

  /** `normpath` leaves an absolute path of ordinary components as it is, and `split` gives
      its components back. */
  lemma NormpathRooted(parts: seq<string>)
    requires CleanSegments(parts)
    ensures Normpath(Rooted(parts)) == Rooted(parts)
    ensures Components(Split(Rooted(parts))) == parts
  {
    SplitRooted(parts);
    var split := [""] + (if parts == [] then [""] else parts);
    assert Collapse(split, true, []) == Collapse(split[1..], true, []);
    if parts == [] {
      assert Collapse([""], true, []) == [];
    } else {
      CollapseClean(parts, []);
      assert [] + parts == parts;
      ComponentsClean(parts);
    }
  }

  /** Joining a relative path of ordinary components onto such an absolute path. */
  lemma JoinRooted(a: seq<string>, b: seq<string>)
    requires CleanSegments(a) && CleanSegments(b) && b != []
    ensures Join(Rooted(a), JoinAll(b)) == Rooted(a + b)
  {
    JoinAllEnds(b);
    var r, t := Rooted(a), JoinAll(b);
    assert !IsAbsolute(t);
    if a == [] {
      assert r == "/";
      assert Join(r, t) == "/" + t;
      assert a + b == b;
    } else {
      JoinAllEnds(a);
      assert r[|r| - 1] == JoinAll(a)[|JoinAll(a)| - 1];
      assert Join(r, t) == r + "/" + t;
      JoinAllConcat(a, b);
      assert r + "/" + t == "/" + (JoinAll(a) + "/" + t);
    }
  }

  /** `relpath` undoes joining a relative path of ordinary components onto a normalised
      absolute start, whatever the working directory. */
  lemma RelpathOfJoin(cwd: string, a: seq<string>, b: seq<string>)
    requires CleanSegments(a) && CleanSegments(b) && b != []
    ensures Relpath(cwd, Join(Rooted(a), JoinAll(b)), Rooted(a)) == JoinAll(b)
  {
    JoinRooted(a, b);
    assert CleanSegments(a + b);
    NormpathRooted(a);
    NormpathRooted(a + b);
    var s := Components(Split(Abspath(cwd, Rooted(a))));
    var t := Components(Split(Abspath(cwd, Rooted(a + b))));
    assert s == a && t == a + b;
    var i := CommonPrefix(s, t);
    assert i == |a|;
    assert Repeat("..", |s| - i) + t[i..] == b;
  }
}

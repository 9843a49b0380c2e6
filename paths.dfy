/** The POSIX path operations the loader calls: `os.path.isabs`,
    `os.path.join` with two arguments and `os.path.normpath`. Paths are
    strings; `normpath` is modelled on the list of `/`-separated segments. */
module Paths {

  /** `os.path.isabs`: a POSIX path is absolute when it starts with `/`. */
  predicate IsAbs(p: string) {
    |p| > 0 && p[0] == '/'
  }

  /** `path.split('/')`: the segments between slashes, empty ones included. */
  function Split(p: string): (segs: seq<string>)
    ensures |segs| >= 1
    ensures forall i :: 0 <= i < |segs| ==> '/' !in segs[i]
    decreases |p|
  {
    if p == [] then [""]
    else
      var rest := Split(p[1..]);
      if p[0] == '/' then [""] + rest
      else [[p[0]] + rest[0]] + rest[1..]
  }

  /** `'/'.join(segs)`. */
  function Join(segs: seq<string>): string
    decreases |segs|
  {
    if segs == [] then ""
    else if |segs| == 1 then segs[0]
    else segs[0] + "/" + Join(segs[1..])
  }

  /** `os.path.join(a, b)`: an absolute `b` replaces `a`; otherwise a slash
      is inserted unless `a` is empty or already ends with one. */
  function JoinPath(a: string, b: string): (r: string)
    ensures IsAbs(b) ==> r == b
    ensures !IsAbs(b) && IsAbs(a) ==> IsAbs(r)
    ensures !IsAbs(b) && a == "" ==> r == b
    ensures !IsAbs(b) && a != "" && a[|a| - 1] != '/' ==> Split(r) == Split(a) + Split(b)
    ensures !IsAbs(b) && a != "" && a[|a| - 1] == '/' ==> Split(r) == Split(a)[..|Split(a)| - 1] + Split(b)
  {
    if IsAbs(b) then b
    else if a == "" then b
    else if a[|a| - 1] == '/' then
      var dir := a[..|a| - 1];
      assert a == dir + "/" + "";
      assert a + b == dir + "/" + b;
      SplitConcat(dir, "");
      SplitConcat(dir, b);
      assert Split(a)[..|Split(a)| - 1] == Split(dir);
      a + b
    else
      SplitConcat(a, b);
      a + "/" + b
  }

  /** Splitting at one slash splits each side. */
  lemma {:induction false} SplitConcat(a: string, t: string)
    ensures Split(a + "/" + t) == Split(a) + Split(t)
    decreases |a|
  {
    var u := a + "/" + t;
    if a == [] {
      assert u[0] == '/' && u[1..] == t;
      assert Split(u) == [""] + Split(t);
    } else {
      assert u[0] == a[0] && u[1..] == a[1..] + "/" + t;
      var head := Split(a[1..]);
      var rest := Split(u[1..]);
      SplitConcat(a[1..], t);
      assert rest == head + Split(t);
      if a[0] == '/' {
        assert Split(u) == [""] + rest;
        assert Split(a) == [""] + head;
      } else {
        assert Split(u) == [[a[0]] + rest[0]] + rest[1..];
        assert Split(a) == [[a[0]] + head[0]] + head[1..];
        assert rest[0] == head[0];
        assert rest[1..] == head[1..] + Split(t);
      }
    }
  }

  /** The number of leading slashes `normpath` keeps: POSIX gives exactly
      two leading slashes a meaning of their own, three or more count as one. */
  function InitialSlashes(p: string): (k: nat)
    ensures k <= 2
    ensures k > 0 <==> IsAbs(p)
  {
    if IsAbs(p) then
      if |p| >= 2 && p[1] == '/' && !(|p| >= 3 && p[2] == '/') then 2 else 1
    else 0
  }

  function Slashes(k: nat): (s: string)
    ensures |s| == k && forall i :: 0 <= i < k ==> s[i] == '/'
  {
    if k == 0 then "" else "/" + Slashes(k - 1)
  }

  /** One iteration of `normpath`'s loop over the segments: empty and `.`
      segments are dropped; `..` removes the previous segment unless there
      is none or it is `..` itself; a leading `..` is kept only in a
      relative path. */
  function Step(stack: seq<string>, seg: string, rooted: bool): seq<string> {
    if seg == "" || seg == "." then stack
    else if seg != ".." || (!rooted && stack == []) || (stack != [] && stack[|stack| - 1] == "..") then
      stack + [seg]
    else if stack != [] then stack[..|stack| - 1]
    else stack
  }

  /** `normpath`'s loop: `Step` applied to each segment in order. */
  function Collapse(stack: seq<string>, segs: seq<string>, rooted: bool): seq<string>
    decreases |segs|
  {
    if segs == [] then stack else Collapse(Step(stack, segs[0], rooted), segs[1..], rooted)
  }

  /** `os.path.normpath` on POSIX. */
  function NormPath(p: string): string {
    if p == "" then "."
    else
      var k := InitialSlashes(p);
      var out := Slashes(k) + Join(Collapse([], Split(p), k > 0));
      if out == "" then "." else out
  }

  /** A segment that survives normalisation: non-empty, not `.`, no slash. */
  predicate Proper(seg: string) {
    seg != "" && seg != "." && '/' !in seg
  }

  /** The segment lists `Collapse` produces: proper segments, where `..`
      occurs only in a relative path and only before every other segment. */
  predicate Collapsed(segs: seq<string>, rooted: bool) {
    && (forall i :: 0 <= i < |segs| ==> Proper(segs[i]))
    && (forall i :: 0 <= i < |segs| && segs[i] == ".." ==> !rooted)
    && (forall i, j :: 0 <= j < i < |segs| && segs[i] == ".." ==> segs[j] == "..")
  }

  /** An absolute path in normal form: at most two leading slashes, no `.` or
      `..` segment, and no empty segment after the root (no doubled or
      trailing slash). */
  predicate IsCleanAbsolute(p: string) {
    && IsAbs(p)
    && !(|p| >= 3 && p[..3] == "///")
    && var segs := Split(p);
       && (forall i :: 0 <= i < |segs| ==> segs[i] != "." && segs[i] != "..")
       && (forall i, j :: 0 <= i < j < |segs| && segs[i] != "" ==> segs[j] != "")
  }

  // ---------------------------------------------------------------------
  // Split and Join are inverse to each other.

  lemma {:induction false} JoinSplit(p: string)
    ensures Join(Split(p)) == p
    decreases |p|
  {
    if p != [] {
      var rest := Split(p[1..]);
      JoinSplit(p[1..]);
      if p[0] == '/' {
        assert Split(p) == [""] + rest;
        assert Join(Split(p)) == "" + "/" + Join(rest);
      } else if |rest| == 1 {
        assert Split(p) == [[p[0]] + rest[0]];
      } else {
        assert Split(p) == [[p[0]] + rest[0]] + rest[1..];
        calc {
          Join(Split(p));
          ([p[0]] + rest[0]) + "/" + Join(rest[1..]);
          [p[0]] + (rest[0] + "/" + Join(rest[1..]));
          [p[0]] + Join(rest);
        }
      }
    }
  }

  /** Splitting a segment without a slash followed by a slash. */
  lemma {:induction false} SplitSegment(a: string, t: string)
    requires '/' !in a
    ensures Split(a + "/" + t) == [a] + Split(t)
    decreases |a|
  {
    if a == [] {
      assert a + "/" + t == "/" + t;
      assert ("/" + t)[1..] == t;
    } else {
      SplitSegment(a[1..], t);
      assert (a + "/" + t)[1..] == a[1..] + "/" + t;
      assert [a[0]] + a[1..] == a;
    }
  }

  lemma {:induction false} SplitNoSlash(a: string)
    requires '/' !in a
    ensures Split(a) == [a]
    decreases |a|
  {
    if a != [] {
      SplitNoSlash(a[1..]);
      assert [a[0]] + a[1..] == a;
    }
  }

  lemma {:induction false} SplitJoin(segs: seq<string>)
    requires |segs| >= 1
    requires forall i :: 0 <= i < |segs| ==> '/' !in segs[i]
    ensures Split(Join(segs)) == segs
    decreases |segs|
  {
    if |segs| == 1 {
      SplitNoSlash(segs[0]);
    } else {
      SplitJoin(segs[1..]);
      SplitSegment(segs[0], Join(segs[1..]));
      assert [segs[0]] + segs[1..] == segs;
    }
  }

  // ---------------------------------------------------------------------
  // What normpath produces.

  lemma StepCollapsed(stack: seq<string>, seg: string, rooted: bool)
    requires Collapsed(stack, rooted) && '/' !in seg
    ensures Collapsed(Step(stack, seg, rooted), rooted)
  {
    if seg != "" && seg != "." && seg == ".." && stack != [] && stack[|stack| - 1] == ".." {
      var r := stack + [seg];
      forall i, j | 0 <= j < i < |r| && r[i] == ".."
        ensures r[j] == ".."
      {
        if i < |stack| {
        } else if j < |stack| - 1 {
          assert stack[|stack| - 1] == "..";
        }
      }
    }
  }

  lemma {:induction false} CollapseCollapsed(stack: seq<string>, segs: seq<string>, rooted: bool)
    requires Collapsed(stack, rooted)
    requires forall i :: 0 <= i < |segs| ==> '/' !in segs[i]
    ensures Collapsed(Collapse(stack, segs, rooted), rooted)
    decreases |segs|
  {
    if segs != [] {
      StepCollapsed(stack, segs[0], rooted);
      CollapseCollapsed(Step(stack, segs[0], rooted), segs[1..], rooted);
    }
  }

  /** `normpath`'s loop leaves an already collapsed list as it is. */
  lemma {:induction false} CollapseFixed(stack: seq<string>, segs: seq<string>, rooted: bool)
    requires Collapsed(stack + segs, rooted)
    ensures Collapse(stack, segs, rooted) == stack + segs
    decreases |segs|
  {
    if segs != [] {
      var all := stack + segs;
      assert all[|stack|] == segs[0];
      if segs[0] == ".." && stack != [] {
        assert all[|stack| - 1] == "..";
      }
      assert Step(stack, segs[0], rooted) == stack + [segs[0]];
      assert (stack + [segs[0]]) + segs[1..] == all;
      CollapseFixed(stack + [segs[0]], segs[1..], rooted);
    }
  }

  /** `k` empty segments: what `k` leading slashes split into. */
  function Empties(k: nat): (e: seq<string>)
    ensures |e| == k && forall i :: 0 <= i < k ==> e[i] == ""
  {
    if k == 0 then [] else [""] + Empties(k - 1)
  }

  lemma {:induction false} SplitSlashes(k: nat, t: string)
    ensures Split(Slashes(k) + t) == Empties(k) + Split(t)
  {
    if k > 0 {
      var u := Slashes(k - 1) + t;
      assert Slashes(k) + t == "/" + u;
      assert ("/" + u)[1..] == u;
      assert Split("/" + u) == [""] + Split(u);
      SplitSlashes(k - 1, t);
      assert Empties(k) + Split(t) == [""] + (Empties(k - 1) + Split(t));
    } else {
      assert Slashes(k) + t == t;
      assert Empties(k) + Split(t) == Split(t);
    }
  }

  lemma {:induction false} CollapseEmpties(k: nat, segs: seq<string>, rooted: bool)
    ensures Collapse([], Empties(k) + segs, rooted) == Collapse([], segs, rooted)
  {
    if k > 0 {
      assert (Empties(k) + segs)[0] == "";
      assert (Empties(k) + segs)[1..] == Empties(k - 1) + segs;
      CollapseEmpties(k - 1, segs, rooted);
    } else {
      assert Empties(k) + segs == segs;
    }
  }

  lemma JoinHead(segs: seq<string>)
    requires |segs| >= 1 && |segs[0]| >= 1
    ensures |Join(segs)| >= 1 && Join(segs)[0] == segs[0][0]
  {
  }

  /** The segments of the string `normpath` builds from `k` leading slashes
      and a collapsed list. */
  lemma RenderedSegments(k: nat, segs: seq<string>, rooted: bool)
    requires Collapsed(segs, rooted)
    ensures Split(Slashes(k) + Join(segs)) == Empties(k) + (if segs == [] then [""] else segs)
  {
    SplitSlashes(k, Join(segs));
    if segs != [] {
      SplitJoin(segs);
    }
  }

  /** That string starts with exactly its `k` slashes, so `normpath` counts
      the same number of leading slashes in it again. */
  lemma RenderedInitialSlashes(k: nat, segs: seq<string>, rooted: bool)
    requires k <= 2 && Collapsed(segs, rooted) && (k == 0 ==> segs != [])
    ensures InitialSlashes(Slashes(k) + Join(segs)) == k
    ensures !(|Slashes(k) + Join(segs)| >= 3 && (Slashes(k) + Join(segs))[..3] == "///")
  {
    var body := Join(segs);
    var out := Slashes(k) + body;
    if segs != [] {
      JoinHead(segs);
      assert body[0] != '/' by { assert Proper(segs[0]); }
      assert out[k] == body[0];
    } else {
      assert out == Slashes(k);
    }
  }

  /** Collapsing the segments of that string gives the list back. */
  lemma RenderedCollapse(k: nat, segs: seq<string>, rooted: bool)
    requires Collapsed(segs, rooted)
    ensures Collapse([], Split(Slashes(k) + Join(segs)), rooted) == segs
  {
    RenderedSegments(k, segs, rooted);
    var tail := if segs == [] then [""] else segs;
    CollapseEmpties(k, tail, rooted);
    if segs == [] {
      assert Collapse([], [""], rooted) == [];
    } else {
      CollapseFixed([], segs, rooted);
    }
  }

  /** With at least one leading slash, that string is a clean absolute path. */
  lemma RenderedClean(k: nat, segs: seq<string>)
    requires 1 <= k <= 2 && Collapsed(segs, true)
    ensures IsCleanAbsolute(Slashes(k) + Join(segs))
  {
    RenderedSegments(k, segs, true);
    RenderedInitialSlashes(k, segs, true);
  }

  /** Normalising is idempotent. */
  lemma NormPathIdempotent(p: string)
    ensures NormPath(NormPath(p)) == NormPath(p)
  {
    assert Split("") == [""];
    assert "."[1..] == "";
    assert Split(".") == [['.'] + Split("")[0]] + Split("")[1..];
    assert ['.'] + "" == ".";
    assert Split(".") == ["."];
    assert NormPath(".") == ".";
    if p != "" {
      var k := InitialSlashes(p);
      var segs := Collapse([], Split(p), k > 0);
      CollapseCollapsed([], Split(p), k > 0);
      var out := Slashes(k) + Join(segs);
      if out != "" {
        assert k == 0 ==> segs != [];
        RenderedInitialSlashes(k, segs, k > 0);
        RenderedCollapse(k, segs, k > 0);
      }
    }
  }

  /** Normalising an absolute path gives a clean absolute path. */
  lemma NormPathCleanAbsolute(p: string)
    requires IsAbs(p)
    ensures IsCleanAbsolute(NormPath(p))
  {
    var k := InitialSlashes(p);
    var segs := Collapse([], Split(p), true);
    CollapseCollapsed([], Split(p), true);
    RenderedClean(k, segs);
  }
}

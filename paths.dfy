/** The request-path matcher of the legacy service: a request path is
    compared with a workflow's path pattern segment by segment, after one
    leading and one trailing slash are dropped from each; a `*` segment in
    the pattern accepts the rest of the request. */
module PathUtils {
  import opened Wrappers
  import opened Errors
  import Lexer

  // -----------------------------------------------------------------------
  // String helpers with JavaScript's meaning

  /** Whether `path` starts with '/' (its leading slash is dropped). */
  function Lead(path: string): nat {
    if |path| > 0 && path[0] == '/' then 1 else 0
  }

  /** `cleanUpPath` as a value: drop one leading '/', then one trailing '/'
      of what is left. */
  function CleanUp(path: string): (r: string)
    ensures Lead(path) + |r| <= |path| <= Lead(path) + |r| + 1
    ensures r == path[Lead(path)..Lead(path) + |r|]
    ensures |path| > Lead(path) + |r| ==> path[Lead(path) + |r|] == '/'
  {
    var rest := path[Lead(path)..];
    if |rest| > 0 && rest[|rest| - 1] == '/' then rest[..|rest| - 1] else rest
  }

  /** `cleanUpPath(path)`: `path` is reassigned once per slash removed. */
  method CleanUpPath(path: string) returns (r: string)
    ensures r == CleanUp(path)
  {
    r := path;
    if |r| > 0 && r[0] == '/' {
      r := r[1..];
    }
    if |r| > 0 && r[|r| - 1] == '/' {
      r := r[..|r| - 1];
    }
  }

  /** `s.split('/')`: the text between consecutive slashes, so there is one
      more segment than there are slashes and the empty string gives `[""]`. */
  function Split(s: string): (segs: seq<string>)
    ensures |segs| > 0
    ensures forall i, j :: 0 <= i < |segs| && 0 <= j < |segs[i]| ==> segs[i][j] != '/'
    decreases |s|
  {
    if s == [] then [""]
    else
      var tail := Split(s[1..]);
      if s[0] == '/' then [""] + tail
      else [[s[0]] + tail[0]] + tail[1..]
  }

  /** `segs.join('/')`, the independent reference `Split` is checked
      against. */
  function Join(segs: seq<string>): string
    requires |segs| > 0
    decreases |segs|
  {
    if |segs| == 1 then segs[0] else segs[0] + "/" + Join(segs[1..])
  }

  /** Splitting loses nothing: joining the segments back gives the text. */
  lemma {:induction false} JoinSplit(s: string)
    ensures Join(Split(s)) == s
    decreases |s|
  {
    if s != [] {
      var tail := Split(s[1..]);
      JoinSplit(s[1..]);
      if s[0] == '/' {
        assert Split(s)[1..] == tail;
      } else {
        var segs := Split(s);
        assert segs[1..] == tail[1..];
        if |tail| > 1 {
          assert Join(tail) == tail[0] + "/" + Join(tail[1..]);
        }
        assert s == [s[0]] + s[1..];
      }
    }
  }

  /** The segments of a text without slashes are that text alone. */
  lemma {:induction false} SplitNoSlash(s: string)
    requires forall j :: 0 <= j < |s| ==> s[j] != '/'
    ensures Split(s) == [s]
    decreases |s|
  {
    if s != [] {
      SplitNoSlash(s[1..]);
      assert [s[0]] + s[1..] == s;
    }
  }

  /** Splitting `a + "/" + b` for a slash-free `a`: `a` is the first segment. */
  lemma {:induction false} SplitAfterSegment(a: string, b: string)
    requires forall j :: 0 <= j < |a| ==> a[j] != '/'
    ensures Split(a + "/" + b) == [a] + Split(b)
    decreases |a|
  {
    if a == [] {
      assert a + "/" + b == "/" + b;
      assert ("/" + b)[1..] == b;
    } else {
      assert (a + "/" + b)[1..] == a[1..] + "/" + b;
      SplitAfterSegment(a[1..], b);
      assert [a[0]] + a[1..] == a;
    }
  }

  /** `s.trim()`: whitespace (JavaScript's `\s`) removed from both ends. */
  function Trim(s: string): (t: string)
    ensures |t| <= |s|
    ensures t != [] ==> !Lexer.IsSpace(t[0]) && !Lexer.IsSpace(t[|t| - 1])
    decreases |s|
  {
    if s == [] then s
    else if Lexer.IsSpace(s[0]) then Trim(s[1..])
    else if Lexer.IsSpace(s[|s| - 1]) then Trim(s[..|s| - 1])
    else s
  }

  /** Trim keeps one infix of `s` and removes only whitespace around it;
      with Trim's own ensures, the removed runs are the maximal ones. */
  lemma {:induction false} TrimIsInfix(s: string) returns (i: nat, j: nat)
    ensures i <= j <= |s| && Trim(s) == s[i..j]
    ensures forall k :: 0 <= k < i ==> Lexer.IsSpace(s[k])
    ensures forall k :: j <= k < |s| ==> Lexer.IsSpace(s[k])
    decreases |s|
  {
    if s == [] {
      i, j := 0, 0;
    } else if Lexer.IsSpace(s[0]) {
      var i1, j1 := TrimIsInfix(s[1..]);
      i, j := i1 + 1, j1 + 1;
      assert s[1..][i1..j1] == s[i..j];
      forall k | 0 <= k < i ensures Lexer.IsSpace(s[k]) {
        if k > 0 { assert s[k] == s[1..][k - 1]; }
      }
      forall k | j <= k < |s| ensures Lexer.IsSpace(s[k]) {
        assert s[k] == s[1..][k - 1];
      }
    } else if Lexer.IsSpace(s[|s| - 1]) {
      var i1, j1 := TrimIsInfix(s[..|s| - 1]);
      i, j := i1, j1;
      assert s[..|s| - 1][i1..j1] == s[i..j];
      forall k | j <= k < |s| ensures Lexer.IsSpace(s[k]) {
        if k < |s| - 1 { assert s[k] == s[..|s| - 1][k]; }
      }
    } else {
      i, j := 0, |s|;
    }
  }

  // -----------------------------------------------------------------------
  // checkPath

  /** The segment walk of `checkPath` from segment `i` on: the request's
      segments are walked, a missing pattern segment is a TypeError, a
      pattern `*` accepts, the first differing segment rejects. */
  function Walk(req: seq<string>, rule: seq<string>, i: nat): Result<bool, Error>
    decreases |req| - i
  {
    if i >= |req| then Ok(true)
    else if i >= |rule| then Err(TypeError(MissingSegment))
    else if Trim(rule[i]) == "*" then Ok(true)
    else if Trim(req[i]) != Trim(rule[i]) then Ok(false)
    else Walk(req, rule, i + 1)
  }

  /** `checkPath(reqPath, rulePath)` as a value. */
  function CheckPathSpec(reqPath: string, rulePath: string): Result<bool, Error> {
    Walk(Split(CleanUp(reqPath)), Split(CleanUp(rulePath)), 0)
  }

  /** `checkPath(reqPath, rulePath)`: the `for ... of entries()` loop with
      its early returns. */
  method CheckPath(reqPath: string, rulePath: string) returns (r: Result<bool, Error>)
    ensures r == CheckPathSpec(reqPath, rulePath)
  {
    var req := CleanUpPath(reqPath);
    var rule := CleanUpPath(rulePath);
    var reqArr := Split(req);
    var ruleArr := Split(rule);
    for ind := 0 to |reqArr|
      invariant Walk(reqArr, ruleArr, 0) == Walk(reqArr, ruleArr, ind)
    {
      var s := Trim(reqArr[ind]);
      if ind >= |ruleArr| {
        return Err(TypeError(MissingSegment));
      }
      var rs := Trim(ruleArr[ind]);
      if rs == "*" {
        return Ok(true);
      }
      if s != rs {
        return Ok(false);
      }
    }
    return Ok(true);
  }

  /** Segment `j` was walked past: the pattern has it, it is not `*`, and
      the trimmed segments are equal. */
  predicate Passes(req: seq<string>, rule: seq<string>, j: nat) {
    j < |req| && j < |rule| && Trim(rule[j]) != "*" && Trim(req[j]) == Trim(rule[j])
  }

  /** The walk reaches segment `i` when every earlier segment passes. */
  lemma {:induction false} WalkReaches(req: seq<string>, rule: seq<string>, k: nat, i: nat)
    requires k <= i <= |req|
    requires forall j :: k <= j < i ==> Passes(req, rule, j)
    ensures Walk(req, rule, k) == Walk(req, rule, i)
    decreases i - k
  {
    if k < i {
      assert Passes(req, rule, k);
      WalkReaches(req, rule, k + 1, i);
    }
  }

  /** The segments `checkPath` walks for a path. */
  function Segments(path: string): (segs: seq<string>)
    ensures |segs| > 0
  {
    Split(CleanUp(path))
  }

  /** Walking segments in order, a pattern `*` reached with every earlier
      segment passing accepts, whatever the later request segments are. */
  lemma WildcardAccepts(reqPath: string, rulePath: string, i: nat)
    requires i < |Segments(reqPath)| && i < |Segments(rulePath)|
    requires forall j :: 0 <= j < i ==> Passes(Segments(reqPath), Segments(rulePath), j)
    requires Trim(Segments(rulePath)[i]) == "*"
    ensures CheckPathSpec(reqPath, rulePath) == Ok(true)
  {
    WalkReaches(Segments(reqPath), Segments(rulePath), 0, i);
  }

  /** The first segment whose trimmed texts differ, with no `*` in the
      pattern before or at it, rejects. */
  lemma FirstMismatchRejects(reqPath: string, rulePath: string, i: nat)
    requires i < |Segments(reqPath)| && i < |Segments(rulePath)|
    requires forall j :: 0 <= j < i ==> Passes(Segments(reqPath), Segments(rulePath), j)
    requires Trim(Segments(rulePath)[i]) != "*"
    requires Trim(Segments(reqPath)[i]) != Trim(Segments(rulePath)[i])
    ensures CheckPathSpec(reqPath, rulePath) == Ok(false)
  {
    WalkReaches(Segments(reqPath), Segments(rulePath), 0, i);
  }

  /** A request with more segments than the pattern, with no `*` reached,
      reads past the pattern's last segment: the source's TypeError. */
  lemma LongerRequestFails(reqPath: string, rulePath: string)
    requires |Segments(rulePath)| < |Segments(reqPath)|
    requires forall j :: 0 <= j < |Segments(rulePath)| ==> Passes(Segments(reqPath), Segments(rulePath), j)
    ensures CheckPathSpec(reqPath, rulePath) == Err(TypeError(MissingSegment))
  {
    WalkReaches(Segments(reqPath), Segments(rulePath), 0, |Segments(rulePath)|);
  }

  lemma {:induction false} WalkEqualSegments(req: seq<string>, rule: seq<string>, k: nat)
    requires |req| <= |rule|
    requires forall j :: k <= j < |req| ==> Trim(req[j]) == Trim(rule[j])
    ensures Walk(req, rule, k) == Ok(true)
    decreases |req| - k
  {
    if k < |req| {
      WalkEqualSegments(req, rule, k + 1);
    }
  }

  /** Only request segments are walked: a request whose segments agree with
      the first segments of the pattern matches it, however many more
      segments the pattern has. */
  lemma SegmentPrefixMatches(reqPath: string, rulePath: string)
    requires |Segments(reqPath)| <= |Segments(rulePath)|
    requires forall j :: 0 <= j < |Segments(reqPath)| ==> Trim(Segments(reqPath)[j]) == Trim(Segments(rulePath)[j])
    ensures CheckPathSpec(reqPath, rulePath) == Ok(true)
  {
    WalkEqualSegments(Segments(reqPath), Segments(rulePath), 0);
  }

  /** Every path matches itself. */
  lemma CheckPathReflexive(path: string)
    ensures CheckPathSpec(path, path) == Ok(true)
  {
    WalkEqualSegments(Segments(path), Segments(path), 0);
  }

  /** A request naming one segment `w` matches a pattern `w/x`: the pattern
      has more segments than the request (as "admin" against "admin/w1"). */
  lemma ShorterRequestMatches(w: string, x: string)
    requires w != [] && x != []
    requires forall j :: 0 <= j < |w| ==> w[j] != '/'
    requires forall j :: 0 <= j < |x| ==> x[j] != '/'
    ensures CheckPathSpec(w, w + "/" + x) == Ok(true)
  {
    var pattern := w + "/" + x;
    assert Lead(w) == 0 && w[..|w|] == w;
    assert CleanUp(w) == w;
    assert pattern[0] == w[0] && pattern[|pattern| - 1] == x[|x| - 1];
    assert Lead(pattern) == 0 && pattern[..|pattern|] == pattern;
    assert CleanUp(pattern) == pattern;
    SplitNoSlash(w);
    SplitNoSlash(x);
    SplitAfterSegment(w, x);
    assert Segments(w) == [w];
    assert Segments(pattern) == [w, x];
    WalkEqualSegments([w], [w, x], 0);
  }

  /** `path` with an optional slash added at either end. */
  function Slashed(path: string, lead: bool, trail: bool): string {
    (if lead then "/" else "") + path + (if trail then "/" else "")
  }

  /** Adding one slash at either end is undone by `cleanUpPath`. */
  lemma CleanUpSlashed(path: string, lead: bool, trail: bool)
    requires path == [] || (path[0] != '/' && path[|path| - 1] != '/')
    ensures CleanUp(Slashed(path, lead, trail)) == path
  {
    var p := Slashed(path, lead, trail);
    if path != [] {
      var k := if lead then 1 else 0;
      assert p[k] == path[0];
      assert Lead(p) == k;
      assert p[k..] == path + (if trail then "/" else "");
    }
  }

  /** `checkPath` gives the same answer whether or not either argument has
      a leading or trailing slash. */
  lemma CheckPathIgnoresSlashes(reqPath: string, rulePath: string, l1: bool, t1: bool, l2: bool, t2: bool)
    requires reqPath == [] || (reqPath[0] != '/' && reqPath[|reqPath| - 1] != '/')
    requires rulePath == [] || (rulePath[0] != '/' && rulePath[|rulePath| - 1] != '/')
    ensures CheckPathSpec(Slashed(reqPath, l1, t1), Slashed(rulePath, l2, t2)) == CheckPathSpec(reqPath, rulePath)
  {
    CleanUpSlashed(reqPath, l1, t1);
    CleanUpSlashed(reqPath, false, false);
    CleanUpSlashed(rulePath, l2, t2);
    CleanUpSlashed(rulePath, false, false);
  }
}

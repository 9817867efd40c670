/**
 `matchesDeclaredPath` (`internal/api/body_framing.go`): does a request path instantiate a
 route pattern? Exact for patterns of plain literals and `:name` segments; any other
 pattern syntax matches nothing.
 */
module DeclaredPath {
  import opened Text

  predicate IsNameChar(c: char) {
    c == '_' || 'a' <= c <= 'z' || 'A' <= c <= 'Z' || '0' <= c <= '9'
  }

  predicate PlainName(name: string) {
    name != "" && forall i :: 0 <= i < |name| ==> IsNameChar(name[i])
  }

  /** The characters with a meaning of their own in a route pattern. */
  predicate IsSyntax(c: char) {
    c in ":*+?<>"
  }

  predicate IsParam(seg: string) {
    seg != "" && seg[0] == ':'
  }

  predicate PlainLiteral(seg: string) {
    forall i :: 0 <= i < |seg| ==> !IsSyntax(seg[i])
  }

  predicate PlainSegment(seg: string) {
    if IsParam(seg) then PlainName(seg[1..]) else PlainLiteral(seg)
  }

  predicate PlainPattern(pattern: string) {
    forall k :: 0 <= k < |Split(pattern, '/')| ==> PlainSegment(Split(pattern, '/')[k])
  }

  /** What a parameter may stand for: one non-empty segment. */
  predicate IsValue(v: string) {
    v != "" && Free(v, '/')
  }

  function ParamCount(segs: seq<string>): nat {
    if segs == [] then 0 else (if IsParam(segs[0]) then 1 else 0) + ParamCount(segs[1..])
  }

  /** The segments with the values put in place of the parameters, in order. */
  function Fill(segs: seq<string>, values: seq<string>): (out: seq<string>)
    requires |values| == ParamCount(segs)
    ensures |out| == |segs|
  {
    if segs == [] then []
    else if IsParam(segs[0]) then [values[0]] + Fill(segs[1..], values[1..])
    else [segs[0]] + Fill(segs[1..], values)
  }

  /** `path` is the plain pattern with these values in place of its parameters. */
  predicate Instance(path: string, pattern: string, values: seq<string>) {
    && PlainPattern(pattern)
    && |values| == ParamCount(Split(pattern, '/'))
    && (forall k :: 0 <= k < |values| ==> IsValue(values[k]))
    && path == Join(Fill(Split(pattern, '/'), values), '/')
  }

  method IsPlainParamName(name: string) returns (plain: bool)
    ensures plain <==> PlainName(name)
  {
    if name == "" {
      return false;
    }
    for i := 0 to |name|
      invariant forall k :: 0 <= k < i ==> IsNameChar(name[k])
    {
      var r := name[i];
      if r != '_' && (r < 'a' || r > 'z') && (r < 'A' || r > 'Z') && (r < '0' || r > '9') {
        return false;
      }
    }
    return true;
  }

  /** The matcher: true exactly on the instances of a plain pattern. */
  method MatchesDeclaredPath(path: string, pattern: string) returns (ok: bool)
    ensures ok <==> exists values :: Instance(path, pattern, values)
  {
    var got := Split(path, '/');
    var want := Split(pattern, '/');
    MatchExact(path, pattern);
    if |got| != |want| {
      return false;
    }
    for i := 0 to |want|
      invariant forall k :: 0 <= k < i ==> SegmentMatches(got[k], want[k])
    {
      var seg := want[i];
      if seg != "" && seg[0] == ':' {
        var plain := IsPlainParamName(seg[1..]);
        if !plain || got[i] == "" {
          assert !SegmentMatches(got[i], want[i]);
          return false;
        }
        continue;
      }
      if (exists k :: 0 <= k < |seg| && seg[k] in ":*+?<>") || got[i] != seg {
        assert !SegmentMatches(got[i], want[i]);
        return false;
      }
    }
    return true;
  }

  // ---------------------------------------------------------------------------
  // Segment by segment
  // ---------------------------------------------------------------------------

  predicate SegmentMatches(got: string, want: string) {
    PlainSegment(want) && (if IsParam(want) then got != "" else got == want)
  }

  predicate SegmentsMatch(got: seq<string>, want: seq<string>) {
    |got| == |want| && forall k :: 0 <= k < |want| ==> SegmentMatches(got[k], want[k])
  }

  /** The values a path gives to the parameters of a pattern. */
  function ValuesIn(got: seq<string>, want: seq<string>): (values: seq<string>)
    requires |got| == |want|
    ensures |values| == ParamCount(want)
  {
    if want == [] then []
    else (if IsParam(want[0]) then [got[0]] else []) + ValuesIn(got[1..], want[1..])
  }

  lemma {:induction false} FillOfValues(got: seq<string>, want: seq<string>)
    requires SegmentsMatch(got, want) && forall k :: 0 <= k < |got| ==> Free(got[k], '/')
    ensures Fill(want, ValuesIn(got, want)) == got
    ensures forall k :: 0 <= k < |ValuesIn(got, want)| ==> IsValue(ValuesIn(got, want)[k])
  {
    if want == [] {
    } else {
      FillOfValues(got[1..], want[1..]);
      assert SegmentMatches(got[0], want[0]);
      var values := ValuesIn(got, want);
      if IsParam(want[0]) {
        assert values[1..] == ValuesIn(got[1..], want[1..]);
      } else {
        assert values == ValuesIn(got[1..], want[1..]);
      }
    }
  }

  lemma {:induction false} ValuesOfFill(want: seq<string>, values: seq<string>)
    requires |values| == ParamCount(want)
    requires forall k :: 0 <= k < |want| ==> PlainSegment(want[k]) && Free(want[k], '/')
    requires forall k :: 0 <= k < |values| ==> IsValue(values[k])
    ensures SegmentsMatch(Fill(want, values), want)
    ensures ValuesIn(Fill(want, values), want) == values
    ensures forall k :: 0 <= k < |want| ==> Free(Fill(want, values)[k], '/')
  {
    if want == [] {
    } else {
      if IsParam(want[0]) {
        ValuesOfFill(want[1..], values[1..]);
        assert Fill(want, values)[1..] == Fill(want[1..], values[1..]);
      } else {
        ValuesOfFill(want[1..], values);
        assert Fill(want, values)[1..] == Fill(want[1..], values);
      }
    }
  }

  /** Matching segment by segment is being an instance. */
  lemma {:induction false} MatchExact(path: string, pattern: string)
    ensures SegmentsMatch(Split(path, '/'), Split(pattern, '/')) <==> exists values :: Instance(path, pattern, values)
  {
    var got, want := Split(path, '/'), Split(pattern, '/');
    SplitParts(path, '/');
    SplitParts(pattern, '/');
    if SegmentsMatch(got, want) {
      FillOfValues(got, want);
      JoinSplit(path, '/');
      assert forall k :: 0 <= k < |want| ==> SegmentMatches(got[k], want[k]);
      assert Instance(path, pattern, ValuesIn(got, want));
    }
    if values :| Instance(path, pattern, values) {
      ValuesOfFill(want, values);
      SplitJoin(Fill(want, values), '/');
    }
  }

  /** The parameters' values are determined by the path. */
  lemma {:induction false} ValuesUnique(path: string, pattern: string, v: seq<string>, w: seq<string>)
    requires Instance(path, pattern, v) && Instance(path, pattern, w)
    ensures v == w
  {
    var want := Split(pattern, '/');
    SplitParts(pattern, '/');
    ValuesOfFill(want, v);
    ValuesOfFill(want, w);
    SplitJoin(Fill(want, v), '/');
    SplitJoin(Fill(want, w), '/');
  }

  // ---------------------------------------------------------------------------
  // No looser than the router
  // ---------------------------------------------------------------------------

  predicate IsSlash(c: char) {
    c == '/'
  }

  /** The spelling the router matches: lowercased, trailing slashes trimmed. */
  function Routed(p: string): string {
    if |p| > 1 then TrimRight(Lower(p), IsSlash) else Lower(p)
  }

  function LowerAll(parts: seq<string>): (out: seq<string>)
    ensures |out| == |parts|
    ensures forall k :: 0 <= k < |parts| ==> out[k] == Lower(parts[k])
  {
    seq(|parts|, k requires 0 <= k < |parts| => Lower(parts[k]))
  }

  lemma {:induction false} PushLower(c: char, parts: seq<string>)
    requires parts != []
    ensures Push(LowerChar(c), LowerAll(parts), '/') == LowerAll(Push(c, parts, '/'))
  {
    if c == '/' {
      assert Lower("") == "";
      assert LowerAll([""] + parts) == [""] + LowerAll(parts);
    } else {
      assert Lower([c] + parts[0]) == [LowerChar(c)] + Lower(parts[0]);
      assert LowerAll([[c] + parts[0]] + parts[1..]) == [[LowerChar(c)] + Lower(parts[0])] + LowerAll(parts)[1..];
    }
  }

  lemma {:induction false} SplitLower(s: string)
    ensures Split(Lower(s), '/') == LowerAll(Split(s, '/'))
  {
    if s == "" {
      assert Lower(s) == "";
    } else {
      SplitLower(s[1..]);
      assert Lower(s)[0] == LowerChar(s[0]) && Lower(s)[1..] == Lower(s[1..]);
      PushLower(s[0], Split(s[1..], '/'));
    }
  }

  lemma {:induction false} LowerMatches(got: string, want: string)
    requires SegmentMatches(got, want)
    ensures SegmentMatches(Lower(got), Lower(want))
  {
    assert IsParam(want) ==> Lower(want)[1..] == Lower(want[1..]);
    assert forall c: char :: IsSyntax(LowerChar(c)) ==> IsSyntax(c);
    assert forall c: char :: IsNameChar(c) ==> IsNameChar(LowerChar(c));
  }

  /** A trailing slash of the path is one of the pattern. */
  lemma {:induction false} TrailingSlashShared(path: string, pattern: string)
    requires SegmentsMatch(Split(path, '/'), Split(pattern, '/'))
    ensures (path != "" && path[|path| - 1] == '/') <==> (pattern != "" && pattern[|pattern| - 1] == '/')
    ensures path != "" && path[|path| - 1] == '/' ==>
              SegmentsMatch(Split(path[..|path| - 1], '/'), Split(pattern[..|pattern| - 1], '/'))
  {
    LastPart(path);
    LastPart(pattern);
    var got, want := Split(path, '/'), Split(pattern, '/');
    assert SegmentMatches(got[|got| - 1], want[|want| - 1]);
    if path != "" && path[|path| - 1] == '/' {
      assert got[..|got| - 1] == Split(path[..|path| - 1], '/');
      assert want[..|want| - 1] == Split(pattern[..|pattern| - 1], '/');
    }
  }

  lemma {:induction false} LastPart(s: string)
    ensures (s != "" && s[|s| - 1] == '/') <==> (|Split(s, '/')| > 1 && Split(s, '/')[|Split(s, '/')| - 1] == "")
    ensures s != "" && s[|s| - 1] == '/' ==> Split(s, '/') == Split(s[..|s| - 1], '/') + [""]
  {
    if s != "" && s[|s| - 1] == '/' {
      assert s == s[..|s| - 1] + ['/'] + "";
      SplitConcat(s[..|s| - 1], "", '/');
    } else if s != "" {
      LastPart(s[1..]);
      var parts := Split(s[1..], '/');
      if |s| == 1 {
        assert parts == [""];
      } else if s[0] != '/' && |parts| == 1 {
        assert |Split(s, '/')| == 1;
      }
    }
  }

  lemma {:induction false} TrimMatches(path: string, pattern: string)
    requires SegmentsMatch(Split(path, '/'), Split(pattern, '/'))
    ensures SegmentsMatch(Split(TrimRight(path, IsSlash), '/'), Split(TrimRight(pattern, IsSlash), '/'))
    decreases |path|
  {
    TrailingSlashShared(path, pattern);
    if path != "" && path[|path| - 1] == '/' {
      TrimMatches(path[..|path| - 1], pattern[..|pattern| - 1]);
    }
  }

  lemma {:induction false} LowerPathsMatch(path: string, pattern: string)
    requires SegmentsMatch(Split(path, '/'), Split(pattern, '/'))
    ensures SegmentsMatch(Split(Lower(path), '/'), Split(Lower(pattern), '/'))
  {
    var got, want := Split(path, '/'), Split(pattern, '/');
    SplitLower(path);
    SplitLower(pattern);
    forall k | 0 <= k < |want| ensures SegmentMatches(Lower(got[k]), Lower(want[k])) {
      LowerMatches(got[k], want[k]);
    }
  }

  lemma {:induction false} RoutedMatches(path: string, pattern: string)
    requires SegmentsMatch(Split(path, '/'), Split(pattern, '/'))
    ensures SegmentsMatch(Split(Routed(path), '/'), Split(Routed(pattern), '/'))
  {
    LowerPathsMatch(path, pattern);
    var p, q := Lower(path), Lower(pattern);
    TrailingSlashShared(p, q);
    if p != "" && p[|p| - 1] == '/' {
      LoneSlashShared(p, q);
      TrimMatches(p, q);
    } else {
      assert TrimRight(p, IsSlash) == p && TrimRight(q, IsSlash) == q;
    }
  }

  /** Whatever the matcher accepts, the router sends to the route of that pattern. */
  lemma {:induction false} NoLooserThanRouter(path: string, pattern: string)
    requires exists values :: Instance(path, pattern, values)
    ensures exists values :: Instance(Routed(path), Routed(pattern), values)
  {
    MatchExact(path, pattern);
    RoutedMatches(path, pattern);
    MatchExact(Routed(path), Routed(pattern));
  }

  /** The router's length test never trims one side alone. */
  lemma {:induction false} LoneSlashShared(path: string, pattern: string)
    requires SegmentsMatch(Split(path, '/'), Split(pattern, '/')) && path != "" && path[|path| - 1] == '/'
    ensures pattern != "" && (|path| == 1 <==> |pattern| == 1)
  {
    TrailingSlashShared(path, pattern);
    var a, b := path[..|path| - 1], pattern[..|pattern| - 1];
    JoinSplit(a, '/');
    JoinSplit(b, '/');
    assert SegmentMatches(Split(a, '/')[0], Split(b, '/')[0]);
    assert |a| == 0 ==> Split(b, '/') == [""];
    assert |b| == 0 ==> Split(a, '/') == [""];
  }
}

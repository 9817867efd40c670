/**
 Dot segments of a URL path and `refuseTrailingSlashWrites` (`internal/api/middleware.go`).

 `Resolved` is what a browser sends for a path (the path state of the WHATWG URL
 parser, which counts `%2e` as a dot); `RemoveDots` is the buffer algorithm of
 section 5.2.4 of RFC 3986. They agree once the dots are spelled as dots.
 */
module DotSegments {
  import opened Text

  // ---------------------------------------------------------------------------
  // Resolution, segment by segment
  // ---------------------------------------------------------------------------

  /** Percent-encoded dots read as dots. */
  function Dotted(seg: string): (out: string)
    ensures |out| <= |seg|
  {
    if seg == "" then ""
    else if |seg| >= 3 && Lower(seg[..3]) == "%2e" then "." + Dotted(seg[3..])
    else [seg[0]] + Dotted(seg[1..])
  }

  predicate SingleDot(seg: string) {
    Dotted(seg) == "."
  }

  predicate DoubleDot(seg: string) {
    Dotted(seg) == ".."
  }

  predicate IsDotSegment(seg: string) {
    SingleDot(seg) || DoubleDot(seg)
  }

  function Shortened(out: seq<string>): seq<string> {
    if out == [] then [] else out[..|out| - 1]
  }

  /** The segments kept: a final dot segment leaves an empty one behind. */
  function Resolve(segs: seq<string>, out: seq<string>): seq<string>
    decreases |segs|
  {
    if segs == [] then out
    else
      var left := if |segs| == 1 then [""] else [];
      if DoubleDot(segs[0]) then Resolve(segs[1..], Shortened(out) + left)
      else if SingleDot(segs[0]) then Resolve(segs[1..], out + left)
      else Resolve(segs[1..], out + [segs[0]])
  }

  predicate Absolute(path: string) {
    path != "" && path[0] == '/'
  }

  function Segments(path: string): (segs: seq<string>)
    requires Absolute(path)
    ensures segs != []
  {
    Split(path[1..], '/')
  }

  function Resolved(path: string): string
    requires Absolute(path)
  {
    "/" + Join(Resolve(Segments(path), []), '/')
  }

  // ---------------------------------------------------------------------------
  // The gate
  // ---------------------------------------------------------------------------

  predicate IsReadMethod(verb: string) {
    verb == "GET" || verb == "HEAD" || verb == "OPTIONS"
  }

  predicate EndsInSlash(path: string) {
    path != "" && path[|path| - 1] == '/'
  }

  /** `refuseTrailingSlashWrites` answers 400. */
  predicate RefusesTrailingSlash(verb: string, path: string) {
    |path| > 1 && EndsInSlash(path) && !IsReadMethod(verb)
  }

  lemma {:induction false} ResolveEnds(segs: seq<string>, out: seq<string>)
    requires segs != []
    ensures var r, last := Resolve(segs, out), segs[|segs| - 1];
            r != [] && r[|r| - 1] == if IsDotSegment(last) then "" else last
    decreases |segs|
  {
    if |segs| > 1 {
      var rest := segs[1..];
      assert rest[|rest| - 1] == segs[|segs| - 1];
      if DoubleDot(segs[0]) {
        ResolveEnds(rest, Shortened(out) + []);
      } else if SingleDot(segs[0]) {
        ResolveEnds(rest, out + []);
      } else {
        ResolveEnds(rest, out + [segs[0]]);
      }
    } else {
      assert segs[1..] == [];
    }
  }

  lemma {:induction false} JoinEndsInSlash(parts: seq<string>)
    requires parts != [] && Free(parts[|parts| - 1], '/')
    ensures EndsInSlash("/" + Join(parts, '/')) <==> parts[|parts| - 1] == ""
  {
    if |parts| == 1 {
    } else {
      var rest := parts[1..];
      JoinEndsInSlash(rest);
      assert "/" + Join(parts, '/') == "/" + parts[0] + ("/" + Join(rest, '/'));
    }
  }

  /**
   What a browser sends ends in a slash exactly when the path's last segment was
   empty or a dot segment, so the gate sees every final dot segment.
   */
  lemma {:induction false} FinalDotLeavesSlash(path: string)
    requires Absolute(path)
    ensures var segs := Segments(path);
            EndsInSlash(Resolved(path)) <==> segs[|segs| - 1] == "" || IsDotSegment(segs[|segs| - 1])
  {
    var segs := Segments(path);
    SplitParts(path[1..], '/');
    ResolveEnds(segs, []);
    JoinEndsInSlash(Resolve(segs, []));
  }

  /**
   What the gate sees of a resolved path: it refuses a write exactly when the path typed
   ended in a slash or a dot segment and did not resolve to the root. A dot segment
   further in front leaves no mark.
   */
  lemma {:induction false} GateSeesFinalDotsExactly(verb: string, path: string)
    requires Absolute(path)
    ensures var last := Segments(path)[|Segments(path)| - 1];
            RefusesTrailingSlash(verb, Resolved(path)) <==>
              !IsReadMethod(verb) && Resolved(path) != "/" && (last == "" || IsDotSegment(last))
  {
    FinalDotLeavesSlash(path);
  }

  lemma {:induction false} NothingToResolve(segs: seq<string>, out: seq<string>)
    requires forall k :: 0 <= k < |segs| ==> !IsDotSegment(segs[k])
    ensures Resolve(segs, out) == out + segs
    decreases |segs|
  {
    if segs == [] {
      assert out + segs == out;
    } else {
      NothingToResolve(segs[1..], out + [segs[0]]);
      assert out + segs == out + [segs[0]] + segs[1..];
    }
  }

  /** A path without dot segments is sent as it is; without a trailing slash it passes the gate. */
  lemma {:induction false} CleanPathsPass(verb: string, path: string)
    requires Absolute(path)
    requires forall k :: 0 <= k < |Segments(path)| ==> !IsDotSegment(Segments(path)[k])
    ensures Resolved(path) == path
    ensures RefusesTrailingSlash(verb, Resolved(path)) <==> EndsInSlash(path) && path != "/" && !IsReadMethod(verb)
  {
    NothingToResolve(Segments(path), []);
    assert [] + Segments(path) == Segments(path);
    JoinSplit(path[1..], '/');
  }

  /** Why it matters: a final ".." turns a request on a child into one on its parent. */
  lemma {:induction false} FinalDoubleDotNamesTheParent(parent: seq<string>, child: string, dots: string)
    requires parent != [] && DoubleDot(dots) && !IsDotSegment(child)
    requires forall k :: 0 <= k < |parent| ==> !IsDotSegment(parent[k])
    ensures Resolve(parent + [child, dots], []) == parent + [""]
  {
    ResolveConcat(parent + [child], [dots], []);
    assert parent + [child, dots] == parent + [child] + [dots];
    NothingToResolve(parent + [child], []);
    assert [] + (parent + [child]) == parent + [child];
    assert Shortened(parent + [child]) == parent;
    assert [dots][1..] == [];
  }

  lemma {:induction false} ResolveConcat(a: seq<string>, b: seq<string>, out: seq<string>)
    requires b != [] && forall k :: 0 <= k < |a| ==> !IsDotSegment(a[k])
    ensures Resolve(a + b, out) == Resolve(b, Resolve(a, out))
    decreases |a|
  {
    if a == [] {
      assert a + b == b;
    } else {
      assert (a + b)[0] == a[0] && (a + b)[1..] == a[1..] + b;
      ResolveConcat(a[1..], b, out + [a[0]]);
    }
  }

  // ---------------------------------------------------------------------------
  // The buffer algorithm of RFC 3986
  // ---------------------------------------------------------------------------

  predicate Begins(s: string, prefix: string) {
    |prefix| <= |s| && s[..|prefix|] == prefix
  }

  /** Drops the last segment and the slash before it. */
  function DropLast(output: string): string {
    if output == "" then ""
    else if output[|output| - 1] == '/' then output[..|output| - 1]
    else DropLast(output[..|output| - 1])
  }

  /** The first segment with its leading slash, up to the next one. */
  function FirstSegment(input: string): (n: nat)
    requires input != ""
    ensures 0 < n <= |input|
  {
    if input[0] == '/' then 1 + IndexOf(input[1..], '/') else IndexOf(input, '/')
  }

  /** The rule of section 5.2.4 that applies to a non-empty input, and how many characters it consumes. */
  datatype Rule = Skip(n: nat) | Up(n: nat) | ToSlash | UpToSlash | Move

  function RuleOf(input: string): Rule {
    if Begins(input, "../") then Skip(3)
    else if Begins(input, "./") then Skip(2)
    else if Begins(input, "/./") then Skip(2)
    else if input == "/." then ToSlash
    else if Begins(input, "/../") then Up(3)
    else if input == "/.." then UpToSlash
    else if input == "." || input == ".." then Skip(|input|)
    else Move
  }

  /** Section 5.2.4: rules A to E over an input and an output buffer. */
  function RemoveDots(input: string, output: string): string
    decreases |input|
  {
    if input == "" then output
    else match RuleOf(input)
      case Skip(n) => RemoveDots(input[n..], output)
      case Up(n) => RemoveDots(input[n..], DropLast(output))
      case ToSlash => RemoveDots("/", output)
      case UpToSlash => RemoveDots("/", DropLast(output))
      case Move => RemoveDots(input[FirstSegment(input)..], output + input[..FirstSegment(input)])
  }

  /** Segments as an absolute path; no segments is the empty path. */
  function Slashed(segs: seq<string>): string {
    if segs == [] then "" else "/" + segs[0] + Slashed(segs[1..])
  }

  lemma {:induction false} SlashedIsJoin(segs: seq<string>)
    requires segs != []
    ensures Slashed(segs) == "/" + Join(segs, '/')
  {
    if |segs| > 1 {
      SlashedIsJoin(segs[1..]);
    } else {
      assert segs[1..] == [];
    }
  }

  lemma {:induction false} SlashedAppend(out: seq<string>, seg: string)
    ensures Slashed(out + [seg]) == Slashed(out) + "/" + seg
  {
    if out == [] {
      assert (out + [seg])[1..] == [];
    } else {
      assert (out + [seg])[1..] == out[1..] + [seg];
      SlashedAppend(out[1..], seg);
    }
  }

  lemma {:induction false} DropLastSegment(out: seq<string>)
    requires forall k :: 0 <= k < |out| ==> Free(out[k], '/')
    ensures DropLast(Slashed(out)) == Slashed(Shortened(out))
  {
    if out != [] {
      var last := out[|out| - 1];
      assert out == Shortened(out) + [last];
      SlashedAppend(Shortened(out), last);
      DropSegment(Slashed(Shortened(out)), last);
    }
  }

  lemma {:induction false} DropSegment(front: string, seg: string)
    requires Free(seg, '/')
    ensures DropLast(front + "/" + seg) == front
    decreases |seg|
  {
    var whole := front + "/" + seg;
    if seg == "" {
      assert whole[..|whole| - 1] == front;
    } else {
      assert whole[..|whole| - 1] == front + "/" + seg[..|seg| - 1];
      DropSegment(front, seg[..|seg| - 1]);
    }
  }

  predicate LiteralDots(segs: seq<string>) {
    forall k :: 0 <= k < |segs| ==>
      Free(segs[k], '/') && (SingleDot(segs[k]) <==> segs[k] == ".") && (DoubleDot(segs[k]) <==> segs[k] == "..")
  }

  lemma {:induction false} FirstSlash(seg: string, tail: string)
    requires Free(seg, '/') && (tail != "" ==> tail[0] == '/')
    ensures IndexOf(seg + tail, '/') == |seg|
  {
    assert (seg + tail)[..|seg|] == seg;
    IndexOfUnique(seg + tail, '/', |seg|);
  }

  /** The prefix tests of rules B and C ask what the first segment is. */
  lemma {:induction false} PrefixNamesSegment(seg: string, tail: string, w: string)
    requires Free(seg, '/') && Free(w, '/') && (tail != "" ==> tail[0] == '/')
    ensures Begins("/" + seg + tail, "/" + w + "/") || "/" + seg + tail == "/" + w ==> seg == w
  {
    var input := "/" + seg + tail;
    FirstSlash(seg, tail);
    assert input[1..] == seg + tail;
    if Begins(input, "/" + w + "/") || input == "/" + w {
      var rest := input[1 + |w|..];
      assert input[..1 + |w|] == "/" + w;
      assert input[1..] == w + rest;
      assert rest != "" ==> rest[0] == input[1 + |w|] == '/';
      FirstSlash(w, rest);
      assert seg == input[1..1 + |seg|];
    }
  }

  lemma {:induction false} RuleOfDots(seg: string, tail: string)
    requires (seg == "." || seg == "..") && (tail != "" ==> tail[0] == '/')
    ensures RuleOf("/" + seg + tail) ==
            if tail == "" then (if seg == "." then ToSlash else UpToSlash) else (if seg == "." then Skip(2) else Up(3))
  {
    var input := "/" + seg + tail;
    assert input[0] == '/' && input[1] == '.';
    if tail == "" {
      assert input == if seg == "." then "/." else "/..";
      assert seg == ".." ==> input[..3][2] == '.';
    } else if seg == "." {
      assert input[..3] == "/./";
    } else {
      assert input[..4] == "/../" && input[..3][2] == '.';
    }
  }

  lemma {:induction false} OtherStart(s: string, prefix: string)
    requires s != "" && prefix != "" && s[0] != prefix[0]
    ensures !Begins(s, prefix)
  {
    assert |prefix| <= |s| ==> s[..|prefix|][0] == s[0];
  }

  lemma {:induction false} RuleOfPlain(seg: string, tail: string)
    requires Free(seg, '/') && seg != "." && seg != ".." && (tail != "" ==> tail[0] == '/')
    ensures RuleOf("/" + seg + tail) == Move
  {
    PrefixNamesSegment(seg, tail, ".");
    PrefixNamesSegment(seg, tail, "..");
    var input := "/" + seg + tail;
    OtherStart(input, "../");
    OtherStart(input, "./");
    assert "/" + "." + "/" == "/./" && "/" + ".." + "/" == "/../" && "/" + "." == "/." && "/" + ".." == "/..";
  }

  lemma {:induction false} LoneSlash(output: string)
    ensures RemoveDots("/", output) == output + "/"
  {
    assert FirstSegment("/") == 1;
    assert "/"[1..] == "" && "/"[..1] == "/";
  }

  /** Rules B and C. */
  lemma {:induction false} DotStep(seg: string, tail: string, output: string)
    requires (seg == "." || seg == "..") && (tail != "" ==> tail[0] == '/')
    ensures var output' := if seg == "." then output else DropLast(output);
            RemoveDots("/" + seg + tail, output) == if tail == "" then output' + "/" else RemoveDots(tail, output')
  {
    var input := "/" + seg + tail;
    RuleOfDots(seg, tail);
    LoneSlash(if seg == "." then output else DropLast(output));
    assert input[|seg| + 1..] == tail;
  }

  /** Rule E on an absolute input. */
  lemma {:induction false} PlainStep(seg: string, tail: string, output: string)
    requires Free(seg, '/') && seg != "." && seg != ".." && (tail != "" ==> tail[0] == '/')
    ensures RemoveDots("/" + seg + tail, output) == RemoveDots(tail, output + "/" + seg)
  {
    var input := "/" + seg + tail;
    RuleOfPlain(seg, tail);
    FirstSlash(seg, tail);
    assert input[1..] == seg + tail;
    assert FirstSegment(input) == 1 + |seg|;
    assert input[..1 + |seg|] == "/" + seg && input[1 + |seg|..] == tail;
    assert output + ("/" + seg) == output + "/" + seg;
  }

  /** A dot segment in front, on the buffers: what it leaves of the output, and the slash of a final one. */
  lemma {:induction false} DotBuffers(seg: string, rest: seq<string>, out: seq<string>)
    requires (seg == "." || seg == "..") && forall k :: 0 <= k < |out| ==> Free(out[k], '/')
    ensures var kept := if seg == "." then out else Shortened(out);
            RemoveDots("/" + seg + Slashed(rest), Slashed(out)) ==
              if rest == [] then Slashed(kept + [""]) else RemoveDots(Slashed(rest), Slashed(kept))
  {
    var kept := if seg == "." then out else Shortened(out);
    DotStep(seg, Slashed(rest), Slashed(out));
    DropLastSegment(out);
    SlashedAppend(kept, "");
  }

  /** The same on the segments. */
  lemma {:induction false} DotSegmentsStep(seg: string, rest: seq<string>, out: seq<string>)
    requires IsDotSegment(seg)
    ensures var kept := if DoubleDot(seg) then Shortened(out) else out;
            Resolve([seg] + rest, out) == if rest == [] then kept + [""] else Resolve(rest, kept)
  {
    assert ([seg] + rest)[1..] == rest;
    assert out + [] == out && Shortened(out) + [] == Shortened(out);
  }

  lemma {:induction false} BuffersResolve(segs: seq<string>, out: seq<string>)
    requires segs != [] && LiteralDots(segs) && forall k :: 0 <= k < |out| ==> Free(out[k], '/')
    ensures RemoveDots(Slashed(segs), Slashed(out)) == Slashed(Resolve(segs, out))
    decreases |segs|
  {
    var seg, rest := segs[0], segs[1..];
    assert segs == [seg] + rest;
    if seg == "." || seg == ".." {
      DotBuffers(seg, rest, out);
      DotSegmentsStep(seg, rest, out);
      if rest != [] {
        BuffersResolve(rest, if seg == "." then out else Shortened(out));
      }
    } else {
      assert !IsDotSegment(seg);
      assert Slashed(rest) != "" ==> Slashed(rest)[0] == '/';
      PlainStep(seg, Slashed(rest), Slashed(out));
      SlashedAppend(out, seg);
      if rest != [] {
        BuffersResolve(rest, out + [seg]);
      }
    }
  }

  /** On a path whose dots are spelled as dots, the browser's resolution is the RFC's. */
  lemma {:induction false} ResolvedIsRemoveDots(path: string)
    requires Absolute(path) && LiteralDots(Segments(path))
    ensures RemoveDots(path, "") == Resolved(path)
  {
    var segs := Segments(path);
    SlashedIsJoin(segs);
    JoinSplit(path[1..], '/');
    assert path == Slashed(segs);
    BuffersResolve(segs, []);
    ResolveEnds(segs, []);
    SlashedIsJoin(Resolve(segs, []));
  }
}

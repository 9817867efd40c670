/**
 The string operations the request models share, on ASCII text: Go's Split, Join,
 Cut, EqualFold and Trim.
 */
module Text {
  predicate Free(s: string, sep: char) {
    forall i :: 0 <= i < |s| ==> s[i] != sep
  }

  /** One more character in front of an already split text. */
  function Push(c: char, parts: seq<string>, sep: char): seq<string>
    requires parts != []
  {
    if c == sep then [""] + parts else [[c] + parts[0]] + parts[1..]
  }

  /** Go's strings.Split for a one-character separator: never empty. */
  function Split(s: string, sep: char): (parts: seq<string>)
    ensures |parts| >= 1
  {
    if s == "" then [""]
    else Push(s[0], Split(s[1..], sep), sep)
  }

  function Join(parts: seq<string>, sep: char): string {
    if parts == [] then "" else if |parts| == 1 then parts[0] else parts[0] + [sep] + Join(parts[1..], sep)
  }

  lemma {:induction false} SplitParts(s: string, sep: char)
    ensures forall k :: 0 <= k < |Split(s, sep)| ==> Free(Split(s, sep)[k], sep)
  {
    if s == "" {
    } else {
      SplitParts(s[1..], sep);
    }
  }

  /** A text without the separator is its own only part. */
  lemma {:induction false} SplitFree(s: string, sep: char)
    requires Free(s, sep)
    ensures Split(s, sep) == [s]
  {
    if s == "" {
    } else {
      SplitFree(s[1..], sep);
      assert [s[0]] + s[1..] == s;
    }
  }

  lemma PushConcat(c: char, front: seq<string>, back: seq<string>, sep: char)
    requires front != []
    ensures Push(c, front + back, sep) == Push(c, front, sep) + back
  {
    assert (front + back)[1..] == front[1..] + back;
  }

  lemma {:induction false} SplitConcat(a: string, b: string, sep: char)
    ensures Split(a + [sep] + b, sep) == Split(a, sep) + Split(b, sep)
  {
    var t := a + [sep] + b;
    if a == "" {
      assert t[1..] == b;
    } else {
      assert t[0] == a[0] && t[1..] == a[1..] + [sep] + b;
      SplitConcat(a[1..], b, sep);
      PushConcat(a[0], Split(a[1..], sep), Split(b, sep), sep);
    }
  }

  lemma {:induction false} JoinSplit(s: string, sep: char)
    ensures Join(Split(s, sep), sep) == s
  {
    if s == "" {
    } else {
      JoinSplit(s[1..], sep);
      var rest := Split(s[1..], sep);
      if s[0] == sep {
        assert Split(s, sep)[1..] == rest;
      } else {
        var parts := Split(s, sep);
        assert parts[1..] == rest[1..];
      }
    }
  }

  lemma {:induction false} SplitJoin(parts: seq<string>, sep: char)
    requires parts != [] && forall k :: 0 <= k < |parts| ==> Free(parts[k], sep)
    ensures Split(Join(parts, sep), sep) == parts
  {
    if |parts| == 1 {
      SplitFree(parts[0], sep);
    } else {
      SplitJoin(parts[1..], sep);
      SplitConcat(parts[0], Join(parts[1..], sep), sep);
      SplitFree(parts[0], sep);
    }
  }

  function LowerChar(c: char): char {
    if 'A' <= c <= 'Z' then c + ' ' else c
  }

  function Lower(s: string): (t: string)
    ensures |t| == |s|
    ensures forall i :: 0 <= i < |s| ==> t[i] == LowerChar(s[i])
  {
    seq(|s|, i requires 0 <= i < |s| => LowerChar(s[i]))
  }

  predicate EqualFold(a: string, b: string) {
    Lower(a) == Lower(b)
  }

  predicate IsBlank(c: char) {
    c == ' ' || c == '\t'
  }

  /** Go's unicode.IsSpace on ASCII. */
  predicate IsSpace(c: char) {
    c == ' ' || ('\t' <= c <= '\r')
  }

  function TrimLeft(s: string, drop: char -> bool): string {
    if s != "" && drop(s[0]) then TrimLeft(s[1..], drop) else s
  }

  function TrimRight(s: string, drop: char -> bool): string {
    if s != "" && drop(s[|s| - 1]) then TrimRight(s[..|s| - 1], drop) else s
  }

  function TrimSpace(s: string): string {
    TrimRight(TrimLeft(s, IsSpace), IsSpace)
  }

  function TrimBlank(s: string): string {
    TrimRight(TrimLeft(s, IsBlank), IsBlank)
  }

  /** The index of the first separator, or the length. */
  function IndexOf(s: string, sep: char): (n: nat)
    ensures n <= |s|
    ensures n < |s| ==> s[n] == sep
    ensures Free(s[..n], sep)
  {
    if s == "" || s[0] == sep then 0 else 1 + IndexOf(s[1..], sep)
  }

  predicate AllOf(s: string, p: char -> bool) {
    forall i :: 0 <= i < |s| ==> p(s[i])
  }

  lemma {:induction false} TrimLeftCore(pre: string, s: string, drop: char -> bool)
    requires AllOf(pre, drop) && s != "" && !drop(s[0])
    ensures TrimLeft(pre + s, drop) == s
  {
    if pre == "" {
      assert pre + s == s;
    } else {
      assert (pre + s)[1..] == pre[1..] + s;
      TrimLeftCore(pre[1..], s, drop);
    }
  }

  lemma {:induction false} TrimRightCore(s: string, post: string, drop: char -> bool)
    requires AllOf(post, drop) && s != "" && !drop(s[|s| - 1])
    ensures TrimRight(s + post, drop) == s
  {
    if post == "" {
      assert s + post == s;
    } else {
      assert (s + post)[..|s + post| - 1] == s + post[..|post| - 1];
      TrimRightCore(s, post[..|post| - 1], drop);
    }
  }

  lemma {:induction false} TrimLeftParts(s: string, drop: char -> bool) returns (pre: string)
    ensures s == pre + TrimLeft(s, drop) && AllOf(pre, drop)
  {
    if s != "" && drop(s[0]) {
      var rest := TrimLeftParts(s[1..], drop);
      pre := [s[0]] + rest;
    } else {
      pre := "";
    }
  }

  lemma {:induction false} TrimRightParts(s: string, drop: char -> bool) returns (post: string)
    ensures s == TrimRight(s, drop) + post && AllOf(post, drop)
  {
    if s != "" && drop(s[|s| - 1]) {
      var rest := TrimRightParts(s[..|s| - 1], drop);
      post := rest + [s[|s| - 1]];
    } else {
      post := "";
    }
  }

  /** A word between spaces is what TrimSpace leaves. */
  lemma TrimSpaceCore(pre: string, core: string, post: string)
    requires AllOf(pre, IsSpace) && AllOf(post, IsSpace)
    requires core != "" && !IsSpace(core[0]) && !IsSpace(core[|core| - 1])
    ensures TrimSpace(pre + core + post) == core
  {
    assert pre + core + post == pre + (core + post);
    TrimLeftCore(pre, core + post, IsSpace);
    TrimRightCore(core, post, IsSpace);
  }

  /** Trimming blanks and trimming spaces agree on a word, a carriage return after it or not. */
  lemma TrimBlankIsTrimSpace(s: string, end: string)
    requires end == "" || end == "\r"
    requires TrimBlank(s) != "" && !IsSpace(TrimBlank(s)[0]) && !IsSpace(TrimBlank(s)[|TrimBlank(s)| - 1])
    ensures TrimSpace(s + end) == TrimBlank(s)
  {
    var pre := TrimLeftParts(s, IsBlank);
    var post := TrimRightParts(TrimLeft(s, IsBlank), IsBlank);
    assert s + end == pre + TrimBlank(s) + (post + end);
    TrimSpaceCore(pre, TrimBlank(s), post + end);
  }

  lemma {:induction false} IndexOfUnique(s: string, sep: char, m: nat)
    requires m <= |s| && Free(s[..m], sep) && (m < |s| ==> s[m] == sep)
    ensures IndexOf(s, sep) == m
  {
    if m == 0 {
    } else {
      assert s[..m][0] == s[0];
      assert s[1..][..m - 1] == s[..m][1..];
      IndexOfUnique(s[1..], sep, m - 1);
    }
  }
}

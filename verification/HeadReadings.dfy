/**
 `ambiguousFramingRefusal` (`internal/api/body_framing.go`) against the two ways an HTTP
 parser may read the header lines it is asked about: the server's own, which joins a
 line starting with a space or tab onto the line before it and ignores the identity
 transfer coding, and a front-end's, which reads every line as a field and any
 Transfer-Encoding as chunked. How a list of Content-Length values is read is the same
 parameter for both.
 */
module HeadReadings {
  import opened Options
  import opened Text

  const TRANSFER_ENCODING := "transfer-encoding"
  const CONTENT_LENGTH := "content-length"
  const CHUNKED := "chunked"
  const IDENTITY := "identity"

  /** The length a reader reports for a chunked body. */
  const CHUNKED_FRAMING: int := -1

  datatype Refusal = Clear | ObsFold | IdentityCoding

  datatype Field = Field(name: string, value: string)

  datatype Reading = Reading(fields: seq<Field>, framing: int)

  // ---------------------------------------------------------------------------
  // The scan of the source
  // ---------------------------------------------------------------------------

  predicate ContainsPair(s: string, a: char, b: char) {
    exists k :: 0 <= k < |s| - 1 && s[k] == a && s[k + 1] == b
  }

  predicate IsFold(line: string) {
    line != "" && IsBlank(line[0])
  }

  function NameOf(line: string): string {
    line[..IndexOf(line, ':')]
  }

  function ValueOf(line: string): string
    requires IndexOf(line, ':') < |line|
  {
    line[IndexOf(line, ':') + 1..]
  }

  predicate HasColon(line: string) {
    IndexOf(line, ':') < |line|
  }

  /** The line the scan looks for. */
  predicate NamesIdentity(line: string) {
    HasColon(line) && EqualFold(NameOf(line), TRANSFER_ENCODING) && EqualFold(TrimSpace(ValueOf(line)), IDENTITY)
  }

  /** Some header line after the first continues the line before it. */
  predicate FoldsLater(raw: string) {
    exists k :: 1 <= k < |Split(raw, '\n')| && IsFold(Split(raw, '\n')[k])
  }

  predicate HasIdentityLine(raw: string) {
    exists k :: 0 <= k < |Split(raw, '\n')| && NamesIdentity(Split(raw, '\n')[k])
  }

  function RefusalOf(raw: string): Refusal {
    if FoldsLater(raw) then ObsFold else if HasIdentityLine(raw) then IdentityCoding else Clear
  }

  /** The substring test, as the position of a line end with a blank behind it. */
  predicate BlankAfterLine(s: string) {
    exists k :: 0 <= k < |s| - 1 && s[k] == '\n' && IsBlank(s[k + 1])
  }

  lemma {:induction false} PairsAreBlanks(s: string)
    ensures ContainsPair(s, '\n', ' ') || ContainsPair(s, '\n', '\t') <==> BlankAfterLine(s)
  {}

  lemma {:induction false} BlankOrLater(s: string)
    requires s != ""
    ensures BlankAfterLine(s) <==> (s[0] == '\n' && |s| > 1 && IsBlank(s[1])) || BlankAfterLine(s[1..])
  {
    if BlankAfterLine(s) {
      var k :| 0 <= k < |s| - 1 && s[k] == '\n' && IsBlank(s[k + 1]);
      if k > 0 {
        assert s[1..][k - 1] == '\n' && s[1..][k - 1 + 1] == s[k + 1];
      }
    }
    if s[0] == '\n' && |s| > 1 && IsBlank(s[1]) {
      assert s[0 + 1] == s[1];
    }
    if BlankAfterLine(s[1..]) {
      var k :| 0 <= k < |s[1..]| - 1 && s[1..][k] == '\n' && IsBlank(s[1..][k + 1]);
      assert s[k + 1] == '\n' && s[k + 1 + 1] == s[1..][k + 1];
    }
  }

  lemma {:induction false} FoldOrLater(s: string)
    requires s != ""
    ensures FoldsLater(s) <==> (s[0] == '\n' && IsFold(Split(s[1..], '\n')[0])) || FoldsLater(s[1..])
  {
    var lines, tail := Split(s, '\n'), Split(s[1..], '\n');
    if s[0] == '\n' {
      assert lines[1..] == tail;
      assert forall k :: 0 <= k < |tail| ==> lines[k + 1] == tail[k];
    } else {
      assert |lines| == |tail| && forall k :: 1 <= k < |tail| ==> lines[k] == tail[k];
    }
  }

  /** The substring test sees exactly the folded lines after the first. */
  lemma {:induction false} FoldTestExact(raw: string)
    ensures ContainsPair(raw, '\n', ' ') || ContainsPair(raw, '\n', '\t') <==> FoldsLater(raw)
  {
    PairsAreBlanks(raw);
    BlanksAreFolds(raw);
  }

  lemma {:induction false} BlanksAreFolds(raw: string)
    ensures BlankAfterLine(raw) <==> FoldsLater(raw)
  {
    if raw == "" {
    } else {
      BlankOrLater(raw);
      FoldOrLater(raw);
      FirstLine(raw[1..]);
      BlanksAreFolds(raw[1..]);
    }
  }

  lemma {:induction false} FirstLine(s: string)
    ensures IsFold(Split(s, '\n')[0]) <==> s != "" && IsBlank(s[0])
  {}

  /** The scan: a fold anywhere comes first, then the first identity line. */
  method AmbiguousFramingRefusal(raw: string) returns (why: Refusal)
    ensures why == RefusalOf(raw)
  {
    FoldTestExact(raw);
    if ContainsPair(raw, '\n', ' ') || ContainsPair(raw, '\n', '\t') {
      return ObsFold;
    }
    var lines := Split(raw, '\n');
    for i := 0 to |lines|
      invariant forall k :: 0 <= k < i ==> !NamesIdentity(lines[k])
    {
      var line := lines[i];
      var colon := IndexOf(line, ':');
      if colon < |line| && EqualFold(line[..colon], TRANSFER_ENCODING) &&
         EqualFold(TrimSpace(line[colon + 1..]), IDENTITY)
      {
        assert NamesIdentity(lines[i]);
        return IdentityCoding;
      }
    }
    return Clear;
  }

  // ---------------------------------------------------------------------------
  // The two readers
  // ---------------------------------------------------------------------------

  function StripReturn(line: string): string {
    if line != "" && line[|line| - 1] == '\r' then line[..|line| - 1] else line
  }

  /** The lines of the head, without their line ends, up to the empty line that closes it. */
  function HeadLines(lines: seq<string>): seq<string> {
    if lines == [] || StripReturn(lines[0]) == "" then [] else [StripReturn(lines[0])] + HeadLines(lines[1..])
  }

  /** Continuation lines joined onto the line before them. */
  function Unfolded(lines: seq<string>): (out: seq<string>)
    ensures |out| <= |lines| && (lines != [] ==> out != [])
  {
    if lines == [] then []
    else
      var front, last := Unfolded(lines[..|lines| - 1]), lines[|lines| - 1];
      if front != [] && IsFold(last)
      then front[..|front| - 1] + [front[|front| - 1] + " " + TrimBlank(last)]
      else front + [last]
  }

  function FieldOf(line: string): Field
    requires HasColon(line)
  {
    Field(NameOf(line), TrimBlank(ValueOf(line)))
  }

  function FieldsOf(lines: seq<string>): Option<seq<Field>> {
    if forall k :: 0 <= k < |lines| ==> HasColon(lines[k])
    then Some(seq(|lines|, k requires 0 <= k < |lines| && HasColon(lines[k]) => FieldOf(lines[k])))
    else None
  }

  /** The values of the fields of one name, in order. */
  function ValuesOf(fields: seq<Field>, name: string): seq<string> {
    if fields == [] then []
    else (if EqualFold(fields[0].name, name) then [fields[0].value] else []) + ValuesOf(fields[1..], name)
  }

  predicate IsIdentityField(f: Field) {
    EqualFold(f.name, TRANSFER_ENCODING) && EqualFold(f.value, IDENTITY)
  }

  function WithoutIdentity(fields: seq<Field>): (kept: seq<Field>)
    ensures |kept| <= |fields|
  {
    if fields == [] then []
    else (if IsIdentityField(fields[0]) then [] else [fields[0]]) + WithoutIdentity(fields[1..])
  }

  /** The server's framing: identity is dropped, a second coding or an unknown one refused. */
  function ServerFraming(fields: seq<Field>, lengthOf: seq<string> -> int): Option<Reading> {
    var codings, kept := ValuesOf(fields, TRANSFER_ENCODING), WithoutIdentity(fields);
    if |codings| > 1 then None
    else if codings == [] || EqualFold(codings[0], IDENTITY)
    then Some(Reading(kept, lengthOf(ValuesOf(kept, CONTENT_LENGTH))))
    else if EqualFold(codings[0], CHUNKED) then Some(Reading(kept, CHUNKED_FRAMING))
    else None
  }

  /** The server: folds are joined; one on the first line is refused while parsing. */
  function ServerReading(raw: string, lengthOf: seq<string> -> int): Option<Reading> {
    var lines := HeadLines(Split(raw, '\n'));
    if lines != [] && IsFold(lines[0]) then None
    else
      var read := FieldsOf(Unfolded(lines));
      if read.None? then None else ServerFraming(read.value, lengthOf)
  }

  function Trimmed(lines: seq<string>): (out: seq<string>)
    ensures |out| == |lines|
    ensures forall k :: 0 <= k < |lines| ==> out[k] == TrimLeft(lines[k], IsBlank)
  {
    seq(|lines|, k requires 0 <= k < |lines| => TrimLeft(lines[k], IsBlank))
  }

  /** A front-end's framing: any coding at all means chunked. */
  function LineFraming(fields: seq<Field>, lengthOf: seq<string> -> int): Reading {
    Reading(fields, if ValuesOf(fields, TRANSFER_ENCODING) != [] then CHUNKED_FRAMING
                    else lengthOf(ValuesOf(fields, CONTENT_LENGTH)))
  }

  /** A front-end that reads every line as a field of its own. */
  function LineReading(raw: string, lengthOf: seq<string> -> int): Option<Reading> {
    var read := FieldsOf(Trimmed(HeadLines(Split(raw, '\n'))));
    if read.None? then None else Some(LineFraming(read.value, lengthOf))
  }

  // ---------------------------------------------------------------------------
  // The readings coincide exactly where the scan is silent
  // ---------------------------------------------------------------------------

  lemma {:induction false} HeadLinesArePrefix(lines: seq<string>)
    ensures |HeadLines(lines)| <= |lines|
    ensures forall k :: 0 <= k < |HeadLines(lines)| ==> HeadLines(lines)[k] == StripReturn(lines[k]) != ""
  {
    if lines == [] || StripReturn(lines[0]) == "" {
    } else {
      HeadLinesArePrefix(lines[1..]);
    }
  }

  lemma {:induction false} NothingToUnfold(lines: seq<string>)
    requires forall k :: 1 <= k < |lines| ==> !IsFold(lines[k])
    ensures Unfolded(lines) == lines
  {
    if lines == [] {
    } else {
      NothingToUnfold(lines[..|lines| - 1]);
      assert lines == lines[..|lines| - 1] + [lines[|lines| - 1]];
    }
  }

  lemma {:induction false} SomethingToUnfold(lines: seq<string>, k: nat)
    requires 1 <= k < |lines| && IsFold(lines[k])
    ensures |Unfolded(lines)| < |lines|
  {
    if k == |lines| - 1 {
    } else {
      SomethingToUnfold(lines[..|lines| - 1], k);
    }
  }

  /** An identity field of a line is what the scan finds on it. */
  lemma {:induction false} IdentityFieldIsSeen(line: string)
    requires HasColon(StripReturn(line)) && IsIdentityField(FieldOf(StripReturn(line)))
    ensures NamesIdentity(line)
  {
    var colon := IndexOf(StripReturn(line), ':');
    SameColon(line);
    var value := ValueOf(StripReturn(line));
    FoldedWord(TrimBlank(value), IDENTITY);
    var end := line[|StripReturn(line)|..];
    TrimBlankIsTrimSpace(value, end);
    assert ValueOf(line) == value + end;
  }

  /** A line the scan finds carries an identity coding or one no parser knows. */
  lemma {:induction false} SeenIsNotChunked(line: string)
    requires NamesIdentity(line)
    ensures HasColon(StripReturn(line)) && EqualFold(FieldOf(StripReturn(line)).name, TRANSFER_ENCODING)
    ensures !EqualFold(FieldOf(StripReturn(line)).value, CHUNKED)
  {
    var colon := IndexOf(line, ':');
    if StripReturn(line) != line {
      assert StripReturn(line)[colon] == ':';
    }
    SameColon(line);
    var value, end := ValueOf(StripReturn(line)), line[|StripReturn(line)|..];
    assert ValueOf(line) == value + end;
    assert |TrimSpace(value + end)| == |Lower(IDENTITY)|;
    if EqualFold(TrimBlank(value), CHUNKED) {
      assert |TrimBlank(value)| == |Lower(CHUNKED)|;
      FoldedWord(TrimBlank(value), CHUNKED);
      TrimBlankIsTrimSpace(value, end);
    }
  }

  lemma {:induction false} SameColon(line: string)
    requires HasColon(StripReturn(line)) || (HasColon(line) && IndexOf(line, ':') < |StripReturn(line)|)
    ensures IndexOf(line, ':') == IndexOf(StripReturn(line), ':')
    ensures HasColon(line) && HasColon(StripReturn(line))
  {
    assert Free(line[..IndexOf(line, ':')], ':') && Free(StripReturn(line)[..IndexOf(StripReturn(line), ':')], ':');
  }

  lemma {:induction false} FoldedWord(s: string, word: string)
    requires EqualFold(s, word) && (word == IDENTITY || word == CHUNKED)
    ensures s != "" && !IsSpace(s[0]) && !IsSpace(s[|s| - 1])
  {
    assert |s| == |Lower(s)| == |Lower(word)| == |word|;
    assert LowerChar(s[0]) == Lower(word)[0] && LowerChar(s[|s| - 1]) == Lower(word)[|word| - 1];
  }

  lemma {:induction false} TrimmedKeeps(lines: seq<string>)
    requires forall k :: 0 <= k < |lines| ==> !IsFold(lines[k])
    ensures Trimmed(lines) == lines
  {}

  /** Nothing starts with a blank, so both readers see the same lines. */
  lemma {:induction false} SameLines(all: seq<string>)
    requires forall k :: 1 <= k < |all| ==> !IsFold(all[k])
    requires HeadLines(all) != [] ==> !IsFold(HeadLines(all)[0])
    ensures Unfolded(HeadLines(all)) == Trimmed(HeadLines(all)) == HeadLines(all)
  {
    var lines := HeadLines(all);
    HeadLinesArePrefix(all);
    forall k | 0 <= k < |lines| ensures !IsFold(lines[k]) {
      assert lines[k] == StripReturn(all[k]);
    }
    NothingToUnfold(lines);
    TrimmedKeeps(lines);
  }

  lemma {:induction false} NothingToDrop(fields: seq<Field>)
    requires forall k :: 0 <= k < |fields| ==> !IsIdentityField(fields[k])
    ensures WithoutIdentity(fields) == fields
  {
    if fields == [] {
    } else {
      NothingToDrop(fields[1..]);
    }
  }

  /** Every coding the server reads is the value of some field. */
  lemma {:induction false} CodingOfSomeField(fields: seq<Field>, name: string, v: string) returns (k: nat)
    requires v in ValuesOf(fields, name)
    ensures k < |fields| && EqualFold(fields[k].name, name) && fields[k].value == v
  {
    if EqualFold(fields[0].name, name) && fields[0].value == v {
      k := 0;
    } else {
      k := CodingOfSomeField(fields[1..], name, v);
      k := k + 1;
    }
  }

  lemma {:induction false} FieldGivesValue(fields: seq<Field>, name: string, k: nat)
    requires k < |fields| && EqualFold(fields[k].name, name)
    ensures fields[k].value in ValuesOf(fields, name)
  {
    if k == 0 {
    } else {
      FieldGivesValue(fields[1..], name, k - 1);
    }
  }

  /**
   Every head the scan passes: what the server reads, a front-end that reads line by
   line reads as well, the same fields and the same body framing.
   */
  lemma {:induction false} ReadingsCoincide(raw: string, lengthOf: seq<string> -> int)
    requires RefusalOf(raw) == Clear && ServerReading(raw, lengthOf).Some?
    ensures LineReading(raw, lengthOf) == ServerReading(raw, lengthOf)
  {
    var all := Split(raw, '\n');
    SameLines(all);
    NoIdentityFields(all);
    FramingsAgree(FieldsOf(HeadLines(all)).value, lengthOf);
  }

  /** Where the scan sees no identity line, no field is an identity coding. */
  lemma {:induction false} NoIdentityFields(all: seq<string>)
    requires forall k :: 0 <= k < |all| ==> !NamesIdentity(all[k])
    requires FieldsOf(HeadLines(all)).Some?
    ensures var fields := FieldsOf(HeadLines(all)).value; forall k :: 0 <= k < |fields| ==> !IsIdentityField(fields[k])
  {
    var fields := FieldsOf(HeadLines(all)).value;
    HeadLinesArePrefix(all);
    forall k | 0 <= k < |fields| ensures !IsIdentityField(fields[k]) {
      if IsIdentityField(fields[k]) {
        IdentityFieldIsSeen(all[k]);
      }
    }
  }

  /** Without an identity coding, any coding is the chunked one and both readings are of all the fields. */
  lemma {:induction false} FramingsAgree(fields: seq<Field>, lengthOf: seq<string> -> int)
    requires ServerFraming(fields, lengthOf).Some?
    requires forall k :: 0 <= k < |fields| ==> !IsIdentityField(fields[k])
    ensures ServerFraming(fields, lengthOf).value == LineFraming(fields, lengthOf)
  {
    NothingToDrop(fields);
    var codings := ValuesOf(fields, TRANSFER_ENCODING);
    if codings != [] && EqualFold(codings[0], IDENTITY) {
      var k := CodingOfSomeField(fields, TRANSFER_ENCODING, codings[0]);
      assert IsIdentityField(fields[k]);
    }
  }

  /** `raw` is the header lines of one head: only its last line is empty. */
  predicate HeaderBlock(raw: string) {
    var lines := Split(raw, '\n');
    forall k :: 0 <= k < |lines| - 1 ==> StripReturn(lines[k]) != ""
  }

  lemma {:induction false} HeadLinesCover(lines: seq<string>)
    requires forall k :: 0 <= k < |lines| - 1 ==> StripReturn(lines[k]) != ""
    ensures |HeadLines(lines)| >= |lines| - 1
    ensures lines != [] && StripReturn(lines[|lines| - 1]) != "" ==> |HeadLines(lines)| == |lines|
  {
    if lines == [] || StripReturn(lines[0]) == "" {
    } else {
      HeadLinesCover(lines[1..]);
    }
  }

  /**
   And no head is refused for nothing: whenever the scan refuses a head that both
   readers accept, they read it differently.
   */
  lemma {:induction false} RefusedHeadsDiverge(raw: string, lengthOf: seq<string> -> int)
    requires HeaderBlock(raw) && RefusalOf(raw) != Clear
    requires forall values :: lengthOf(values) != CHUNKED_FRAMING
    requires ServerReading(raw, lengthOf).Some? && LineReading(raw, lengthOf).Some?
    ensures ServerReading(raw, lengthOf) != LineReading(raw, lengthOf)
  {
    var all := Split(raw, '\n');
    if RefusalOf(raw) == ObsFold {
      var k :| 1 <= k < |all| && IsFold(all[k]);
      FoldedHeadLosesALine(all, k);
      FieldsPerLine(raw, lengthOf);
    } else {
      var k :| 0 <= k < |all| && NamesIdentity(all[k]);
      IdentityFramings(raw, lengthOf, k);
    }
  }

  lemma {:induction false} FieldsPerLine(raw: string, lengthOf: seq<string> -> int)
    requires ServerReading(raw, lengthOf).Some? && LineReading(raw, lengthOf).Some?
    ensures |ServerReading(raw, lengthOf).value.fields| <= |Unfolded(HeadLines(Split(raw, '\n')))|
    ensures |LineReading(raw, lengthOf).value.fields| == |HeadLines(Split(raw, '\n'))|
  {}

  lemma {:induction false} IdentityFramings(raw: string, lengthOf: seq<string> -> int, k: nat)
    requires HeaderBlock(raw) && !FoldsLater(raw) && ServerReading(raw, lengthOf).Some?
    requires forall values :: lengthOf(values) != CHUNKED_FRAMING
    requires k < |Split(raw, '\n')| && NamesIdentity(Split(raw, '\n')[k])
    ensures ServerReading(raw, lengthOf).value.framing != CHUNKED_FRAMING
    ensures LineReading(raw, lengthOf).Some? && LineReading(raw, lengthOf).value.framing == CHUNKED_FRAMING
  {
    var all := Split(raw, '\n');
    SameLines(all);
    IdentityIsTheOnlyCoding(all, k);
    FramingsDiffer(FieldsOf(HeadLines(all)).value, lengthOf);
  }

  lemma {:induction false} FramingsDiffer(fields: seq<Field>, lengthOf: seq<string> -> int)
    requires ServerFraming(fields, lengthOf).Some?
    requires forall values :: lengthOf(values) != CHUNKED_FRAMING
    requires exists v :: v in ValuesOf(fields, TRANSFER_ENCODING) && !EqualFold(v, CHUNKED)
    ensures ServerFraming(fields, lengthOf).value.framing != CHUNKED_FRAMING == LineFraming(fields, lengthOf).framing
  {
    var codings := ValuesOf(fields, TRANSFER_ENCODING);
    var v :| v in codings && !EqualFold(v, CHUNKED);
    assert codings == [v];
  }

  /** The server's reading of a folded head has fewer fields than it has lines. */
  lemma {:induction false} FoldedHeadLosesALine(all: seq<string>, k: nat)
    requires forall k :: 0 <= k < |all| - 1 ==> StripReturn(all[k]) != ""
    requires 1 <= k < |all| && IsFold(all[k])
    ensures |Unfolded(HeadLines(all))| < |HeadLines(all)|
  {
    HeadLinesArePrefix(all);
    HeadLinesCover(all);
    assert StripReturn(all[k])[0] == all[k][0];
    SomethingToUnfold(HeadLines(all), k);
  }

  /** The server accepted the head, so the identity line it dropped was the only coding. */
  lemma {:induction false} IdentityIsTheOnlyCoding(all: seq<string>, k: nat)
    requires forall k :: 0 <= k < |all| - 1 ==> StripReturn(all[k]) != ""
    requires k < |all| && NamesIdentity(all[k])
    ensures FieldsOf(HeadLines(all)).Some? ==>
              var codings := ValuesOf(FieldsOf(HeadLines(all)).value, TRANSFER_ENCODING);
              exists v :: v in codings && !EqualFold(v, CHUNKED)
  {
    HeadLinesArePrefix(all);
    HeadLinesCover(all);
    SeenIsNotChunked(all[k]);
    if FieldsOf(HeadLines(all)).Some? {
      var fields := FieldsOf(HeadLines(all)).value;
      assert HeadLines(all)[k] == StripReturn(all[k]);
      FieldGivesValue(fields, TRANSFER_ENCODING, k);
    }
  }
}

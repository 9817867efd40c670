/**
 Which request is a streamed upload (`isStreamedUpload`, `internal/api/body_framing.go`):
 the one predicate behind the three exemptions from the bounds on a request body.
 Whether the standard library accepts a Content-Type at all is the parameter `parses`.
 */
module Uploads {
  import opened Text
  import opened DeclaredPath

  function Media(contentType: string): string {
    Lower(TrimSpace(contentType[..IndexOf(contentType, ';')]))
  }

  predicate HasPrefix(s: string, prefix: string) {
    |prefix| <= |s| && s[..|prefix|] == prefix
  }

  predicate HasSuffix(s: string, suffix: string) {
    |suffix| <= |s| && s[|s| - |suffix|..] == suffix
  }

  /** The types an endpoint's declaration reads as JSON. */
  predicate IsJson(contentType: string) {
    Media(contentType) == "application/json" || HasSuffix(Media(contentType), "+json")
  }

  /** The types the upload handler streams. */
  predicate IsMultipart(contentType: string, parses: string -> bool) {
    parses(contentType) && HasPrefix(Media(contentType), "multipart/")
  }

  predicate IsStreamedMultipart(contentType: string, parses: string -> bool) {
    IsMultipart(contentType, parses) && !IsJson(contentType)
  }

  const UPLOAD_SEGMENTS: seq<string> := ["", "api", "v1", "clusters", ":cluster_id", "storage", ":storage_id", "upload"]

  const UPLOAD_PATH: string := Join(UPLOAD_SEGMENTS, '/')

  ghost predicate IsStreamedUpload(method_: string, path: string, contentType: string, parses: string -> bool) {
    && method_ == "POST"
    && IsStreamedMultipart(contentType, parses)
    && exists values :: Instance(path, UPLOAD_PATH, values)
  }

  method DecideStreamedUpload(method_: string, path: string, contentType: string, parses: string -> bool)
    returns (streamed: bool)
    ensures streamed <==> IsStreamedUpload(method_, path, contentType, parses)
  {
    if method_ != "POST" || !IsStreamedMultipart(contentType, parses) {
      return false;
    }
    streamed := MatchesDeclaredPath(path, UPLOAD_PATH);
  }

  function UploadSegmentsOf(cluster: string, storage: string): seq<string> {
    ["", "api", "v1", "clusters", cluster, "storage", storage, "upload"]
  }

  ghost predicate IsUploadPath(path: string, cluster: string, storage: string) {
    IsValue(cluster) && IsValue(storage) && path == Join(UploadSegmentsOf(cluster, storage), '/')
  }

  /** The exempt paths: the declared route with two non-empty segments filled in, and no other spelling. */
  lemma {:induction false} UploadPathExact(path: string)
    ensures (exists values :: Instance(path, UPLOAD_PATH, values)) <==>
            exists cluster, storage :: IsUploadPath(path, cluster, storage)
  {
    SegmentsOfUploadPath();
    MatchExact(path, UPLOAD_PATH);
    if SegmentsMatch(Split(path, '/'), UPLOAD_SEGMENTS) {
      var cluster, storage := UploadPathParts(path);
    }
    if cluster, storage :| IsUploadPath(path, cluster, storage) {
      UploadPathMatches(path, cluster, storage);
    }
  }

  lemma {:induction false} UploadPathParts(path: string) returns (cluster: string, storage: string)
    requires SegmentsMatch(Split(path, '/'), UPLOAD_SEGMENTS)
    ensures IsUploadPath(path, cluster, storage)
  {
    var got := Split(path, '/');
    UploadSegmentsMatch(got);
    JoinSplit(path, '/');
    SplitParts(path, '/');
    cluster, storage := got[4], got[6];
  }

  lemma {:induction false} UploadPathMatches(path: string, cluster: string, storage: string)
    requires IsUploadPath(path, cluster, storage)
    ensures SegmentsMatch(Split(path, '/'), UPLOAD_SEGMENTS)
  {
    var parts := UploadSegmentsOf(cluster, storage);
    assert forall k :: 0 <= k < |parts| ==> Free(parts[k], '/');
    SplitJoin(parts, '/');
    UploadSegmentsMatch(parts);
  }

  lemma {:induction false} SegmentsOfUploadPath()
    ensures Split(UPLOAD_PATH, '/') == UPLOAD_SEGMENTS
  {
    SplitJoin(UPLOAD_SEGMENTS, '/');
  }

  lemma {:induction false} UploadSegmentsMatch(got: seq<string>)
    ensures SegmentsMatch(got, UPLOAD_SEGMENTS) <==>
            |got| == 8 && got == UploadSegmentsOf(got[4], got[6]) && got[4] != "" && got[6] != ""
  {
    PlainUploadSegments();
    if |got| == 8 {
      assert SegmentsMatch(got, UPLOAD_SEGMENTS) ==>
        && SegmentMatches(got[0], UPLOAD_SEGMENTS[0]) && SegmentMatches(got[1], UPLOAD_SEGMENTS[1])
        && SegmentMatches(got[2], UPLOAD_SEGMENTS[2]) && SegmentMatches(got[3], UPLOAD_SEGMENTS[3])
        && SegmentMatches(got[4], UPLOAD_SEGMENTS[4]) && SegmentMatches(got[5], UPLOAD_SEGMENTS[5])
        && SegmentMatches(got[6], UPLOAD_SEGMENTS[6]) && SegmentMatches(got[7], UPLOAD_SEGMENTS[7]);
    }
  }

  lemma {:induction false} PlainUploadSegments()
    ensures forall k :: 0 <= k < |UPLOAD_SEGMENTS| ==> PlainSegment(UPLOAD_SEGMENTS[k])
    ensures forall k :: 0 <= k < |UPLOAD_SEGMENTS| ==> (IsParam(UPLOAD_SEGMENTS[k]) <==> k == 4 || k == 6)
  {
    UploadParams();
    LiteralsArePlain();
    NamesArePlain();
  }

  lemma {:induction false} LiteralsArePlain()
    ensures PlainLiteral("") && PlainLiteral("api") && PlainLiteral("v1") && PlainLiteral("clusters")
    ensures PlainLiteral("storage") && PlainLiteral("upload")
  {}

  lemma {:induction false} NamesArePlain()
    ensures PlainName(":cluster_id"[1..]) && PlainName(":storage_id"[1..])
  {
    assert ":cluster_id"[1..] == "cluster_id" && ":storage_id"[1..] == "storage_id";
  }

  lemma {:induction false} UploadParams()
    ensures forall k :: 0 <= k < |UPLOAD_SEGMENTS| ==> (IsParam(UPLOAD_SEGMENTS[k]) <==> k == 4 || k == 6)
  {}
}

/** Request-path handling, task-to-response mapping and the exception-to-status
    mapping of the servlet layer (src/main/java/utilities/CommonServletUtility.java). */
module ServletUtility {
  import opened Wrappers
  import opened Errors
  import opened JavaLang
  import opened Models
  import opened Dtos

  /** The data a success response carries. */
  datatype Payload = TaskData(task: TaskResponse) | TaskList(tasks: seq<TaskResponse>)

  /** A response body: `response-data` on success, `response-error-message` on error.
      The `response-time` stamp of both envelopes is not modelled. */
  datatype Body = SuccessBody(data: Payload) | ErrorBody(errorMessage: string)

  /** What a handler leaves in the servlet response: a status and maybe a body. */
  datatype Response = Response(status: int, body: Option<Body>)

  /** `buildSuccessResponse`: the status is always set; a body is written only
      for non-null data. */
  function BuildSuccessResponse(status: int, data: Option<Payload>): (r: Response)
    ensures r.status == status
    ensures r.body.Some? <==> data.Some?
    ensures data.Some? ==> r.body == Some(SuccessBody(data.value))
  {
    Response(status, if data.Some? then Some(SuccessBody(data.value)) else None)
  }

  /** `buildErrorResponse`: the status is always set; the exception's message is
      written only when there is an exception. */
  function BuildErrorResponse(status: int, e: Option<Failure>): (r: Response)
    ensures r.status == status
    ensures r.body.Some? <==> e.Some?
    ensures e.Some? ==> r.body == Some(ErrorBody(e.value.message))
  {
    Response(status, if e.Some? then Some(ErrorBody(e.value.message)) else None)
  }

  /** `buildApplicationExceptionResponse`: bad requests and JSON syntax errors are
      400 (Bad Request), a missing resource 404 (Not Found), anything else 500
      (Internal Server Error), with the message carried into the body. */
  function BuildApplicationExceptionResponse(e: Failure): (r: Response)
    ensures r.status == 400 <==> e.BadRequest? || e.JsonSyntax?
    ensures r.status == 404 <==> e.ResourceNotFound?
    ensures r.status == 400 || r.status == 404 || r.status == 500
    ensures r.body == Some(ErrorBody(e.message))
  {
    if e.BadRequest? || e.JsonSyntax? then BuildErrorResponse(400, Some(e))
    else if e.ResourceNotFound? then BuildErrorResponse(404, Some(e))
    else BuildErrorResponse(500, Some(e))
  }

  /** `buildTaskResponseObject` (the same in both snapshots): the five client-visible fields. */
  function BuildTaskResponseObject(t: TaskRecord): TaskResponse {
    TaskResponse(t.taskId, t.taskTitle, t.taskDescription, t.taskCompleted, t.taskCreatedOn)
  }

  /** Two records give the same response exactly when they differ at most in the
      internal `lastUpdatedOn` and `deleted` fields. */
  lemma ResponseHidesInternalFields(a: TaskRecord, b: TaskRecord)
    ensures BuildTaskResponseObject(a) == BuildTaskResponseObject(b)
      <==> a.(taskLastUpdatedOn := b.taskLastUpdatedOn, taskDeleted := b.taskDeleted) == b
  {
  }

  /** `s` is a run of '/' characters. */
  predicate AllSlashes(s: string) {
    forall i :: 0 <= i < |s| ==> s[i] == '/'
  }

  /** Drops every leading '/'. */
  function StripLeadingSlashes(s: string): (r: string)
    ensures |r| <= |s| && r == s[|s| - |r|..]
    ensures r == [] || r[0] != '/'
    ensures forall i :: 0 <= i < |s| - |r| ==> s[i] == '/'
  {
    if s != [] && s[0] == '/' then StripLeadingSlashes(s[1..]) else s
  }

  /** Drops every trailing '/'. */
  function StripTrailingSlashes(s: string): (r: string)
    ensures |r| <= |s| && r == s[..|r|]
    ensures r == [] || r[|r| - 1] != '/'
    ensures forall i :: |r| <= i < |s| ==> s[i] == '/'
  {
    if s != [] && s[|s| - 1] == '/' then StripTrailingSlashes(s[..|s| - 1]) else s
  }

  /** The path information `getRequestUrlPathInfo` computes from the raw one:
      "" for null, blank or a lone "/", otherwise trim, drop all leading and all
      trailing '/', trim again. */
  function RequestUrlPathInfo(pathInfo: Option<string>): string {
    if pathInfo.None? || IsBlank(pathInfo.value) || Trim(pathInfo.value) == "/" then ""
    else Trim(StripTrailingSlashes(StripLeadingSlashes(Trim(pathInfo.value))))
  }

  /** `getRequestUrlPathInfo`, with its two stripping loops. */
  method GetRequestUrlPathInfo(pathInfo: Option<string>) returns (r: string)
    ensures r == RequestUrlPathInfo(pathInfo)
  {
    if pathInfo.None? || IsBlank(pathInfo.value) || Trim(pathInfo.value) == "/" {
      return "";
    }
    var p := StripLeadingLoop(Trim(pathInfo.value));
    p := StripTrailingLoop(p);
    r := Trim(p);
  }

  /** The first loop of `getRequestUrlPathInfo`: drop one leading '/' at a time. */
  method StripLeadingLoop(s: string) returns (p: string)
    ensures p == StripLeadingSlashes(s)
  {
    p := s;
    while |p| > 0 && p[0] == '/'
      invariant StripLeadingSlashes(p) == StripLeadingSlashes(s)
      decreases |p|
    {
      p := p[1..];
    }
  }

  /** The second loop of `getRequestUrlPathInfo`: drop one trailing '/' at a time. */
  method StripTrailingLoop(s: string) returns (p: string)
    ensures p == StripTrailingSlashes(s)
  {
    p := s;
    while |p| > 0 && p[|p| - 1] == '/'
      invariant StripTrailingSlashes(p) == StripTrailingSlashes(s)
      decreases |p|
    {
      p := p[..|p| - 1];
    }
  }

  /** The result never has whitespace at either end, so it is blank only when empty. */
  lemma PathInfoIsTrimmed(pathInfo: Option<string>)
    ensures var n := RequestUrlPathInfo(pathInfo);
      n == [] || (!IsSpace(n[0]) && !IsSpace(n[|n| - 1]))
    ensures IsBlank(RequestUrlPathInfo(pathInfo)) <==> RequestUrlPathInfo(pathInfo) == []
  {
    var n := RequestUrlPathInfo(pathInfo);
    if !(pathInfo.None? || IsBlank(pathInfo.value) || Trim(pathInfo.value) == "/") {
      TrimEnds(StripTrailingSlashes(StripLeadingSlashes(Trim(pathInfo.value))));
    }
    if n != [] {
      assert !IsSpace(n[0]);
    }
  }

  /** A path with any character that is neither whitespace nor '/' never
      normalises to the blank path. */
  lemma PathInfoKeepsContent(v: string, k: nat)
    requires k < |v| && !IsSpace(v[k]) && v[k] != '/'
    ensures RequestUrlPathInfo(Some(v)) != []
  {
    var t := Trim(v);
    TrimKeepsContent(v, k);
    var k1 := k - TrimOffset(v);
    assert t[k1] == v[k];
    assert t[k1] != '/';
    assert !IsBlank(v);
    var l := StripLeadingSlashes(t);
    var k2 := k1 - (|t| - |l|);
    assert 0 <= k2 < |l| && l[k2] == v[k];
    var m := StripTrailingSlashes(l);
    assert k2 < |m| && m[k2] == v[k];
    TrimKeepsContent(m, k2);
  }

  /** The normalised path of a string that is neither blank nor a lone "/". */
  lemma PathInfoOfText(v: string)
    requires !IsBlank(v) && Trim(v) != "/"
    ensures RequestUrlPathInfo(Some(v)) == Trim(StripTrailingSlashes(StripLeadingSlashes(Trim(v))))
  {
    var pathInfo := Some(v);
    assert !(pathInfo.None? || IsBlank(pathInfo.value) || Trim(pathInfo.value) == "/");
  }

  /** Slashes in front of a string that does not start with '/' are all dropped. */
  lemma {:induction false} StripLeadingSlashesOf(a: string, x: string)
    requires AllSlashes(a)
    requires x == [] || x[0] != '/'
    ensures StripLeadingSlashes(a + x) == x
  {
    if a != [] {
      assert (a + x)[1..] == a[1..] + x;
      StripLeadingSlashesOf(a[1..], x);
    } else {
      assert a + x == x;
    }
  }

  /** Slashes after a string that does not end with '/' are all dropped. */
  lemma {:induction false} StripTrailingSlashesOf(x: string, b: string)
    requires AllSlashes(b)
    requires x == [] || x[|x| - 1] != '/'
    ensures StripTrailingSlashes(x + b) == x
  {
    if b != [] {
      assert (x + b)[..|x + b| - 1] == x + b[..|b| - 1];
      StripTrailingSlashesOf(x, b[..|b| - 1]);
    } else {
      assert x + b == x;
    }
  }

  /** Any number of slashes around a path that has no whitespace or '/' at
      either end are removed: `"/test/"` gives `"test"`, and
      `"/section1/section2/section3"` gives `"section1/section2/section3"`. */
  lemma PathInfoStripsSlashes(a: string, w: string, b: string)
    requires AllSlashes(a)
    requires AllSlashes(b)
    requires w != [] && !IsSpace(w[0]) && !IsSpace(w[|w| - 1]) && w[0] != '/' && w[|w| - 1] != '/'
    ensures RequestUrlPathInfo(Some(a + w + b)) == w
  {
    var v := a + w + b;
    assert v == a + (w + b);
    assert v[|a|] == w[0];
    assert v[0] == (if a == [] then w[0] else '/');
    assert v[|v| - 1] == (if b == [] then w[|w| - 1] else '/');
    TrimOfClean(v);
    assert v != "/";
    StripLeadingSlashesOf(a, w + b);
    StripTrailingSlashesOf(w, b);
    TrimOfClean(w);
    PathInfoOfText(v);
  }

  /** A slash between two blanks trims to the slash. */
  lemma TrimSlashBetweenBlanks(sp: string)
    requires IsBlank(sp)
    ensures Trim(sp + "/" + sp) == "/"
  {
    TrimPadded(sp, "/", sp);
  }

  /** The outer slashes of `"/" + sp + "/" + sp + "/"` are stripped, the inner one stays. */
  lemma StripSpacedSlashes(sp: string)
    requires sp != [] && IsBlank(sp)
    ensures StripTrailingSlashes(StripLeadingSlashes("/" + sp + "/" + sp + "/")) == sp + "/" + sp
  {
    var x := sp + "/" + sp;
    assert "/" + sp + "/" + sp + "/" == "/" + (x + "/");
    assert (x + "/")[0] == sp[0];
    StripLeadingSlashesOf("/", x + "/");
    assert x[|x| - 1] == sp[|sp| - 1];
    StripTrailingSlashesOf(x, "/");
  }

  /** Slashes separated by whitespace survive: `"/" + sp + "/" + sp + "/"`, with
      `sp` blank and non-empty (such as `"/ / /"`), normalises to `"/"`. */
  lemma PathInfoSpacedSlashes(sp: string)
    requires sp != [] && IsBlank(sp)
    ensures RequestUrlPathInfo(Some("/" + sp + "/" + sp + "/")) == "/"
  {
    var v := "/" + sp + "/" + sp + "/";
    assert v[0] == '/' && v[|v| - 1] == '/';
    TrimOfClean(v);
    assert |v| > 1;
    PathInfoOfText(v);
    StripSpacedSlashes(sp);
    TrimSlashBetweenBlanks(sp);
  }

  /** `isRequestPathInformationBlank`: the normalised path is blank, which is
      the same as empty. */
  method IsRequestPathInformationBlank(pathInfo: Option<string>) returns (b: bool)
    ensures b == IsBlank(RequestUrlPathInfo(pathInfo))
    ensures b <==> RequestUrlPathInfo(pathInfo) == []
  {
    var p := GetRequestUrlPathInfo(pathInfo);
    PathInfoIsTrimmed(pathInfo);
    b := IsBlank(p);
  }

  /** `getRequestPathInformationDataAsArray` (the same in both snapshots): Java's
      `split("/")`. No segment holds a '/', and a path that does not end with '/'
      is the segments joined by '/'. */
  function PathSegments(path: string): (r: seq<string>)
    ensures forall i :: 0 <= i < |r| ==> '/' !in r[i]
    ensures path != [] && path[|path| - 1] != '/' ==> Join(r, '/') == path
  {
    if path != [] && path[|path| - 1] != '/' then SplitRoundTrip(path, '/'); Split(path, '/')
    else Split(path, '/')
  }

  /** The id `getResourceIdFromRequestPathInformation` takes from a normalised
      path: more than one segment is a bad request, otherwise segment 0; with no
      segment at all, reading segment 0 throws. */
  function ResourceId(path: string): (r: Result<string>)
    ensures r.Ok? <==> |PathSegments(path)| == 1
    ensures r.Ok? ==> PathSegments(path) == [r.value] && '/' !in r.value
    ensures r == Err(BadRequest(INVALID_REQUEST_URL)) <==> |PathSegments(path)| > 1
    ensures r == Err(IndexOutOfBounds(EMPTY_ARRAY_INDEX)) <==> PathSegments(path) == []
  {
    var segments := PathSegments(path);
    if |segments| > 1 then Err(BadRequest(INVALID_REQUEST_URL))
    else if |segments| == 0 then Err(IndexOutOfBounds(EMPTY_ARRAY_INDEX))
    else Ok(segments[0])
  }

  /** `getResourceIdFromRequestPathInformation`. */
  method GetResourceIdFromRequestPathInformation(pathInfo: Option<string>) returns (r: Result<string>)
    ensures r == ResourceId(RequestUrlPathInfo(pathInfo))
  {
    var path := GetRequestUrlPathInfo(pathInfo);
    r := ResourceId(path);
  }

  /** A path without '/' is its own id; the empty path gives the empty id. */
  lemma SingleSegmentIsId(path: string)
    requires '/' !in path
    ensures ResourceId(path) == Ok(path)
  {
    SplitWithoutSeparator(path, '/');
  }

  /** Two segments are rejected: `"12345/67890"` splits into `"12345"` and
      `"67890"`, and as a resource path it is a bad request. */
  lemma TwoSegmentsRejected(a: string, b: string)
    requires a != [] && b != [] && '/' !in a && '/' !in b
    ensures PathSegments(a + "/" + b) == [a, b]
    ensures ResourceId(a + "/" + b) == Err(BadRequest(INVALID_REQUEST_URL))
  {
    SplitTwoParts(a, b, '/');
  }

  /** The example of the utility tests: `"12345/67890"` gives two segments. */
  lemma SplitExample()
    ensures PathSegments("12345/67890") == ["12345", "67890"]
  {
    assert "12345/67890" == "12345" + "/" + "67890";
    TwoSegmentsRejected("12345", "67890");
  }

  /** The path `"/"` has no segment. */
  lemma SlashHasNoSegment()
    ensures PathSegments("/") == []
    ensures ResourceId("/") == Err(IndexOutOfBounds(EMPTY_ARRAY_INDEX))
  {
    SplitOfSeparatorsOnly("/", '/');
  }

  /** A path such as `"/ / /"` normalises to `"/"`, which has no segment, so
      reading its id throws ArrayIndexOutOfBoundsException. */
  lemma SpacedSlashesLeaveNoSegment(sp: string)
    requires sp != [] && IsBlank(sp)
    ensures PathSegments(RequestUrlPathInfo(Some("/" + sp + "/" + sp + "/"))) == []
    ensures ResourceId(RequestUrlPathInfo(Some("/" + sp + "/" + sp + "/")))
      == Err(IndexOutOfBounds(EMPTY_ARRAY_INDEX))
  {
    PathInfoSpacedSlashes(sp);
    SlashHasNoSegment();
  }
}

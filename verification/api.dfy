/** The backend client of `lib/api.ts`: base-URL normalisation, the five
    endpoint calls with their uniform error shape, the sequential upload loop
    and the outcome classification of the build call.

    Nothing here performs I/O. What `fetch` would return is an input: either
    the response (status, raw text, and what `JSON.parse` makes of the text) or
    the error it threw. What the client would send is an output. */
module Api {
  import opened Wrappers
  import Text

  /* ---------------- errors ---------------- */

  /** A thrown JavaScript error, reduced to the two fields the client looks at:
      its `name` ("Error", "TypeError", "AbortError", "SyntaxError", ...) and
      its `message`. */
  datatype Error = Error(name: string, message: string)

  /** `new Error(message)`. */
  function Thrown(message: string): Error {
    Error("Error", message)
  }

  /* ---------------- base URL ---------------- */

  const MissingBaseUrl := "Missing NEXT_PUBLIC_RAG_API_BASE_URL in .env.local"

  /** `s.replace(/\/+$/, "")`: drops the trailing run of slashes and nothing else. */
  function StripTrailingSlashes(s: string): (r: string)
    ensures r <= s
    ensures r == [] || r[|r| - 1] != '/'
    ensures forall i :: |r| <= i < |s| ==> s[i] == '/'
  {
    if |s| > 0 && s[|s| - 1] == '/' then StripTrailingSlashes(s[..|s| - 1]) else s
  }

  /** The stripped string is the only way to split `s` into a part that does
      not end in a slash followed by nothing but slashes. */
  lemma StripTrailingSlashesUnique(s: string, p: string)
    requires p <= s && (p == [] || p[|p| - 1] != '/')
    requires forall i :: |p| <= i < |s| ==> s[i] == '/'
    ensures StripTrailingSlashes(s) == p
  {
  }

  /** Normalising twice is normalising once. */
  lemma StripTrailingSlashesIdempotent(s: string)
    ensures StripTrailingSlashes(StripTrailingSlashes(s)) == StripTrailingSlashes(s)
  {
    var r := StripTrailingSlashes(s);
    StripTrailingSlashesUnique(r, r);
  }

  /** `apiBaseUrl()`: the configured base URL (`None` when the variable is
      unset) without its trailing slashes; throws when it is unset or empty. */
  function ApiBaseUrl(config: Option<string>): (r: Result<string, Error>)
    ensures r.Failure? <==> config == None || config == Some("")
    ensures r.Failure? ==> r.error == Thrown(MissingBaseUrl)
    ensures r.Success? ==> r.value <= config.value
                           && (r.value == [] || r.value[|r.value| - 1] != '/')
                           && forall i :: |r.value| <= i < |config.value| ==> config.value[i] == '/'
  {
    match config
    case None => Failure(Thrown(MissingBaseUrl))
    case Some(base) => if base == "" then Failure(Thrown(MissingBaseUrl)) else Success(StripTrailingSlashes(base))
  }

  /* ---------------- payloads ---------------- */

  datatype File = File(name: string, size: nat)

  /** One cited source of an answer. Scores are only ever copied, so a `real`
      stands in for the JavaScript number. */
  datatype Source = Source(source: string, score: real)

  /** The `/ask` reply; a field the backend leaves out is `None`. */
  datatype AskResponse = AskResponse(query: Option<string>, answer: Option<string>,
                                     topSources: Option<seq<Source>>, topScore: Option<real>)

  datatype SessionStatus = SessionStatus(sessionId: string, hasDocs: bool, hasIndex: bool)

  datatype SessionFiles = SessionFiles(sessionId: string, files: seq<File>)

  /** The two fields of a `/build` JSON body the client reads; the empty string
      stands for a field that is absent or falsy. */
  datatype BuildBody = BuildBody(detail: string, message: string)

  /** What `buildIndex` returns: the parsed body, or `{status: "success"}` when
      the body was empty. */
  datatype BuildReply = DefaultSuccess | Body(body: BuildBody)

  /* ---------------- the exchange with `fetch` ---------------- */

  /** What `JSON.parse(text)` does with a response text. */
  datatype Json<T> = Invalid(syntaxError: string) | Parsed(value: T)

  datatype Response<T> = Response(status: nat, text: string, json: Json<T>) {
    /** `Response.ok`: the status is in the range 200-299. */
    predicate Ok() {
      200 <= status <= 299
    }
  }

  /** What awaiting `fetch(...)` and `res.text()` produced. */
  datatype Fetch<T> = Reply(response: Response<T>) | Threw(error: Error)

  datatype Body = NoBody | Form(files: seq<File>) | AskJson(query: string, k: nat)

  /** A request as sent: method, full URL, the `x-session-id` header, body. */
  datatype Request = Request(verb: string, url: string, sessionId: string, body: Body)

  /** The request a call sent (none when it threw before `fetch`) and what the
      call returned or threw. */
  datatype Exchange<T> = Exchange(sent: Option<Request>, result: Result<T, Error>)

  /** The uniform message of a non-ok response: `"<Op> failed (<status>): <raw body>"`. */
  function HttpFailure(op: string, status: nat, text: string): Error {
    Thrown(op + " failed (" + Text.Decimal(status) + "): " + text)
  }

  /** `JSON.parse(text)` as a call that may throw. */
  function ParseJson<T>(json: Json<T>): Result<T, Error> {
    match json
    case Invalid(m) => Failure(Error("SyntaxError", m))
    case Parsed(v) => Success(v)
  }

  /** The shared shape of `uploadDocuments`, `askQuestion`, `getStatus` and
      `getFiles`: resolve the base URL, send one request, read the text, throw
      on a non-ok status without looking at the body, else parse the body. */
  function Call<T>(op: string, config: Option<string>, verb: string, path: string,
                   sessionId: string, body: Body, fetch: Fetch<T>): (x: Exchange<T>)
    ensures ApiBaseUrl(config).Failure? ==> x == Exchange(None, Failure(Thrown(MissingBaseUrl)))
    ensures ApiBaseUrl(config).Success? ==>
              x.sent == Some(Request(verb, ApiBaseUrl(config).value + path, sessionId, body))
    ensures x.result.Success? <==>
              ApiBaseUrl(config).Success? && fetch.Reply? && fetch.response.Ok() && fetch.response.json.Parsed?
    ensures x.result.Success? ==> x.result.value == fetch.response.json.value
    ensures ApiBaseUrl(config).Success? && fetch.Reply? && !fetch.response.Ok() ==>
              x.result == Failure(HttpFailure(op, fetch.response.status, fetch.response.text))
    ensures ApiBaseUrl(config).Success? && fetch.Threw? ==> x.result == Failure(fetch.error)
  {
    match ApiBaseUrl(config)
    case Failure(e) => Exchange(None, Failure(e))
    case Success(base) =>
      var sent := Some(Request(verb, base + path, sessionId, body));
      match fetch
      case Threw(e) => Exchange(sent, Failure(e))
      case Reply(r) =>
        if !r.Ok() then Exchange(sent, Failure(HttpFailure(op, r.status, r.text)))
        else Exchange(sent, ParseJson(r.json))
  }

  /** Splits a message back into the status and raw body it was built from,
      for a given operation name. */
  function DecodeFailure(op: string, message: string): Option<(nat, string)> {
    var head := op + " failed (";
    if !(head <= message) then None
    else
      var rest := message[|head|..];
      var k := Text.DigitRun(rest);
      if k == 0 || !("): " <= rest[k..]) then None
      else Some((Text.DecimalValue(rest[..k]), rest[k + 3..]))
  }

  /** The error message carries the status and the raw body unambiguously:
      both can be read back from it. */
  lemma FailureMessageDecodes(op: string, status: nat, text: string)
    ensures DecodeFailure(op, HttpFailure(op, status, text).message) == Some((status, text))
  {
    var d := Text.Decimal(status);
    MessageParts(op, d, text);
    DecodeOfParts(op, d, text);
    Text.DecimalRoundTrip(status);
  }

  lemma MessageParts(op: string, d: string, text: string)
    ensures op + " failed (" + d + "): " + text == (op + " failed (") + (d + ("): " + text))
  {
  }

  /** Any non-empty run of digits between the operation's head and `"): "`
      is read back, and so is the body after it. */
  lemma DecodeOfParts(op: string, d: string, text: string)
    requires |d| > 0 && forall i :: 0 <= i < |d| ==> Text.IsDigit(d[i])
    ensures DecodeFailure(op, (op + " failed (") + (d + ("): " + text))) == Some((Text.DecimalValue(d), text))
  {
    var head, tail := op + " failed (", "): " + text;
    var rest := d + tail;
    DecodeSplit(head, rest);
    RestAfterDigits(d, text);
    assert rest[|d|..] == tail && rest[..|d|] == d;
    assert "): " <= tail && tail[3..] == text;
    assert rest[|d| + 3..] == text;
  }

  lemma DecodeSplit(head: string, rest: string)
    ensures head <= head + rest && (head + rest)[|head|..] == rest
  {
  }

  lemma RestAfterDigits(d: string, text: string)
    requires forall i :: 0 <= i < |d| ==> Text.IsDigit(d[i])
    ensures Text.DigitRun(d + ("): " + text)) == |d|
    ensures (d + ("): " + text))[..|d|] == d
    ensures (d + ("): " + text))[|d|..] == "): " + text
  {
    var tail := "): " + text;
    assert tail[0] == ')';
    Text.DigitRunOfDigits(d, tail);
    assert (d + tail)[|d|..] == tail;
  }

  /** Two non-ok responses to the same operation give the same message only
      when their status and body agree. */
  lemma HttpFailureInjective(op: string, s1: nat, t1: string, s2: nat, t2: string)
    requires HttpFailure(op, s1, t1) == HttpFailure(op, s2, t2)
    ensures s1 == s2 && t1 == t2
  {
    FailureMessageDecodes(op, s1, t1);
    FailureMessageDecodes(op, s2, t2);
  }

  /* ---------------- the four plain calls ---------------- */

  /** `uploadDocuments(files, sessionId)`: one multipart POST carrying every file. */
  function UploadDocuments<T>(config: Option<string>, files: seq<File>, sessionId: string,
                              fetch: Fetch<T>): (x: Exchange<T>)
    ensures ApiBaseUrl(config).Success? ==>
              x.sent == Some(Request("POST", ApiBaseUrl(config).value + "/upload", sessionId, Form(files)))
    ensures ApiBaseUrl(config).Success? && fetch.Reply? && !fetch.response.Ok() ==>
              x.result.Failure? && x.result.error.message ==
                "Upload failed (" + Text.Decimal(fetch.response.status) + "): " + fetch.response.text
  {
    Call("Upload", config, "POST", "/upload", sessionId, Form(files), fetch)
  }

  /** `askQuestion(query, sessionId, k)`: POST of the JSON `{query, k}`. */
  function AskQuestion(config: Option<string>, query: string, sessionId: string, k: nat,
                       fetch: Fetch<AskResponse>): (x: Exchange<AskResponse>)
    ensures ApiBaseUrl(config).Success? ==>
              x.sent == Some(Request("POST", ApiBaseUrl(config).value + "/ask", sessionId, AskJson(query, k)))
    ensures ApiBaseUrl(config).Success? && fetch.Reply? && !fetch.response.Ok() ==>
              x.result.Failure? && x.result.error.message ==
                "Ask failed (" + Text.Decimal(fetch.response.status) + "): " + fetch.response.text
  {
    Call("Ask", config, "POST", "/ask", sessionId, AskJson(query, k), fetch)
  }

  /** `getStatus(sessionId)`: GET `/status`. */
  function GetStatus(config: Option<string>, sessionId: string,
                     fetch: Fetch<SessionStatus>): (x: Exchange<SessionStatus>)
    ensures ApiBaseUrl(config).Success? ==>
              x.sent == Some(Request("GET", ApiBaseUrl(config).value + "/status", sessionId, NoBody))
    ensures ApiBaseUrl(config).Success? && fetch.Reply? && !fetch.response.Ok() ==>
              x.result.Failure? && x.result.error.message ==
                "Status failed (" + Text.Decimal(fetch.response.status) + "): " + fetch.response.text
  {
    Call("Status", config, "GET", "/status", sessionId, NoBody, fetch)
  }

  /** `getFiles(sessionId)`: GET `/files`. */
  function GetFiles(config: Option<string>, sessionId: string,
                    fetch: Fetch<SessionFiles>): (x: Exchange<SessionFiles>)
    ensures ApiBaseUrl(config).Success? ==>
              x.sent == Some(Request("GET", ApiBaseUrl(config).value + "/files", sessionId, NoBody))
    ensures ApiBaseUrl(config).Success? && fetch.Reply? && !fetch.response.Ok() ==>
              x.result.Failure? && x.result.error.message ==
                "Files failed (" + Text.Decimal(fetch.response.status) + "): " + fetch.response.text
  {
    Call("Files", config, "GET", "/files", sessionId, NoBody, fetch)
  }

  /* ---------------- sequential upload ---------------- */

  /** One `onProgress(current, total, filename)` notification. */
  datatype Progress = Progress(current: nat, total: nat, fileName: string)

  function UploadOneFailure(file: File, status: nat, text: string): Error {
    Thrown("Upload failed for \"" + file.name + "\" (" + Text.Decimal(status) + "): " + text)
  }

  /** One iteration of the sequential loop after its progress notification:
      resolve the base URL, POST the single file, throw on a non-ok status
      naming the file, else parse the body. */
  function UploadOne<T>(config: Option<string>, file: File, fetch: Fetch<T>): (r: Result<T, Error>)
    ensures r.Success? <==>
              ApiBaseUrl(config).Success? && fetch.Reply? && fetch.response.Ok() && fetch.response.json.Parsed?
    ensures ApiBaseUrl(config).Success? && fetch.Reply? && !fetch.response.Ok() ==>
              r == Failure(UploadOneFailure(file, fetch.response.status, fetch.response.text))
  {
    match ApiBaseUrl(config)
    case Failure(e) => Failure(e)
    case Success(_) =>
      match fetch
      case Threw(e) => Failure(e)
      case Reply(r) =>
        if !r.Ok() then Failure(UploadOneFailure(file, r.status, r.text)) else ParseJson(r.json)
  }

  /** `uploadDocumentsSequential(files, sessionId, onProgress)`. `replies[i]` is
      what the upload of `files[i]` would get if it were sent. Returns the
      progress notifications made, the requests sent, and the outcome. */
  method UploadDocumentsSequential<T>(config: Option<string>, files: seq<File>, sessionId: string,
                                      replies: seq<Fetch<T>>)
    returns (progress: seq<Progress>, sent: seq<Request>, result: Result<seq<T>, Error>)
    requires |replies| == |files|
    ensures |progress| <= |files|
    ensures forall i :: 0 <= i < |progress| ==> progress[i] == Progress(i + 1, |files|, files[i].name)
    ensures forall i :: 0 <= i < |progress| - 1 ==> UploadOne(config, files[i], replies[i]).Success?
    ensures ApiBaseUrl(config).Failure? ==> sent == []
    ensures ApiBaseUrl(config).Success? ==>
              |sent| == |progress| &&
              forall i :: 0 <= i < |sent| ==>
                sent[i] == Request("POST", ApiBaseUrl(config).value + "/upload", sessionId, Form([files[i]]))
    ensures result.Success? ==>
              |progress| == |files| && |result.value| == |files| &&
              forall i :: 0 <= i < |files| ==>
                UploadOne(config, files[i], replies[i]) == Success(result.value[i])
    ensures result.Failure? ==>
              |progress| > 0 &&
              UploadOne(config, files[|progress| - 1], replies[|progress| - 1]) == Failure(result.error)
  {
    progress := [];
    sent := [];
    var results: seq<T> := [];
    var i := 0;
    while i < |files|
      invariant i <= |files|
      invariant |progress| == i && |results| == i
      invariant forall j :: 0 <= j < i ==> progress[j] == Progress(j + 1, |files|, files[j].name)
      invariant forall j :: 0 <= j < i ==> UploadOne(config, files[j], replies[j]) == Success(results[j])
      invariant ApiBaseUrl(config).Failure? ==> sent == []
      invariant ApiBaseUrl(config).Success? ==>
                  |sent| == i &&
                  forall j :: 0 <= j < i ==>
                    sent[j] == Request("POST", ApiBaseUrl(config).value + "/upload", sessionId, Form([files[j]]))
    {
      progress := progress + [Progress(i + 1, |files|, files[i].name)];
      if ApiBaseUrl(config).Success? {
        sent := sent + [Request("POST", ApiBaseUrl(config).value + "/upload", sessionId, Form([files[i]]))];
      }
      var one := UploadOne(config, files[i], replies[i]);
      if one.Failure? {
        result := Failure(one.error);
        return;
      }
      results := results + [one.value];
      i := i + 1;
    }
    result := Success(results);
  }

  /* ---------------- build ---------------- */

  const TimeoutHead := "Build timeout"
  const NetworkHead := "Network error"

  const TimeoutDetail := ": Processing is taking longer than expected.\n\n"
    + "This usually happens with:\n\U{2022} Multiple large documents\n\U{2022} Slow embedding generation\n"
    + "\U{2022} Backend server overload\n\nTry: Refresh the page and upload files one at a time."

  const BuildTimeoutMessage := TimeoutHead + TimeoutDetail

  /** The network message's text either side of the session id. */
  const NetworkBeforeId := ": Cannot reach backend server.\n\nPossible causes:\n\U{2022} Session \""
  const NetworkAfterId := "\" has no documents (try uploading again)\n\U{2022} Backend crashed during previous build (refresh page)\n"
    + "\U{2022} Network connectivity issue\n\nTry: Click \"START OVER\" to reset the session."

  function NetworkErrorMessage(sessionId: string): string {
    NetworkHead + NetworkBeforeId + sessionId + NetworkAfterId
  }

  /** The text after `"Build failed (<status>): "`: the body's `detail`, else
      its `message`, else the raw text (also when the text is not JSON). */
  function BuildErrorDetail(r: Response<BuildBody>): (d: string)
    ensures r.json.Invalid? ==> d == r.text
    ensures r.json.Parsed? && r.json.value.detail != "" ==> d == r.json.value.detail
    ensures r.json.Parsed? && r.json.value.detail == "" && r.json.value.message != "" ==> d == r.json.value.message
    ensures r.json.Parsed? && r.json.value.detail == "" && r.json.value.message == "" ==> d == r.text
  {
    match r.json
    case Invalid(_) => r.text
    case Parsed(b) => Text.OrElse(b.detail, Text.OrElse(b.message, r.text))
  }

  /** The body of the `try` in `buildIndex`, before the `catch` rewrites errors. */
  function BuildAttempt(fetch: Fetch<BuildBody>): Result<BuildReply, Error> {
    match fetch
    case Threw(e) => Failure(e)
    case Reply(r) =>
      if !r.Ok() then Failure(Thrown("Build failed (" + Text.Decimal(r.status) + "): " + BuildErrorDetail(r)))
      else if r.text == "" then Success(DefaultSuccess)
      else match r.json
        case Invalid(m) => Failure(Error("SyntaxError", m))
        case Parsed(b) => Success(Body(b))
  }

  /** The `catch` of `buildIndex`: an abort becomes the timeout message, a
      "Failed to fetch" becomes the network message naming the session, and
      anything else is rethrown as it is. */
  function ClassifyBuildError(e: Error, sessionId: string): (r: Error)
    ensures e.name == "AbortError" ==> r == Thrown(BuildTimeoutMessage)
    ensures e.name != "AbortError" && e.message == "Failed to fetch" ==> r == Thrown(NetworkErrorMessage(sessionId))
    ensures e.name != "AbortError" && e.message != "Failed to fetch" ==> r == e
  {
    if e.name == "AbortError" then Thrown(BuildTimeoutMessage)
    else if e.message == "Failed to fetch" then Thrown(NetworkErrorMessage(sessionId))
    else e
  }

  /** `buildIndex(sessionId)`: POST `/build` with no body. The base URL is
      resolved once before the `try`, so a missing configuration is thrown
      unchanged. */
  function BuildIndex(config: Option<string>, sessionId: string, fetch: Fetch<BuildBody>): (x: Exchange<BuildReply>)
    ensures ApiBaseUrl(config).Failure? ==> x == Exchange(None, Failure(Thrown(MissingBaseUrl)))
    ensures ApiBaseUrl(config).Success? ==>
              x.sent == Some(Request("POST", ApiBaseUrl(config).value + "/build", sessionId, NoBody))
    ensures x.result.Success? <==> ApiBaseUrl(config).Success? && BuildAttempt(fetch).Success?
  {
    match ApiBaseUrl(config)
    case Failure(e) => Exchange(None, Failure(e))
    case Success(base) =>
      var sent := Some(Request("POST", base + "/build", sessionId, NoBody));
      match BuildAttempt(fetch)
      case Success(v) => Exchange(sent, Success(v))
      case Failure(e) => Exchange(sent, Failure(ClassifyBuildError(e, sessionId)))
  }

  /** A non-ok build response throws `"Build failed (<status>): <detail>"`, and
      that error leaves the `catch` unchanged. */
  lemma BuildHttpFailure(config: Option<string>, sessionId: string, r: Response<BuildBody>)
    requires ApiBaseUrl(config).Success? && !r.Ok()
    ensures BuildIndex(config, sessionId, Reply(r)).result
            == Failure(Thrown("Build failed (" + Text.Decimal(r.status) + "): " + BuildErrorDetail(r)))
  {
    var m := "Build failed (" + Text.Decimal(r.status) + "): " + BuildErrorDetail(r);
    assert m[0] == 'B';
    assert "Failed to fetch"[0] == 'F';
  }

  /** An ok build response with an empty body is `{status: "success"}`. */
  lemma BuildEmptyBodySucceeds(config: Option<string>, sessionId: string, r: Response<BuildBody>)
    requires ApiBaseUrl(config).Success? && r.Ok() && r.text == ""
    ensures BuildIndex(config, sessionId, Reply(r)).result == Success(DefaultSuccess)
  {
  }

  /** The timeout message and the network message can never be confused. */
  lemma TimeoutAndNetworkDistinct(sessionId: string)
    ensures Text.StartsWith(BuildTimeoutMessage, TimeoutHead)
    ensures Text.StartsWith(NetworkErrorMessage(sessionId), NetworkHead)
    ensures BuildTimeoutMessage != NetworkErrorMessage(sessionId)
  {
    assert BuildTimeoutMessage[0] == TimeoutHead[0];
    assert NetworkErrorMessage(sessionId)[0] == NetworkHead[0];
  }

  /** A thrown error is classified by name first, then by message; the network
      message embeds the session id. */
  lemma BuildThrownClassification(config: Option<string>, sessionId: string, e: Error)
    requires ApiBaseUrl(config).Success?
    ensures var r := BuildIndex(config, sessionId, Threw(e)).result;
            && r.Failure?
            && (e.name == "AbortError" ==> Text.StartsWith(r.error.message, TimeoutHead))
            && (e.name != "AbortError" && e.message == "Failed to fetch" ==>
                  Text.StartsWith(r.error.message, NetworkHead) && Text.Contains(r.error.message, sessionId))
            && (e.name != "AbortError" && e.message != "Failed to fetch" ==> r.error == e)
  {
    TimeoutAndNetworkDistinct(sessionId);
    var head := NetworkHead + NetworkBeforeId;
    var m := NetworkErrorMessage(sessionId);
    assert m[|head|..|head| + |sessionId|] == sessionId;
    Text.ContainsAt(m, sessionId, |head|);
  }

  /* ---------------- session ids ---------------- */

  /** `generateSessionId()`: `"session-<milliseconds>-<random suffix>"`; the clock
      reading and the random suffix are inputs. */
  function GenerateSessionId(nowMillis: nat, randomSuffix: string): (id: string)
    ensures Text.StartsWith(id, "session-")
    ensures Text.EndsWith(id, randomSuffix)
  {
    "session-" + Text.Decimal(nowMillis) + "-" + randomSuffix
  }
}

/**
 * The generation relay: the `POST` handler of `/routes/upload`.
 *
 * One request carries a multipart form with an image file and a prompt. The
 * handler checks its inputs, submits one job to the remote image-generation
 * provider, polls the provider's result endpoint at most `MaxAttempts` times
 * and ends in exactly one `Outcome`, which `Respond` maps to the HTTP response.
 *
 * The network is abstract: a `Provider` is the submit reply, the scripted poll
 * replies and whether fetching a sample URL succeeds. What the handler sends
 * out is recorded as a sequence of `Call`s, so that "no poll was made" and "at
 * most 60 polls" are statements about that sequence.
 */
module Relay {
  import opened Wrappers
  import opened Files

  /** The poll budget of the loop `for (attempts = 0; attempts < 60; ...)`. */
  const MaxAttempts: nat := 60
  /** The MIME type used when the uploaded file reports none. */
  const DefaultMimeType: string := "image/jpeg"
  const DoneStatuses: seq<string> := ["Ready", "Complete", "Finished"]
  const FailedStatuses: seq<string> := ["Failed", "Error"]

  // ---------------------------------------------------------------------------
  // Inputs: the form, the provider, the outbound calls
  // ---------------------------------------------------------------------------

  /** The parsed multipart body, or a body whose parsing throws. */
  datatype FormData =
    | Unreadable
    | Form(file: Option<ImageFile>, prompt: Option<string>)

  /** The JSON body of the create-job request. */
  datatype Payload = Payload(
    inputImage: string,
    prompt: string,
    seed: int,
    promptUpsampling: bool,
    safetyTolerance: int)

  /** An outbound HTTP request made by the handler. */
  datatype Call =
    | Submit(apiKey: string, payload: Payload)
    | Poll(apiKey: string, requestId: string)
    | FetchSample(url: string)

  /** The provider's answer to the create-job request: thrown, or a body with an optional `request_id`. */
  datatype SubmitReply = SubmitRaised | Submitted(requestId: Option<string>)

  /** The provider's answer to one poll: thrown, or an HTTP reply with its parsed body. */
  datatype PollReply =
    | PollRaised
    | Polled(ok: bool, status: string, sample: Option<string>, details: Option<string>)

  /** The provider as the handler sees it. */
  datatype Provider = Provider(submit: SubmitReply, polls: seq<PollReply>, sampleFetchOk: bool)

  /** The terminal outcome of one request. */
  datatype Outcome =
    | NoFile
    | NoApiKey
    | SubmitFailed
    | ImageFromUrl(url: string)
    | ImageFromBase64(data: string)
    | GenerationFailed(details: Option<string>)
    | TimedOut
    | InternalError

  /** The outcome of a request together with every outbound call it made, in order. */
  datatype Exchange = Exchange(outcome: Outcome, calls: seq<Call>)

  /** The reply to poll number `k`; once the scripted replies run out the provider answers non-ok. */
  function PollAt(p: Provider, k: nat): PollReply
  {
    if k < |p.polls| then p.polls[k] else Polled(false, "", None, None)
  }

  /** JavaScript truthiness of an optional string: present and non-empty. */
  predicate Truthy(s: Option<string>)
  {
    s.Some? && s.value != ""
  }

  /** `s.startsWith("http")`. */
  predicate IsUrl(s: string)
  {
    |s| >= 4 && s[..4] == "http"
  }

  /** The number of result-endpoint polls in a sequence of calls. */
  function CountPolls(calls: seq<Call>): (n: nat)
    ensures n <= |calls|
  {
    if calls == [] then 0
    else (if calls[0].Poll? then 1 else 0) + CountPolls(calls[1..])
  }

  lemma {:induction false} CountPollsAppend(a: seq<Call>, b: seq<Call>)
    ensures CountPolls(a + b) == CountPolls(a) + CountPolls(b)
  {
    if a == [] {
      assert a + b == b;
    } else {
      assert (a + b)[1..] == a[1..] + b;
      CountPollsAppend(a[1..], b);
    }
  }

  // ---------------------------------------------------------------------------
  // The submitted payload and its data URI
  // ---------------------------------------------------------------------------

  /** `file.type || "image/jpeg"`. */
  function MimeTypeOf(file: ImageFile): (m: string)
    ensures m != ""
    ensures file.mimeType != "" ==> m == file.mimeType
    ensures file.mimeType == "" ==> m == DefaultMimeType
  {
    if file.mimeType == "" then DefaultMimeType else file.mimeType
  }

  /** `prompt || ""`. */
  function PromptOrEmpty(prompt: Option<string>): (r: string)
    ensures Truthy(prompt) ==> r == prompt.value
    ensures r == "" <==> !Truthy(prompt)
  {
    if Truthy(prompt) then prompt.value else ""
  }

  /** A data URI with base64 data (RFC 2397, section 2). */
  function DataUri(mimeType: string, base64Data: string): string
  {
    "data:" + mimeType + ";base64," + base64Data
  }

  /** The create-job body: the data URI, the prompt, and the fixed generation parameters. */
  function BuildPayload(file: ImageFile, prompt: Option<string>, base64: seq<Byte> -> string): Payload
  {
    Payload(DataUri(MimeTypeOf(file), base64(file.bytes)), PromptOrEmpty(prompt), -1, false, 6)
  }

  /** The position of the first `c` in `s`, or `|s|` when there is none. */
  function IndexOf(s: string, c: char): (i: nat)
    ensures i <= |s|
    ensures i < |s| ==> s[i] == c
    ensures forall j :: 0 <= j < i ==> s[j] != c
  {
    if s == [] then 0
    else if s[0] == c then 0
    else 1 + IndexOf(s[1..], c)
  }

  /**
   * The model's own reader of a base64 data URI, the inverse of `DataUri`: the
   * data starts after the first comma, the seven characters before that comma
   * must be `;base64`, and everything between `data:` and them is the media
   * type (parameters included).
   */
  function ParseDataUri(uri: string): Option<(string, string)>
  {
    if |uri| < 5 || uri[..5] != "data:" then None
    else
      var rest := uri[5..];
      var i := IndexOf(rest, ',');
      if 7 <= i < |rest| && rest[i - 7..i] == ";base64" then Some((rest[..i - 7], rest[i + 1..]))
      else None
  }

  /** A sequence cut at `i` and `j` is the concatenation of its three pieces. */
  lemma SplitInThree(s: string, i: nat, j: nat)
    requires i <= j <= |s|
    ensures s == s[..i] + s[i..j] + s[j..]
  {
  }

  /** A data URI built from a MIME type without a comma reads back as exactly that type and that data. */
  lemma DataUriRoundTrip(mimeType: string, base64Data: string)
    requires ',' !in mimeType
    ensures ParseDataUri(DataUri(mimeType, base64Data)) == Some((mimeType, base64Data))
  {
    var uri := DataUri(mimeType, base64Data);
    var rest := mimeType + ";base64," + base64Data;
    assert uri[..5] == "data:";
    assert uri[5..] == rest;
    var i := IndexOf(rest, ',');
    var n := |mimeType| + 7;
    assert rest[n] == ',';
    forall j | 0 <= j < n ensures rest[j] != ',' {
      if j < |mimeType| {
        assert rest[j] == mimeType[j];
      } else {
        assert rest[j] == ";base64"[j - |mimeType|];
      }
    }
    assert i == n;
    assert rest[i - 7..i] == ";base64";
    assert rest[..i - 7] == mimeType;
    assert rest[i + 1..] == base64Data;
  }

  /** Every URI the reader accepts is the data URI of what it reads, with a comma-free type. */
  lemma ParseDataUriSound(uri: string, mimeType: string, base64Data: string)
    requires ParseDataUri(uri) == Some((mimeType, base64Data))
    ensures ',' !in mimeType
    ensures uri == DataUri(mimeType, base64Data)
  {
    var rest := uri[5..];
    var i := IndexOf(rest, ',');
    assert 7 <= i < |rest| && rest[i - 7..i] == ";base64";
    var head, tag, tail := rest[..i - 7], rest[i - 7..i + 1], rest[i + 1..];
    assert mimeType == head && base64Data == tail;
    forall j | 0 <= j < |mimeType| ensures mimeType[j] != ',' {
      assert mimeType[j] == rest[j];
    }
    assert tag == ";base64," by {
      assert tag == rest[i - 7..i] + [rest[i]];
    }
    SplitInThree(rest, i - 7, i + 1);
    assert rest == head + tag + tail;
    assert uri == uri[..5] + rest;
  }

  // ---------------------------------------------------------------------------
  // One poll
  // ---------------------------------------------------------------------------

  /** The provider's status strings as a closed enumeration with a fallback. */
  datatype StatusClass = Done | Failed | Running

  function ClassifyStatus(status: string): (c: StatusClass)
    ensures c == Done <==> status in DoneStatuses
    ensures c == Failed <==> status in FailedStatuses
    ensures c == Running <==> status !in DoneStatuses && status !in FailedStatuses
  {
    if status in DoneStatuses then Done
    else if status in FailedStatuses then Failed
    else Running
  }

  /** What one poll reply decides: poll again, or stop with an outcome after an optional sample fetch. */
  datatype Verdict = KeepPolling | Stop(outcome: Outcome, fetched: Option<string>)

  function Step(reply: PollReply, sampleFetchOk: bool): (v: Verdict)
    ensures v.Stop? ==> IsLoopOutcome(v.outcome) && !v.outcome.TimedOut?
    ensures v.Stop? && v.fetched.Some? ==>
              IsUrl(v.fetched.value) && (v.outcome == ImageFromUrl(v.fetched.value) || v.outcome == InternalError)
    ensures v.Stop? && v.outcome.ImageFromUrl? ==> v.fetched == Some(v.outcome.url)
    ensures reply.PollRaised? ==> v == Stop(InternalError, None)
    ensures reply.Polled? && !reply.ok ==> v.KeepPolling?
  {
    match reply
    case PollRaised => Stop(InternalError, None)
    case Polled(ok, status, sample, details) =>
      if !ok then KeepPolling
      else
        match ClassifyStatus(status)
        case Done =>
          if !Truthy(sample) then KeepPolling
          else if IsUrl(sample.value) then
            Stop(if sampleFetchOk then ImageFromUrl(sample.value) else InternalError, Some(sample.value))
          else Stop(ImageFromBase64(sample.value), None)
        case Failed => Stop(GenerationFailed(details), None)
        case Running => KeepPolling
  }

  function FetchCalls(fetched: Option<string>): seq<Call>
  {
    if fetched.Some? then [FetchSample(fetched.value)] else []
  }

  /** The outcomes the poll loop can end in. */
  predicate IsLoopOutcome(o: Outcome)
  {
    o.ImageFromUrl? || o.ImageFromBase64? || o.GenerationFailed? || o.TimedOut? || o.InternalError?
  }

  /** Every call is a poll of the job, except that the last one may be a fetch of the sample. */
  predicate PollsThenFetch(calls: seq<Call>, apiKey: string, requestId: string)
  {
    forall i :: 0 <= i < |calls| ==>
      calls[i] == Poll(apiKey, requestId) || (i == |calls| - 1 && calls[i].FetchSample?)
  }

  // ---------------------------------------------------------------------------
  // The poll loop and the whole handler, as specification functions
  // ---------------------------------------------------------------------------

  /** The poll loop from attempt number `attempt` on. */
  function PollLoop(p: Provider, apiKey: string, requestId: string, attempt: nat): (r: Exchange)
    requires attempt <= MaxAttempts
    ensures attempt == MaxAttempts ==> r == Exchange(TimedOut, [])
    ensures attempt < MaxAttempts ==> |r.calls| >= 1 && r.calls[0] == Poll(apiKey, requestId)
    decreases MaxAttempts - attempt
  {
    if attempt == MaxAttempts then Exchange(TimedOut, [])
    else
      var poll := Poll(apiKey, requestId);
      match Step(PollAt(p, attempt), p.sampleFetchOk)
      case KeepPolling =>
        var rest := PollLoop(p, apiKey, requestId, attempt + 1);
        Exchange(rest.outcome, [poll] + rest.calls)
      case Stop(o, fetched) => Exchange(o, [poll] + FetchCalls(fetched))
  }

  /**
   * The loop is bounded: it polls at most once per remaining attempt, and it
   * times out only after polling once per remaining attempt and nothing else.
   */
  lemma {:induction false} PollLoopBudget(p: Provider, apiKey: string, requestId: string, attempt: nat)
    requires attempt <= MaxAttempts
    ensures var r := PollLoop(p, apiKey, requestId, attempt);
            && CountPolls(r.calls) <= MaxAttempts - attempt
            && (r.outcome.TimedOut? ==> CountPolls(r.calls) == |r.calls| == MaxAttempts - attempt)
    decreases MaxAttempts - attempt
  {
    if attempt < MaxAttempts {
      var poll := Poll(apiKey, requestId);
      match Step(PollAt(p, attempt), p.sampleFetchOk)
      case KeepPolling =>
        var rest := PollLoop(p, apiKey, requestId, attempt + 1);
        PollLoopBudget(p, apiKey, requestId, attempt + 1);
        assert ([poll] + rest.calls)[1..] == rest.calls;
      case Stop(o, fetched) =>
        assert ([poll] + FetchCalls(fetched))[1..] == FetchCalls(fetched);
    }
  }

  /**
   * The loop polls only the submitted job and ends in an image, a generation
   * failure, a timeout or an internal error; the one sample fetch, if any, is
   * its last call, and an image from a URL is always preceded by fetching it.
   */
  lemma {:induction false} PollLoopCalls(p: Provider, apiKey: string, requestId: string, attempt: nat)
    requires attempt <= MaxAttempts
    ensures var r := PollLoop(p, apiKey, requestId, attempt);
            && PollsThenFetch(r.calls, apiKey, requestId)
            && IsLoopOutcome(r.outcome)
            && (r.outcome.ImageFromUrl? ==> |r.calls| >= 2 && r.calls[|r.calls| - 1] == FetchSample(r.outcome.url))
    decreases MaxAttempts - attempt
  {
    if attempt < MaxAttempts && Step(PollAt(p, attempt), p.sampleFetchOk).KeepPolling? {
      PollLoopCalls(p, apiKey, requestId, attempt + 1);
    }
  }

  /** One turn of the poll loop, seen from the calls made before it. */
  lemma PollLoopUnfold(p: Provider, apiKey: string, requestId: string, attempt: nat, before: seq<Call>)
    requires attempt < MaxAttempts
    ensures var v := Step(PollAt(p, attempt), p.sampleFetchOk);
            var after := before + [Poll(apiKey, requestId)];
            var here := PollLoop(p, apiKey, requestId, attempt);
            && (v.KeepPolling? ==> here.outcome == PollLoop(p, apiKey, requestId, attempt + 1).outcome
                                   && before + here.calls == after + PollLoop(p, apiKey, requestId, attempt + 1).calls)
            && (v.Stop? ==> here.outcome == v.outcome && before + here.calls == after + FetchCalls(v.fetched))
  {
    var poll := Poll(apiKey, requestId);
    var v := Step(PollAt(p, attempt), p.sampleFetchOk);
    if v.KeepPolling? {
      var rest := PollLoop(p, apiKey, requestId, attempt + 1).calls;
      assert before + ([poll] + rest) == before + [poll] + rest;
    } else {
      assert before + ([poll] + FetchCalls(v.fetched)) == before + [poll] + FetchCalls(v.fetched);
    }
  }

  /** The whole `POST` handler: input checks, submission, poll loop. */
  function Handle(form: FormData, apiKey: Option<string>, p: Provider, base64: seq<Byte> -> string): (r: Exchange)
    ensures CountPolls(r.calls) <= MaxAttempts
  {
    match form
    case Unreadable => Exchange(InternalError, [])
    case Form(file, prompt) =>
      if file.None? then Exchange(NoFile, [])
      else if !Truthy(apiKey) then Exchange(NoApiKey, [])
      else
        var submit := Submit(apiKey.value, BuildPayload(file.value, prompt, base64));
        match p.submit
        case SubmitRaised => Exchange(InternalError, [submit])
        case Submitted(requestId) =>
          if !Truthy(requestId) then Exchange(SubmitFailed, [submit])
          else
            var loop := PollLoop(p, apiKey.value, requestId.value, 0);
            PollLoopBudget(p, apiKey.value, requestId.value, 0);
            CountPollsAppend([submit], loop.calls);
            Exchange(loop.outcome, [submit] + loop.calls)
  }

  // ---------------------------------------------------------------------------
  // The handler as the source runs it
  // ---------------------------------------------------------------------------

  /** `POST`, step by step: the input checks and the submission, then the poll loop. */
  method Post(form: FormData, apiKey: Option<string>, p: Provider, base64: seq<Byte> -> string)
    returns (outcome: Outcome, calls: seq<Call>)
    ensures Exchange(outcome, calls) == Handle(form, apiKey, p, base64)
  {
    calls := [];
    if form.Unreadable? {
      outcome := InternalError;
      return;
    }
    var file := form.file;
    if file.None? {
      outcome := NoFile;
      return;
    }
    var base64Image := base64(file.value.bytes);
    var mimeType := if file.value.mimeType == "" then DefaultMimeType else file.value.mimeType;
    if apiKey.None? || apiKey.value == "" {
      outcome := NoApiKey;
      return;
    }
    var key := apiKey.value;
    var prompt := if form.prompt.Some? && form.prompt.value != "" then form.prompt.value else "";
    var payload := Payload("data:" + mimeType + ";base64," + base64Image, prompt, -1, false, 6);
    calls := [Submit(key, payload)];
    if p.submit.SubmitRaised? {
      outcome := InternalError;
      return;
    }
    var requestId := p.submit.requestId;
    if requestId.None? || requestId.value == "" {
      outcome := SubmitFailed;
      return;
    }
    var polls;
    outcome, polls := AwaitResult(p, key, requestId.value);
    calls := calls + polls;
  }

  /**
   * The loop of `POST` that polls the job `requestId` at most `MaxAttempts` times,
   * returning at the first terminal reply and timing out after the last attempt.
   */
  method AwaitResult(p: Provider, apiKey: string, requestId: string) returns (outcome: Outcome, calls: seq<Call>)
    ensures Exchange(outcome, calls) == PollLoop(p, apiKey, requestId, 0)
  {
    calls := [];
    var attempts := 0;
    while attempts < MaxAttempts
      invariant attempts <= MaxAttempts
      invariant PollLoop(p, apiKey, requestId, 0)
        == Exchange(PollLoop(p, apiKey, requestId, attempts).outcome, calls + PollLoop(p, apiKey, requestId, attempts).calls)
    {
      PollLoopUnfold(p, apiKey, requestId, attempts, calls);
      var stop, result, made := PollOnce(p, apiKey, requestId, attempts);
      calls := calls + made;
      if stop {
        outcome := result;
        return;
      }
      attempts := attempts + 1;
    }
    outcome := TimedOut;
  }

  /**
   * One attempt of the loop: poll the job, then act on the reply. It stops with
   * an outcome exactly when `Step` does, after the poll and the optional fetch
   * of the sample; otherwise it has made the one poll.
   */
  method PollOnce(p: Provider, apiKey: string, requestId: string, attempt: nat)
    returns (stop: bool, outcome: Outcome, made: seq<Call>)
    ensures var v := Step(PollAt(p, attempt), p.sampleFetchOk);
            && stop == v.Stop?
            && (stop ==> outcome == v.outcome && made == [Poll(apiKey, requestId)] + FetchCalls(v.fetched))
            && (!stop ==> made == [Poll(apiKey, requestId)])
  {
    var reply := PollAt(p, attempt);
    made := [Poll(apiKey, requestId)];
    stop, outcome := true, InternalError;
    if reply.PollRaised? {
      return;
    }
    if reply.ok {
      if reply.status in DoneStatuses {
        var imageData := reply.sample;
        if imageData.Some? && imageData.value != "" {
          if |imageData.value| >= 4 && imageData.value[..4] == "http" {
            made := made + [FetchSample(imageData.value)];
            if !p.sampleFetchOk {
              return;
            }
            outcome := ImageFromUrl(imageData.value);
            return;
          } else {
            outcome := ImageFromBase64(imageData.value);
            return;
          }
        }
      }
      if reply.status in FailedStatuses {
        outcome := GenerationFailed(reply.details);
        return;
      }
    }
    stop := false;
  }

  // ---------------------------------------------------------------------------
  // The HTTP response
  // ---------------------------------------------------------------------------

  /** A response body: a JSON error, or the image bytes fetched from a URL or decoded from base64. */
  datatype Body =
    | ErrorJson(error: string, details: Option<string>)
    | FetchedImage(url: string)
    | DecodedImage(base64Data: string)

  datatype HttpResponse = HttpResponse(status: int, contentType: string, body: Body)

  /** Maps each outcome to its one HTTP response. */
  function Respond(o: Outcome): (r: HttpResponse)
    ensures r.status == 200 || r.status == 400 || r.status == 500 || r.status == 504
    ensures r.status == 200 <==> o.ImageFromUrl? || o.ImageFromBase64?
    ensures r.status == 400 <==> o.NoFile?
    ensures r.status == 504 <==> o.TimedOut?
    ensures r.status == 200 <==> r.contentType == "image/jpeg"
    ensures r.status != 200 <==> r.body.ErrorJson? && r.contentType == "application/json"
    ensures o.ImageFromUrl? ==> r.body == FetchedImage(o.url)
    ensures o.ImageFromBase64? ==> r.body == DecodedImage(o.data)
    ensures o.GenerationFailed? ==> r.body == ErrorJson("Generation failed", o.details)
    ensures o.TimedOut? ==> r.body == ErrorJson("Request timed out after 60 seconds", None)
    ensures o.InternalError? ==> r.body == ErrorJson("Internal server error", None)
    ensures r.body.ErrorJson? && !o.GenerationFailed? ==> r.body.details.None?
  {
    match o
    case NoFile => HttpResponse(400, "application/json", ErrorJson("No file provided", None))
    case NoApiKey => HttpResponse(500, "application/json", ErrorJson("API key not configured", None))
    case SubmitFailed => HttpResponse(500, "application/json", ErrorJson("Failed to submit request", None))
    case ImageFromUrl(url) => HttpResponse(200, "image/jpeg", FetchedImage(url))
    case ImageFromBase64(data) => HttpResponse(200, "image/jpeg", DecodedImage(data))
    case GenerationFailed(details) => HttpResponse(500, "application/json", ErrorJson("Generation failed", details))
    case TimedOut => HttpResponse(504, "application/json", ErrorJson("Request timed out after 60 seconds", None))
    case InternalError => HttpResponse(500, "application/json", ErrorJson("Internal server error", None))
  }

  // ---------------------------------------------------------------------------
  // Properties of the handler
  // ---------------------------------------------------------------------------

  /** A missing file is answered 400 before the API key is looked at and before any call. */
  lemma MissingFileRejectedFirst(form: FormData, apiKey: Option<string>, p: Provider, base64: seq<Byte> -> string)
    requires form.Form? && form.file.None?
    ensures Handle(form, apiKey, p, base64) == Exchange(NoFile, [])
    ensures Respond(NoFile) == HttpResponse(400, "application/json", ErrorJson("No file provided", None))
  {
  }

  /** With a file but no API key the answer is 500 and nothing is submitted or polled. */
  lemma MissingApiKeyRejected(form: FormData, apiKey: Option<string>, p: Provider, base64: seq<Byte> -> string)
    requires form.Form? && form.file.Some? && (apiKey.None? || apiKey.value == "")
    ensures Handle(form, apiKey, p, base64) == Exchange(NoApiKey, [])
    ensures Respond(NoApiKey) == HttpResponse(500, "application/json", ErrorJson("API key not configured", None))
  {
  }

  /**
   * Once the checks pass, the first call is the submission of the file's bytes
   * as a base64 data URI (with `image/jpeg` for an untyped file) and of the
   * prompt (empty when absent), with the fixed generation parameters; when
   * the type has no comma, the data URI reads back as that type and those
   * base64 bytes.
   */
  lemma SubmittedPayload(form: FormData, apiKey: Option<string>, p: Provider, base64: seq<Byte> -> string)
    requires form.Form? && form.file.Some? && Truthy(apiKey)
    ensures var r := Handle(form, apiKey, p, base64);
            var file := form.file.value;
            var mime := if file.mimeType == "" then "image/jpeg" else file.mimeType;
            && |r.calls| >= 1 && r.calls[0].Submit? && r.calls[0].apiKey == apiKey.value
            && r.calls[0].payload.inputImage == "data:" + mime + ";base64," + base64(file.bytes)
            && r.calls[0].payload.prompt == (if form.prompt.Some? then form.prompt.value else "")
            && r.calls[0].payload.seed == -1
            && !r.calls[0].payload.promptUpsampling
            && r.calls[0].payload.safetyTolerance == 6
            && (',' !in mime ==> ParseDataUri(r.calls[0].payload.inputImage) == Some((mime, base64(file.bytes))))
  {
    var file := form.file.value;
    var mime := MimeTypeOf(file);
    if ',' !in mime {
      DataUriRoundTrip(mime, base64(file.bytes));
    }
  }

  /** A submission answered without a `request_id` ends in 500 with zero polls. */
  lemma MissingRequestIdMeansNoPolls(form: FormData, apiKey: Option<string>, p: Provider, base64: seq<Byte> -> string)
    requires form.Form? && form.file.Some? && Truthy(apiKey)
    requires p.submit.Submitted? && !Truthy(p.submit.requestId)
    ensures Handle(form, apiKey, p, base64).outcome == SubmitFailed
    ensures |Handle(form, apiKey, p, base64).calls| == 1
    ensures CountPolls(Handle(form, apiKey, p, base64).calls) == 0
    ensures Respond(SubmitFailed) == HttpResponse(500, "application/json", ErrorJson("Failed to submit request", None))
  {
    var r := Handle(form, apiKey, p, base64);
    assert r.calls[1..] == [];
  }

  /**
   * Every exception inside the handler's `try` becomes an internal error: an
   * unreadable form before any call, a failed submission after its one call,
   * and a failed poll right after that poll.
   */
  lemma ExceptionsAreInternalErrors(form: FormData, apiKey: Option<string>, p: Provider, base64: seq<Byte> -> string,
                                    key: string, requestId: string, attempt: nat)
    requires attempt < MaxAttempts
    ensures form.Unreadable? ==> Handle(form, apiKey, p, base64) == Exchange(InternalError, [])
    ensures form.Form? && form.file.Some? && Truthy(apiKey) && p.submit.SubmitRaised? ==>
              Handle(form, apiKey, p, base64)
                == Exchange(InternalError, [Submit(apiKey.value, BuildPayload(form.file.value, form.prompt, base64))])
    ensures PollAt(p, attempt).PollRaised? ==> PollLoop(p, key, requestId, attempt) == Exchange(InternalError, [Poll(key, requestId)])
    ensures Respond(InternalError) == HttpResponse(500, "application/json", ErrorJson("Internal server error", None))
  {
  }

  /**
   * One request submits exactly one job, as its first call, and never a
   * second; every poll names the `request_id` that submission returned, with
   * the request's API key; a sample fetch can only be the last call.
   */
  lemma OneJobPerRequest(form: FormData, apiKey: Option<string>, p: Provider, base64: seq<Byte> -> string)
    ensures var r := Handle(form, apiKey, p, base64);
            && (|r.calls| > 0 ==> r.calls[0].Submit?)
            && (forall i :: 1 <= i < |r.calls| ==> !r.calls[i].Submit?)
            && (forall i :: 0 <= i < |r.calls| && r.calls[i].Poll? ==>
                  && p.submit.Submitted? && Truthy(p.submit.requestId) && Truthy(apiKey)
                  && r.calls[i] == Poll(apiKey.value, p.submit.requestId.value))
            && (forall i :: 0 <= i < |r.calls| && r.calls[i].FetchSample? ==> i == |r.calls| - 1)
  {
    var r := Handle(form, apiKey, p, base64);
    if form.Form? && form.file.Some? && Truthy(apiKey) && p.submit.Submitted? && Truthy(p.submit.requestId) {
      var key, id := apiKey.value, p.submit.requestId.value;
      var loop := PollLoop(p, key, id, 0);
      PollLoopCalls(p, key, id, 0);
      forall i | 1 <= i < |r.calls|
        ensures r.calls[i] == loop.calls[i - 1]
      {
      }
    }
  }

  /** Whatever the provider does, at most 60 polls are made, and a timeout comes after exactly 60. */
  lemma PollBudget(form: FormData, apiKey: Option<string>, p: Provider, base64: seq<Byte> -> string)
    ensures CountPolls(Handle(form, apiKey, p, base64).calls) <= MaxAttempts
    ensures Handle(form, apiKey, p, base64).outcome.TimedOut? ==>
              CountPolls(Handle(form, apiKey, p, base64).calls) == MaxAttempts
    ensures Respond(TimedOut).status == 504
  {
    var r := Handle(form, apiKey, p, base64);
    if r.outcome.TimedOut? {
      var file := form.file.value;
      var key := apiKey.value;
      var id := p.submit.requestId.value;
      var submit := Submit(key, BuildPayload(file, form.prompt, base64));
      PollLoopBudget(p, key, id, 0);
      CountPollsAppend([submit], PollLoop(p, key, id, 0).calls);
    }
  }

  /**
   * A poll continues the loop exactly when the reply is non-ok, reports a done
   * status with a missing or empty sample, or reports a status in neither set.
   */
  lemma StepContinuesIff(reply: PollReply, sampleFetchOk: bool)
    ensures Step(reply, sampleFetchOk).KeepPolling? <==>
              reply.Polled? &&
              (|| !reply.ok
               || (reply.status in DoneStatuses && !Truthy(reply.sample))
               || (reply.status !in DoneStatuses && reply.status !in FailedStatuses))
  {
  }

  /** A continuing poll costs one call and leaves the outcome to the next attempts. */
  lemma ContinuingPollFallsThrough(p: Provider, apiKey: string, requestId: string, attempt: nat)
    requires attempt < MaxAttempts
    requires Step(PollAt(p, attempt), p.sampleFetchOk).KeepPolling?
    ensures PollLoop(p, apiKey, requestId, attempt).outcome == PollLoop(p, apiKey, requestId, attempt + 1).outcome
    ensures PollLoop(p, apiKey, requestId, attempt).calls
              == [Poll(apiKey, requestId)] + PollLoop(p, apiKey, requestId, attempt + 1).calls
  {
  }

  /** A failure status ends the loop on that very poll, passing the provider's details through. */
  lemma FailedStatusStopsAtOnce(p: Provider, apiKey: string, requestId: string, attempt: nat)
    requires attempt < MaxAttempts
    requires PollAt(p, attempt).Polled? && PollAt(p, attempt).ok && PollAt(p, attempt).status in FailedStatuses
    ensures PollLoop(p, apiKey, requestId, attempt) == Exchange(GenerationFailed(PollAt(p, attempt).details), [Poll(apiKey, requestId)])
    ensures Respond(GenerationFailed(PollAt(p, attempt).details)).status == 500
    ensures Respond(GenerationFailed(PollAt(p, attempt).details)).body.details == PollAt(p, attempt).details
  {
  }

  /**
   * A done status with a non-empty sample ends the loop on that poll: a sample
   * starting with "http" is fetched (its failure is an internal error), any
   * other sample is decoded as base64; the answer is then 200 `image/jpeg`.
   */
  lemma DoneWithSampleStops(p: Provider, apiKey: string, requestId: string, attempt: nat)
    requires attempt < MaxAttempts
    requires PollAt(p, attempt).Polled? && PollAt(p, attempt).ok && PollAt(p, attempt).status in DoneStatuses
    requires Truthy(PollAt(p, attempt).sample)
    ensures var sample := PollAt(p, attempt).sample.value;
            var r := PollLoop(p, apiKey, requestId, attempt);
            && (IsUrl(sample) ==> r.calls == [Poll(apiKey, requestId), FetchSample(sample)])
            && (IsUrl(sample) && p.sampleFetchOk ==> r.outcome == ImageFromUrl(sample))
            && (IsUrl(sample) && !p.sampleFetchOk ==> r.outcome == InternalError)
            && (!IsUrl(sample) ==> r == Exchange(ImageFromBase64(sample), [Poll(apiKey, requestId)]))
            && (r.outcome != InternalError ==> Respond(r.outcome).status == 200 && Respond(r.outcome).contentType == "image/jpeg")
  {
  }

  /** Whether poll number `k` ends the loop. */
  predicate StopsAt(p: Provider, k: nat)
  {
    Step(PollAt(p, k), p.sampleFetchOk).Stop?
  }

  /** The first poll that ends the loop decides the outcome, after exactly one poll per attempt up to it. */
  lemma {:induction false} FirstStopDecides(p: Provider, apiKey: string, requestId: string, attempt: nat, k: nat)
    requires attempt <= k < MaxAttempts
    requires StopsAt(p, k)
    requires forall j :: attempt <= j < k ==> !StopsAt(p, j)
    ensures PollLoop(p, apiKey, requestId, attempt).outcome == Step(PollAt(p, k), p.sampleFetchOk).outcome
    ensures CountPolls(PollLoop(p, apiKey, requestId, attempt).calls) == k - attempt + 1
    decreases k - attempt
  {
    var poll := Poll(apiKey, requestId);
    if attempt < k {
      assert !StopsAt(p, attempt);
      FirstStopDecides(p, apiKey, requestId, attempt + 1, k);
      var rest := PollLoop(p, apiKey, requestId, attempt + 1).calls;
      assert PollLoop(p, apiKey, requestId, attempt).calls == [poll] + rest;
      assert ([poll] + rest)[1..] == rest;
    } else {
      var fetches := FetchCalls(Step(PollAt(p, k), p.sampleFetchOk).fetched);
      assert PollLoop(p, apiKey, requestId, attempt).calls == [poll] + fetches;
      assert ([poll] + fetches)[1..] == fetches;
      assert CountPolls(fetches) == 0 by {
        if fetches != [] {
          assert fetches[1..] == [];
        }
      }
    }
  }

  /** The loop times out exactly when none of its remaining polls ends it. */
  lemma {:induction false} TimesOutIffNoStop(p: Provider, apiKey: string, requestId: string, attempt: nat)
    requires attempt <= MaxAttempts
    ensures PollLoop(p, apiKey, requestId, attempt).outcome.TimedOut? <==>
              forall j :: attempt <= j < MaxAttempts ==> !StopsAt(p, j)
    decreases MaxAttempts - attempt
  {
    if attempt < MaxAttempts {
      TimesOutIffNoStop(p, apiKey, requestId, attempt + 1);
      if !StopsAt(p, attempt) {
        if forall j :: attempt + 1 <= j < MaxAttempts ==> !StopsAt(p, j) {
          forall j | attempt <= j < MaxAttempts
            ensures !StopsAt(p, j)
          {
            if j != attempt {
              assert attempt + 1 <= j;
            }
          }
        }
      }
    }
  }

  /**
   * Example: the job "abc" is still "Processing" at the first poll and "Ready"
   * with a URL sample at the second; the image is fetched from that URL.
   */
  lemma ReadyOnSecondPoll(apiKey: string, file: ImageFile, base64: seq<Byte> -> string)
    requires apiKey != ""
    ensures var url := "https://example.com/out.jpg";
            var p := Provider(Submitted(Some("abc")),
                              [Polled(true, "Processing", None, None), Polled(true, "Ready", Some(url), None)], true);
            var r := Handle(Form(Some(file), Some("make it blue")), Some(apiKey), p, base64);
            && r.outcome == ImageFromUrl(url)
            && r.calls[1..] == [Poll(apiKey, "abc"), Poll(apiKey, "abc"), FetchSample(url)]
  {
    var url := "https://example.com/out.jpg";
    var p := Provider(Submitted(Some("abc")),
                      [Polled(true, "Processing", None, None), Polled(true, "Ready", Some(url), None)], true);
    var poll := Poll(apiKey, "abc");
    assert PollAt(p, 0) == Polled(true, "Processing", None, None);
    assert "Processing" !in DoneStatuses && "Processing" !in FailedStatuses;
    assert Step(PollAt(p, 0), true) == KeepPolling;
    assert PollAt(p, 1) == Polled(true, "Ready", Some(url), None);
    assert IsUrl(url);
    assert Step(PollAt(p, 1), true) == Stop(ImageFromUrl(url), Some(url));
    assert PollLoop(p, apiKey, "abc", 1) == Exchange(ImageFromUrl(url), [poll, FetchSample(url)]);
    assert PollLoop(p, apiKey, "abc", 0) == Exchange(ImageFromUrl(url), [poll, poll, FetchSample(url)]);
    var form := Form(Some(file), Some("make it blue"));
    var submit := Submit(apiKey, BuildPayload(file, Some("make it blue"), base64));
    assert Handle(form, Some(apiKey), p, base64) == Exchange(ImageFromUrl(url), [submit, poll, poll, FetchSample(url)]);
  }
}

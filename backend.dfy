/**
 * The Flask backend's batch transcription handler and its chat echo. The vendor's
 * replies (upload, transcription request, status polls) are inputs; the handler's
 * outbound requests are recorded as a list of calls, in order.
 */
module Backend {
  import opened Wrappers
  import opened Text
  import opened Http
  import opened Polling

  /** The JSON body of a response: an error message or a finished transcript. */
  datatype Payload =
    | Error(error: string)
    | Transcript(transcript: string, confidence: real, language: string, model: string, transcriptId: string)

  datatype Response = Response(status: int, payload: Payload)

  function Failure(status: int, message: string): Response {
    Response(status, Error(message))
  }

  /** What the handler's catch-all turns an exception with text `message` into. */
  function Crashed(message: string): (r: Response)
    ensures r.status == 500 && r.payload.Error? && IsPrefix("AssemblyAI batch transcription failed: ", r.payload.error)
  {
    Failure(500, "AssemblyAI batch transcription failed: " + message)
  }

  /** `str(KeyError(key))`: the key in single quotes. */
  function KeyErrorText(key: string): string {
    "'" + key + "'"
  }

  /** The requests the handler sends to the vendor, in order. */
  datatype Call = Upload | Submit(request: Object) | Poll(id: string)

  /** Everything outside the handler: the base64 decoder's verdict and the vendor's replies. */
  datatype BatchNet = BatchNet(
    decodeError: Option<string>,
    upload: Reply<UploadJson>,
    submit: Reply<SubmitJson>,
    polls: nat -> Reply<StatusJson>)

  /** At most this many status requests (five minutes at one every five seconds). */
  const MaxPolls: nat := 60

  /** A stage of the handler either stops with a response or goes on with a value. */
  datatype Stage<+T> = Stop(response: Response) | Go(value: T)

  /**
   * The checks before any work: the API key must be configured, the body must be JSON
   * and `audio` must be present and non-empty. The language defaults to "auto".
   */
  function Admit(keyConfigured: bool, request: Body<Object>): (s: Stage<string>)
    ensures s.Go? <==> keyConfigured && request.Parsed? && Get(request.value, "audio", "") != ""
    ensures !keyConfigured ==> s == Stop(Failure(500, "AssemblyAI API key not configured"))
    ensures keyConfigured && request.Parsed? && Get(request.value, "audio", "") == "" ==>
      s == Stop(Failure(400, "No audio data provided"))
    ensures keyConfigured && request.NotJson? ==> s == Stop(Crashed(request.parseError))
    ensures s.Go? ==> s.value == Get(request.value, "language", "auto")
  {
    if !keyConfigured then Stop(Failure(500, "AssemblyAI API key not configured"))
    else if request.NotJson? then Stop(Crashed(request.parseError))
    else
      var data := request.value;
      if Get(data, "audio", "") == "" then Stop(Failure(400, "No audio data provided"))
      else Go(Get(data, "language", "auto"))
  }

  /** Judging the upload reply: only a 200 whose JSON has `upload_url` goes on. */
  function AfterUpload(reply: Reply<UploadJson>): (s: Stage<string>)
    ensures s.Go? <==> reply.Answered? && reply.code == 200 && reply.body.Parsed? && reply.body.value.uploadUrl.Some?
    ensures s.Go? ==> s.value == reply.body.value.uploadUrl.value
    ensures reply.Answered? && reply.code != 200 ==>
      s == Stop(Failure(500, "Upload failed: " + IntToString(reply.code) + " - " + reply.text))
    ensures s.Stop? ==> s.response.status == 500
  {
    match reply
    case Raised(m) => Stop(Crashed(m))
    case Answered(code, text, body) =>
      if code != 200 then Stop(Failure(500, "Upload failed: " + IntToString(code) + " - " + text))
      else
        match body
        case NotJson(e) => Stop(Crashed(e))
        case Parsed(json) =>
          if json.uploadUrl.None? then Stop(Crashed(KeyErrorText("upload_url"))) else Go(json.uploadUrl.value)
  }

  /** Judging the reply to the transcription request: only a 200 whose JSON has `id` goes on. */
  function AfterSubmit(reply: Reply<SubmitJson>): (s: Stage<string>)
    ensures s.Go? <==> reply.Answered? && reply.code == 200 && reply.body.Parsed? && reply.body.value.id.Some?
    ensures s.Go? ==> s.value == reply.body.value.id.value
    ensures reply.Answered? && reply.code != 200 ==>
      s == Stop(Failure(500, "Transcription request failed: " + IntToString(reply.code) + " - " + reply.text))
    ensures s.Stop? ==> s.response.status == 500
  {
    match reply
    case Raised(m) => Stop(Crashed(m))
    case Answered(code, text, body) =>
      if code != 200 then Stop(Failure(500, "Transcription request failed: " + IntToString(code) + " - " + text))
      else
        match body
        case NotJson(e) => Stop(Crashed(e))
        case Parsed(json) => if json.id.None? then Stop(Crashed(KeyErrorText("id"))) else Go(json.id.value)
  }

  /**
   * The transcription request: always the audio URL, and the language code exactly when
   * a language other than "auto" was asked for.
   */
  function TranscriptRequest(audioUrl: string, language: string): (req: Object)
    ensures "audio_url" in req && req["audio_url"] == audioUrl
    ensures "language_code" in req <==> language != "auto"
    ensures "language_code" in req ==> req["language_code"] == language
    ensures forall k :: k in req ==> k == "audio_url" || k == "language_code"
  {
    var req := map["audio_url" := audioUrl];
    if language != "auto" then req["language_code" := language] else req
  }

  /** What a finished transcription carries: the text and the confidence. */
  datatype Completed = Completed(text: string, confidence: real)

  /**
   * The server's judgement of one status reply: anything but a 200 aborts with 500,
   * "completed" finishes (text defaulting to "", confidence to 0), "error" aborts with
   * the vendor's message (defaulting to "Unknown error"), other statuses go on.
   */
  function ServerStep(reply: Reply<StatusJson>): (s: Step<Completed, Response>)
    ensures s.Abort? ==> s.error.status == 500
    ensures s.Continue? <==>
      reply.Answered? && reply.code == 200 && reply.body.Parsed? && reply.body.value.status.Some?
      && reply.body.value.status.value != "completed" && reply.body.value.status.value != "error"
    ensures s.Done? <==>
      reply.Answered? && reply.code == 200 && reply.body.Parsed? && reply.body.value.status == Some("completed")
  {
    match reply
    case Raised(m) => Abort(Crashed(m))
    case Answered(code, _, body) =>
      if code != 200 then Abort(Failure(500, "Polling failed: " + IntToString(code)))
      else
        match body
        case NotJson(e) => Abort(Crashed(e))
        case Parsed(s) =>
          if s.status.None? then Abort(Crashed(KeyErrorText("status")))
          else if s.status.value == "completed" then Done(Completed(s.text.GetOr(""), s.confidence.GetOr(0.0)))
          else if s.status.value == "error" then Abort(Failure(500, "Transcription failed: " + s.error.GetOr("Unknown error")))
          else Continue
  }

  function ServerSteps(polls: nat -> Reply<StatusJson>): nat -> Step<Completed, Response> {
    (j: nat) => ServerStep(polls(j))
  }

  /** The response polling ends with. */
  function PollResponse(o: Outcome<Completed, Response>, language: string, id: string): Response {
    match o
    case Finished(c, _) => Response(200, Transcript(c.text, c.confidence, language, "assemblyai-batch", id))
    case Aborted(r, _) => r
    case Exhausted(_) => Failure(408, "Transcription timeout")
  }

  /**
   * The polling loop: up to 60 status requests for transcript `id`. It returns as soon
   * as a reply is decisive, with the number of requests it made.
   */
  method PollTranscript(id: string, language: string, polls: nat -> Reply<StatusJson>)
    returns (resp: Response, requests: nat)
    ensures Run(ServerSteps(polls), MaxPolls, 0).requests == requests
    ensures resp == PollResponse(Run(ServerSteps(polls), MaxPolls, 0), language, id)
  {
    var attempts := 0;
    while attempts < MaxPolls
      invariant 0 <= attempts <= MaxPolls
      invariant Run(ServerSteps(polls), MaxPolls, 0) == Run(ServerSteps(polls), MaxPolls, attempts)
      decreases MaxPolls - attempts
    {
      var reply := polls(attempts);
      if reply.Raised? {
        return Crashed(reply.message), attempts + 1;
      }
      if reply.code != 200 {
        return Failure(500, "Polling failed: " + IntToString(reply.code)), attempts + 1;
      }
      if reply.body.NotJson? {
        return Crashed(reply.body.parseError), attempts + 1;
      }
      var statusData := reply.body.value;
      if statusData.status.None? {
        return Crashed(KeyErrorText("status")), attempts + 1;
      }
      var status := statusData.status.value;
      if status == "completed" {
        var transcript := statusData.text.GetOr("");
        var confidence := statusData.confidence.GetOr(0.0);
        return Response(200, Transcript(transcript, confidence, language, "assemblyai-batch", id)), attempts + 1;
      } else if status == "error" {
        var errorMsg := statusData.error.GetOr("Unknown error");
        return Failure(500, "Transcription failed: " + errorMsg), attempts + 1;
      }
      attempts := attempts + 1;
    }
    return Failure(408, "Transcription timeout"), MaxPolls;
  }

  /** `n` status requests for transcript `id`. */
  function Polls(id: string, n: nat): seq<Call> {
    seq(n, _ => Poll(id))
  }

  /**
   * `POST /api/assemblyai-batch-transcribe`. Nothing is sent to the vendor before the
   * request passes its checks and the audio decodes; no transcription is requested
   * unless the upload succeeded; polling follows the transcription request.
   */
  method BatchTranscribe(keyConfigured: bool, request: Body<Object>, net: BatchNet)
    returns (resp: Response, calls: seq<Call>)
    ensures Admit(keyConfigured, request).Stop? ==> resp == Admit(keyConfigured, request).response && calls == []
    ensures Admit(keyConfigured, request).Go? && net.decodeError.Some? ==>
      resp == Crashed(net.decodeError.value) && calls == []
    ensures Admit(keyConfigured, request).Go? && net.decodeError.None? ==>
      && |calls| >= 1 && calls[0] == Upload
      && (AfterUpload(net.upload).Stop? ==> resp == AfterUpload(net.upload).response && calls == [Upload])
      && (AfterUpload(net.upload).Go? ==>
        var req := TranscriptRequest(AfterUpload(net.upload).value, Admit(keyConfigured, request).value);
        && |calls| >= 2 && calls[..2] == [Upload, Submit(req)]
        && (AfterSubmit(net.submit).Stop? ==> resp == AfterSubmit(net.submit).response && calls == [Upload, Submit(req)])
        && (AfterSubmit(net.submit).Go? ==>
          var id := AfterSubmit(net.submit).value;
          var o := Run(ServerSteps(net.polls), MaxPolls, 0);
          resp == PollResponse(o, Admit(keyConfigured, request).value, id)
          && calls == [Upload, Submit(req)] + Polls(id, o.requests)))
  {
    var admission := Admit(keyConfigured, request);
    if admission.Stop? {
      return admission.response, [];
    }
    var language := admission.value;
    if net.decodeError.Some? {
      return Crashed(net.decodeError.value), [];
    }
    calls := [Upload];
    var uploaded := AfterUpload(net.upload);
    if uploaded.Stop? {
      return uploaded.response, calls;
    }
    var transcriptRequest := TranscriptRequest(uploaded.value, language);
    calls := calls + [Submit(transcriptRequest)];
    var submitted := AfterSubmit(net.submit);
    if submitted.Stop? {
      return submitted.response, calls;
    }
    var id := submitted.value;
    var requests;
    resp, requests := PollTranscript(id, language, net.polls);
    calls := calls + Polls(id, requests);
  }

  /**
   * The outcomes of polling: at most 60 status requests; 408 "Transcription timeout"
   * exactly when none of the 60 replies was decisive; otherwise the last request made is
   * the first decisive one.
   */
  lemma ServerPollingOutcome(polls: nat -> Reply<StatusJson>, language: string, id: string)
    ensures Run(ServerSteps(polls), MaxPolls, 0).requests <= MaxPolls
    ensures PollResponse(Run(ServerSteps(polls), MaxPolls, 0), language, id) == Failure(408, "Transcription timeout")
      <==> Undecided(ServerSteps(polls), 0, MaxPolls)
    ensures Undecided(ServerSteps(polls), 0, Run(ServerSteps(polls), MaxPolls, 0).requests - 1)
  {
    var o := Run(ServerSteps(polls), MaxPolls, 0);
    RunStopsAtFirstDecisive(ServerSteps(polls), MaxPolls, 0);
    if o.Aborted? {
      assert ServerStep(polls(o.requests - 1)) == Abort(o.error);
    }
  }

  /**
   * The first status reply that is not a 200 ends polling at once with 500 "Polling
   * failed: <code>", when every earlier reply said to keep polling.
   */
  lemma NonOkPollAborts(polls: nat -> Reply<StatusJson>, language: string, id: string, n: nat)
    requires n < MaxPolls && Undecided(ServerSteps(polls), 0, n)
    requires polls(n).Answered? && polls(n).code != 200
    ensures Run(ServerSteps(polls), MaxPolls, 0).requests == n + 1
    ensures PollResponse(Run(ServerSteps(polls), MaxPolls, 0), language, id)
      == Failure(500, "Polling failed: " + IntToString(polls(n).code))
  {
    UndecidedPrefixIsSkipped(ServerSteps(polls), MaxPolls, n);
  }

  /**
   * The first "completed" reply is what the handler returns: its text (or ""), its
   * confidence (or 0), the requested language, the model name and the transcript id.
   */
  lemma FirstCompletedIsReturned(polls: nat -> Reply<StatusJson>, language: string, id: string, n: nat)
    requires n < MaxPolls && Undecided(ServerSteps(polls), 0, n)
    requires polls(n).Answered? && polls(n).code == 200 && polls(n).body.Parsed?
    requires polls(n).body.value.status == Some("completed")
    ensures Run(ServerSteps(polls), MaxPolls, 0).requests == n + 1
    ensures PollResponse(Run(ServerSteps(polls), MaxPolls, 0), language, id) ==
      Response(200, Transcript(polls(n).body.value.text.GetOr(""), polls(n).body.value.confidence.GetOr(0.0),
        language, "assemblyai-batch", id))
  {
    UndecidedPrefixIsSkipped(ServerSteps(polls), MaxPolls, n);
  }

  /**
   * An "error" status ends polling at once with 500 "Transcription failed: ..." and
   * no status request follows it.
   */
  lemma ErrorStatusAborts(polls: nat -> Reply<StatusJson>, language: string, id: string, n: nat)
    requires n < MaxPolls && Undecided(ServerSteps(polls), 0, n)
    requires polls(n).Answered? && polls(n).code == 200 && polls(n).body.Parsed?
    requires polls(n).body.value.status == Some("error")
    ensures Run(ServerSteps(polls), MaxPolls, 0).requests == n + 1
    ensures PollResponse(Run(ServerSteps(polls), MaxPolls, 0), language, id) ==
      Failure(500, "Transcription failed: " + polls(n).body.value.error.GetOr("Unknown error"))
  {
    UndecidedPrefixIsSkipped(ServerSteps(polls), MaxPolls, n);
  }

  /** A reply to `POST /chat`: a status and a JSON object. */
  datatype ChatResponse = ChatResponse(status: int, body: Object)

  /**
   * `POST /chat`: echoes the message under "response" as "Backend received: <message>"
   * (the message defaulting to ""), with the language defaulting to "auto". A body that
   * is not a JSON object becomes a 500 "Chat error: ...".
   */
  function Chat(request: Body<Object>): (r: ChatResponse)
    ensures r.status == 200 <==> request.Parsed?
    ensures request.Parsed? ==>
      && "response" in r.body && "language" in r.body && "message" !in r.body
      && r.body["response"] == "Backend received: " + Get(request.value, "message", "")
      && r.body["language"] == Get(request.value, "language", "auto")
    ensures request.NotJson? ==> r == ChatResponse(500, map["error" := "Chat error: " + request.parseError])
  {
    match request
    case NotJson(e) => ChatResponse(500, map["error" := "Chat error: " + e])
    case Parsed(data) =>
      var message := Get(data, "message", "");
      var language := Get(data, "language", "auto");
      ChatResponse(200, map["response" := "Backend received: " + message, "language" := language])
  }
}

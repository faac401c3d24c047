/**
 * The voice-assistant component's session: the microphone toggle, recording into a
 * chunk buffer, the batch transcription round trip after a stop, and the chat exchange
 * the transcript starts. Browser events and network replies are inputs to the methods.
 */
module VoiceAssistant {
  import opened Wrappers
  import opened Text
  import opened Http
  import opened Polling
  import opened Language
  import opened AudioUtils
  import Backend

  datatype Status = Idle | Listening | Processing | Speaking

  datatype Role = User | Assistant

  /** A chat message; its id and timestamp come from the clock and are left out. */
  datatype Message = Message(role: Role, content: string)

  /** The label the component gives the blob it uploads. */
  const UploadMime: string := "audio/webm"

  const ChatErrorPrefix: string := "Sorry, I encountered an error: "

  const UnexpectedFormat: string := "Sorry, I received an unexpected response format."

  /** The JSON body the component posts to the chat endpoint. */
  function ChatRequestBody(message: string, language: string): Object {
    map["guest_id" := "user123", "message" := message, "language" := language]
  }

  /**
   * `sendToChatAPI`'s result for a reply: the reply's `message` field when it is a
   * non-empty string, a fixed apology when it is missing or empty, and "Sorry, I
   * encountered an error: ..." when the request fails, is not ok or is not JSON.
   */
  function ChatReplyText(reply: Reply<Object>): (r: string)
    ensures r != []
    ensures reply.Raised? ==> r == ChatErrorPrefix + reply.message
    ensures reply.Answered? && !Ok(reply.code) ==>
      r == ChatErrorPrefix + "Chat API request failed: " + IntToString(reply.code) + " " + reply.text
    ensures reply.Answered? && Ok(reply.code) && reply.body.NotJson? ==> r == ChatErrorPrefix + reply.body.parseError
    ensures reply.Answered? && Ok(reply.code) && reply.body.Parsed? ==>
      r == (if Get(reply.body.value, "message", "") == "" then UnexpectedFormat else reply.body.value["message"])
  {
    match reply
    case Raised(m) => ChatErrorPrefix + m
    case Answered(code, text, body) =>
      if !Ok(code) then ChatErrorPrefix + "Chat API request failed: " + IntToString(code) + " " + text
      else
        match body
        case NotJson(e) => ChatErrorPrefix + e
        case Parsed(data) =>
          if "message" !in data || data["message"] == "" then UnexpectedFormat else data["message"]
  }

  /**
   * The backend reads the request the component sends: for every message and language it
   * answers 200, echoes the message under "response" and gives back the language.
   */
  lemma BackendReadsChatRequest(message: string, language: string)
    ensures Backend.Chat(Parsed(ChatRequestBody(message, language))).status == 200
    ensures Backend.Chat(Parsed(ChatRequestBody(message, language))).body["response"] == "Backend received: " + message
    ensures Backend.Chat(Parsed(ChatRequestBody(message, language))).body["language"] == language
  {
  }

  /**
   * The component reads `message` while the backend's chat endpoint answers under
   * `response`: a successful exchange with that backend always shows the fixed apology,
   * although the backend did receive the message.
   */
  lemma BackendChatAlwaysApologises(text: string, language: string, rawText: string)
    ensures Backend.Chat(Parsed(ChatRequestBody(text, language))).body["response"] == "Backend received: " + text
    ensures ChatReplyText(Answered(200, rawText, Parsed(Backend.Chat(Parsed(ChatRequestBody(text, language))).body)))
      == UnexpectedFormat
  {
  }

  /** At most this many status requests after a transcription request. */
  const MaxAttempts: nat := 10

  /**
   * The component's judgement of one status reply: a reply that is not ok is skipped,
   * "completed" ends polling only with a non-empty text, "error" aborts with "Transcription
   * error: ...", a throw or a body that is not JSON aborts, other statuses go on.
   */
  function ClientStep(reply: Reply<StatusJson>): (s: Step<string, string>)
    ensures s.Done? ==> s.value != []
    ensures s.Continue? <==>
      reply.Answered? && (!Ok(reply.code) || (reply.body.Parsed? && reply.body.value.status != Some("error")
        && (reply.body.value.status == Some("completed") ==> reply.body.value.text.GetOr("") == "")))
    ensures s.Done? <==>
      reply.Answered? && Ok(reply.code) && reply.body.Parsed? && reply.body.value.status == Some("completed")
      && reply.body.value.text.GetOr("") != ""
  {
    match reply
    case Raised(m) => Abort(m)
    case Answered(code, _, body) =>
      if !Ok(code) then Continue
      else
        match body
        case NotJson(e) => Abort(e)
        case Parsed(st) =>
          if st.status == Some("completed") then
            if st.text.Some? && st.text.value != "" then Done(st.text.value) else Continue
          else if st.status == Some("error") then
            Abort("Transcription error: " + (if st.error.Some? && st.error.value != "" then st.error.value else "Unknown error"))
          else Continue
  }

  function ClientSteps(polls: nat -> Reply<StatusJson>): nat -> Step<string, string> {
    (j: nat) => ClientStep(polls(j))
  }

  /**
   * The polling loop of `stopListening`: while there is no transcript and fewer than 10
   * attempts were made, count an attempt and ask for the status.
   */
  method PollForTranscript(polls: nat -> Reply<StatusJson>) returns (o: Outcome<string, string>)
    ensures o == Run(ClientSteps(polls), MaxAttempts, 0)
  {
    var transcript: Option<string> := None;
    var attempts := 0;
    while transcript.None? && attempts < MaxAttempts
      invariant 0 <= attempts <= MaxAttempts
      invariant transcript.None? ==> Run(ClientSteps(polls), MaxAttempts, 0) == Run(ClientSteps(polls), MaxAttempts, attempts)
      invariant transcript.Some? ==> Run(ClientSteps(polls), MaxAttempts, 0) == Finished(transcript.value, attempts)
      decreases MaxAttempts - attempts
    {
      attempts := attempts + 1;
      var statusResponse := polls(attempts - 1);
      if statusResponse.Raised? {
        return Aborted(statusResponse.message, attempts);
      }
      if !Ok(statusResponse.code) {
        continue;
      }
      if statusResponse.body.NotJson? {
        return Aborted(statusResponse.body.parseError, attempts);
      }
      var statusData := statusResponse.body.value;
      if statusData.status == Some("completed") {
        if statusData.text.Some? && statusData.text.value != "" {
          transcript := statusData.text;
        }
      } else if statusData.status == Some("error") {
        var reason := if statusData.error.Some? && statusData.error.value != "" then statusData.error.value else "Unknown error";
        return Aborted("Transcription error: " + reason, attempts);
      }
    }
    if transcript.Some? {
      return Finished(transcript.value, attempts);
    }
    return Exhausted(attempts);
  }

  /**
   * The component's polling: at most 10 status requests; it finishes exactly when some
   * reply among the first 10 is decisive and the first such reply is a "completed" one
   * with text, which is then the transcript.
   */
  lemma ClientPollingOutcome(polls: nat -> Reply<StatusJson>)
    ensures Run(ClientSteps(polls), MaxAttempts, 0).requests <= MaxAttempts
    ensures Run(ClientSteps(polls), MaxAttempts, 0).Exhausted? <==> Undecided(ClientSteps(polls), 0, MaxAttempts)
    ensures Run(ClientSteps(polls), MaxAttempts, 0).Finished? ==>
      var n := Run(ClientSteps(polls), MaxAttempts, 0).requests;
      && Undecided(ClientSteps(polls), 0, n - 1)
      && polls(n - 1).Answered? && Ok(polls(n - 1).code) && polls(n - 1).body.Parsed?
      && polls(n - 1).body.value.status == Some("completed")
      && polls(n - 1).body.value.text == Some(Run(ClientSteps(polls), MaxAttempts, 0).value)
  {
    RunStopsAtFirstDecisive(ClientSteps(polls), MaxAttempts, 0);
  }

  /**
   * A "completed" status with a non-empty text, after replies that all said to keep
   * polling, ends polling at once with that text.
   */
  lemma ClientFirstCompletedIsReturned(polls: nat -> Reply<StatusJson>, n: nat)
    requires n < MaxAttempts && Undecided(ClientSteps(polls), 0, n)
    requires polls(n).Answered? && Ok(polls(n).code) && polls(n).body.Parsed?
    requires polls(n).body.value.status == Some("completed")
    requires polls(n).body.value.text.Some? && polls(n).body.value.text.value != ""
    ensures Run(ClientSteps(polls), MaxAttempts, 0) == Finished(polls(n).body.value.text.value, n + 1)
  {
    UndecidedPrefixIsSkipped(ClientSteps(polls), MaxAttempts, n);
  }

  /**
   * An "error" status, after replies that all said to keep polling, ends polling at once:
   * no status request follows it.
   */
  lemma ClientErrorStatusAborts(polls: nat -> Reply<StatusJson>, n: nat)
    requires n < MaxAttempts && Undecided(ClientSteps(polls), 0, n)
    requires polls(n).Answered? && Ok(polls(n).code) && polls(n).body.Parsed?
    requires polls(n).body.value.status == Some("error")
    ensures Run(ClientSteps(polls), MaxAttempts, 0).Aborted?
    ensures Run(ClientSteps(polls), MaxAttempts, 0).requests == n + 1
  {
    UndecidedPrefixIsSkipped(ClientSteps(polls), MaxAttempts, n);
  }

  /**
   * The two polling loops judge the same reply differently: a status reply that is not
   * ok is skipped by the component but ends the backend's loop with a 500, and a
   * "completed" reply without text keeps the component polling while the backend
   * returns it with an empty transcript.
   */
  lemma PollingVariantsDiffer(code: int, rawText: string, st: StatusJson)
    ensures !Ok(code) ==>
      ClientStep(Answered(code, rawText, Parsed(st))).Continue? && Backend.ServerStep(Answered(code, rawText, Parsed(st))).Abort?
    ensures code == 200 && st.status == Some("completed") && st.text.GetOr("") == "" ==>
      ClientStep(Answered(code, rawText, Parsed(st))).Continue?
      && Backend.ServerStep(Answered(code, rawText, Parsed(st))).Done?
      && Backend.ServerStep(Answered(code, rawText, Parsed(st))).value.text == ""
  {
  }

  /** A reply the component goes on with: ok and JSON. Missing fields are not checked. */
  predicate Accepted<T>(reply: Reply<T>) {
    reply.Answered? && Ok(reply.code) && reply.body.Parsed?
  }

  /** The speech-to-text vendor's replies to one upload, transcription request and polling. */
  datatype ClientNet = ClientNet(upload: Reply<UploadJson>, submit: Reply<SubmitJson>, polls: nat -> Reply<StatusJson>)

  /** What the mic button does, given `isListening` and whether a media stream is held. */
  datatype Toggle = Ignored | Stop | Prompt | Start

  /**
   * `handleMicToggle` behind a button that is disabled while processing: stop while
   * listening; otherwise only show the permission prompt when no stream is held, and start
   * when one is.
   */
  function MicDecision(status: Status, isListening: bool, hasStream: bool): (t: Toggle)
    ensures t == Ignored <==> status == Processing
    ensures t == Stop <==> status != Processing && isListening
    ensures t == Prompt <==> status != Processing && !isListening && !hasStream
    ensures t == Start <==> status != Processing && !isListening && hasStream
  {
    if status == Processing then Ignored
    else if isListening then Stop
    else if !hasStream then Prompt
    else Start
  }

  /** The messages one transcript adds: none for a blank one, else the user's and the reply. */
  function Exchange(transcript: string, chat: Reply<Object>): (added: seq<Message>)
    ensures IsBlank(transcript) ==> added == []
    ensures !IsBlank(transcript) ==> added == [Message(User, transcript), Message(Assistant, ChatReplyText(chat))]
  {
    TrimEmptyIffBlank(transcript);
    if Trim(transcript) == "" then [] else [Message(User, transcript), Message(Assistant, ChatReplyText(chat))]
  }

  /**
   * The conversation comes in pairs: a user's message at each even position, the
   * assistant's reply after it, none of them empty.
   */
  ghost predicate Paired(messages: seq<Message>) {
    && |messages| % 2 == 0
    && forall i :: 0 <= i < |messages| ==> (messages[i].role == User <==> i % 2 == 0) && messages[i].content != []
  }

  /** Appending what one transcript adds keeps the conversation in pairs. */
  lemma ExchangeKeepsPairs(messages: seq<Message>, transcript: string, chat: Reply<Object>)
    requires Paired(messages)
    ensures Paired(messages + Exchange(transcript, chat))
  {
    var added := Exchange(transcript, chat);
    if added != [] {
      assert transcript != [] by {
        if transcript == [] {
          assert IsBlank(transcript);
        }
      }
      var all := messages + added;
      forall i | 0 <= i < |all| ensures (all[i].role == User <==> i % 2 == 0) && all[i].content != [] {
        if i < |messages| {
          assert all[i] == messages[i];
        } else {
          assert all[i] == added[i - |messages|];
        }
      }
    }
  }

  /** `before` is a prefix of `now`: nothing earlier was changed or removed. */
  predicate Extends<T(==)>(now: seq<T>, before: seq<T>) {
    |before| <= |now| && now[..|before|] == before
  }

  /** The component's state: its React state and the refs that matter. */
  class Session {
    var status: Status
    var isListening: bool
    var showPermission: bool
    var error: Option<string>
    var messages: seq<Message>
    var chunks: seq<Blob>
    var hasStream: bool
    var hasRecorder: bool
    var totalRequests: nat

    /** The buffer holds only non-empty chunks, and the messages come in pairs. */
    ghost predicate Valid()
      reads this
    {
      && (forall i :: 0 <= i < |chunks| ==> |chunks[i].data| > 0)
      && Paired(messages)
    }

    constructor ()
      ensures Valid()
      ensures status == Idle && !isListening && !showPermission && error == None
      ensures messages == [] && chunks == [] && !hasStream && !hasRecorder && totalRequests == 0
    {
      status := Idle;
      isListening := false;
      showPermission := false;
      error := None;
      messages := [];
      chunks := [];
      hasStream := false;
      hasRecorder := false;
      totalRequests := 0;
    }

    /**
     * What `startListening` leaves, given how acquisition turned out: listening with no
     * error when the recorder starts, otherwise idle with "Microphone access failed: ...";
     * a stream once acquired is kept; the buffer, the messages and the count are untouched.
     */
    twostate predicate ListenStarted(acq: Acquisition)
      reads this
    {
      && (acq.Started? ==> status == Listening && isListening && error == None)
      && (!acq.Started? ==>
        status == Idle && !isListening && error == Some("Microphone access failed: " + acq.error.GetOr("Unknown error")))
      && hasStream == (old(hasStream) || !acq.DeviceDenied?)
      && hasRecorder == (old(hasRecorder) || acq.StartFailed? || acq.Started?)
      && chunks == old(chunks) && messages == old(messages) && totalRequests == old(totalRequests)
    }

    /**
     * `startListening`: clear the error and go to listening, then acquire the microphone
     * and start a recorder. Any failure shows "Microphone access failed: ..." and goes back
     * to idle; a stream once acquired is kept. The chunk buffer is left as it is.
     */
    method StartListening(acq: Acquisition)
      requires Valid()
      modifies this
      ensures Valid()
      ensures ListenStarted(acq)
      ensures showPermission == old(showPermission)
    {
      error := None;
      status := Listening;
      isListening := true;
      if !acq.DeviceDenied? {
        hasStream := true;
        if !acq.ConstructorFailed? {
          hasRecorder := true;
        }
      }
      if !acq.Started? {
        error := Some("Microphone access failed: " + acq.error.GetOr("Unknown error"));
        status := Idle;
        isListening := false;
      }
    }

    /** The recorder's `dataavailable` handler: only non-empty chunks are buffered. */
    method OnAudioData(chunk: Blob)
      requires Valid()
      modifies this
      ensures Valid()
      ensures chunks == old(chunks) + (if |chunk.data| > 0 then [chunk] else [])
      ensures status == old(status) && isListening == old(isListening) && showPermission == old(showPermission)
      ensures error == old(error) && messages == old(messages) && hasStream == old(hasStream)
      ensures hasRecorder == old(hasRecorder) && totalRequests == old(totalRequests)
    {
      if |chunk.data| > 0 {
        chunks := chunks + [chunk];
      }
    }

    /** The recorder's `error` handler. */
    method OnRecorderError()
      requires Valid()
      modifies this
      ensures Valid()
      ensures error == Some("Recording failed. Please try again.") && status == Idle && !isListening
      ensures showPermission == old(showPermission) && messages == old(messages) && chunks == old(chunks)
      ensures hasStream == old(hasStream) && hasRecorder == old(hasRecorder) && totalRequests == old(totalRequests)
    {
      error := Some("Recording failed. Please try again.");
      status := Idle;
      isListening := false;
    }

    /**
     * `processTranscription`: a blank transcript only returns to idle. Otherwise the
     * user's message is appended, the chat request is sent with the component's language
     * guess, the reply's text is appended after it, and the reply is spoken.
     */
    method ProcessTranscription(transcript: string, chat: Reply<Object>) returns (sent: Option<Object>)
      requires Valid()
      modifies this
      ensures Valid()
      ensures sent.None? <==> IsBlank(transcript)
      ensures sent.Some? ==>
        sent.value == ChatRequestBody(transcript, TagName(Classify(transcript, ComponentTurkish, ComponentEnglish)))
      ensures messages == old(messages) + Exchange(transcript, chat)
      ensures status == if IsBlank(transcript) then Idle else Speaking
      ensures isListening == old(isListening) && showPermission == old(showPermission) && error == old(error)
      ensures chunks == old(chunks) && hasStream == old(hasStream) && hasRecorder == old(hasRecorder)
      ensures totalRequests == old(totalRequests)
    {
      TrimEmptyIffBlank(transcript);
      if Trim(transcript) == "" {
        status := Idle;
        return None;
      }
      ExchangeKeepsPairs(messages, transcript, chat);
      var detected := Detect(transcript, ComponentTurkish, ComponentEnglish);
      messages := messages + [Message(User, transcript)];
      sent := Some(ChatRequestBody(transcript, TagName(detected)));
      var response := ChatReplyText(chat);
      messages := messages + [Message(Assistant, response)];
      assert messages == old(messages) + Exchange(transcript, chat);
      status := Speaking;
    }

    /**
     * What `stopListening` leaves: not listening, no stream, the buffer as it was. With an
     * empty buffer the status stays processing and nothing else changes. Otherwise one
     * more request is counted, and the session either holds the transcript's exchange
     * (when upload, transcription request and polling all succeed) or shows "Speech
     * recognition failed" and is idle.
     */
    twostate predicate Stopped(net: ClientNet, chat: Reply<Object>)
      reads this
    {
      && !isListening && !hasStream
      && chunks == old(chunks) && showPermission == old(showPermission) && hasRecorder == old(hasRecorder)
      && (old(chunks) == [] ==>
        status == Processing && messages == old(messages) && error == old(error) && totalRequests == old(totalRequests))
      && (old(chunks) != [] ==>
        && totalRequests == old(totalRequests) + 1
        && var o := Run(ClientSteps(net.polls), MaxAttempts, 0);
          if Accepted(net.upload) && Accepted(net.submit) && o.Finished? then
            && messages == old(messages) + Exchange(o.value, chat)
            && status == (if IsBlank(o.value) then Idle else Speaking)
            && error == old(error)
          else
            status == Idle && error == Some("Speech recognition failed") && messages == old(messages))
    }

    /**
     * `stopListening`: ask a running recorder to stop, release the stream, and go to
     * processing. With an empty buffer nothing is uploaded and the status stays
     * processing. Otherwise the whole buffer is uploaded as one blob; a transcript ends in
     * `processTranscription`, any failure in "Speech recognition failed" and idle, and
     * either way one more request is counted.
     */
    method StopListening(net: ClientNet, chat: Reply<Object>)
      returns (stopsRecorder: bool, uploaded: Option<Blob>, sent: Option<Object>)
      requires Valid()
      modifies this
      ensures Valid()
      ensures stopsRecorder == (old(hasRecorder) && old(isListening))
      ensures uploaded.None? <==> old(chunks) == []
      ensures uploaded.Some? ==> uploaded.value == Blob(Concat(old(chunks)), UploadMime)
      ensures status == Processing <==> uploaded.None?
      ensures Stopped(net, chat)
      ensures
        var o := Run(ClientSteps(net.polls), MaxAttempts, 0);
        && (sent.Some? <==> uploaded.Some? && Accepted(net.upload) && Accepted(net.submit) && o.Finished? && !IsBlank(o.value))
        && (sent.Some? ==>
          sent.value == ChatRequestBody(o.value, TagName(Classify(o.value, ComponentTurkish, ComponentEnglish))))
    {
      stopsRecorder := hasRecorder && isListening;
      hasStream := false;
      isListening := false;
      status := Processing;
      sent := None;
      if |chunks| == 0 {
        return stopsRecorder, None, None;
      }
      var audioBlob := Blob(Concat(chunks), UploadMime);
      uploaded := Some(audioBlob);
      var failed := false;
      if !Accepted(net.upload) || !Accepted(net.submit) {
        failed := true;
      } else {
        var o := PollForTranscript(net.polls);
        if o.Finished? {
          totalRequests := totalRequests + 1;
          sent := ProcessTranscription(o.value, chat);
        } else {
          failed := true;
        }
      }
      if failed {
        error := Some("Speech recognition failed");
        status := Idle;
        totalRequests := totalRequests + 1;
      }
    }

    /** The prompt's "allow" button: hide the prompt and start listening. */
    method AcceptPermission(acq: Acquisition)
      requires Valid()
      modifies this
      ensures Valid()
      ensures !showPermission
      ensures ListenStarted(acq)
    {
      showPermission := false;
      StartListening(acq);
    }

    /** The prompt's "cancel" button: hide the prompt, nothing else. */
    method DismissPermission()
      requires Valid()
      modifies this
      ensures Valid()
      ensures !showPermission
      ensures status == old(status) && isListening == old(isListening) && error == old(error)
      ensures messages == old(messages) && chunks == old(chunks) && hasStream == old(hasStream)
      ensures hasRecorder == old(hasRecorder) && totalRequests == old(totalRequests)
    {
      showPermission := false;
    }

    /**
     * A click on the mic button: `handleMicToggle` runs what `MicDecision` says, with the
     * microphone, the vendor and the chat endpoint answering as the inputs say.
     */
    method ClickMic(acq: Acquisition, net: ClientNet, chat: Reply<Object>) returns (t: Toggle)
      requires Valid()
      modifies this
      ensures Valid()
      ensures t == MicDecision(old(status), old(isListening), old(hasStream))
      ensures t == Ignored ==> unchanged(this)
      ensures t == Prompt ==>
        && showPermission
        && status == old(status) && isListening == old(isListening) && error == old(error)
        && messages == old(messages) && chunks == old(chunks) && hasStream == old(hasStream)
        && hasRecorder == old(hasRecorder) && totalRequests == old(totalRequests)
      ensures t == Stop ==> Stopped(net, chat)
      ensures t == Start ==> ListenStarted(acq) && showPermission == old(showPermission)
      ensures Extends(messages, old(messages)) && chunks == old(chunks)
    {
      t := MicDecision(status, isListening, hasStream);
      match t
      case Ignored =>
      case Stop =>
        var stops, uploaded, sent := StopListening(net, chat);
      case Prompt =>
        showPermission := true;
      case Start =>
        StartListening(acq);
    }
  }

  /**
   * Every stop releases the stream, so the next click after a stop either meets a
   * disabled button (still processing) or only shows the permission prompt: each new
   * recording goes through the prompt again. An empty buffer at the stop leaves the
   * session processing, so the button stays disabled.
   */
  method StopThenClick(s: Session, net: ClientNet, chat: Reply<Object>, acq: Acquisition) returns (t: Toggle)
    requires s.Valid() && s.isListening && s.status != Processing
    modifies s
    ensures s.Valid()
    ensures t == Prompt || t == Ignored
    ensures t == Ignored <==> old(s.chunks) == []
    ensures t == Prompt ==> s.showPermission && !s.isListening
  {
    var stops, uploaded, sent := s.StopListening(net, chat);
    t := s.ClickMic(acq, net, chat);
  }

  /**
   * The mic button is disabled only while processing, so a new recording can begin while
   * the reply is still being spoken: from speaking, a click shows the prompt (or starts at
   * once when a stream is held), and allowing the prompt starts listening.
   */
  method StartWhileSpeaking(s: Session, net: ClientNet, chat: Reply<Object>) returns (t: Toggle)
    requires s.Valid() && s.status == Speaking && !s.isListening
    modifies s
    ensures t == Prompt || t == Start
    ensures s.Valid() && s.status == Listening && s.isListening && s.error == None
  {
    t := s.ClickMic(Started, net, chat);
    if t == Prompt {
      s.AcceptPermission(Started);
    }
  }

  /**
   * One recording on a session that is neither processing nor listening and holds no
   * stream: click the mic, allow the prompt, let the recorder deliver `parts`, stop. The upload is the whole buffer, earlier recordings included.
   */
  method Record(s: Session, parts: seq<Blob>, net: ClientNet, chat: Reply<Object>) returns (uploaded: Option<Blob>)
    requires s.Valid() && s.status != Processing && !s.isListening && !s.hasStream
    modifies s
    ensures s.Valid() && !s.isListening && !s.hasStream
    ensures s.chunks == old(s.chunks) + NonEmpty(parts)
    ensures uploaded.None? <==> s.chunks == []
    ensures uploaded.Some? ==> uploaded.value == Blob(Concat(s.chunks), UploadMime)
    ensures s.status == Processing <==> s.chunks == []
  {
    var prompt := s.ClickMic(Started, net, chat);
    s.AcceptPermission(Started);
    Deliver(s, parts);
    var stops, u, sent := s.StopListening(net, chat);
    uploaded := u;
  }

  /**
   * The component never empties its buffer. On a fresh session, record `first`, then
   * `second`: the second upload carries the bytes of both recordings. When the first
   * recording delivered nothing, the session stays processing and the second recording
   * cannot start.
   */
  method TwoRecordings(first: seq<Blob>, second: seq<Blob>, net: ClientNet, chat: Reply<Object>)
    returns (upload1: Option<Blob>, upload2: Option<Blob>)
    ensures upload1.None? <==> NonEmpty(first) == []
    ensures upload2.None? <==> NonEmpty(first) == []
    ensures upload2.Some? ==> upload2.value.data == Concat(first) + Concat(second)
  {
    var s := new Session();
    upload1 := Record(s, first, net, chat);
    assert s.chunks == NonEmpty(first);
    if s.status == Processing {
      upload2 := None;
    } else {
      upload2 := Record(s, second, net, chat);
      assert s.chunks == NonEmpty(first) + NonEmpty(second);
      var data := upload2.value.data;
      assert data == Concat(NonEmpty(first) + NonEmpty(second));
      ConcatAppend(NonEmpty(first), NonEmpty(second));
      DroppingEmptyKeepsBytes(first);
      DroppingEmptyKeepsBytes(second);
    }
  }

  /** The recorder delivers `parts` in order to the session's `dataavailable` handler. */
  method Deliver(s: Session, parts: seq<Blob>)
    requires s.Valid()
    modifies s
    ensures s.Valid()
    ensures s.chunks == old(s.chunks) + NonEmpty(parts)
    ensures s.status == old(s.status) && s.isListening == old(s.isListening) && s.messages == old(s.messages)
    ensures s.hasStream == old(s.hasStream) && s.hasRecorder == old(s.hasRecorder)
    ensures s.showPermission == old(s.showPermission) && s.totalRequests == old(s.totalRequests) && s.error == old(s.error)
  {
    var i := 0;
    while i < |parts|
      invariant 0 <= i <= |parts|
      invariant s.Valid()
      invariant s.chunks == old(s.chunks) + NonEmpty(parts[..i])
      invariant s.status == old(s.status) && s.isListening == old(s.isListening) && s.messages == old(s.messages)
      invariant s.hasStream == old(s.hasStream) && s.hasRecorder == old(s.hasRecorder)
      invariant s.showPermission == old(s.showPermission) && s.totalRequests == old(s.totalRequests) && s.error == old(s.error)
    {
      NonEmptyStep(parts, i);
      s.OnAudioData(parts[i]);
      i := i + 1;
    }
    assert parts[..i] == parts;
  }
}

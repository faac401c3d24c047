# Voice assistant core, modelled in Dafny

The system is a browser voice assistant with a small Flask backend. The user clicks a
microphone button. The browser records audio into a buffer of chunks. When the user
stops, the audio goes to a batch speech-to-text vendor, which is polled until the
transcript is ready. A keyword heuristic guesses whether the transcript is Turkish or
English. The transcript then goes to a chat endpoint, and the reply is appended to the
conversation and spoken.

This project models the deterministic core of that flow and proves properties of it:

- `Language` (`language.dfy`): the keyword language heuristic, in both copies (the
  audio utilities' lists of 25/26 words and the component's lists of 23/24 words). The
  counting loops are a method proved against a counting function.
- `AudioUtils` (`audio_recorder.dfy`): the `AudioRecorder` class. Its chunk buffer,
  recording flag and recorder/stream handles are fields, and each method states the new
  state. The module also holds the data-URL prefix stripping of `audioBlobToBase64`.
- `Polling` (`polling.dfy`): a bounded polling specification, `Run`. Both polling loops,
  the component's (10 attempts) and the backend's (60 attempts), are proved equal to it.
- `Backend` (`backend.dfy`): the batch transcription handler (request checks, upload,
  transcription request, polling) and the chat echo.
- `VoiceAssistant` (`voice_assistant.dfy`): the component's session as a class. It covers
  the mic toggle, the permission prompt, recording into a buffer that is never emptied,
  the transcription round trip after a stop, the blank-transcript short cut, the
  append-only message list and the chat-reply fallback strings.
- `Text`, `Http` and `Wrappers` (`text.dfy`, `http.dfy`): substring search, JavaScript
  `trim`, decimal formatting, an `Option` type, and the shape of network replies.

Browser events (`dataavailable`, `stop`, `error`), device acquisition and every network
reply are inputs to the methods. A reply either throws (`Raised`) or answers with a
status code, the raw body text and the parsed JSON body, or a parse error. A sequence of
status-poll replies is a function from the attempt number to a reply.

Where the code and its own description disagree, the model follows the code:

- `startRecording` has no "already recording" check.
- A failed chat request does not end the cycle. `sendToChatAPI` turns it into an apology
  string, which is appended and spoken.
- The component reads the chat reply's `message` field, but the backend's `/chat`
  answers under `response`. `VoiceAssistant.BackendChatAlwaysApologises` proves that the
  component then always shows the fixed apology.
- A new recording can start while the reply is being spoken. The mic button is disabled
  only while processing, so from `speaking` a click shows the prompt and allowing it starts
  listening. `VoiceAssistant.StartWhileSpeaking` shows the two steps.
- The component's polling loop skips non-ok status replies. The backend's loop aborts on
  them. `VoiceAssistant.PollingVariantsDiffer` states the difference.

## Model

| member | source | states |
|---|---|---|
| Text.ContainsIffOccurs | src/utils/audioUtils.ts:154-160 | `includes` as modelled holds exactly when the word occurs at some position of the text |
| Text.TrimEmptyIffBlank | src/components/VoiceAssistant.tsx:464 | `trim()` gives the empty string exactly when every character is white space; otherwise the result starts and ends with non-white-space |
| Text.NatToString | backend_server.py:101 | decimal rendering of a status code is non-empty and made of digits |
| Text.NatToStringValue | backend_server.py:101 | the digits of the rendered status code denote the code itself |
| Polling.Run | src/components/VoiceAssistant.tsx:392-422 | a bounded poll makes between 1 and `max` requests unless it runs out, and exactly `max` when it runs out |
| Polling.RunStopsAtFirstDecisive | backend_server.py:145-187 | polling runs out exactly when no reply in the window is decisive; otherwise every earlier reply was "keep polling" and the last request made is the first decisive one, whose value or error is returned |
| Polling.UndecidedPrefixIsSkipped | src/components/VoiceAssistant.tsx:396-421 | undecided replies before attempt `n` do not change the outcome: polling from the start equals polling from `n` |
| Language.CountFound | src/utils/audioUtils.ts:154-160 | the keyword count never exceeds the list's length |
| Language.Detect | src/utils/audioUtils.ts:137-165 | 'tr' exactly when the Turkish count is larger, 'en' exactly when the English count is larger, 'auto' exactly on a tie; the loops compute the counting function |
| Language.CountIsDistinctMatches | src/utils/audioUtils.ts:154-160 | on a list without repeats the count is the number of distinct list words found |
| Language.CountsAreDistinctWords | src/utils/audioUtils.ts:138-148 | with the utilities' lists each count is the number of distinct keywords in the lower-cased text |
| Language.EnglishDuplicateFree | src/utils/audioUtils.ts:144-148 | the English list has no repeated word |
| Language.TurkishDuplicateFree | src/utils/audioUtils.ts:138-142 | the Turkish list has no repeated word |
| Language.CountFoundAppend | src/utils/audioUtils.ts:154-160 | counting over two joined lists adds the two counts |
| Language.CountFoundAbsent | src/utils/audioUtils.ts:154-160 | words absent from the text add nothing to the count |
| Language.CountFoundSplit | src/utils/audioUtils.ts:154-160 | splitting a list anywhere splits the count |
| Language.NoneFound | src/utils/audioUtils.ts:154-160 | when each word has a character or adjacent pair missing from the text, the count is 0 |
| Language.AllFound | src/utils/audioUtils.ts:154-160 | when every word occurs, the count is the list's length |
| Language.AbsenceIsSound | src/utils/audioUtils.ts:155 | a word with a character or an adjacent pair that never appears in the text is not contained in it |
| Language.ContainsAt | src/utils/audioUtils.ts:155 | a word found at a given position is contained |
| Language.CountBounds | src/components/VoiceAssistant.tsx:150-169 | counts are at most 25 and 26 with the utilities' lists, and at most 23 and 24 with the component's |
| Language.CopiesAgree | src/components/VoiceAssistant.tsx:149-170 | the two copies give the same answer on every text that contains none of "var", "yok", "is", "are" |
| Language.HelloTurkishCount | src/utils/audioUtils.ts:138-142 | only "o" of the Turkish keywords occurs in "hello" |
| Language.HelloEnglishCount | src/utils/audioUtils.ts:144-148 | only "hello" of the English keywords occurs in "hello" |
| Language.HelloLacksTheExtras | src/utils/audioUtils.ts:141-147 | none of "var", "yok", "is", "are" occurs in "hello" |
| Language.HelloIsAuto | src/utils/audioUtils.ts:137-165 | "hello" ties 1-1 and gives 'auto' in both copies |
| Language.VarComponentTurkishCount | src/components/VoiceAssistant.tsx:150 | no Turkish keyword of the component occurs in "var" |
| Language.VarUtilsTurkishCount | src/utils/audioUtils.ts:138-142 | of the utilities' Turkish keywords only "var" occurs in "var" |
| Language.VarUtilsEnglishCount | src/utils/audioUtils.ts:144-148 | no English keyword of the utilities occurs in "var" |
| Language.VarComponentEnglishCount | src/components/VoiceAssistant.tsx:151 | no English keyword of the component occurs in "var" |
| Language.VarSplitsTheCopies | src/components/VoiceAssistant.tsx:150-151 | "var" is 'tr' to the utilities' copy and 'auto' to the component's |
| Language.MerhabaFindsGreeting | src/utils/audioUtils.ts:139 | "merhaba" and "nasıl" both occur in "merhaba nasılsın" |
| Language.MerhabaIsLowerCase | src/utils/audioUtils.ts:150 | lower-casing leaves "merhaba nasılsın" unchanged |
| Language.MerhabaLacksTheExtras | src/utils/audioUtils.ts:141-147 | none of "var", "yok", "is", "are" occurs in "merhaba nasılsın" |
| Language.MerhabaTurkishCount | src/utils/audioUtils.ts:138-142 | exactly two Turkish keywords occur in "merhaba nasılsın" |
| Language.MerhabaEnglishCount | src/utils/audioUtils.ts:144-148 | no English keyword occurs in "merhaba nasılsın" |
| Language.MerhabaIsTurkish | src/utils/audioUtils.ts:137-165 | "merhaba nasılsın" counts 2 to 0 and gives 'tr' in both copies |
| AudioUtils.Concat | src/utils/audioUtils.ts:79 | the blob's size is the sum of the chunks' sizes |
| AudioUtils.NonEmpty | src/utils/audioUtils.ts:52-56 | the kept chunks are all non-empty and no more than those delivered |
| AudioUtils.DroppingEmptyKeepsBytes | src/utils/audioUtils.ts:52-56 | dropping empty chunks does not change the concatenated bytes |
| AudioUtils.ConcatAppend | src/utils/audioUtils.ts:79 | the bytes of two joined chunk lists are the two lists' bytes one after the other |
| AudioUtils.RecordingFailed | src/utils/audioUtils.ts:62-65 | the start error message begins with "Recording failed: " |
| AudioUtils.AudioRecorder.constructor | src/utils/audioUtils.ts:22-26 | no recorder, no stream, empty buffer, flag down |
| AudioUtils.AudioRecorder.StartRecording | src/utils/audioUtils.ts:31-66 | a device failure changes nothing; once the device is acquired the stream is kept and the buffer emptied; only a started recorder raises the flag; every failure rejects with "Recording failed: ..." |
| AudioUtils.AudioRecorder.OnDataAvailable | src/utils/audioUtils.ts:52-56 | a non-empty chunk is appended at the end of the buffer; nothing else changes |
| AudioUtils.AudioRecorder.StopRecording | src/utils/audioUtils.ts:71-93 | with no recorder or the flag down it rejects with "No active recording" and changes nothing; otherwise it installs the handlers and lowers the flag |
| AudioUtils.AudioRecorder.Cleanup | src/utils/audioUtils.ts:98-107 | recorder and stream dropped, buffer emptied |
| AudioUtils.AudioRecorder.OnStop | src/utils/audioUtils.ts:78-83 | the promise resolves, if not already settled, with one blob of all buffered chunks in order, and cleanup runs |
| AudioUtils.AudioRecorder.OnError | src/utils/audioUtils.ts:85-88 | cleanup runs and the promise rejects, if not already settled, with "Recording error: " and the event's text; no blob is produced |
| AudioUtils.RecordOnce | src/utils/audioUtils.ts:31-93 | start, deliver chunks, stop, stop event: exactly one blob, the in-order concatenation of the delivered bytes, and a clean recorder |
| AudioUtils.Base64Payload | src/utils/audioUtils.ts:126 | no result exactly when there is no comma; otherwise the comma-free text between the first comma and the next comma or the end |
| AudioUtils.IndexOf | src/utils/audioUtils.ts:126 | the position of the first occurrence of the character, or the length when it does not occur |
| AudioUtils.PayloadRoundTrip | src/utils/audioUtils.ts:126 | a comma-free header, a comma and a comma-free payload, optionally followed by a comma and more, give back the payload |
| Backend.Crashed | backend_server.py:193-195 | the catch-all answers 500 with "AssemblyAI batch transcription failed: " and the exception text |
| Backend.Admit | backend_server.py:61-70 | 500 without an API key; 400 "No audio data provided" when `audio` is missing or empty; otherwise the handler goes on with the language, defaulting to "auto" |
| Backend.AfterUpload | backend_server.py:100-104 | only a 200 with `upload_url` goes on; any other status gives 500 "Upload failed: code - text" |
| Backend.AfterSubmit | backend_server.py:134-138 | only a 200 with `id` goes on; any other status gives 500 "Transcription request failed: code - text" |
| Backend.TranscriptRequest | backend_server.py:112-118 | always has `audio_url`; has `language_code` exactly when the language is not "auto"; no other key |
| Backend.ServerStep | backend_server.py:154-181 | every aborting reply is a 500; a reply keeps polling exactly when it is a 200 whose status is present and neither "completed" nor "error"; it finishes exactly on a 200 whose status is "completed" |
| Backend.PollTranscript | backend_server.py:145-187 | the polling loop computes the polling specification with 60 attempts: its response and its number of requests |
| Backend.BatchTranscribe | backend_server.py:57-195 | no vendor request before the checks pass and the audio decodes; no transcription request after a failed upload; polling only after a submitted request; the response in each case |
| Backend.ServerPollingOutcome | backend_server.py:145-187 | at most 60 status requests; 408 "Transcription timeout" exactly when no reply among the 60 was decisive |
| Backend.NonOkPollAborts | backend_server.py:154-155 | the first non-200 status reply ends polling at once with 500 "Polling failed: code" |
| Backend.FirstCompletedIsReturned | backend_server.py:162-177 | the first "completed" reply is returned with its text (default ""), confidence (default 0), the requested language, model "assemblyai-batch" and the id |
| Backend.ErrorStatusAborts | backend_server.py:179-181 | an "error" status ends polling at once with 500 "Transcription failed: " and the error, default "Unknown error" |
| Backend.Chat | backend_server.py:243-267 | a JSON body is answered 200 with "Backend received: <message>" under "response" and the language defaulting to "auto", and no "message" key; otherwise 500 "Chat error: ..." |
| VoiceAssistant.BackendReadsChatRequest | src/components/VoiceAssistant.tsx:518-533 | for every message and language, the backend answers the component's chat request with 200, "Backend received: " and the message under "response", and the same language |
| VoiceAssistant.ChatReplyText | src/components/VoiceAssistant.tsx:538-556 | always a non-empty string: the `message` field, the fixed apology when it is missing or empty, or "Sorry, I encountered an error: ..." for a throw, a non-ok status or a body that is not JSON |
| VoiceAssistant.BackendChatAlwaysApologises | src/components/VoiceAssistant.tsx:547-552 | against the backend's echo the component always shows the fixed apology, though the backend received the message |
| VoiceAssistant.ClientStep | src/components/VoiceAssistant.tsx:408-421 | a reply keeps polling exactly when it is not ok, or is ok and parsed with a status other than "error" and is not a "completed" one with non-empty text; it finishes exactly on an ok "completed" reply with non-empty text, which it returns |
| VoiceAssistant.PollForTranscript | src/components/VoiceAssistant.tsx:392-422 | the polling loop computes the polling specification with 10 attempts |
| VoiceAssistant.ClientPollingOutcome | src/components/VoiceAssistant.tsx:392-422 | at most 10 status requests; it runs out exactly when no reply among the 10 is decisive; a finished poll ends on the first decisive reply, a "completed" one with that text |
| VoiceAssistant.ClientFirstCompletedIsReturned | src/components/VoiceAssistant.tsx:396-421 | after replies that all keep polling, the first ok "completed" reply with non-empty text ends polling with that text and no further request |
| VoiceAssistant.ClientErrorStatusAborts | src/components/VoiceAssistant.tsx:418-420 | an "error" status ends polling at once; no status request follows |
| VoiceAssistant.PollingVariantsDiffer | src/components/VoiceAssistant.tsx:408-417 | a non-ok status reply is skipped by the component but aborts the backend; a "completed" reply without text keeps the component polling but ends the backend's loop with an empty transcript |
| VoiceAssistant.MicDecision | src/components/VoiceAssistant.tsx:180-192 | ignored while processing (button disabled); stop while listening; prompt without a stream; start with one |
| VoiceAssistant.Exchange | src/components/VoiceAssistant.tsx:464-495 | no message for a blank transcript; otherwise the user's message, then the reply |
| VoiceAssistant.ExchangeKeepsPairs | src/components/VoiceAssistant.tsx:475-495 | appending one exchange keeps the conversation as user message, then non-empty reply, in pairs |
| VoiceAssistant.Session.constructor | src/components/VoiceAssistant.tsx:28-41 | idle, not listening, no error, no messages, empty buffer, no stream |
| VoiceAssistant.Session.StartListening | src/components/VoiceAssistant.tsx:194-254 | listening with no error when the recorder starts; otherwise idle, not listening, with "Microphone access failed: ..."; an acquired stream is kept; the buffer, the messages, the request count and the prompt are untouched |
| VoiceAssistant.Session.OnAudioData | src/components/VoiceAssistant.tsx:227-232 | only non-empty chunks are appended; nothing else changes |
| VoiceAssistant.Session.OnRecorderError | src/components/VoiceAssistant.tsx:238-243 | "Recording failed. Please try again.", idle, not listening |
| VoiceAssistant.Session.ProcessTranscription | src/components/VoiceAssistant.tsx:460-510 | a blank transcript only returns to idle, with no message and no chat request; otherwise the user's message and then the reply are appended, the request carries the component's language guess, and the reply is spoken |
| VoiceAssistant.Session.StopListening | src/components/VoiceAssistant.tsx:322-458 | the stream is released and listening ends; with an empty buffer nothing is uploaded and the status stays processing; otherwise the whole buffer is uploaded as one blob, one more request is counted, and the session ends with the transcript's exchange (and the chat request carrying the component's language guess) or with "Speech recognition failed" and idle |
| VoiceAssistant.Session.AcceptPermission | src/components/VoiceAssistant.tsx:826-829 | the prompt is hidden and the session is left as `startListening` leaves it: listening with no error, or idle with "Microphone access failed: ..." |
| VoiceAssistant.Session.DismissPermission | src/components/VoiceAssistant.tsx:837 | the prompt is hidden and nothing else changes |
| VoiceAssistant.Session.ClickMic | src/components/VoiceAssistant.tsx:180-192 | does what `MicDecision` says and leaves the state the chosen handler leaves: unchanged when ignored, only the prompt shown, the whole outcome of `stopListening`, or that of `startListening`; messages only grow and the buffer is untouched |
| VoiceAssistant.StartWhileSpeaking | src/components/VoiceAssistant.tsx:983 | while the reply is spoken the button is enabled: a click and, when asked, the prompt start a new recording, and the session is listening |
| VoiceAssistant.StopThenClick | src/components/VoiceAssistant.tsx:331-334 | the click after a stop only shows the prompt, or is ignored when the stop left the session processing with an empty buffer |
| VoiceAssistant.Record | src/components/VoiceAssistant.tsx:345-346 | a recording's upload is the whole buffer, earlier recordings included |
| VoiceAssistant.TwoRecordings | src/components/VoiceAssistant.tsx:38 | the second upload carries the bytes of both recordings, since the buffer is never emptied |
| VoiceAssistant.Deliver | src/components/VoiceAssistant.tsx:227-232 | delivered chunks are buffered in order, empty ones dropped |

## Left out

- Text-to-speech and the Web Speech fallback (`textToSpeech` and what follows it) are browser audio APIs. The model ends a successful exchange in status `speaking`.
- The WebSocket streaming path, rendering, the backend metrics fetch and its interval, and the status colour and text helpers are UI or never-called network plumbing.
- Latency, average-latency and success-rate arithmetic, `formatFileSize` and `getAudioDuration` are floating-point numerics. Only the integer `totalRequests` count is kept.
- Sleeps between polls, message ids and timestamps, and the chat reply's `timestamp` come from the clock and are left out.
- Temp-file creation and removal, request headers, the vendor URLs and `startRecording`'s `options` argument (which only shapes the microphone constraints) are I/O details. The base64 decoder is foreign code; its success or error text is an input.
- Text.ToLower: `toLowerCase` is modelled on ASCII letters only. Full Unicode case mapping is not modelled, so texts with upper-case non-ASCII letters may count differently.
- JSON `null` and non-string field values are not modelled. A field is present with a string (or a number for `confidence`) or absent. Python's `None` rendering and JavaScript's truthiness on other types are not captured.
- A request body that is JSON but not an object is modelled like one that does not parse.
- A chat reply that parses to JSON but is not an object (an array, a string or a number) cannot be fed to `VoiceAssistant.ChatReplyText` as such. The source answers it with the fixed "unexpected response format" apology; the model can only pass it as a parse error, which gives "Sorry, I encountered an error: ...".
- Backend.FirstCompletedIsReturned: the confidence default is the number 0, modelled as the real 0.0.
- The exact exception texts of Flask, `requests` and `fetch` are inputs, not computed.
- React's state batching and stale closures are not modelled: each method reads and writes the current state directly.
- The asynchronous handlers are modelled as atomic steps. In the source, events can interleave at each `await`. A click while `startListening` waits for the microphone (status listening, button enabled) runs `stopListening` before a recorder exists. A recorder error during `stopListening`'s polling sets idle mid-run. Such interleavings are not captured.
- The component's call to the recorder's `stop()` only reports whether it happens (`stopsRecorder`). The final chunk the recorder then delivers arrives through `OnAudioData`.
- Console and `print` logging, the token, Whisper, `/metrics` and `/health` endpoints, the build configuration and the test setup have no logic in scope.

/**
 * The recording helper of the audio utilities: a recorder object that buffers the
 * chunks a media recorder delivers and turns them into one blob when stopped, and the
 * helper that strips the data-URL prefix off a base64 encoding.
 */
module AudioUtils {
  import opened Wrappers
  import opened Text

  newtype byte = b: int | 0 <= b < 256

  /** A `Blob`: its bytes and its MIME type; `size` is the number of bytes. */
  datatype Blob = Blob(data: seq<byte>, mime: string)

  /** The MIME type the recorder asks for and labels its blob with. */
  const RecorderMime: string := "audio/webm;codecs=opus"

  /** The bytes of `new Blob(parts)`: the parts' bytes one after another. */
  function Concat(parts: seq<Blob>): (r: seq<byte>)
    ensures |r| == TotalSize(parts)
  {
    if parts == [] then [] else Concat(parts[..|parts| - 1]) + parts[|parts| - 1].data
  }

  function TotalSize(parts: seq<Blob>): nat {
    if parts == [] then 0 else TotalSize(parts[..|parts| - 1]) + |parts[|parts| - 1].data|
  }

  /** The parts that are not empty, in their original order. */
  function NonEmpty(parts: seq<Blob>): (r: seq<Blob>)
    ensures |r| <= |parts|
    ensures forall i :: 0 <= i < |r| ==> |r[i].data| > 0
  {
    if parts == [] then []
    else
      var last := parts[|parts| - 1];
      NonEmpty(parts[..|parts| - 1]) + (if |last.data| > 0 then [last] else [])
  }

  /** One more part: `NonEmpty` keeps it exactly when it is not empty. */
  lemma NonEmptyStep(parts: seq<Blob>, i: nat)
    requires i < |parts|
    ensures NonEmpty(parts[..i + 1]) == NonEmpty(parts[..i]) + (if |parts[i].data| > 0 then [parts[i]] else [])
  {
    assert parts[..i + 1][..i] == parts[..i];
  }

  /** Empty parts contribute no bytes, so dropping them leaves the concatenation as it was. */
  lemma {:induction false} DroppingEmptyKeepsBytes(parts: seq<Blob>)
    ensures Concat(NonEmpty(parts)) == Concat(parts)
  {
    if parts != [] {
      var init, last := parts[..|parts| - 1], parts[|parts| - 1];
      DroppingEmptyKeepsBytes(init);
      if |last.data| > 0 {
        assert (NonEmpty(init) + [last])[..|NonEmpty(init) + [last]| - 1] == NonEmpty(init);
      } else {
        assert last.data == [];
        assert NonEmpty(parts) == NonEmpty(init) + [] == NonEmpty(init);
        assert Concat(parts) == Concat(init) + last.data == Concat(init);
      }
    }
  }

  /** The bytes of two part lists one after the other are the bytes of the joined list. */
  lemma {:induction false} ConcatAppend(a: seq<Blob>, b: seq<Blob>)
    ensures Concat(a + b) == Concat(a) + Concat(b)
    decreases |b|
  {
    if b != [] {
      var b' := b[..|b| - 1];
      assert (a + b)[..|a + b| - 1] == a + b';
      ConcatAppend(a, b');
    } else {
      assert a + b == a;
    }
  }

  /**
   * How `getUserMedia`, `new MediaRecorder(...)` and `start()` turn out when recording
   * starts. A failure carries the thrown value's message when it is an `Error`.
   */
  datatype Acquisition =
    | DeviceDenied(error: Option<string>)
    | ConstructorFailed(error: Option<string>)
    | StartFailed(error: Option<string>)
    | Started

  /** The message `startRecording` rejects with when a step fails. */
  function RecordingFailed(error: Option<string>): (m: string)
    ensures IsPrefix("Recording failed: ", m)
  {
    "Recording failed: " + error.GetOr("Unknown error")
  }

  /** How the promise `stopRecording` returns stands once the call returns. */
  datatype StopCall = NotActive(reason: string) | Pending(recorder: nat)

  /** What a recorder's `stop` or `error` event does to that promise. */
  datatype Settlement = NoHandler | Resolved(blob: Blob) | Rejected(reason: string) | AlreadySettled

  /**
   * The recorder object. Browser handles are identities: `recorder` is the media
   * recorder held (recorders are numbered as they are created), `hasStream` whether a
   * media stream is held. `armed` are the recorders that `stopRecording` has given stop
   * and error handlers, `settled` those whose stop promise has resolved or rejected.
   */
  class AudioRecorder {
    var recorder: Option<nat>
    var hasStream: bool
    var chunks: seq<Blob>
    var isRecording: bool
    var created: nat
    var armed: set<nat>
    var settled: set<nat>

    /** The buffer holds only non-empty chunks, and only created recorders are referred to. */
    ghost predicate Valid()
      reads this
    {
      && (forall i :: 0 <= i < |chunks| ==> |chunks[i].data| > 0)
      && (recorder.Some? ==> recorder.value < created)
      && (forall r :: r in armed ==> r < created)
      && settled <= armed
    }

    constructor ()
      ensures Valid()
      ensures recorder == None && !hasStream && chunks == [] && !isRecording
      ensures created == 0 && armed == {} && settled == {}
    {
      recorder := None;
      hasStream := false;
      chunks := [];
      isRecording := false;
      created := 0;
      armed := {};
      settled := {};
    }

    /** `recording`: the recording flag. */
    function Recording(): bool
      reads this
    {
      isRecording
    }

    /**
     * `startRecording`. Once the device is acquired the stream is kept and the buffer is
     * emptied; a recorder that gets constructed replaces the old one; only a recorder
     * that starts sets the flag. Any failure rejects with "Recording failed: ...".
     */
    method StartRecording(acq: Acquisition) returns (error: Option<string>)
      requires Valid()
      modifies this
      ensures Valid()
      ensures error.None? <==> acq.Started?
      ensures !acq.Started? ==> error == Some(RecordingFailed(acq.error))
      ensures acq.DeviceDenied? ==> unchanged(this)
      ensures !acq.DeviceDenied? ==> hasStream && chunks == []
      ensures acq.ConstructorFailed? ==> recorder == old(recorder) && created == old(created)
      ensures (acq.StartFailed? || acq.Started?) ==> recorder == Some(old(created)) && created == old(created) + 1
      ensures isRecording == (acq.Started? || old(isRecording))
      ensures armed == old(armed) && settled == old(settled)
    {
      if acq.DeviceDenied? {
        return Some(RecordingFailed(acq.error));
      }
      hasStream := true;
      chunks := [];
      if acq.ConstructorFailed? {
        return Some(RecordingFailed(acq.error));
      }
      recorder := Some(created);
      created := created + 1;
      if acq.StartFailed? {
        return Some(RecordingFailed(acq.error));
      }
      isRecording := true;
      error := None;
    }

    /** The `dataavailable` handler: a non-empty chunk goes to the end of the buffer. */
    method OnDataAvailable(chunk: Blob)
      requires Valid()
      modifies this
      ensures Valid()
      ensures chunks == old(chunks) + (if |chunk.data| > 0 then [chunk] else [])
      ensures recorder == old(recorder) && hasStream == old(hasStream) && isRecording == old(isRecording)
      ensures created == old(created) && armed == old(armed) && settled == old(settled)
    {
      if |chunk.data| > 0 {
        chunks := chunks + [chunk];
      }
    }

    /**
     * `stopRecording`. Without a recorder, or with the flag down, the promise rejects
     * with "No active recording" and nothing changes. Otherwise the recorder gets its
     * stop and error handlers, is asked to stop, and the flag goes down; the promise is
     * settled later by one of the two handlers.
     */
    method StopRecording() returns (call: StopCall)
      requires Valid()
      modifies this
      ensures Valid()
      ensures call.NotActive? <==> old(recorder).None? || !old(isRecording)
      ensures call.NotActive? ==> call.reason == "No active recording" && unchanged(this)
      ensures call.Pending? ==>
        && call.recorder == old(recorder).value
        && !isRecording
        && armed == old(armed) + {call.recorder}
        && settled == old(settled) - {call.recorder}
        && recorder == old(recorder) && hasStream == old(hasStream) && chunks == old(chunks)
        && created == old(created)
    {
      if recorder.None? || !isRecording {
        return NotActive("No active recording");
      }
      var r := recorder.value;
      armed := armed + {r};
      settled := settled - {r};
      isRecording := false;
      call := Pending(r);
    }

    /** `cleanup`: drop the recorder and the stream and empty the buffer. */
    method Cleanup()
      requires Valid()
      modifies this
      ensures Valid()
      ensures recorder == None && !hasStream && chunks == []
      ensures isRecording == old(isRecording)
      ensures created == old(created) && armed == old(armed) && settled == old(settled)
    {
      recorder := None;
      hasStream := false;
      chunks := [];
    }

    /**
     * The `stop` event of recorder `r`. With the handler installed, the buffered chunks
     * become one blob, cleanup runs, and the promise resolves with the blob unless it
     * was already settled. A recorder without the handler changes nothing.
     */
    method OnStop(r: nat) returns (s: Settlement)
      requires Valid()
      modifies this
      ensures Valid()
      ensures s.NoHandler? <==> r !in old(armed)
      ensures s.NoHandler? ==> unchanged(this)
      ensures s.Resolved? <==> r in old(armed) && r !in old(settled)
      ensures s.Resolved? ==> s.blob == Blob(Concat(old(chunks)), RecorderMime)
      ensures !s.NoHandler? ==>
        && recorder == None && !hasStream && chunks == []
        && settled == old(settled) + {r}
        && isRecording == old(isRecording) && created == old(created) && armed == old(armed)
    {
      if r !in armed {
        return NoHandler;
      }
      var blob := Blob(Concat(chunks), RecorderMime);
      Cleanup();
      if r in settled {
        s := AlreadySettled;
      } else {
        s := Resolved(blob);
      }
      settled := settled + {r};
    }

    /**
     * The `error` event of recorder `r`, whose string form the browser chooses
     * (`eventText`). With the handler installed, cleanup runs and the promise rejects
     * with "Recording error: " and that text, unless already settled; no blob is made.
     */
    method OnError(r: nat, eventText: string) returns (s: Settlement)
      requires Valid()
      modifies this
      ensures Valid()
      ensures s.NoHandler? <==> r !in old(armed)
      ensures s.NoHandler? ==> unchanged(this)
      ensures !s.Resolved?
      ensures s.Rejected? <==> r in old(armed) && r !in old(settled)
      ensures s.Rejected? ==> s.reason == "Recording error: " + eventText
      ensures !s.NoHandler? ==>
        && recorder == None && !hasStream && chunks == []
        && settled == old(settled) + {r}
        && isRecording == old(isRecording) && created == old(created) && armed == old(armed)
    {
      if r !in armed {
        return NoHandler;
      }
      Cleanup();
      if r in settled {
        s := AlreadySettled;
      } else {
        s := Rejected("Recording error: " + eventText);
      }
      settled := settled + {r};
    }
  }

  /**
   * One recording from start to finish on a fresh recorder: it starts, the recorder
   * delivers `delivered` in order, the caller stops, and the recorder's `stop` event
   * fires. The result is exactly one blob, the in-order concatenation of the delivered
   * bytes, and the recorder is left clean.
   */
  method RecordOnce(delivered: seq<Blob>) returns (s: Settlement, rec: AudioRecorder)
    ensures s == Resolved(Blob(Concat(delivered), RecorderMime))
    ensures |s.blob.data| == TotalSize(delivered)
    ensures rec.Valid() && !rec.Recording() && rec.recorder == None && !rec.hasStream && rec.chunks == []
  {
    rec := new AudioRecorder();
    var started := rec.StartRecording(Started);
    var i := 0;
    while i < |delivered|
      invariant 0 <= i <= |delivered|
      invariant rec.Valid() && rec.isRecording && rec.recorder == Some(0)
      invariant rec.armed == {} && rec.settled == {}
      invariant rec.chunks == NonEmpty(delivered[..i])
    {
      NonEmptyStep(delivered, i);
      rec.OnDataAvailable(delivered[i]);
      i := i + 1;
    }
    assert delivered[..i] == delivered;
    var call := rec.StopRecording();
    s := rec.OnStop(call.recorder);
    DroppingEmptyKeepsBytes(delivered);
  }

  /**
   * The base64 text of a data URL: `result.split(',')[1]`, the part between the first
   * comma and the next one, or `undefined` (here `None`) when there is no comma.
   */
  function Base64Payload(dataUrl: string): (r: Option<string>)
    ensures r.None? <==> ',' !in dataUrl
    ensures r.Some? ==> ',' !in r.value
    ensures r.Some? ==>
      var head := dataUrl[..IndexOf(dataUrl, ',')];
      && ',' !in head
      && |head| + 1 + |r.value| <= |dataUrl|
      && dataUrl[..|head| + 1 + |r.value|] == head + "," + r.value
      && (|head| + 1 + |r.value| < |dataUrl| ==> dataUrl[|head| + 1 + |r.value|] == ',')
  {
    var i := IndexOf(dataUrl, ',');
    if i == |dataUrl| then None
    else
      var rest := dataUrl[i + 1..];
      var j := IndexOf(rest, ',');
      assert dataUrl[..i + 1 + j] == dataUrl[..i] + "," + rest[..j];
      Some(rest[..j])
  }

  /** The index of the first `c` in `s`, or `|s|` when there is none. */
  function IndexOf(s: string, c: char): (i: nat)
    ensures i <= |s|
    ensures i < |s| ==> s[i] == c
    ensures c !in s[..i]
    ensures i == |s| <==> c !in s
  {
    if s == [] then 0
    else if s[0] == c then 0
    else
      var k := IndexOf(s[1..], c);
      assert s[..k + 1] == [s[0]] + s[1..][..k];
      k + 1
  }

  /**
   * Round trip: a data URL made of a comma-free header, a comma and a comma-free base64
   * text, optionally followed by a comma and anything, gives back that text.
   */
  lemma PayloadRoundTrip(header: string, payload: string, tail: Option<string>)
    requires ',' !in header && ',' !in payload
    ensures Base64Payload(header + "," + payload + (if tail.Some? then "," + tail.value else "")) == Some(payload)
  {
    var url := header + "," + payload + (if tail.Some? then "," + tail.value else "");
    assert url[|header|] == ',';
    assert url[..|header|] == header;
    assert IndexOf(url, ',') == |header|;
    var rest := url[|header| + 1..];
    assert rest == payload + (if tail.Some? then "," + tail.value else "");
    assert rest[..|payload|] == payload;
    if tail.Some? {
      assert rest[|payload|] == ',';
    }
    assert IndexOf(rest, ',') == |payload|;
  }
}

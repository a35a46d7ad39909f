/** The microphone recorder hook (`src/lib/useAudioRecorder.ts`): the
    state record the screen reads, the buffer of recorded chunks, the
    `MediaRecorder` reference and the one-second timer. Browser callbacks
    (`ondataavailable`, `onstop`, the interval's tick) are methods the
    environment calls; `getUserMedia`'s outcome is a parameter. */
module AudioRecorder {
  import opened Wrappers
  import opened Js

  const RecordingType := "audio/webm"
  const MicrophoneFailure := "Could not access microphone"

  /** The record the hook exposes. */
  datatype RecorderState = RecorderState(
    isRecording: bool,
    recordingTime: nat,
    audioBlob: Option<Blob>,
    error: Option<string>)

  const InitialState := RecorderState(false, 0, None, None)

  /** `MediaRecorder.state`. */
  datatype MediaRecorderState = Inactive | Recording | Paused

  /** The bytes of `new Blob(chunks)`: the chunks' bytes, in order. */
  function ConcatBytes(chunks: seq<Blob>): seq<byte>
  {
    if chunks == [] then [] else ConcatBytes(chunks[..|chunks| - 1]) + chunks[|chunks| - 1].bytes
  }

  /** Appending a chunk appends its bytes. */
  lemma ConcatBytesAppend(chunks: seq<Blob>, b: Blob)
    ensures ConcatBytes(chunks + [b]) == ConcatBytes(chunks) + b.bytes
  {
    assert (chunks + [b])[..|chunks|] == chunks;
  }

  /** The chunks of positive size, in order. */
  function NonEmpty(chunks: seq<Blob>): (r: seq<Blob>)
    ensures forall i :: 0 <= i < |r| ==> r[i].Size() > 0
    ensures |r| <= |chunks|
  {
    if chunks == [] then []
    else if chunks[|chunks| - 1].Size() > 0 then NonEmpty(chunks[..|chunks| - 1]) + [chunks[|chunks| - 1]]
    else NonEmpty(chunks[..|chunks| - 1])
  }

  /** One more chunk delivered: kept if it has positive size. */
  lemma NonEmptySnoc(chunks: seq<Blob>, b: Blob)
    ensures NonEmpty(chunks + [b]) == if b.Size() > 0 then NonEmpty(chunks) + [b] else NonEmpty(chunks)
  {
    assert (chunks + [b])[..|chunks|] == chunks;
  }

  /** Dropping empty chunks loses no audio: the recording of the kept
      chunks has the same bytes as that of all chunks delivered. */
  lemma {:induction false} NonEmptyKeepsBytes(chunks: seq<Blob>)
    ensures ConcatBytes(NonEmpty(chunks)) == ConcatBytes(chunks)
  {
    if chunks != [] {
      var init := chunks[..|chunks| - 1];
      var last := chunks[|chunks| - 1];
      NonEmptyKeepsBytes(init);
      if last.Size() > 0 {
        ConcatBytesAppend(NonEmpty(init), last);
      } else {
        assert last.bytes == [];
        assert ConcatBytes(chunks) == ConcatBytes(init) + [];
      }
    }
  }

  /** The hook's state and refs. */
  class Recorder {
    var state: RecorderState
    /** `chunksRef.current`. */
    var chunks: seq<Blob>
    /** Every chunk `ondataavailable` received since the recording started,
        empty ones included. */
    ghost var delivered: seq<Blob>
    /** `mediaRecorderRef.current`, by its `state`. */
    var recorder: Option<MediaRecorderState>
    /** `timerRef.current`. */
    var timer: Option<nat>
    /** The intervals still scheduled, by handle. */
    var intervals: set<nat>
    /** The handle the next `setInterval` returns. */
    var nextHandle: nat

    /** Handles are positive and issued in increasing order, the stored
        handle is a scheduled interval, and the buffer is the delivered
        chunks of positive size, in order. */
    ghost predicate Valid()
      reads this
    {
      nextHandle > 0
      && (forall h :: h in intervals ==> 0 < h < nextHandle)
      && (timer.Some? ==> timer.value in intervals)
      && chunks == NonEmpty(delivered)
    }

    constructor ()
      ensures Valid()
      ensures state == InitialState && chunks == [] && delivered == [] && recorder == None
      ensures timer == None && intervals == {}
    {
      state := InitialState;
      chunks := [];
      delivered := [];
      recorder := None;
      timer := None;
      intervals := {};
      nextHandle := 1;
    }

    /** `startRecording`, with `access` what `getUserMedia` settled to. On
        success a new recorder starts with an empty buffer and the state is
        reset to recording from zero; a timer is started (any earlier one
        keeps running). On failure only `error` changes. For a `null` or
        `undefined` rejection the queued state updater reads `message` of
        it and throws when React applies it, so the component fails to
        render; that render-time error is outside this model, which records
        no state update for such a rejection. */
    method StartRecording(access: Result<(), Thrown>)
      requires Valid()
      modifies this
      ensures Valid()
      ensures access.Success? ==>
        recorder == Some(Recording) && chunks == [] && delivered == []
        && state == old(state).(isRecording := true, error := None, audioBlob := None, recordingTime := 0)
        && timer == Some(old(nextHandle)) && intervals == old(intervals) + {old(nextHandle)}
      ensures access.Failure? && !access.error.Nullish? ==>
        state == old(state).(error := Some(MessageOr(access.error, MicrophoneFailure)))
        && chunks == old(chunks) && delivered == old(delivered) && recorder == old(recorder)
        && timer == old(timer) && intervals == old(intervals)
      ensures access.Failure? && access.error.Nullish? ==>
        state == old(state) && chunks == old(chunks) && delivered == old(delivered)
        && recorder == old(recorder) && timer == old(timer) && intervals == old(intervals)
    {
      match access {
        case Failure(err) =>
          if !err.Nullish? {
            state := state.(error := Some(MessageOr(err, MicrophoneFailure)));
          }
        case Success(_) =>
          recorder := Some(Recording);
          chunks := [];
          delivered := [];
          state := state.(isRecording := true, error := None, audioBlob := None, recordingTime := 0);
          StartTimer();
      }
    }

    /** `startTimer`: schedules a new interval and stores its handle. */
    method StartTimer()
      requires Valid()
      modifies this
      ensures Valid()
      ensures timer == Some(old(nextHandle)) && intervals == old(intervals) + {old(nextHandle)}
      ensures nextHandle == old(nextHandle) + 1
      ensures state == old(state) && chunks == old(chunks) && delivered == old(delivered)
      ensures recorder == old(recorder)
    {
      timer := Some(nextHandle);
      intervals := intervals + {nextHandle};
      nextHandle := nextHandle + 1;
    }

    /** `ondataavailable`: a chunk of positive size is appended to the
        buffer; an empty one is dropped. The buffer's bytes stay those of
        every chunk delivered. */
    method OnDataAvailable(data: Blob)
      requires Valid()
      modifies this
      ensures Valid()
      ensures delivered == old(delivered) + [data]
      ensures chunks == if data.Size() > 0 then old(chunks) + [data] else old(chunks)
      ensures ConcatBytes(chunks) == ConcatBytes(old(chunks)) + data.bytes
      ensures ConcatBytes(chunks) == ConcatBytes(delivered)
      ensures state == old(state) && recorder == old(recorder) && timer == old(timer)
      ensures intervals == old(intervals) && nextHandle == old(nextHandle)
    {
      ConcatBytesAppend(chunks, data);
      NonEmptySnoc(delivered, data);
      NonEmptyKeepsBytes(delivered + [data]);
      delivered := delivered + [data];
      if data.Size() > 0 {
        chunks := chunks + [data];
      } else {
        assert data.bytes == [];
        assert ConcatBytes(chunks) + data.bytes == ConcatBytes(chunks);
      }
    }

    /** `onstop`: the buffered chunks become the recording, of type
        `audio/webm`, holding the bytes of every chunk delivered; recording
        ends, the elapsed time is kept, and the timer is stopped. */
    method OnStop()
      requires Valid()
      modifies this
      ensures Valid()
      ensures state == old(state).(isRecording := false,
                                   audioBlob := Some(Blob(ConcatBytes(old(chunks)), RecordingType)))
      ensures state.audioBlob == Some(Blob(ConcatBytes(old(delivered)), RecordingType))
      ensures timer == None
      ensures intervals == if old(timer).Some? then old(intervals) - {old(timer).value} else old(intervals)
      ensures chunks == old(chunks) && delivered == old(delivered)
      ensures recorder == old(recorder) && nextHandle == old(nextHandle)
    {
      NonEmptyKeepsBytes(delivered);
      var blob := Blob(ConcatBytes(chunks), RecordingType);
      state := state.(isRecording := false, audioBlob := Some(blob));
      StopTimer();
    }

    /** `stopRecording`: stops a recorder that is recording or paused; with
        no recorder, or an inactive one, it does nothing. */
    method StopRecording()
      requires Valid()
      modifies this
      ensures Valid()
      ensures recorder == if old(recorder).Some? && old(recorder).value != Inactive then Some(Inactive) else old(recorder)
      ensures state == old(state) && chunks == old(chunks) && delivered == old(delivered)
      ensures timer == old(timer) && intervals == old(intervals) && nextHandle == old(nextHandle)
    {
      if recorder.Some? && recorder.value != Inactive {
        recorder := Some(Inactive);
      }
    }

    /** One tick of a scheduled interval: one more second, nothing else. */
    method Tick(h: nat)
      requires Valid() && h in intervals
      modifies this
      ensures Valid()
      ensures state == old(state).(recordingTime := old(state).recordingTime + 1)
      ensures chunks == old(chunks) && delivered == old(delivered)
      ensures recorder == old(recorder) && timer == old(timer)
      ensures intervals == old(intervals) && nextHandle == old(nextHandle)
    {
      state := state.(recordingTime := state.recordingTime + 1);
    }

    /** `stopTimer`: cancels the stored interval and forgets its handle;
        without one it does nothing, so a second call changes nothing. */
    method StopTimer()
      requires Valid()
      modifies this
      ensures Valid()
      ensures timer == None
      ensures intervals == if old(timer).Some? then old(intervals) - {old(timer).value} else old(intervals)
      ensures old(timer).None? ==> intervals == old(intervals)
      ensures state == old(state) && chunks == old(chunks) && delivered == old(delivered)
      ensures recorder == old(recorder) && nextHandle == old(nextHandle)
    {
      if timer.Some? {
        intervals := intervals - {timer.value};
        timer := None;
      }
    }
  }
}

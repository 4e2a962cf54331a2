/**
 * The recorder screen: the recording state machine, pin capture, the
 * sequential pin analysis with the session save that follows it, the two
 * playback slots (clip and speech) and reset.
 */
module Recorder {
  import opened Wrappers
  import opened Display
  import opened Correction
  import opened SessionLog
  import opened Pipeline

  /** The three screens the render guards choose between. */
  datatype Phase = Idle | Recording | Stopped

  /** Every field of the screen at one moment, so that a handler can state its whole new state. */
  datatype ScreenState = ScreenState(
    isRecording: bool, recordedUri: string, elapsedTime: int, startTime: int,
    pinnedMoments: seq<Pin>, analysisDone: bool, pinCount: nat,
    playingAudioIndex: Option<nat>, playingTtsIndex: Option<nat>,
    trimming: bool, issued: seq<Call>)

  class RecorderScreen {
    var isRecording: bool
    /** The recording's file URI; the empty string stands for `null`, as every use tests truthiness. */
    var recordedUri: string
    var elapsedTime: int
    /** `startTimeRef.current`, in milliseconds. */
    var startTime: int
    var pinnedMoments: seq<Pin>
    var analysisDone: bool
    var pinCount: nat
    var playingAudioIndex: Option<nat>
    var playingTtsIndex: Option<nat>
    var trimming: bool
    /** Requests sent to ffmpeg and the proxy, in order. */
    var issued: seq<Call>
    const store: SessionLogStore

    /**
     * `pinCount` counts the pins, and while recording there is no recording
     * URI, no finished analysis and no analysed pin.
     */
    ghost predicate Valid()
      reads this
    {
      && pinCount == |pinnedMoments|
      && (isRecording ==>
            && recordedUri == []
            && !analysisDone
            && forall j :: 0 <= j < |pinnedMoments| ==> pinnedMoments[j].analysis.None?)
    }

    function Snapshot(): ScreenState
      reads this
    {
      ScreenState(isRecording, recordedUri, elapsedTime, startTime, pinnedMoments, analysisDone,
                  pinCount, playingAudioIndex, playingTtsIndex, trimming, issued)
    }

    /**
     * Which of the render branches at the top of the screen is shown: the
     * recording controls, the start button, or the pin list of a stopped
     * recording.
     */
    function CurrentPhase(): (p: Phase)
      reads this
      ensures p == Recording <==> isRecording
      ensures p == Idle <==> !isRecording && recordedUri == []
    {
      if isRecording then Recording else if recordedUri == [] then Idle else Stopped
    }

    constructor (store: SessionLogStore)
      ensures Valid() && CurrentPhase() == Idle && this.store == store
      ensures pinnedMoments == [] && pinCount == 0 && elapsedTime == 0 && !analysisDone && !trimming
      ensures playingAudioIndex == None && playingTtsIndex == None && issued == []
    {
      isRecording := false;
      recordedUri := [];
      elapsedTime := 0;
      startTime := 0;
      pinnedMoments := [];
      analysisDone := false;
      pinCount := 0;
      playingAudioIndex := None;
      playingTtsIndex := None;
      trimming := false;
      issued := [];
      this.store := store;
    }

    /**
     * `startRecording`. `granted` is the microphone permission answer (a
     * request that throws acts the same: nothing changes), `created` whether
     * the recorder could be created, `now` the clock in milliseconds.
     */
    method StartRecording(granted: bool, created: bool, now: int)
      requires Valid()
      modifies this
      ensures Valid()
      ensures old(isRecording) || !granted ==> unchanged(this)
      ensures !old(isRecording) && granted ==>
        && pinnedMoments == [] && pinCount == 0 && !analysisDone
        && recordedUri == [] && elapsedTime == 0 && startTime == now
        && isRecording == created && (created ==> CurrentPhase() == Recording)
        && playingAudioIndex == old(playingAudioIndex) && playingTtsIndex == old(playingTtsIndex)
        && trimming == old(trimming) && issued == old(issued)
    {
      if isRecording {
        return;
      }
      if !granted {
        return;
      }
      pinnedMoments := [];
      analysisDone := false;
      recordedUri := [];
      pinCount := 0;
      elapsedTime := 0;
      startTime := now;
      if created {
        isRecording := true;
      }
    }

    /** `handlePin`: append a pin at the whole seconds elapsed since the start. */
    method HandlePin(now: int)
      requires Valid()
      modifies this
      ensures Valid()
      ensures !old(isRecording) ==> unchanged(this)
      ensures old(isRecording) ==>
        && pinnedMoments == old(pinnedMoments) + [Pin((now - startTime) / 1000, None)]
        && pinCount == old(pinCount) + 1
        && isRecording && recordedUri == old(recordedUri) && analysisDone == old(analysisDone)
        && playingAudioIndex == old(playingAudioIndex) && playingTtsIndex == old(playingTtsIndex)
        && startTime == old(startTime) && elapsedTime == old(elapsedTime)
        && trimming == old(trimming) && issued == old(issued)
    {
      if !isRecording {
        return;
      }
      // Math.floor of a quotient by a positive number is Euclidean division.
      var pinSec := (now - startTime) / 1000;
      pinnedMoments := pinnedMoments + [Pin(pinSec, None)];
      pinCount := pinCount + 1;
    }

    /**
     * `stopRecording`: `stopped` says whether the recorder stopped (if it
     * throws, the screen keeps recording), `uri` is what it reports. With at
     * least one pin the analysis runs; `sessionId` and `date` are the clock
     * readings the save uses, `stored` whether its storage calls succeed.
     */
    method StopRecording(stopped: bool, uri: string, env: Env, sessionId: string, date: string, stored: bool)
      requires Valid()
      modifies this, store
      ensures Valid()
      ensures !old(isRecording) || !stopped ==> unchanged(this) && unchanged(store)
      ensures old(isRecording) && stopped ==> !isRecording && recordedUri == uri && !old(analysisDone)
      ensures old(isRecording) && stopped && (old(pinnedMoments) == [] || uri == []) ==>
        && Snapshot() == old(Snapshot()).(isRecording := false, recordedUri := uri)
        && unchanged(store)
      ensures old(isRecording) && stopped && old(pinnedMoments) != [] && uri != [] ==>
        var run := Analyze(env, uri, old(pinnedMoments));
        && Snapshot() == old(Snapshot()).(isRecording := false, recordedUri := uri,
             pinnedMoments := run.pins, analysisDone := run.failure.None?, trimming := false,
             issued := old(issued) + run.calls)
        && store.sessions == old(store.sessions) +
             (if run.failure.None? && stored then [Session(sessionId, date, uri, run.pins)] else [])
    {
      if !isRecording {
        return;
      }
      if !stopped {
        return;
      }
      isRecording := false;
      recordedUri := uri;
      if |pinnedMoments| > 0 {
        AnalyzePins(uri, env, sessionId, date, stored);
      }
    }

    /**
     * `handleAnalyzePins` followed by the save effect that fires when
     * `analysisDone` turns true. The loop visits pins in index order and
     * leaves at the first error; the pins analysed before it keep their
     * analyses, since the loop writes into the screen's own pin objects.
     */
    method AnalyzePins(uri: string, env: Env, sessionId: string, date: string, stored: bool)
      requires Valid() && !isRecording
      modifies this, store
      ensures Valid()
      ensures uri == [] || old(pinnedMoments) == [] ==> unchanged(this) && unchanged(store)
      ensures uri != [] && old(pinnedMoments) != [] ==>
        var run := Analyze(env, uri, old(pinnedMoments));
        && Snapshot() == old(Snapshot()).(pinnedMoments := run.pins,
             analysisDone := old(analysisDone) || run.failure.None?, trimming := false,
             issued := old(issued) + run.calls)
        && store.sessions == old(store.sessions) +
             (if run.failure.None? && !old(analysisDone) && recordedUri != [] && stored
              then [Session(sessionId, date, recordedUri, run.pins)] else [])
    {
      if uri == [] {
        return;
      }
      if |pinnedMoments| == 0 {
        return;
      }
      trimming := true;
      var pins, calls, ok := RunAnalysis(env, uri, pinnedMoments);
      FinishAnalysis(pins, calls, ok, sessionId, date, stored);
    }

    /**
     * The end of `handleAnalyzePins` once its loop has run: the loop wrote
     * into the screen's own pin objects, so analyses made before a failure
     * stay on the screen; a clean run marks the analysis done, and the save
     * effect fires when that flag turns true on a screen with a recording.
     */
    method FinishAnalysis(pins: seq<Pin>, calls: seq<Call>, ok: bool, sessionId: string, date: string, stored: bool)
      requires Valid() && !isRecording && |pins| == |pinnedMoments|
      modifies this, store
      ensures Valid()
      ensures Snapshot() == old(Snapshot()).(pinnedMoments := pins,
        analysisDone := old(analysisDone) || ok, trimming := false, issued := old(issued) + calls)
      ensures store.sessions == old(store.sessions) +
        (if ok && !old(analysisDone) && recordedUri != [] && stored then [Session(sessionId, date, recordedUri, pins)] else [])
    {
      var wasDone := analysisDone;
      pinnedMoments := pins;
      issued := issued + calls;
      trimming := false;
      if !ok {
        return;
      }
      analysisDone := true;
      if !wasDone && recordedUri != [] {
        SaveSessionLog(Session(sessionId, date, recordedUri, pinnedMoments), stored);
      }
    }

    /**
     * `saveSessionLog`: the log gains exactly this session, at the end.
     * `stored` is false when `getItem` or `setItem` rejects; nothing catches
     * that, so the session is then not saved and the log is as it was.
     */
    method SaveSessionLog(session: Session, stored: bool)
      modifies store
      ensures store.sessions == old(store.sessions) + (if stored then [session] else [])
      ensures |store.sessions| == |old(store.sessions)| + (if stored then 1 else 0)
      ensures store.sessions[..|old(store.sessions)|] == old(store.sessions)
    {
      if stored {
        store.Append(session);
      }
    }

    /**
     * `handlePlayClip(pin, index)`: no clip, or another pin's clip in the
     * slot, leaves everything as it was; the same index stops it; otherwise
     * the clip starts (`loaded` false: it could not be loaded or played).
     * The speech slot is never consulted.
     */
    method HandlePlayClip(pin: Pin, index: nat, loaded: bool)
      modifies this
      ensures ClipOf(pin).None? ==> unchanged(this)
      ensures ClipOf(pin).Some? && old(playingAudioIndex).Some? && old(playingAudioIndex) != Some(index) ==>
        unchanged(this)
      ensures ClipOf(pin).Some? && old(playingAudioIndex) == Some(index) ==>
        Snapshot() == old(Snapshot()).(playingAudioIndex := None)
      ensures ClipOf(pin).Some? && old(playingAudioIndex).None? ==>
        Snapshot() == old(Snapshot()).(playingAudioIndex := if loaded then Some(index) else None)
    {
      if ClipOf(pin).None? {
        return;
      }
      if playingAudioIndex.Some? && playingAudioIndex != Some(index) {
        return;
      }
      if playingAudioIndex == Some(index) {
        StopClip();
        return;
      }
      if loaded {
        playingAudioIndex := Some(index);
      } else {
        playingAudioIndex := None;
      }
    }

    /** `stopClip`: the clip slot is emptied. */
    method StopClip()
      modifies this
      ensures Snapshot() == old(Snapshot()).(playingAudioIndex := None)
    {
      playingAudioIndex := None;
    }

    /** The clip reached its end (`didJustFinish`). */
    method OnClipFinished()
      modifies this
      ensures Snapshot() == old(Snapshot()).(playingAudioIndex := None)
    {
      playingAudioIndex := None;
    }

    /**
     * `handlePlayTTS(pin, index)`: no suggestion, or another pin's speech in
     * the slot, leaves everything as it was; otherwise any clip is stopped
     * first, then the same index stops the speech and a new one starts it.
     */
    method HandlePlayTts(pin: Pin, index: nat)
      modifies this
      ensures pin.analysis.None? || pin.analysis.value.suggestion == [] ==> unchanged(this)
      ensures old(playingTtsIndex).Some? && old(playingTtsIndex) != Some(index) ==> unchanged(this)
      ensures pin.analysis.Some? && pin.analysis.value.suggestion != [] &&
              (old(playingTtsIndex).None? || old(playingTtsIndex) == Some(index)) ==>
        Snapshot() == old(Snapshot()).(playingAudioIndex := None,
          playingTtsIndex := if old(playingTtsIndex) == Some(index) then None else Some(index))
    {
      if pin.analysis.None? || pin.analysis.value.suggestion == [] {
        return;
      }
      if playingTtsIndex.Some? && playingTtsIndex != Some(index) {
        return;
      }
      if playingAudioIndex.Some? {
        StopClip();
      }
      if playingTtsIndex == Some(index) {
        playingTtsIndex := None;
        return;
      }
      playingTtsIndex := Some(index);
    }

    /** Speech ended, was stopped or failed (`onDone`, `onStopped`, `onError`). */
    method OnSpeechEnded()
      modifies this
      ensures Snapshot() == old(Snapshot()).(playingTtsIndex := None)
    {
      playingTtsIndex := None;
    }

    /** `handleReset`: both slots empty, no pins, no recording, clocks at zero. */
    method HandleReset()
      requires Valid()
      modifies this
      ensures Valid() && CurrentPhase() == Idle
      ensures playingAudioIndex == None && playingTtsIndex == None
      ensures pinnedMoments == [] && recordedUri == [] && !isRecording && !analysisDone
      ensures elapsedTime == 0 && pinCount == 0
      ensures trimming == old(trimming) && issued == old(issued) && startTime == old(startTime)
    {
      StopClip();
      playingTtsIndex := None;
      recordedUri := [];
      elapsedTime := 0;
      pinnedMoments := [];
      analysisDone := false;
      isRecording := false;
      playingAudioIndex := None;
      pinCount := 0;
    }
  }

  /**
   * The loop of `handleAnalyzePins`: pins in index order, each trimmed,
   * transcribed and corrected, leaving at the first error. It computes
   * exactly the run `Analyze` describes.
   */
  method RunAnalysis(env: Env, uri: string, pins0: seq<Pin>) returns (pins: seq<Pin>, calls: seq<Call>, ok: bool)
    ensures pins == Analyze(env, uri, pins0).pins
    ensures calls == Analyze(env, uri, pins0).calls
    ensures ok == Analyze(env, uri, pins0).failure.None?
  {
    pins, calls, ok := pins0, [], true;
    ghost var steps := Steps(env, uri, pins0);
    for i := 0 to |pins0|
      invariant RunOver(uri, steps, pins0, i).failure.None?
      invariant pins == RunOver(uri, steps, pins0, i).pins
      invariant calls == RunOver(uri, steps, pins0, i).calls
    {
      TimeKept(uri, steps, pins0, i, i);
      RunOverNext(uri, steps, pins0, i);
      var t := AnalyzeOne(env, uri, pins[i].pinTime, i);
      StepAt(env, uri, pins0, i);
      calls := calls + t.calls;
      if t.result.Err? {
        FailedRunIsFinal(uri, steps, pins0, i + 1, |pins0|);
        ok := false;
        return;
      }
      pins := pins[i := pins[i].(analysis := Some(t.result.value))];
    }
  }

  /**
   * Unlike the history screen, this screen lets a clip and a spoken
   * suggestion play at once: start speech for pin 0, then the clip of pin 1.
   */
  method BothSlotsAtOnce(store: SessionLogStore, a: Analysis) returns (clip: Option<nat>, speech: Option<nat>)
    requires a.clipUri != [] && a.suggestion != []
    ensures clip == Some(1) && speech == Some(0)
  {
    var screen := new RecorderScreen(store);
    var pin := Pin(20, Some(a));
    screen.HandlePlayTts(pin, 0);
    screen.HandlePlayClip(pin, 1, true);
    clip, speech := screen.playingAudioIndex, screen.playingTtsIndex;
  }
}

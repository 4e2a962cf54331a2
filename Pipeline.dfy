/**
 * The pin analysis of the recorder screen as a specification: one step per
 * pin (trim, transcribe, correct) and the run over all pins in index
 * order that stops at the first error.
 */
module Pipeline {
  import opened Wrappers
  import opened Text
  import opened Display
  import opened Correction
  import opened SessionLog

  /** `${uri}.pin_${i}.m4a`. */
  function ClipPath(uri: string, i: nat): string
  {
    uri + ".pin_" + Decimal(i) + ".m4a"
  }

  /** A clip path is the recording URI, then `.pin_`, then the pin's index in digits, then `.m4a`. */
  lemma ClipPathShape(uri: string, i: nat)
    ensures var r := ClipPath(uri, i);
      && |r| >= |uri| + 10
      && r[..|uri|] == uri && r[|uri|..|uri| + 5] == ".pin_" && r[|r| - 4..] == ".m4a"
      && AllDigits(r[|uri| + 5..|r| - 4]) && DigitsValue(r[|uri| + 5..|r| - 4]) == i
  {
    var r := ClipPath(uri, i);
    assert r[|uri| + 5..|r| - 4] == Decimal(i);
    DecimalRoundTrip(i);
  }

  /** Different pins of one recording never share a clip file. */
  lemma ClipPathInjective(uri: string, i: nat, j: nat)
    requires ClipPath(uri, i) == ClipPath(uri, j)
    ensures i == j
  {
    var a, b := ClipPath(uri, i), ClipPath(uri, j);
    assert |Decimal(i)| == |Decimal(j)|;
    assert Decimal(i) == a[|uri| + 5..|a| - 4];
    assert Decimal(j) == b[|uri| + 5..|b| - 4];
    DecimalInjective(i, j);
  }

  /** The output paths of the trim requests in a list of requests, in order. */
  function TrimOutputs(calls: seq<Call>): seq<string>
  {
    if calls == [] then []
    else TrimOutputs(calls[..|calls| - 1]) +
         (if calls[|calls| - 1].TrimCall? then [calls[|calls| - 1].output] else [])
  }

  lemma {:induction false} TrimOutputsAppend(a: seq<Call>, b: seq<Call>)
    ensures TrimOutputs(a + b) == TrimOutputs(a) + TrimOutputs(b)
    decreases |b|
  {
    if b != [] {
      assert (a + b)[..|a + b| - 1] == a + b[..|b| - 1];
      assert (a + b)[|a + b| - 1] == b[|b| - 1];
      TrimOutputsAppend(a, b[..|b| - 1]);
    } else {
      assert a + b == a;
    }
  }

  lemma NoTrimOutputs(calls: seq<Call>)
    requires forall c :: c in calls ==> !c.TrimCall?
    ensures TrimOutputs(calls) == []
  {
    if calls != [] {
      NoTrimOutputs(calls[..|calls| - 1]);
    }
  }

  /**
   * One iteration of the loop in `handleAnalyzePins`: cut the clip for pin
   * `i`, transcribe it, correct the transcript. Every request after the
   * trim is a transcription or chat request.
   */
  function AnalyzeOne(env: Env, uri: string, pinTime: int, i: nat): (t: Traced<Analysis>)
    ensures |t.calls| >= 1
    ensures t.calls[0] == TrimCall(uri, ClipPath(uri, i), ClipWindow(pinTime).0, ClipWindow(pinTime).1)
    ensures TrimOutputs(t.calls) == [ClipPath(uri, i)]
    ensures t.result.Ok? ==> t.result.value.clipUri == ClipPath(uri, i)
    ensures t.result.Ok? ==> t.result.value.original != [] && t.result.value.suggestion != []
    ensures t.result.Ok? ==> |t.calls| >= 2 && t.calls[1] == WhisperCall(ClipPath(uri, i))
  {
    var w := ClipWindow(pinTime);
    var out := ClipPath(uri, i);
    var tr := TrimAudio(env, uri, out, w.0, w.1);
    var t :=
      if tr.result.Err? then Traced(Err(tr.result.error), tr.calls)
      else
        var stt := Transcribe(env, out);
        if stt.result.Err? then Traced(Err(stt.result.error), tr.calls + stt.calls)
        else
          var sug := Correct(env, stt.result.value);
          var calls := tr.calls + stt.calls + sug.calls;
          if sug.result.Err? then Traced(Err(sug.result.error), calls)
          else Traced(Ok(Analysis(stt.result.value, sug.result.value, out)), calls);
    assert t.calls == tr.calls + t.calls[1..];
    NoTrimOutputs(t.calls[1..]);
    TrimOutputsAppend(tr.calls, t.calls[1..]);
    t
  }

  /** The state of an analysis run: the pins, how many were analysed, the error that stopped it. */
  datatype Run = Run(pins: seq<Pin>, done: nat, failure: Option<string>, calls: seq<Call>)

  /**
   * What every pin's step promises: it cuts exactly its own clip, and on
   * success stores that clip with a non-empty transcript and suggestion.
   */
  predicate StepsShaped(uri: string, steps: seq<Traced<Analysis>>)
  {
    forall j :: 0 <= j < |steps| ==>
      && TrimOutputs(steps[j].calls) == [ClipPath(uri, j)]
      && (steps[j].result.Ok? ==>
            && steps[j].result.value.clipUri == ClipPath(uri, j)
            && steps[j].result.value.original != []
            && steps[j].result.value.suggestion != [])
  }

  /**
   * The outcome of each pin's step. The environment answers a request the
   * same way whenever it is made, so listing every pin's outcome up front
   * changes nothing: the run below consults them in order and stops at the
   * first error, so only the requests it reaches are recorded.
   */
  function Steps(env: Env, uri: string, pins: seq<Pin>): (r: seq<Traced<Analysis>>)
    ensures |r| == |pins| && StepsShaped(uri, r)
  {
    seq(|pins|, i requires 0 <= i < |pins| => AnalyzeOne(env, uri, pins[i].pinTime, i))
  }

  /** Pin `i`'s outcome is the step for pin `i` at its own time. */
  lemma StepAt(env: Env, uri: string, pins: seq<Pin>, i: nat)
    requires i < |pins|
    ensures Steps(env, uri, pins)[i] == AnalyzeOne(env, uri, pins[i].pinTime, i)
  {
  }

  /**
   * `out` is `pins` after the first `done` were analysed: every pin keeps its
   * time, pins before `done` carry the analysis their own step produced, with
   * their own clip path and non-empty texts, and the others are as they were.
   */
  predicate AnalysedPrefix(uri: string, steps: seq<Traced<Analysis>>, pins: seq<Pin>, done: nat, out: seq<Pin>)
  {
    && |out| == |pins| && done <= |pins| && |steps| == |pins|
    && (forall j :: 0 <= j < |pins| ==> out[j].pinTime == pins[j].pinTime)
    && (forall j :: 0 <= j < done ==>
          && steps[j].result.Ok?
          && out[j].analysis == Some(steps[j].result.value)
          && out[j].analysis.value.clipUri == ClipPath(uri, j)
          && out[j].analysis.value.original != []
          && out[j].analysis.value.suggestion != [])
    && (forall j :: done <= j < |pins| ==> out[j] == pins[j])
  }

  /** Storing pin `n - 1`'s analysis extends the analysed prefix by one. */
  lemma ExtendPrefix(uri: string, steps: seq<Traced<Analysis>>, pins: seq<Pin>, n: nat, out: seq<Pin>)
    requires 0 < n <= |pins| && AnalysedPrefix(uri, steps, pins, n - 1, out)
    requires steps[n - 1].result.Ok?
    requires var a := steps[n - 1].result.value;
      a.clipUri == ClipPath(uri, n - 1) && a.original != [] && a.suggestion != []
    ensures AnalysedPrefix(uri, steps, pins, n,
      out[n - 1 := out[n - 1].(analysis := Some(steps[n - 1].result.value))])
  {
  }

  /**
   * The run after the loop has looked at the first `n` pins, given each
   * pin's step outcome: a run without failure has analysed all `n`, a
   * failed one stopped before pin `n`.
   */
  function RunOver(uri: string, steps: seq<Traced<Analysis>>, pins: seq<Pin>, n: nat): (r: Run)
    requires |steps| == |pins| && n <= |pins| && StepsShaped(uri, steps)
    ensures r.done <= n
    ensures r.failure.None? ==> r.done == n
    ensures r.failure.Some? ==> r.done < n
    ensures |r.pins| == |pins|
  {
    if n == 0 then Run(pins, 0, None, [])
    else
      var r := RunOver(uri, steps, pins, n - 1);
      if r.failure.Some? then r
      else
        var t := steps[n - 1];
        match t.result
        case Ok(a) => Run(r.pins[n - 1 := r.pins[n - 1].(analysis := Some(a))], n, None, r.calls + t.calls)
        case Err(e) => Run(r.pins, n - 1, Some(e), r.calls + t.calls)
  }

  /**
   * What the run leaves on the pins: the first `done` carry the analyses
   * their own steps produced, every later pin is as it was.
   */
  lemma {:induction false} RunLeavesPrefix(uri: string, steps: seq<Traced<Analysis>>, pins: seq<Pin>, n: nat)
    requires |steps| == |pins| && n <= |pins| && StepsShaped(uri, steps)
    ensures var r := RunOver(uri, steps, pins, n); AnalysedPrefix(uri, steps, pins, r.done, r.pins)
  {
    if n > 0 {
      var r := RunOver(uri, steps, pins, n - 1);
      RunLeavesPrefix(uri, steps, pins, n - 1);
      if r.failure.None? && steps[n - 1].result.Ok? {
        ExtendPrefix(uri, steps, pins, n, r.pins);
      }
    }
  }

  /** The run never moves a pin in time. */
  lemma TimeKept(uri: string, steps: seq<Traced<Analysis>>, pins: seq<Pin>, n: nat, j: nat)
    requires |steps| == |pins| && n <= |pins| && StepsShaped(uri, steps) && j < |pins|
    ensures RunOver(uri, steps, pins, n).pins[j].pinTime == pins[j].pinTime
  {
    RunLeavesPrefix(uri, steps, pins, n);
  }

  /**
   * The whole run of `handleAnalyzePins` over `pins`: it keeps every pin,
   * and it fails exactly when it stops short of the last pin.
   */
  function Analyze(env: Env, uri: string, pins: seq<Pin>): (r: Run)
    ensures |r.pins| == |pins| && r.done <= |pins|
    ensures r.failure.None? <==> r.done == |pins|
  {
    RunOver(uri, Steps(env, uri, pins), pins, |pins|)
  }

  /** Once a pin has failed, the loop is left: looking at more pins changes nothing. */
  lemma {:induction false} FailedRunIsFinal(uri: string, steps: seq<Traced<Analysis>>, pins: seq<Pin>, n: nat, m: nat)
    requires |steps| == |pins| && StepsShaped(uri, steps)
    requires n <= m <= |pins|
    requires RunOver(uri, steps, pins, n).failure.Some?
    ensures RunOver(uri, steps, pins, m) == RunOver(uri, steps, pins, n)
    decreases m
  {
    if m > n {
      FailedRunIsFinal(uri, steps, pins, n, m - 1);
    }
  }

  /**
   * Pins are cut strictly in index order, each to its own clip path, up to
   * and including the pin that failed.
   */
  lemma {:induction false} TrimsInPinOrder(uri: string, steps: seq<Traced<Analysis>>, pins: seq<Pin>, n: nat)
    requires |steps| == |pins| && StepsShaped(uri, steps) && n <= |pins|
    ensures var r := RunOver(uri, steps, pins, n);
      TrimOutputs(r.calls) == ClipPaths(uri, r.done + (if r.failure.Some? then 1 else 0))
  {
    if n > 0 {
      var r := RunOver(uri, steps, pins, n - 1);
      TrimsInPinOrder(uri, steps, pins, n - 1);
      if r.failure.None? {
        RunStep(uri, steps, pins, n);
        TrimOutputsAppend(r.calls, steps[n - 1].calls);
        assert ClipPaths(uri, n) == ClipPaths(uri, n - 1) + [ClipPath(uri, n - 1)];
      } else {
        FailedRunIsFinal(uri, steps, pins, n - 1, n);
      }
    }
  }

  /** A clean run over `n - 1` pins grows by pin `n - 1`'s requests, and either analyses it or fails there. */
  lemma RunStep(uri: string, steps: seq<Traced<Analysis>>, pins: seq<Pin>, n: nat)
    requires |steps| == |pins| && StepsShaped(uri, steps) && 0 < n <= |pins|
    requires RunOver(uri, steps, pins, n - 1).failure.None?
    ensures var r := RunOver(uri, steps, pins, n);
      && r.calls == RunOver(uri, steps, pins, n - 1).calls + steps[n - 1].calls
      && r.done + (if r.failure.Some? then 1 else 0) == n
      && TrimOutputs(steps[n - 1].calls) == [ClipPath(uri, n - 1)]
  {
  }

  /** One more loop iteration on a clean run: pin `n`'s step either stores its analysis or stops the run. */
  lemma RunOverNext(uri: string, steps: seq<Traced<Analysis>>, pins: seq<Pin>, n: nat)
    requires |steps| == |pins| && StepsShaped(uri, steps) && n < |pins|
    requires RunOver(uri, steps, pins, n).failure.None?
    ensures var r := RunOver(uri, steps, pins, n); var t := steps[n];
      RunOver(uri, steps, pins, n + 1) ==
        if t.result.Ok? then Run(r.pins[n := r.pins[n].(analysis := Some(t.result.value))], n + 1, None, r.calls + t.calls)
        else Run(r.pins, n, Some(t.result.error), r.calls + t.calls)
  {
  }

  /** The clip paths of pins `0 .. count - 1`, in order. */
  function ClipPaths(uri: string, count: nat): (r: seq<string>)
    ensures |r| == count && forall j :: 0 <= j < count ==> r[j] == ClipPath(uri, j)
  {
    if count == 0 then [] else ClipPaths(uri, count - 1) + [ClipPath(uri, count - 1)]
  }

  /** The run that failed was clean up to its failing pin, and that pin's step raised its error. */
  lemma {:induction false} FirstFailure(uri: string, steps: seq<Traced<Analysis>>, pins: seq<Pin>, n: nat)
    requires |steps| == |pins| && StepsShaped(uri, steps) && n <= |pins|
    requires RunOver(uri, steps, pins, n).failure.Some?
    ensures var r := RunOver(uri, steps, pins, n);
      && RunOver(uri, steps, pins, r.done).failure.None?
      && steps[r.done].result == Err(r.failure.value)
  {
    var prev := RunOver(uri, steps, pins, n - 1);
    if prev.failure.Some? {
      FirstFailure(uri, steps, pins, n - 1);
    }
  }

  /**
   * If pin `k` fails, pins before `k` carry analyses, pin `k` and the rest are
   * untouched, and the error is the one pin `k`'s own step raised.
   */
  lemma FailureAtPinOver(uri: string, steps: seq<Traced<Analysis>>, pins: seq<Pin>, n: nat)
    requires |steps| == |pins| && StepsShaped(uri, steps) && n <= |pins|
    requires RunOver(uri, steps, pins, n).failure.Some?
    ensures var r := RunOver(uri, steps, pins, n); var k := r.done;
      && k < n
      && steps[k].result == Err(r.failure.value)
      && (forall j :: 0 <= j < k ==> r.pins[j].analysis.Some?)
      && r.pins[k..] == pins[k..]
  {
    var r := RunOver(uri, steps, pins, n);
    FirstFailure(uri, steps, pins, n);
    RunLeavesPrefix(uri, steps, pins, n);
    UntouchedTail(uri, steps, pins, r.done, r.pins);
  }

  /** An analysed prefix leaves the tail of the pins as it was. */
  lemma UntouchedTail(uri: string, steps: seq<Traced<Analysis>>, pins: seq<Pin>, done: nat, out: seq<Pin>)
    requires AnalysedPrefix(uri, steps, pins, done, out)
    ensures out[done..] == pins[done..]
  {
    assert forall j :: 0 <= j < |pins| - done ==> out[done..][j] == out[done + j];
  }

  /**
   * The same for the analysis itself: the error is the one pin `k`'s own
   * trim, transcription or correction raised.
   */
  lemma FailureAtPin(env: Env, uri: string, pins: seq<Pin>)
    requires Analyze(env, uri, pins).failure.Some?
    ensures var r := Analyze(env, uri, pins); var k := r.done;
      && k < |pins|
      && AnalyzeOne(env, uri, pins[k].pinTime, k).result == Err(r.failure.value)
      && (forall j :: 0 <= j < k ==> r.pins[j].analysis.Some?)
      && r.pins[k..] == pins[k..]
  {
    var r := Analyze(env, uri, pins);
    FailureAtPinOver(uri, Steps(env, uri, pins), pins, |pins|);
    StepAt(env, uri, pins, r.done);
  }

  /**
   * What the whole analysis leaves on the pins: every pin keeps its time,
   * each pin before the stop carries exactly the analysis its own trim,
   * transcription and correction produced, and every later pin is as it was.
   */
  lemma AnalysedPins(env: Env, uri: string, pins: seq<Pin>)
    ensures var r := Analyze(env, uri, pins);
      && (forall j :: 0 <= j < |pins| ==> r.pins[j].pinTime == pins[j].pinTime)
      && (forall j :: 0 <= j < r.done ==>
            var t := AnalyzeOne(env, uri, pins[j].pinTime, j);
            t.result.Ok? && r.pins[j].analysis == Some(t.result.value))
      && (forall j :: r.done <= j < |pins| ==> r.pins[j] == pins[j])
  {
    var steps := Steps(env, uri, pins);
    RunLeavesPrefix(uri, steps, pins, |pins|);
    forall j | 0 <= j < |pins| {
      StepAt(env, uri, pins, j);
    }
  }

  /**
   * One pin's step in terms of what the environment answers: a failed cut
   * is reported after the trim request alone; a failed transcription after
   * the trim and transcription requests; otherwise the correction's
   * requests follow, and the pin is analysed exactly when the correction
   * succeeds, with the transcript, the suggestion and the clip path.
   */
  lemma AnalyzeOneOutcome(env: Env, uri: string, pinTime: int, i: nat)
    ensures var w := ClipWindow(pinTime); var out := ClipPath(uri, i);
      var t := AnalyzeOne(env, uri, pinTime, i);
      var trim := TrimCall(uri, out, w.0, w.1);
      var stt := Transcribe(env, out).result;
      && (env.trim(uri, out, w.0, w.1).TrimFailed? ==>
            t == Traced(Err("ffmpeg trim failed: " + env.trim(uri, out, w.0, w.1).returnCode), [trim]))
      && (env.trim(uri, out, w.0, w.1).TrimRejected? ==>
            t == Traced(Err(env.trim(uri, out, w.0, w.1).message), [trim]))
      && (env.trim(uri, out, w.0, w.1) == TrimOk && !env.whisper(out).WhisperOk? ==>
            stt.Err? && t == Traced(Err(stt.error), [trim, WhisperCall(out)]))
      && (env.trim(uri, out, w.0, w.1) == TrimOk && env.whisper(out).WhisperOk? ==>
            var sug := Correct(env, stt.value);
            && t.calls == [trim, WhisperCall(out)] + sug.calls
            && (t.result.Ok? <==> sug.result.Ok?)
            && (sug.result.Ok? ==> t.result.value == Analysis(stt.value, sug.result.value, out))
            && (sug.result.Err? ==> t.result == Err(sug.result.error)))
  {
    var w := ClipWindow(pinTime);
    var out := ClipPath(uri, i);
    var tr := TrimAudio(env, uri, out, w.0, w.1);
    match env.trim(uri, out, w.0, w.1)
    case TrimOk =>
      assert tr.result.Ok?;
    case TrimFailed(code) =>
      assert tr == Traced(Err("ffmpeg trim failed: " + code), [TrimCall(uri, out, w.0, w.1)]);
    case TrimRejected(message) =>
      assert tr == Traced(Err(message), [TrimCall(uri, out, w.0, w.1)]);
  }

  /** The clips cut by the whole analysis are those of pins `0, 1, …`, through the failing pin if any. */
  lemma AnalysisTrimsInOrder(env: Env, uri: string, pins: seq<Pin>)
    ensures var r := Analyze(env, uri, pins);
      TrimOutputs(r.calls) == ClipPaths(uri, r.done + (if r.failure.Some? then 1 else 0))
  {
    TrimsInPinOrder(uri, Steps(env, uri, pins), pins, |pins|);
  }

  /** A pin whose transcript holds `$` is analysed without any chat request. */
  lemma SilentPinNeedsNoChat(env: Env, uri: string, pinTime: int, i: nat, text: string)
    requires var w := ClipWindow(pinTime); env.trim(uri, ClipPath(uri, i), w.0, w.1) == TrimOk
    requires env.whisper(ClipPath(uri, i)) == WhisperOk(Some(text))
    requires '$' in text
    ensures AnalyzeOne(env, uri, pinTime, i).result ==
            Ok(Analysis(text, NoCorrection, ClipPath(uri, i)))
    ensures |AnalyzeOne(env, uri, pinTime, i).calls| == 2
  {
  }

}

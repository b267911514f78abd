/**
 * Choosing and running the video engine for a build (`prepareVideo` in
 * app.js): a decision table over the mode and the probe, one engine call,
 * and a single retry without audio when a transcode fails in a way that
 * suggests the audio stream is missing. Engine replies are inputs: `first`
 * is the reply to the first call and `second` the reply to the retry.
 */
module Orchestrator {
  import opened Wrappers
  import opened Text
  import opened Classifier
  import opened EngineArgs
  import opened Bridge
  import opened Progress

  /** The transcode mode chosen in the page; any value other than force or passthrough behaves as auto. */
  datatype Mode = Auto | Force | Passthrough

  /** The runner to invoke and the note explaining why. */
  datatype Decision = Decision(runner: Action, reason: string)

  /** One engine request: which runner, and the `hasAudio` option passed to it. */
  datatype EngineCall = EngineCall(runner: Action, hasAudio: Option<bool>)

  /** An engine's answer: the output bytes, or the message of the thrown error. */
  datatype Reply = Ok(bytes: seq<bv8>) | Err(message: string)

  /** What `prepareVideo` returns: the bytes, how they were made, and the notes in order. */
  datatype VideoPlan = VideoPlan(bytes: seq<bv8>, description: string, messages: seq<string>)

  /** The engine calls made, in order, and the plan or the error that escaped. */
  datatype Execution = Execution(calls: seq<EngineCall>, outcome: Result<VideoPlan, string>)

  const ForceReason := "Force mode engaged: transcoding to H.264/AAC."
  const PassNoProbeReason := "Passthrough requested but probe unavailable; transcoding for safety."
  const PassRefreshReason := "Passthrough: refreshing MP4 container without re-encoding."
  const PassRewrapReason := "Passthrough: codecs compatible; rewrapping streams into MP4."
  const PassIncompatibleReason := "Passthrough requested but codecs/container incompatible. Transcoding instead."
  const AutoNoProbeReason := "Auto mode: probe failed, falling back to transcoding."
  const AutoCompatibleReason := "Auto mode: already H.264/AAC MP4; remuxing for faststart."
  const AutoMismatchReason := "Auto mode: codecs compatible but container mismatch; remuxing."
  const AutoIncompatibleReason := "Auto mode: codecs incompatible; transcoding to H.264/AAC."

  const RetryNote := "Audio track missing; retrying transcode without audio."
  const VideoOnlyDescription := "transcoded (video only)"
  const TranscodedDescription := "transcoded to H.264/AAC"
  const SilentDescription := "transcoded to H.264 (silent)"
  const RemuxDescription := "stream-copied MP4 container"

  /**
   * The decision table: force always transcodes; without a probe both other
   * modes transcode; passthrough remuxes exactly the copy-safe probes; auto
   * remuxes the compatible and the copy-safe probes.
   */
  function Decide(mode: Mode, probe: Option<ProbeResult>): (d: Decision)
    ensures d.runner == Transcode || d.runner == Remux
    ensures mode == Force ==> d.runner == Transcode
    ensures probe.None? ==> d.runner == Transcode
    ensures mode == Passthrough && probe.Some? ==> (d.runner == Remux <==> probe.value.copySafe)
    ensures mode == Auto && probe.Some? ==>
      (d.runner == Remux <==> probe.value.isCompatible || probe.value.copySafe)
  {
    match mode
    case Force => Decision(Transcode, ForceReason)
    case Passthrough =>
      if probe.None? then Decision(Transcode, PassNoProbeReason)
      else if probe.value.copySafe && probe.value.containerOK then Decision(Remux, PassRefreshReason)
      else if probe.value.copySafe then Decision(Remux, PassRewrapReason)
      else Decision(Transcode, PassIncompatibleReason)
    case Auto =>
      if probe.None? then Decision(Transcode, AutoNoProbeReason)
      else if probe.value.isCompatible then Decision(Remux, AutoCompatibleReason)
      else if probe.value.copySafe then Decision(Remux, AutoMismatchReason)
      else Decision(Transcode, AutoIncompatibleReason)
  }

  /** `probe?.hasAudio`: unknown without a probe. */
  function AudioKnown(probe: Option<ProbeResult>): Option<bool> {
    if probe.Some? then Some(probe.value.hasAudio) else None
  }

  /** `hasAudioKnown === false ? false : undefined`: only a known absence is passed on. */
  function AudioOption(known: Option<bool>): (r: Option<bool>)
    ensures r == Some(false) <==> known == Some(false)
    ensures r != Some(true)
  {
    if known == Some(false) then Some(false) else None
  }

  /** No line terminator occurs in `s` (what `.` may match). */
  predicate NoLineBreak(s: string) {
    forall k :: 0 <= k < |s| ==> !IsLineTerminator(s[k])
  }

  /**
   * `/match.*streams|specifie/i`: "specifie" occurs, or "match" is followed
   * later on the same line by "streams", ignoring ASCII case.
   */
  predicate MatchesStreamHint(msg: string) {
    var m := Lower(msg);
    || Contains(m, "specifie")
    || exists i, j :: 0 <= i < |m| && i + 5 <= j <= |m| && OccursAt(m, "match", i) && OccursAt(m, "streams", j)
                   && NoLineBreak(m[i + 5..j])
  }

  /** The retry condition: audio is not known to be absent and the message hints at a missing stream. */
  predicate ShouldRetry(known: Option<bool>, message: string) {
    known != Some(false) && MatchesStreamHint(message)
  }

  /** `runTranscode`: one call, and on a matching failure one silent retry. */
  function TranscodeRun(reason: string, known: Option<bool>, first: Reply, second: Reply): Execution {
    var call := EngineCall(Transcode, AudioOption(known));
    match first
    case Ok(bytes) =>
      var description := if known == Some(false) then VideoOnlyDescription else TranscodedDescription;
      Execution([call], Success(VideoPlan(bytes, description, [reason])))
    case Err(message) =>
      if !ShouldRetry(known, message) then Execution([call], Failure(message))
      else
        var retry := EngineCall(Transcode, Some(false));
        match second
        case Ok(bytes) => Execution([call, retry], Success(VideoPlan(bytes, SilentDescription, [reason, RetryNote])))
        case Err(again) => Execution([call, retry], Failure(again))
  }

  /** `runRemux`: one call, never retried. */
  function RemuxRun(reason: string, known: Option<bool>, first: Reply): Execution {
    var call := EngineCall(Remux, AudioOption(known));
    match first
    case Ok(bytes) => Execution([call], Success(VideoPlan(bytes, RemuxDescription, [reason])))
    case Err(message) => Execution([call], Failure(message))
  }

  /** `prepareVideo` as a value: the decision, then the chosen runner. */
  function Prepare(mode: Mode, probe: Option<ProbeResult>, first: Reply, second: Reply): (e: Execution)
    ensures 1 <= |e.calls| <= 2
    ensures e.calls[0] == EngineCall(Decide(mode, probe).runner, AudioOption(AudioKnown(probe)))
  {
    var d := Decide(mode, probe);
    var known := AudioKnown(probe);
    if d.runner == Transcode then TranscodeRun(d.reason, known, first, second)
    else RemuxRun(d.reason, known, first)
  }

  /** Force mode runs a transcode, whatever the probe says. */
  lemma ForceAlwaysTranscodes(probe: Option<ProbeResult>, first: Reply, second: Reply)
    ensures forall c :: c in Prepare(Force, probe, first, second).calls ==> c.runner == Transcode
  {
  }

  /** Without a probe, every mode runs a transcode. */
  lemma NoProbeTranscodes(mode: Mode, first: Reply, second: Reply)
    ensures forall c :: c in Prepare(mode, None, first, second).calls ==> c.runner == Transcode
  {
  }

  /**
   * Exactly one runner is invoked: every call uses the decided runner, a
   * remux is a single call whose success is always described as a
   * stream copy, and only a transcode can make a second call.
   */
  lemma OneRunner(mode: Mode, probe: Option<ProbeResult>, first: Reply, second: Reply)
    ensures var e := Prepare(mode, probe, first, second);
      && (forall c :: c in e.calls ==> c.runner == Decide(mode, probe).runner)
      && (Decide(mode, probe).runner == Remux ==> |e.calls| == 1)
      && (Decide(mode, probe).runner == Remux && e.outcome.Success? ==>
            e.outcome.value.description == RemuxDescription)
      && (Decide(mode, probe).runner == Remux && first.Err? ==> e.outcome == Failure(first.message))
  {
  }

  /**
   * The silent retry happens exactly when a transcode's first call fails
   * with a matching message while audio is not known to be absent; it is a
   * single call with `hasAudio` false.
   */
  lemma RetryExactlyWhen(mode: Mode, probe: Option<ProbeResult>, first: Reply, second: Reply)
    ensures var e := Prepare(mode, probe, first, second);
      (|e.calls| == 2 <==>
        Decide(mode, probe).runner == Transcode && first.Err? && ShouldRetry(AudioKnown(probe), first.message))
    ensures var e := Prepare(mode, probe, first, second);
      |e.calls| == 2 ==> e.calls[1] == EngineCall(Transcode, Some(false))
  {
  }

  /** When audio is known to be absent, nothing is retried and the first failure escapes as it is. */
  lemma NoRetryWhenKnownSilent(mode: Mode, probe: Option<ProbeResult>, first: Reply, second: Reply)
    requires AudioKnown(probe) == Some(false)
    ensures |Prepare(mode, probe, first, second).calls| == 1
    ensures first.Err? ==> Prepare(mode, probe, first, second).outcome == Failure(first.message)
  {
  }

  /**
   * The outcome of a transcode: on first-try success the description tells
   * whether audio was known to be absent, and the notes are the reason
   * alone; after a retry the description is the silent one and the notes
   * are the reason and the retry note; otherwise the last error escapes.
   */
  lemma TranscodeOutcomes(mode: Mode, probe: Option<ProbeResult>, first: Reply, second: Reply)
    requires Decide(mode, probe).runner == Transcode
    ensures var e := Prepare(mode, probe, first, second);
      first.Ok? ==> e.outcome == Success(VideoPlan(first.bytes,
        if probe.Some? && !probe.value.hasAudio then VideoOnlyDescription else TranscodedDescription,
        [Decide(mode, probe).reason]))
    ensures var e := Prepare(mode, probe, first, second);
      |e.calls| == 2 && second.Ok? ==>
        e.outcome == Success(VideoPlan(second.bytes, SilentDescription, [Decide(mode, probe).reason, RetryNote]))
    ensures var e := Prepare(mode, probe, first, second);
      |e.calls| == 2 && second.Err? ==> e.outcome == Failure(second.message)
    ensures var e := Prepare(mode, probe, first, second);
      first.Err? && |e.calls| == 1 ==> e.outcome == Failure(first.message)
  {
  }

  /** The flag chain `analyse` guarantees: copy-safe is the conjunction of the three checks, compatible is copy-safe. */
  predicate FlagChain(r: ProbeResult) {
    r.copySafe == (r.containerOK && r.videoOK && r.audioOK) && r.isCompatible == r.copySafe
  }

  /**
   * For probes whose flags form the chain, the passthrough "rewrapping"
   * branch and the auto "container mismatch" branch are never taken.
   */
  lemma ChainedProbesSkipDeadBranches(r: ProbeResult)
    requires FlagChain(r)
    ensures Decide(Passthrough, Some(r)).reason != PassRewrapReason
    ensures Decide(Auto, Some(r)).reason != AutoMismatchReason
  {
  }

  /** Probes produced by `analyse` form the chain, so the two branches above are dead for them. */
  lemma AnalysedProbesSkipDeadBranches(text: string)
    ensures Decide(Passthrough, Some(Analyse(text))).reason != PassRewrapReason
    ensures Decide(Auto, Some(Analyse(text))).reason != AutoMismatchReason
  {
    var r := Analyse(text);
    assert FlagChain(r);
    ChainedProbesSkipDeadBranches(r);
  }

  /**
   * Every call's command line drops audio ("-an") exactly when the call
   * passes `hasAudio` false, so the retry always transcodes without audio.
   */
  lemma CallsDropAudioExactlyWhenSilent(mode: Mode, probe: Option<ProbeResult>, first: Reply, second: Reply,
                                        buffer: seq<bv8>, now: nat)
    ensures forall c :: c in Prepare(mode, probe, first, second).calls ==>
      var p := EnginePayload(if c.runner == Transcode then "transcode" else "remux", buffer,
                             Options(None, c.hasAudio, None, None, None), now);
      c.runner == Transcode ==> ("-an" in TranscodeArgs(p) <==> c.hasAudio == Some(false))
  {
    forall c | c in Prepare(mode, probe, first, second).calls
      ensures var p := EnginePayload(if c.runner == Transcode then "transcode" else "remux", buffer,
                                     Options(None, c.hasAudio, None, None, None), now);
        c.runner == Transcode ==> ("-an" in TranscodeArgs(p) <==> c.hasAudio == Some(false))
    {
      var p := EnginePayload(if c.runner == Transcode then "transcode" else "remux", buffer,
                             Options(None, c.hasAudio, None, None, None), now);
      TranscodeSilentIff(p);
    }
  }

  /**
   * `prepareVideo` itself: note the reason, open the worker's progress window
   * (0.33 plus 0.5 for a transcode, 0.35 for a remux), run the engine, and
   * close the window raising the bar to 0.82 (transcode) or 0.7 (remux),
   * whether or not the engine succeeded.
   */
  method PrepareVideo(mode: Mode, probe: Option<ProbeResult>, first: Reply, second: Reply,
                      tracker: ProgressTracker)
    returns (e: Execution)
    modifies tracker
    requires tracker.Valid()
    ensures tracker.Valid()
    ensures e == Prepare(mode, probe, first, second)
    ensures tracker.window == None
    ensures tracker.current == Raised(old(tracker.current),
      if Decide(mode, probe).runner == Transcode then 0.82 else 0.7)
  {
    var notes: seq<string> := [];
    var known := AudioKnown(probe);
    var d := Decide(mode, probe);
    notes := notes + [d.reason];
    assert notes == [d.reason];
    if d.runner == Transcode {
      tracker.StartWorker(0.33, 0.5);
      var calls := [EngineCall(Transcode, AudioOption(known))];
      match first {
        case Ok(bytes) =>
          var description := if known == Some(false) then VideoOnlyDescription else TranscodedDescription;
          e := Execution(calls, Success(VideoPlan(bytes, description, notes)));
        case Err(message) =>
          if !ShouldRetry(known, message) {
            e := Execution(calls, Failure(message));
          } else {
            notes := notes + [RetryNote];
            assert notes == [d.reason, RetryNote];
            calls := calls + [EngineCall(Transcode, Some(false))];
            match second {
              case Ok(bytes) => e := Execution(calls, Success(VideoPlan(bytes, SilentDescription, notes)));
              case Err(again) => e := Execution(calls, Failure(again));
            }
          }
      }
      assert e == TranscodeRun(d.reason, known, first, second);
      tracker.StopWorker(Some(0.82));
    } else {
      tracker.StartWorker(0.33, 0.35);
      match first {
        case Ok(bytes) =>
          e := Execution([EngineCall(Remux, AudioOption(known))], Success(VideoPlan(bytes, RemuxDescription, notes)));
        case Err(message) =>
          e := Execution([EngineCall(Remux, AudioOption(known))], Failure(message));
      }
      assert e == RemuxRun(d.reason, known, first);
      tracker.StopWorker(Some(0.7));
    }
  }
}

/** The sequential parts of the orchestrator: building the deploy command from the
    parsed request, the stack-event poll loop's watermark and termination logic,
    and the layout of one rendered stack event. */
module Orchestrator {
  import opened Wrappers
  import DeployProgress
  import Deploy
  import StackStatus
  import StackEvents

  /** The deployment request, as parsed from the command line. */
  datatype Command = Command(
    stackName: string,
    templateFile: string,
    profile: string,
    params: seq<string>,
    debug: bool,
    kmsKeyId: string,
    s3Bucket: string,
    s3Prefix: string,
    forceUpload: bool)

  /** `m` with `k` set to `v` when `cond` holds, and unchanged otherwise. */
  function SetIf(m: map<string, string>, cond: bool, k: string, v: string): map<string, string> {
    if cond then m[k := v] else m
  }

  /** The arguments the deploy command is given for a request, in the order the
      setters are called. */
  function DeployArgs(c: Command): map<string, string> {
    var m := map[Deploy.StackNameKey := c.stackName][Deploy.TemplateFileKey := c.templateFile];
    var m := SetIf(m, c.profile != "", Deploy.ProfileKey, c.profile);
    var m := SetIf(m, |c.params| > 0, Deploy.ParameterOverridesKey, Deploy.Join(c.params, " "));
    var m := SetIf(m, c.debug, Deploy.DebugKey, "");
    var m := SetIf(m, c.forceUpload, Deploy.ForceUploadKey, "");
    var m := SetIf(m, c.kmsKeyId != "", Deploy.KmsKeyIdKey, c.kmsKeyId);
    var m := SetIf(m, c.s3Bucket != "", Deploy.S3BucketKey, c.s3Bucket);
    SetIf(m, c.s3Prefix != "", Deploy.S3PrefixKey, c.s3Prefix)
  }

  /** Builds the deploy command for a request. */
  method CreateDeployCommand(c: Command) returns (cmd: Deploy.DeployCommand)
    ensures fresh(cmd)
    ensures cmd.args == DeployArgs(c)
  {
    cmd := new Deploy.DeployCommand();
    cmd.SetStackName(c.stackName);
    cmd.SetTemplateFile(c.templateFile);
    if c.profile != "" {
      cmd.SetProfile(c.profile);
    }
    if |c.params| > 0 {
      cmd.SetParameterOverrides(c.params);
    }
    if c.debug {
      cmd.SetDebug();
    }
    if c.forceUpload {
      cmd.SetForceUpload();
    }
    if c.kmsKeyId != "" {
      cmd.SetKmsKeyId(c.kmsKeyId);
    }
    if c.s3Bucket != "" {
      cmd.SetS3Bucket(c.s3Bucket);
    }
    if c.s3Prefix != "" {
      cmd.SetS3Prefix(c.s3Prefix);
    }
  }

  /** Stack name and template file are always passed, even when empty; only known
      flags are ever set. */
  lemma DeployArgsRequired(c: Command)
    ensures DeployArgs(c).Keys <= Deploy.KnownKeys
    ensures Deploy.StackNameKey in DeployArgs(c) && DeployArgs(c)[Deploy.StackNameKey] == c.stackName
    ensures Deploy.TemplateFileKey in DeployArgs(c) && DeployArgs(c)[Deploy.TemplateFileKey] == c.templateFile
  {
  }

  /** The profile is passed exactly when it is non-empty, and the parameters
      exactly when there are some, joined by spaces. */
  lemma DeployArgsProfileAndParameters(c: Command)
    ensures (Deploy.ProfileKey in DeployArgs(c)) == (c.profile != "")
    ensures Deploy.ProfileKey in DeployArgs(c) ==> DeployArgs(c)[Deploy.ProfileKey] == c.profile
    ensures (Deploy.ParameterOverridesKey in DeployArgs(c)) == (|c.params| > 0)
    ensures Deploy.ParameterOverridesKey in DeployArgs(c) ==>
      DeployArgs(c)[Deploy.ParameterOverridesKey] == Deploy.Join(c.params, " ")
  {
  }

  /** The KMS key and the S3 bucket and prefix are each passed exactly when their
      field is non-empty, with that field as the value. */
  lemma DeployArgsUploadSettings(c: Command)
    ensures (Deploy.KmsKeyIdKey in DeployArgs(c)) == (c.kmsKeyId != "")
    ensures Deploy.KmsKeyIdKey in DeployArgs(c) ==> DeployArgs(c)[Deploy.KmsKeyIdKey] == c.kmsKeyId
    ensures (Deploy.S3BucketKey in DeployArgs(c)) == (c.s3Bucket != "")
    ensures Deploy.S3BucketKey in DeployArgs(c) ==> DeployArgs(c)[Deploy.S3BucketKey] == c.s3Bucket
    ensures (Deploy.S3PrefixKey in DeployArgs(c)) == (c.s3Prefix != "")
    ensures Deploy.S3PrefixKey in DeployArgs(c) ==> DeployArgs(c)[Deploy.S3PrefixKey] == c.s3Prefix
  {
  }

  /** The two switches are passed, valueless, exactly when they are on. */
  lemma DeployArgsSwitches(c: Command)
    ensures (Deploy.DebugKey in DeployArgs(c)) == c.debug
    ensures Deploy.DebugKey in DeployArgs(c) ==> DeployArgs(c)[Deploy.DebugKey] == ""
    ensures (Deploy.ForceUploadKey in DeployArgs(c)) == c.forceUpload
    ensures Deploy.ForceUploadKey in DeployArgs(c) ==> DeployArgs(c)[Deploy.ForceUploadKey] == ""
  {
  }

  /** An empty stack name is still passed, and renders as the bare flag
      `--stack-name` somewhere in the arguments, whatever their order. */
  lemma EmptyStackNameBareFlag(c: Command, order: seq<string>)
    requires c.stackName == ""
    requires forall k :: k in order ==> k in DeployArgs(c)
    requires Deploy.StackNameKey in order
    ensures exists p :: Deploy.GroupAt(Deploy.Render(DeployArgs(c), order), p, ["--stack-name"])
  {
    DeployArgsRequired(c);
    Deploy.RenderHasGroup(DeployArgs(c), order, Deploy.StackNameKey);
    assert "--" + Deploy.StackNameKey == "--stack-name" by {
      assert forall i :: 0 <= i < 12 ==> ("--" + Deploy.StackNameKey)[i] == "--stack-name"[i];
    }
    assert DeployArgs(c)[Deploy.StackNameKey] == "";
    assert Deploy.Group(Deploy.StackNameKey, "") == ["--stack-name"];
    var p :| Deploy.GroupAt(Deploy.Render(DeployArgs(c), order), p,
      Deploy.Group(Deploy.StackNameKey, DeployArgs(c)[Deploy.StackNameKey]));
    assert Deploy.GroupAt(Deploy.Render(DeployArgs(c), order), p, ["--stack-name"]);
  }

  // ---------------------------------------------------------------------------
  // The stack-event poller

  /** Five seconds, in nanoseconds: how far before the start the first watermark lies. */
  const SafetyMargin: int := 5_000_000_000

  /** What one pass of the poll loop's `select` sees: a progress code received
      from the stdout reader, or none (the default branch), together with what
      the client would answer if queried during this pass. */
  datatype Tick = Tick(
    signal: Option<int>,
    response: Result<seq<StackEvents.RawEvent>, StackEvents.QueryError>)

  /** The poller's own state: the watermark and whether it has returned. */
  datatype PollState = PollState(watermark: int, stopped: bool)

  /** The outcome of one pass: the new state, the events written, and whether the
      client was queried. */
  datatype StepResult = StepResult(state: PollState, written: seq<StackEvents.Event>, fetched: bool)

  /** After a successful fetch the watermark moves to the last returned event's
      timestamp, and stays put when nothing was returned. */
  function NextWatermark(t: int, events: seq<StackEvents.Event>): (w: int)
    ensures events == [] ==> w == t
    ensures events != [] ==> w == events[|events| - 1].timestamp
    ensures StackEvents.Chronological(events) ==> forall e :: e in events ==> e.timestamp <= w
  {
    if |events| > 0 then events[|events| - 1].timestamp else t
  }

  /** One pass of the loop as the source writes it. When the final read after
      end of stream fails, `break` leaves only the `select`, so the loop goes on. */
  function PollStepAsWritten(s: PollState, tick: Tick): (r: StepResult)
    ensures s.stopped ==> r == StepResult(s, [], false)
    ensures r.fetched <==> !s.stopped && (tick.signal.None? || tick.signal == Some(DeployProgress.ProgressEOF))
    ensures r.state.stopped <==>
      s.stopped || (tick.signal == Some(DeployProgress.ProgressEOF) && tick.response.Success?)
    ensures r.state.watermark != s.watermark ==> tick.signal.None? && tick.response.Success?
    ensures r.written != [] ==> r.fetched && tick.response.Success?
  {
    if s.stopped then StepResult(s, [], false)
    else match tick.signal
      case Some(p) =>
        if p != DeployProgress.ProgressEOF then StepResult(s, [], false)
        else (match tick.response
          case Failure(_) => StepResult(s, [], true)
          case Success(raw) =>
            StepResult(PollState(s.watermark, true), StackEvents.ReadResult(raw, s.watermark), true))
      case None =>
        match tick.response
        case Failure(_) => StepResult(s, [], true)
        case Success(raw) =>
          var events := StackEvents.ReadResult(raw, s.watermark);
          StepResult(PollState(NextWatermark(s.watermark, events), false), events, true)
  }

  /** One pass of the loop as intended: end of stream always ends the poller after
      the final read, whether or not that read succeeds. */
  function PollStep(s: PollState, tick: Tick): (r: StepResult)
    ensures s.stopped ==> r == StepResult(s, [], false)
    ensures r.fetched <==> !s.stopped && (tick.signal.None? || tick.signal == Some(DeployProgress.ProgressEOF))
    ensures r.state.stopped <==> s.stopped || tick.signal == Some(DeployProgress.ProgressEOF)
    ensures r.state.watermark != s.watermark ==> tick.signal.None? && tick.response.Success?
    ensures r.written != [] ==> r.fetched && tick.response.Success?
  {
    if !s.stopped && tick.signal == Some(DeployProgress.ProgressEOF) && tick.response.Failure? then
      StepResult(PollState(s.watermark, true), [], true)
    else PollStepAsWritten(s, tick)
  }

  /** The outcome of a run of passes: final state, events written in order, and
      the number of client queries. */
  datatype RunResult = RunResult(state: PollState, written: seq<StackEvents.Event>, fetches: nat)

  /** Runs passes with `step` over `ticks` until the poller stops or the ticks end. */
  function Run(step: (PollState, Tick) -> StepResult, s: PollState, ticks: seq<Tick>): (r: RunResult)
    ensures r.fetches <= |ticks|
    ensures s.stopped ==> r == RunResult(s, [], 0)
    decreases |ticks|
  {
    if ticks == [] || s.stopped then RunResult(s, [], 0)
    else
      var r := step(s, ticks[0]);
      var rest := Run(step, r.state, ticks[1..]);
      RunResult(rest.state, r.written + rest.written, (if r.fetched then 1 else 0) + rest.fetches)
  }

  /** One pass of the loop body against a client that answers `tick.response`:
      returns the new watermark, the events written, whether the client was
      queried and whether the poller returns. */
  method Pass(stack: string, t: int, tick: Tick)
    returns (t': int, written: seq<StackEvents.Event>, fetched: bool, stopped: bool)
    ensures PollStep(PollState(t, false), tick) == StepResult(PollState(t', stopped), written, fetched)
  {
    var client := (name: string) => tick.response;
    t', written, fetched, stopped := t, [], false, false;
    if tick.signal.Some? {
      if tick.signal.value == DeployProgress.ProgressEOF {
        var events := StackEvents.Read(client, t, stack);
        fetched := true;
        if events.Success? {
          written := events.value;
        }
        stopped := true;
      }
    } else {
      var events := StackEvents.Read(client, t, stack);
      fetched := true;
      if events.Success? {
        written := events.value;
        if |events.value| > 0 {
          t' := events.value[|events.value| - 1].timestamp;
        }
      }
    }
  }

  /** A run that has not stopped is its first pass followed by the run of the rest. */
  lemma RunUnfold(step: (PollState, Tick) -> StepResult, s: PollState, ticks: seq<Tick>)
    requires ticks != [] && !s.stopped
    ensures var r := step(s, ticks[0]);
      var rest := Run(step, r.state, ticks[1..]);
      Run(step, s, ticks) == RunResult(rest.state, r.written + rest.written, (if r.fetched then 1 else 0) + rest.fetches)
  {
  }

  /** Running two lists of passes one after the other is running their
      concatenation: the second starts where the first left off. */
  lemma {:induction false} RunAppend(step: (PollState, Tick) -> StepResult, s: PollState, a: seq<Tick>, b: seq<Tick>)
    ensures var x := Run(step, s, a);
      var y := Run(step, x.state, b);
      Run(step, s, a + b) == RunResult(y.state, x.written + y.written, x.fetches + y.fetches)
    decreases |a|
  {
    if s.stopped {
    } else if a == [] {
      assert a + b == b;
      assert [] + Run(step, s, b).written == Run(step, s, b).written;
    } else {
      var r := step(s, a[0]);
      assert (a + b)[0] == a[0] && (a + b)[1..] == a[1..] + b;
      RunUnfold(step, s, a + b);
      RunUnfold(step, s, a);
      RunAppend(step, r.state, a[1..], b);
      var x := Run(step, r.state, a[1..]);
      var y := Run(step, x.state, b);
      assert r.written + (x.written + y.written) == (r.written + x.written) + y.written;
    }
  }

  /** A stopped poller, or one with no passes left, writes nothing and queries nothing. */
  lemma RunDone(step: (PollState, Tick) -> StepResult, s: PollState, ticks: seq<Tick>)
    requires ticks == [] || s.stopped
    ensures Run(step, s, ticks) == RunResult(s, [], 0)
  {
  }

  /** The loop's invariant: what has been written and counted so far, followed by
      the run of the remaining passes from the current state, is the whole run. */
  ghost predicate LoopInv(t0: int, ticks: seq<Tick>, i: int, t: int, stopped: bool,
                          written: seq<StackEvents.Event>, fetches: nat)
  {
    0 <= i <= |ticks| &&
    var rest := Run(PollStep, PollState(t, stopped), ticks[i..]);
    Run(PollStep, PollState(t0, false), ticks)
      == RunResult(rest.state, written + rest.written, fetches + rest.fetches)
  }

  lemma LoopInvInit(t0: int, ticks: seq<Tick>)
    ensures LoopInv(t0, ticks, 0, t0, false, [], 0)
  {
    assert ticks[0..] == ticks;
  }

  /** One more pass keeps the invariant. */
  lemma LoopInvStep(t0: int, ticks: seq<Tick>, i: int, t: int, written: seq<StackEvents.Event>, fetches: nat,
                    r: StepResult)
    requires LoopInv(t0, ticks, i, t, false, written, fetches)
    requires i < |ticks|
    requires r == PollStep(PollState(t, false), ticks[i])
    ensures LoopInv(t0, ticks, i + 1, r.state.watermark, r.state.stopped, written + r.written,
                    fetches + (if r.fetched then 1 else 0))
  {
    assert ticks[i..][0] == ticks[i];
    assert ticks[i..][1..] == ticks[i + 1..];
    RunUnfold(PollStep, PollState(t, false), ticks[i..]);
    var rest := Run(PollStep, r.state, ticks[i + 1..]);
    assert r.state == PollState(r.state.watermark, r.state.stopped);
    assert written + (r.written + rest.written) == (written + r.written) + rest.written;
  }

  /** When the loop ends, everything has been written and counted. */
  lemma LoopInvExit(t0: int, ticks: seq<Tick>, i: int, t: int, stopped: bool,
                    written: seq<StackEvents.Event>, fetches: nat)
    requires LoopInv(t0, ticks, i, t, stopped, written, fetches)
    requires i == |ticks| || stopped
    ensures var r := Run(PollStep, PollState(t0, false), ticks);
      written == r.written && fetches == r.fetches && stopped == r.state.stopped
  {
    RunDone(PollStep, PollState(t, stopped), ticks[i..]);
    assert written + [] == written;
  }

  /** The poll loop from watermark `t0` over the passes `ticks`. */
  method PollLoop(stack: string, t0: int, ticks: seq<Tick>)
    returns (written: seq<StackEvents.Event>, fetches: nat, stopped: bool)
    ensures var r := Run(PollStep, PollState(t0, false), ticks);
      written == r.written && fetches == r.fetches && stopped == r.state.stopped
  {
    var t := t0;
    written, fetches, stopped := [], 0, false;
    var i := 0;
    LoopInvInit(t0, ticks);
    while i < |ticks| && !stopped
      invariant LoopInv(t0, ticks, i, t, stopped, written, fetches)
      decreases |ticks| - i
    {
      var t', batch, fetched, stop := Pass(stack, t, ticks[i]);
      LoopInvStep(t0, ticks, i, t, written, fetches, StepResult(PollState(t', stop), batch, fetched));
      t, written, stopped := t', written + batch, stop;
      if fetched {
        fetches := fetches + 1;
      }
      i := i + 1;
    }
    LoopInvExit(t0, ticks, i, t, stopped, written, fetches);
  }

  /** The poller: waits for the first progress code and does nothing on
      NoChangeset; otherwise opens the session (whose failure ends the poller) and
      runs the loop from a watermark five seconds before `now`. Returns the events
      written, the number of queries made and whether the poller returned. */
  method ReadStackEvents(c: Command, first: int, sessionOk: bool, now: int, ticks: seq<Tick>)
    returns (written: seq<StackEvents.Event>, fetches: nat, stopped: bool)
    ensures first == DeployProgress.ProgressNoChangeset ==> written == [] && fetches == 0 && stopped
    ensures first != DeployProgress.ProgressNoChangeset && !sessionOk ==>
      written == [] && fetches == 0 && stopped
    ensures first != DeployProgress.ProgressNoChangeset && sessionOk ==>
      var r := Run(PollStep, PollState(now - SafetyMargin, false), ticks);
      written == r.written && fetches == r.fetches && stopped == r.state.stopped
  {
    if first == DeployProgress.ProgressNoChangeset || !sessionOk {
      return [], 0, true;
    }
    written, fetches, stopped := PollLoop(c.stackName, now - SafetyMargin, ticks);
  }

  // ---------------------------------------------------------------------------
  // Properties of the poller

  /** A successful fetch never moves the watermark back, and moves it strictly
      forward whenever it returns events. */
  lemma WatermarkAdvances(t: int, raw: seq<StackEvents.RawEvent>)
    ensures var events := StackEvents.ReadResult(raw, t);
      NextWatermark(t, events) >= t && (events != [] ==> NextWatermark(t, events) > t)
  {
    var events := StackEvents.ReadResult(raw, t);
    StackEvents.ReadResultAfter(raw, t);
    if events != [] {
      assert events[|events| - 1] in events;
    }
  }

  /** Given a newest-first list, the new watermark is the newest returned event. */
  lemma WatermarkCoversBatch(t: int, raw: seq<StackEvents.RawEvent>)
    requires StackEvents.NewestFirst(raw)
    ensures var events := StackEvents.ReadResult(raw, t);
      forall e :: e in events ==> e.timestamp <= NextWatermark(t, events)
  {
    var events := StackEvents.ReadResult(raw, t);
    StackEvents.ReadResultChronological(raw, t);
    forall e | e in events ensures e.timestamp <= NextWatermark(t, events) {
      var k :| 0 <= k < |events| && events[k] == e;
      if k < |events| - 1 {
        assert events[k].timestamp <= events[|events| - 1].timestamp;
      }
    }
  }

  lemma PollStepMonotone(s: PollState, tick: Tick)
    ensures PollStep(s, tick).state.watermark >= s.watermark
    ensures forall e :: e in PollStep(s, tick).written ==> e.timestamp > s.watermark
  {
    if tick.response.Success? {
      WatermarkAdvances(s.watermark, tick.response.value);
      StackEvents.ReadResultAfter(tick.response.value, s.watermark);
    }
  }

  /** Over a whole run the watermark never decreases and every written event is
      newer than the watermark the run started from. */
  lemma {:induction false} RunMonotone(s: PollState, ticks: seq<Tick>)
    ensures Run(PollStep, s, ticks).state.watermark >= s.watermark
    ensures forall e :: e in Run(PollStep, s, ticks).written ==> e.timestamp > s.watermark
    decreases |ticks|
  {
    if ticks != [] && !s.stopped {
      var r := PollStep(s, ticks[0]);
      PollStepMonotone(s, ticks[0]);
      RunMonotone(r.state, ticks[1..]);
    }
  }

  /** Every response the client gives is newest first. */
  predicate ResponsesNewestFirst(ticks: seq<Tick>) {
    forall i :: 0 <= i < |ticks| && ticks[i].response.Success? ==>
      StackEvents.NewestFirst(ticks[i].response.value)
  }

  /** When the client lists events newest first, the poller writes them in
      non-decreasing timestamp order across all passes. */
  lemma {:induction false} RunChronological(s: PollState, ticks: seq<Tick>)
    requires ResponsesNewestFirst(ticks)
    ensures StackEvents.Chronological(Run(PollStep, s, ticks).written)
    decreases |ticks|
  {
    if ticks != [] && !s.stopped {
      var tick := ticks[0];
      var r := PollStep(s, tick);
      var rest := Run(PollStep, r.state, ticks[1..]);
      assert ResponsesNewestFirst(ticks[1..]) by {
        forall i | 0 <= i < |ticks[1..]| && ticks[1..][i].response.Success?
          ensures StackEvents.NewestFirst(ticks[1..][i].response.value)
        {
          assert ticks[1..][i] == ticks[i + 1];
        }
      }
      RunChronological(r.state, ticks[1..]);
      RunMonotone(r.state, ticks[1..]);
      if tick.response.Success? && r.written != [] {
        StackEvents.ReadResultChronological(tick.response.value, s.watermark);
        WatermarkCoversBatch(s.watermark, tick.response.value);
        var w := r.written + rest.written;
        forall i, j | 0 <= i < j < |w| ensures w[i].timestamp <= w[j].timestamp {
          if j >= |r.written| && i < |r.written| {
            assert w[i] in r.written && w[j] in rest.written;
          }
        }
      }
    }
  }

  /** With newest-first answers, every event a pass writes is strictly older than
      every event written by later passes, so no event is written twice. */
  lemma PassPrecedesRest(s: PollState, ticks: seq<Tick>)
    requires ticks != [] && !s.stopped
    requires ResponsesNewestFirst(ticks)
    ensures var r := PollStep(s, ticks[0]);
      forall a, b :: a in r.written && b in Run(PollStep, r.state, ticks[1..]).written ==>
        a.timestamp < b.timestamp
  {
    var r := PollStep(s, ticks[0]);
    RunMonotone(r.state, ticks[1..]);
    if ticks[0].response.Success? {
      WatermarkCoversBatch(s.watermark, ticks[0].response.value);
    }
  }

  /** Some pass receives the end-of-stream code. */
  predicate SeesEndOfStream(ticks: seq<Tick>) {
    exists k :: 0 <= k < |ticks| && ticks[k].signal == Some(DeployProgress.ProgressEOF)
  }

  /** The poller returns exactly when it receives the end-of-stream code. */
  lemma {:induction false} RunStopsIffEndOfStream(t: int, ticks: seq<Tick>)
    ensures Run(PollStep, PollState(t, false), ticks).state.stopped <==> SeesEndOfStream(ticks)
    decreases |ticks|
  {
    if ticks != [] {
      var r := PollStep(PollState(t, false), ticks[0]);
      if ticks[0].signal == Some(DeployProgress.ProgressEOF) {
        assert r.state.stopped;
      } else {
        assert !r.state.stopped;
        RunStopsIffEndOfStream(r.state.watermark, ticks[1..]);
        if SeesEndOfStream(ticks) {
          var k :| 0 <= k < |ticks| && ticks[k].signal == Some(DeployProgress.ProgressEOF);
          assert ticks[1..][k - 1] == ticks[k];
        }
        if SeesEndOfStream(ticks[1..]) {
          var k :| 0 <= k < |ticks[1..]| && ticks[1..][k].signal == Some(DeployProgress.ProgressEOF);
          assert ticks[k + 1] == ticks[1..][k];
        }
      }
    }
  }

  /** Without an end-of-stream code, neither the first pass nor the rest has one. */
  lemma NoEndOfStreamTail(ticks: seq<Tick>)
    requires ticks != [] && !SeesEndOfStream(ticks)
    ensures ticks[0].signal != Some(DeployProgress.ProgressEOF)
    ensures !SeesEndOfStream(ticks[1..])
  {
    assert forall k :: 0 <= k < |ticks[1..]| ==> ticks[1..][k] == ticks[k + 1];
  }

  /** The base case: a pass that sees end of stream queries once and stops. */
  lemma EndOfStreamFirst(s: PollState, eof: Tick, later: seq<Tick>)
    requires !s.stopped
    requires eof.signal == Some(DeployProgress.ProgressEOF)
    ensures var e := PollStep(s, eof);
      e.state.stopped && e.fetched
      && Run(PollStep, s, [eof] + later) == RunResult(e.state, e.written, 1)
  {
    var e := PollStep(s, eof);
    var all := [eof] + later;
    assert all[0] == eof && all[1..] == later;
    RunUnfold(PollStep, s, all);
    RunDone(PollStep, e.state, later);
    assert e.written + [] == e.written;
  }

  /** End of stream makes exactly one final query; nothing after it matters. */
  lemma RunEndsAtEndOfStream(s: PollState, ticks: seq<Tick>, eof: Tick, later: seq<Tick>)
    requires !s.stopped
    requires eof.signal == Some(DeployProgress.ProgressEOF)
    requires !SeesEndOfStream(ticks)
    ensures var r := Run(PollStep, s, ticks + [eof] + later);
      var before := Run(PollStep, s, ticks);
      r.state.stopped
      && r.fetches == before.fetches + 1
      && r.written == before.written + PollStep(before.state, eof).written
  {
    assert ticks + [eof] + later == ticks + ([eof] + later);
    RunAppend(PollStep, s, ticks, [eof] + later);
    RunStopsIffEndOfStream(s.watermark, ticks);
    EndOfStreamFirst(Run(PollStep, s, ticks).state, eof, later);
  }

  /** The first scenario: after "Waiting for changeset to be created" the very
      next code is end of stream; the poller makes one query, writes what it
      returned and stops. */
  lemma EndOfStreamOnlyScenario(t: int, raw: seq<StackEvents.RawEvent>)
    ensures Run(PollStep, PollState(t, false), [Tick(Some(DeployProgress.ProgressEOF), Success(raw))])
      == RunResult(PollState(t, true), StackEvents.ReadResult(raw, t), 1)
  {
    var ticks := [Tick(Some(DeployProgress.ProgressEOF), Success(raw))];
    assert ticks[1..] == [];
    assert StackEvents.ReadResult(raw, t) + [] == StackEvents.ReadResult(raw, t);
  }

  /** With the step as written, a failed final read leaves the poller running, and
      since the stdout reader sends nothing after end of stream, it keeps running
      through any number of later passes: the poller never returns. */
  lemma {:induction false} FinalReadFailureNeverStopsAsWritten(t: int, err: StackEvents.QueryError, later: seq<Tick>)
    requires forall i :: 0 <= i < |later| ==> later[i].signal == None
    ensures !PollStepAsWritten(PollState(t, false), Tick(Some(DeployProgress.ProgressEOF), Failure(err))).state.stopped
    ensures !Run(PollStepAsWritten, PollState(t, false), later).state.stopped
    decreases |later|
  {
    if later != [] {
      var r := PollStepAsWritten(PollState(t, false), later[0]);
      assert !r.state.stopped;
      FinalReadFailureNeverStopsAsWritten(r.state.watermark, err, later[1..]);
    }
  }

  /** With the corrected step, end of stream stops the poller whatever the read. */
  lemma PollStepStopsAtEndOfStream(s: PollState, response: Result<seq<StackEvents.RawEvent>, StackEvents.QueryError>)
    ensures PollStep(s, Tick(Some(DeployProgress.ProgressEOF), response)).state.stopped
    ensures !s.stopped ==> PollStep(s, Tick(Some(DeployProgress.ProgressEOF), response)).fetched
  {
  }

  // ---------------------------------------------------------------------------
  // Rendering one stack event

  /** The terminal styles used; their escape codes are left abstract. */
  datatype Style = Green | Red | Blue | Underline | Faint | Italic

  /** The colour of the status by its class: Ok green, Fail red, Progress blue,
      Unknown plain. */
  function StatusStyle(status: string): Option<Style> {
    var kind := StackStatus.StatusType(status);
    if kind == StackStatus.Ok then Some(Green)
    else if kind == StackStatus.Fail then Some(Red)
    else if kind == StackStatus.Progress then Some(Blue)
    else None
  }

  function Styled(style: Option<Style>, text: string, paint: (Style, string) -> string): string {
    match style
    case None => text
    case Some(st) => paint(st, text)
  }

  /** Eight spaces of indentation for the reason line. */
  const Pad: string := "        "

  /** The lines of the block written for one event: a header, the reason if there
      is one, and a blank line. */
  function EventLines(e: StackEvents.Event, paint: (Style, string) -> string, clock: int -> string): (lines: seq<string>)
    ensures |lines| == (if e.resourceStatusReason != "" then 3 else 2)
    ensures lines[|lines| - 1] == ""
    ensures e.resourceStatusReason != "" ==> lines[1] == Pad + " " + paint(Italic, e.resourceStatusReason)
  {
    var header := paint(Faint, clock(e.timestamp)) + " " + paint(Underline, e.logicalResourceId) + " "
      + e.physicalResourceId + " " + Styled(StatusStyle(e.resourceStatus), e.resourceStatus, paint);
    [header] + (if e.resourceStatusReason != "" then [Pad + " " + paint(Italic, e.resourceStatusReason)] else []) + [""]
  }

  /** Each line followed by a newline. */
  function Terminated(lines: seq<string>): string {
    if lines == [] then "" else lines[0] + "\n" + Terminated(lines[1..])
  }

  /** Formats one event as it is written to the console; `paint` stands for the
      colour library and `clock` for the `15:04:05` time format. */
  method WriteStackEvent(e: StackEvents.Event, paint: (Style, string) -> string, clock: int -> string)
    returns (out: string)
    ensures out == Terminated(EventLines(e, paint, clock))
  {
    var status := e.resourceStatus;
    if e.IsOk() {
      status := paint(Green, status);
    } else if e.IsFailure() {
      status := paint(Red, status);
    } else if e.IsProgress() {
      status := paint(Blue, status);
    }
    var id := paint(Underline, e.logicalResourceId);
    var t := paint(Faint, clock(e.timestamp));
    var b := "";
    b := b + (t + " " + id + " " + e.physicalResourceId + " " + status);
    b := b + "\n";
    if e.resourceStatusReason != "" {
      b := b + (Pad + " " + paint(Italic, e.resourceStatusReason) + "\n");
    }
    b := b + "\n";
    out := b;
    StatusStyleMatchesTests(e);
    assert status == Styled(StatusStyle(e.resourceStatus), e.resourceStatus, paint);
    var header := t + " " + id + " " + e.physicalResourceId + " " + status;
    if e.resourceStatusReason != "" {
      var reason := Pad + " " + paint(Italic, e.resourceStatusReason);
      TerminatedBlock(header, [reason]);
      assert out == header + "\n" + (reason + "\n") + "\n";
    } else {
      TerminatedBlock(header, []);
      assert out == header + "\n" + "\n";
    }
  }

  /** A header, at most one further line and a blank line, each followed by a
      newline. */
  lemma TerminatedBlock(header: string, middle: seq<string>)
    requires |middle| <= 1
    ensures Terminated([header] + middle + [""])
      == header + "\n" + (if middle == [] then "" else middle[0] + "\n") + "\n"
  {
    var lines := [header] + middle + [""];
    assert lines[1..] == middle + [""];
    assert Terminated([""]) == "\n" by {
      assert [""][1..] == [];
    }
    if middle != [] {
      assert lines[1..][1..] == [""];
    }
  }

  /** The if-else chain on IsOk, IsFailure and IsProgress picks the same style as
      the class table, because the three tests exclude one another. */
  lemma StatusStyleMatchesTests(e: StackEvents.Event)
    ensures StatusStyle(e.resourceStatus) == Some(Green) <==> e.IsOk()
    ensures StatusStyle(e.resourceStatus) == Some(Red) <==> e.IsFailure()
    ensures StatusStyle(e.resourceStatus) == Some(Blue) <==> e.IsProgress()
    ensures StatusStyle(e.resourceStatus) == None <==> e.resourceStatus !in StackStatus.StatusMap
  {
    StackEvents.StatusTestsExclusive(e);
  }
}

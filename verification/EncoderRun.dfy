/** What a run of `FFmpegEncoder` in internal/encode/ffmpeg.go does, as a function of what
    reader and writer goroutines do between two steps of the encoder and of what the operating
    system answers. */
module EncoderRun {
  import opened Basics

  const NAL_CAPACITY := 4
  const WRITE_CAPACITY := 2

  datatype I420Frame = I420Frame(y: Bytes, u: Bytes, v: Bytes)

  /** What goes to ffmpeg's standard input for a frame. */
  function Raw(frame: I420Frame): Bytes {
    frame.y + frame.u + frame.v
  }

  /** A step of a goroutine of this or an earlier process: a reader offers a chunk, `running`
      is cleared or set, the writer takes a frame. */
  datatype Env = Emit(nal: Bytes) | Running(on: bool) | WriterTakes

  /** The chunks that readers offer in some steps. */
  function Emits(steps: seq<Env>): seq<Bytes> {
    if steps == [] then []
    else
      var e := steps[|steps| - 1];
      Emits(steps[..|steps| - 1]) + if e.Emit? then [e.nal] else []
  }

  /** How the wait for the first frame ends. Only `Close` cancels the context, so `Cancelled`
      means that it has been called meanwhile. */
  datatype Wait = GotNal | Timeout | Cancelled

  /** What one `Encode` meets. */
  datatype Plan = Plan(
    before: seq<Env>,
    kill: seq<seq<Env>>,       // while restart drains
    startOk: bool,
    starting: seq<Env>,
    drain: seq<seq<Env>>,      // before each receive of the drain loop
    sending: seq<Env>,
    waiting: seq<Env>,
    wait: Wait)

  // ---------------------------------------------------------------- what a run does

  /** The encoder's fields, `frames` and `offered` those of its current write channel, and the
      history: the goroutine steps that happened, how many chunks met a full `nalCh`, how many
      were thrown away by `kill` or by a cancelled call, how many restarts there were. */
  datatype State = State(
    nalCh: seq<Bytes>,
    running: bool,
    firstFrame: bool,
    frames: seq<Bytes>,
    offered: seq<Bytes>,
    happened: seq<Env>,
    dropped: nat,
    discarded: nat,
    restarts: nat)

  /** A state and what a call returned on the way to it. */
  datatype After<R> = After(now: State, result: R)

  const FRESH := State([], true, true, [], [], [], 0, 0, 0)

  function Happen(s: State, e: Env): State {
    var t := s.(happened := s.happened + [e]);
    match e
    case Emit(nal) =>
      if |s.nalCh| < NAL_CAPACITY then t.(nalCh := s.nalCh + [nal]) else t.(dropped := s.dropped + 1)
    case Running(on) => t.(running := on)
    case WriterTakes => t.(frames := Rest(s.frames))
  }

  function HappenAll(s: State, steps: seq<Env>): State {
    if steps == [] then s else Happen(HappenAll(s, steps[..|steps| - 1]), steps[|steps| - 1])
  }

  /** The first of some rounds of goroutine steps, if there is one. */
  function Round(s: State, rounds: seq<seq<Env>>): State {
    if rounds == [] then s else HappenAll(s, rounds[0])
  }

  /** Receive until the channel is found empty. */
  function Drained(s: State, rounds: seq<seq<Env>>): After<seq<Bytes>>
    decreases |rounds|, |s.nalCh|
  {
    var t := Round(s, rounds);
    if t.nalCh == [] then After(t, [])
    else
      var d := Drained(t.(nalCh := t.nalCh[1..]), Rest(rounds));
      After(d.now, [t.nalCh[0]] + d.result)
  }

  /** The same, throwing away what is received. */
  function Killed(s: State, rounds: seq<seq<Env>>): State
    decreases |rounds|, |s.nalCh|
  {
    var t := Round(s, rounds);
    if t.nalCh == [] then t
    else Killed(t.(nalCh := t.nalCh[1..], discarded := t.discarded + 1), Rest(rounds))
  }

  /** The old write channel closed and a new one made. */
  function Renewed(s: State, rounds: seq<seq<Env>>): State {
    Killed(s, rounds).(frames := [], offered := [], restarts := s.restarts + 1)
  }

  function Restarted(s: State, plan: Plan): State {
    var t := HappenAll(Renewed(s, plan.kill), plan.starting);
    if plan.startOk then t.(running := true) else t
  }

  /** The call finds no process running. */
  predicate FindsStopped(s: State, plan: Plan) {
    !HappenAll(s, plan.before).running
  }

  function Ready(s: State, plan: Plan): State {
    var t := HappenAll(s, plan.before);
    if t.running then t else Restarted(t, plan)
  }

  function Offered(s: State, raw: Bytes): State {
    s.(frames := s.frames + (if |s.frames| < WRITE_CAPACITY then [raw] else []),
       offered := s.offered + [raw])
  }

  function Waited(s: State, plan: Plan, result: seq<Bytes>): After<Option<seq<Bytes>>> {
    var t := HappenAll(s, plan.waiting);
    if plan.wait == Cancelled then After(t.(discarded := t.discarded + |result|), None)
    else if plan.wait == GotNal && t.nalCh != [] then
      After(t.(nalCh := t.nalCh[1..]), Some(result + [t.nalCh[0]]))
    else After(t, Some(result))
  }

  /** Drain, then offer the frame. */
  function Traded(s: State, frame: I420Frame, plan: Plan): After<seq<Bytes>> {
    var d := Drained(s, plan.drain);
    After(Offered(HappenAll(d.now, plan.sending), Raw(frame)), d.result)
  }

  /** The same, and for the first frame wait. */
  function Exchanged(s: State, frame: I420Frame, plan: Plan): After<Option<seq<Bytes>>> {
    var t := Traded(s, frame, plan);
    if t.now.firstFrame then Waited(t.now.(firstFrame := false), plan, t.result) else After(t.now, Some(t.result))
  }

  /** One `Encode`: `None` is an error return. */
  function Encoded(s: State, frame: I420Frame, plan: Plan): After<Option<seq<Bytes>>> {
    var t := Ready(s, plan);
    if FindsStopped(s, plan) && !plan.startOk then After(t, None) else Exchanged(t, frame, plan)
  }

  /** The arguments of one `Encode` and what it meets. */
  datatype Request = Request(frame: I420Frame, plan: Plan)

  /** `NewFFmpegEncoder` and some calls of `Encode`. */
  function Run(calls: seq<Request>): After<seq<Option<seq<Bytes>>>> {
    if calls == [] then After(FRESH, [])
    else
      var before, c := Run(calls[..|calls| - 1]), calls[|calls| - 1];
      var e := Encoded(before.now, c.frame, c.plan);
      After(e.now, before.result + [e.result])
  }

  /** All chunks that the callers got. */
  function Delivered(results: seq<Option<seq<Bytes>>>): seq<Bytes> {
    if results == [] then []
    else
      var r := results[|results| - 1];
      Delivered(results[..|results| - 1]) + if r.Some? then r.value else []
  }

  // ---------------------------------------------------------------- order and accounting

  /** `out` has been received so far: it and the queue are, in order, among what was emitted,
      and every chunk is accounted for. */
  ghost predicate Sound(s: State, out: seq<Bytes>) {
    && |s.nalCh| <= NAL_CAPACITY && Subsequence(out + s.nalCh, Emits(s.happened))
    && |out| + |s.nalCh| + s.dropped + s.discarded == |Emits(s.happened)|
  }

  lemma EmitsSnoc(steps: seq<Env>, e: Env)
    ensures Emits(steps + [e]) == if e.Emit? then Emits(steps) + [e.nal] else Emits(steps)
  {
    InitOfSnoc(steps, e);
    Nil(Emits(steps));
  }

  lemma HappenSound(s: State, e: Env, out: seq<Bytes>)
    requires Sound(s, out)
    ensures Sound(Happen(s, e), out)
  {
    EmitsSnoc(s.happened, e);
    if e.Emit? {
      if |s.nalCh| < NAL_CAPACITY {
        SubsequenceKeep(out + s.nalCh, Emits(s.happened), e.nal);
        Assoc(out, s.nalCh, [e.nal]);
      } else {
        SubsequenceSkip(out + s.nalCh, Emits(s.happened), e.nal);
      }
    }
  }

  lemma {:induction false} HappenAllSound(s: State, steps: seq<Env>, out: seq<Bytes>)
    requires Sound(s, out)
    ensures Sound(HappenAll(s, steps), out)
    decreases |steps|
  {
    if steps != [] {
      HappenAllSound(s, steps[..|steps| - 1], out);
      HappenSound(HappenAll(s, steps[..|steps| - 1]), steps[|steps| - 1], out);
    }
  }

  lemma TakeSound(s: State, out: seq<Bytes>)
    requires Sound(s, out) && s.nalCh != []
    ensures Sound(s.(nalCh := s.nalCh[1..]), out + [s.nalCh[0]])
    ensures Sound(s.(nalCh := s.nalCh[1..], discarded := s.discarded + 1), out)
  {
    var q := s.nalCh;
    Assoc(out, [q[0]], q[1..]);
    assert [q[0]] + q[1..] == q;
    SubsequenceDrop(out, [q[0]], q[1..], Emits(s.happened));
  }

  /** What the goroutines cannot do. */
  lemma {:induction false} HappenAllKeeps(s: State, steps: seq<Env>)
    ensures var t := HappenAll(s, steps);
            && s.nalCh <= t.nalCh && t.discarded == s.discarded && t.restarts == s.restarts
            && t.firstFrame == s.firstFrame && t.offered == s.offered
    ensures HappenAll(s, steps).happened == s.happened + steps
    decreases |steps|
  {
    if steps == [] {
      Nil(s.happened);
    } else {
      var n := |steps| - 1;
      HappenAllKeeps(s, steps[..n]);
      Snoc(steps);
      Assoc(s.happened, steps[..n], [steps[n]]);
    }
  }

  lemma RoundSound(s: State, rounds: seq<seq<Env>>, out: seq<Bytes>)
    requires Sound(s, out)
    ensures Sound(Round(s, rounds), out)
    ensures Round(s, rounds).discarded == s.discarded && s.nalCh <= Round(s, rounds).nalCh
  {
    if rounds != [] {
      HappenAllSound(s, rounds[0], out);
      HappenAllKeeps(s, rounds[0]);
    }
  }

  /** Nothing queued on entry is left behind or overtaken. */
  lemma {:induction false} DrainedSound(s: State, rounds: seq<seq<Env>>, out: seq<Bytes>)
    requires Sound(s, out)
    ensures var d := Drained(s, rounds);
            Sound(d.now, out + d.result) && d.now.nalCh == [] && d.now.discarded == s.discarded
    ensures s.nalCh <= Drained(s, rounds).result
    decreases |rounds|, |s.nalCh|
  {
    var t := Round(s, rounds);
    RoundSound(s, rounds, out);
    if t.nalCh == [] {
      Nil(out);
    } else {
      var u := t.(nalCh := t.nalCh[1..]);
      TakeSound(t, out);
      DrainedSound(u, Rest(rounds), out + [t.nalCh[0]]);
      Assoc(out, [t.nalCh[0]], Drained(u, Rest(rounds)).result);
    }
  }

  lemma {:induction false} KilledSound(s: State, rounds: seq<seq<Env>>, out: seq<Bytes>)
    requires Sound(s, out)
    ensures Sound(Killed(s, rounds), out) && Killed(s, rounds).nalCh == []
    decreases |rounds|, |s.nalCh|
  {
    var t := Round(s, rounds);
    RoundSound(s, rounds, out);
    if t.nalCh != [] {
      TakeSound(t, out);
      KilledSound(t.(nalCh := t.nalCh[1..], discarded := t.discarded + 1), Rest(rounds), out);
    }
  }

  lemma ReadySound(s: State, plan: Plan, out: seq<Bytes>)
    requires Sound(s, out)
    ensures Sound(Ready(s, plan), out)
  {
    HappenAllSound(s, plan.before, out);
    var t := HappenAll(s, plan.before);
    if !t.running {
      KilledSound(t, plan.kill, out);
      HappenAllSound(Renewed(t, plan.kill), plan.starting, out);
    }
  }

  function Got(r: Option<seq<Bytes>>): seq<Bytes> {
    if r.Some? then r.value else []
  }

  lemma WaitedSound(s: State, plan: Plan, out: seq<Bytes>, result: seq<Bytes>)
    requires Sound(s, out + result)
    ensures var w := Waited(s, plan, result); Sound(w.now, out + Got(w.result))
  {
    HappenAllSound(s, plan.waiting, out + result);
    var t := HappenAll(s, plan.waiting);
    if plan.wait == Cancelled {
      SubsequenceDrop(out, result, t.nalCh, Emits(t.happened));
      Nil(out);
    } else if plan.wait == GotNal && t.nalCh != [] {
      TakeSound(t, out + result);
      Assoc(out, result, [t.nalCh[0]]);
    }
  }

  lemma EncodedSound(s: State, frame: I420Frame, plan: Plan, out: seq<Bytes>)
    requires Sound(s, out)
    ensures var e := Encoded(s, frame, plan); Sound(e.now, out + Got(e.result))
  {
    var t := Ready(s, plan);
    ReadySound(s, plan, out);
    Nil(out);
    if !FindsStopped(s, plan) || plan.startOk {
      var d := Drained(t, plan.drain);
      DrainedSound(t, plan.drain, out);
      HappenAllSound(d.now, plan.sending, out + d.result);
      var u := Offered(HappenAll(d.now, plan.sending), Raw(frame));
      if u.firstFrame {
        WaitedSound(u.(firstFrame := false), plan, out, d.result);
      }
    }
  }

  lemma {:induction false} RunSound(calls: seq<Request>)
    ensures Sound(Run(calls).now, Delivered(Run(calls).result))
    decreases |calls|
  {
    if calls == [] {
      Nil<Bytes>([]);
      SubsequenceRefl<Bytes>([]);
    } else {
      var before, c := Run(calls[..|calls| - 1]), calls[|calls| - 1];
      var e := Encoded(before.now, c.frame, c.plan);
      RunSound(calls[..|calls| - 1]);
      EncodedSound(before.now, c.frame, c.plan, Delivered(before.result));
      InitOfSnoc(before.result, e.result);
    }
  }

  lemma {:induction false} KilledKeeps(s: State, rounds: seq<seq<Env>>)
    ensures Killed(s, rounds).firstFrame == s.firstFrame && Killed(s, rounds).restarts == s.restarts
    ensures s.discarded <= Killed(s, rounds).discarded
    decreases |rounds|, |s.nalCh|
  {
    var t := Round(s, rounds);
    if rounds != [] {
      HappenAllKeeps(s, rounds[0]);
    }
    if t.nalCh != [] {
      KilledKeeps(t.(nalCh := t.nalCh[1..], discarded := t.discarded + 1), Rest(rounds));
    }
  }

  lemma ReadyKeeps(s: State, plan: Plan)
    ensures var t := Ready(s, plan);
            && t.firstFrame == s.firstFrame
            && t.restarts == s.restarts + (if FindsStopped(s, plan) then 1 else 0)
            && t.offered == (if FindsStopped(s, plan) then [] else s.offered)
            && (!FindsStopped(s, plan) ==> t.discarded == s.discarded && s.nalCh <= t.nalCh)
  {
    HappenAllKeeps(s, plan.before);
    var t := HappenAll(s, plan.before);
    if !t.running {
      KilledKeeps(t, plan.kill);
      HappenAllKeeps(Renewed(t, plan.kill), plan.starting);
    }
  }

  lemma {:induction false} DrainedKeeps(s: State, rounds: seq<seq<Env>>)
    ensures var d := Drained(s, rounds);
            && d.now.firstFrame == s.firstFrame && d.now.restarts == s.restarts
            && d.now.offered == s.offered && d.now.discarded == s.discarded && s.nalCh <= d.result
    decreases |rounds|, |s.nalCh|
  {
    var t := Round(s, rounds);
    if rounds != [] {
      HappenAllKeeps(s, rounds[0]);
    }
    if t.nalCh != [] {
      DrainedKeeps(t.(nalCh := t.nalCh[1..]), Rest(rounds));
    }
  }

  /** One call: it fails exactly when ffmpeg cannot be started again or the wait for the first
      frame is cancelled; on a running process a call that succeeds discards nothing and
      returns all that was queued, first; the frame is offered once to the channel that is
      current at the end, unless ffmpeg could not be started. */
  lemma EncodeOutcome(s: State, frame: I420Frame, plan: Plan)
    ensures var e := Encoded(s, frame, plan);
            var fails := FindsStopped(s, plan) && !plan.startOk;
            && (e.result.None? <==> fails || (s.firstFrame && plan.wait == Cancelled))
            && (e.now.firstFrame <==> s.firstFrame && fails)
            && e.now.restarts == s.restarts + (if FindsStopped(s, plan) then 1 else 0)
            && e.now.offered == (if FindsStopped(s, plan) then [] else s.offered)
                                + (if fails then [] else [Raw(frame)])
    ensures var e := Encoded(s, frame, plan);
            e.result.Some? && !FindsStopped(s, plan) ==>
              e.now.discarded == s.discarded && s.nalCh <= e.result.value
  {
    ReadyKeeps(s, plan);
    var t := Ready(s, plan);
    var d := Drained(t, plan.drain);
    DrainedKeeps(t, plan.drain);
    HappenAllKeeps(d.now, plan.sending);
    var u := Offered(HappenAll(d.now, plan.sending), Raw(frame)).(firstFrame := false);
    HappenAllKeeps(u, plan.waiting);
  }

  /** How many calls found the process stopped. */
  function StoppedCalls(calls: seq<Request>): nat {
    if calls == [] then 0
    else
      var init := calls[..|calls| - 1];
      StoppedCalls(init) + if FindsStopped(Run(init).now, calls[|calls| - 1].plan) then 1 else 0
  }

  lemma {:induction false} RestartsCounted(calls: seq<Request>)
    ensures Run(calls).now.restarts == StoppedCalls(calls)
    decreases |calls|
  {
    if calls != [] {
      var init, c := calls[..|calls| - 1], calls[|calls| - 1];
      RestartsCounted(init);
      EncodeOutcome(Run(init).now, c.frame, c.plan);
    }
  }

  // ---------------------------------------------------------------- when ffmpeg is started again

  /** The last value that goroutines gave to `running` in some steps. */
  function LastRunning(steps: seq<Env>): Option<bool> {
    if steps == [] then None
    else
      var e := steps[|steps| - 1];
      if e.Running? then Some(e.on) else LastRunning(steps[..|steps| - 1])
  }

  /** `running` reads true after some steps, having read `on` before. */
  predicate StillRuns(on: bool, steps: seq<Env>) {
    match LastRunning(steps)
    case None => on
    case Some(b) => b
  }

  lemma {:induction false} StillRunsAppend(on: bool, a: seq<Env>, b: seq<Env>)
    ensures StillRuns(on, a + b) == StillRuns(StillRuns(on, a), b)
    decreases |b|
  {
    if b == [] {
      Nil(a);
    } else {
      StillRunsAppend(on, a, b[..|b| - 1]);
      Snoc(b);
      Assoc(a, b[..|b| - 1], [b[|b| - 1]]);
      InitOfSnoc(a + b[..|b| - 1], b[|b| - 1]);
    }
  }

  /** Between `s` and `t` the steps `steps` happened, and only they touched `running`. */
  ghost predicate RunsOn(s: State, t: State, steps: seq<Env>) {
    t.happened == s.happened + steps && t.running == StillRuns(s.running, steps)
  }

  lemma RunsOnTrans(s: State, t: State, u: State, a: seq<Env>, b: seq<Env>)
    requires RunsOn(s, t, a) && RunsOn(t, u, b)
    ensures RunsOn(s, u, a + b)
  {
    Assoc(s.happened, a, b);
    StillRunsAppend(s.running, a, b);
  }

  lemma {:induction false} HappenAllRunsOn(s: State, steps: seq<Env>)
    ensures RunsOn(s, HappenAll(s, steps), steps)
    decreases |steps|
  {
    HappenAllKeeps(s, steps);
    if steps != [] {
      HappenAllRunsOn(s, steps[..|steps| - 1]);
    }
  }

  lemma RoundRunsOn(s: State, rounds: seq<seq<Env>>) returns (steps: seq<Env>)
    ensures RunsOn(s, Round(s, rounds), steps)
  {
    steps := if rounds == [] then [] else rounds[0];
    Nil(s.happened);
    HappenAllRunsOn(s, steps);
  }

  lemma {:induction false} DrainedRunsOn(s: State, rounds: seq<seq<Env>>) returns (steps: seq<Env>)
    ensures RunsOn(s, Drained(s, rounds).now, steps)
    decreases |rounds|, |s.nalCh|
  {
    steps := RoundRunsOn(s, rounds);
    var t := Round(s, rounds);
    if t.nalCh != [] {
      var u := t.(nalCh := t.nalCh[1..]);
      var more := DrainedRunsOn(u, Rest(rounds));
      RunsOnTrans(s, u, Drained(u, Rest(rounds)).now, steps, more);
      steps := steps + more;
    }
  }

  lemma {:induction false} KilledRunsOn(s: State, rounds: seq<seq<Env>>) returns (steps: seq<Env>)
    ensures RunsOn(s, Killed(s, rounds), steps)
    decreases |rounds|, |s.nalCh|
  {
    steps := RoundRunsOn(s, rounds);
    var t := Round(s, rounds);
    if t.nalCh != [] {
      var u := t.(nalCh := t.nalCh[1..], discarded := t.discarded + 1);
      var more := KilledRunsOn(u, Rest(rounds));
      RunsOnTrans(s, u, Killed(u, Rest(rounds)), steps, more);
      steps := steps + more;
    }
  }

  lemma ExchangedRunsOn(s: State, frame: I420Frame, plan: Plan) returns (steps: seq<Env>)
    ensures RunsOn(s, Exchanged(s, frame, plan).now, steps)
  {
    var d := Drained(s, plan.drain);
    var a := DrainedRunsOn(s, plan.drain);
    HappenAllRunsOn(d.now, plan.sending);
    var t := Offered(HappenAll(d.now, plan.sending), Raw(frame));
    RunsOnTrans(s, d.now, t, a, plan.sending);
    steps := a + plan.sending;
    if t.firstFrame {
      HappenAllRunsOn(t.(firstFrame := false), plan.waiting);
      RunsOnTrans(s, t.(firstFrame := false), Exchanged(s, frame, plan).now, steps, plan.waiting);
      steps := steps + plan.waiting;
    }
  }

  /** A call starts ffmpeg and then only goroutines touch `running`, or they alone do. */
  lemma EncodedRunsOn(s: State, frame: I420Frame, plan: Plan) returns (steps: seq<Env>)
    ensures var t, e := Ready(s, plan), Encoded(s, frame, plan).now;
            if FindsStopped(s, plan) && plan.startOk then t.running && RunsOn(t, e, steps) else RunsOn(s, e, steps)
  {
    var t, e := Ready(s, plan), Encoded(s, frame, plan).now;
    var before := HappenAll(s, plan.before);
    HappenAllRunsOn(s, plan.before);
    if !FindsStopped(s, plan) {
      var more := ExchangedRunsOn(t, frame, plan);
      RunsOnTrans(s, before, e, plan.before, more);
      steps := plan.before + more;
    } else if plan.startOk {
      steps := ExchangedRunsOn(t, frame, plan);
    } else {
      var killing := KilledRunsOn(before, plan.kill);
      HappenAllRunsOn(Renewed(before, plan.kill), plan.starting);
      RunsOnTrans(before, Renewed(before, plan.kill), e, killing, plan.starting);
      RunsOnTrans(s, before, e, plan.before, killing + plan.starting);
      steps := plan.before + (killing + plan.starting);
    }
  }

  /** How much had happened when ffmpeg was last started with success. */
  function LastStart(calls: seq<Request>): nat {
    if calls == [] then 0
    else
      var init, plan := calls[..|calls| - 1], calls[|calls| - 1].plan;
      var s := Run(init).now;
      if FindsStopped(s, plan) && plan.startOk then |Ready(s, plan).happened| else LastStart(init)
  }

  /** What has happened since. */
  function SinceStart(calls: seq<Request>): seq<Env>
    requires LastStart(calls) <= |Run(calls).now.happened|
  {
    Run(calls).now.happened[LastStart(calls)..]
  }

  lemma SuffixOf(h: seq<Env>, n: nat, more: seq<Env>)
    requires n <= |h|
    ensures (h + more)[n..] == h[n..] + more
    ensures n == |h| ==> (h + more)[n..] == more
  {}

  lemma {:induction false} RunningSinceStart(calls: seq<Request>)
    ensures LastStart(calls) <= |Run(calls).now.happened|
    ensures Run(calls).now.running == StillRuns(true, SinceStart(calls))
    decreases |calls|
  {
    if calls != [] {
      var init, c := calls[..|calls| - 1], calls[|calls| - 1];
      RunningSinceStart(init);
      var s, e := Run(init).now, Run(calls).now;
      var steps := EncodedRunsOn(s, c.frame, c.plan);
      if FindsStopped(s, c.plan) && c.plan.startOk {
        SuffixOf(Ready(s, c.plan).happened, |Ready(s, c.plan).happened|, steps);
      } else {
        SuffixOf(s.happened, LastStart(init), steps);
        StillRunsAppend(true, SinceStart(init), steps);
      }
    }
  }

  /** Over any run: the next call starts ffmpeg again exactly when, since its last successful
      start, the last thing that goroutines did to `running` was to clear it. */
  lemma RestartsIffStopped(calls: seq<Request>, next: Plan)
    ensures LastStart(calls) <= |Run(calls).now.happened|
    ensures FindsStopped(Run(calls).now, next) <==> LastRunning(SinceStart(calls) + next.before) == Some(false)
  {
    RunningSinceStart(calls);
    HappenAllRunsOn(Run(calls).now, next.before);
    StillRunsAppend(true, SinceStart(calls), next.before);
  }

  /** In particular a call that succeeds with goroutines at rest leaves ffmpeg running for the
      next. */
  lemma QuietStartHolds(calls: seq<Request>, c: Request, next: Plan)
    requires Run(calls + [c]).now.happened == Ready(Run(calls).now, c.plan).happened && next.before == []
    requires c.plan.startOk || !FindsStopped(Run(calls).now, c.plan)
    ensures !FindsStopped(Run(calls + [c]).now, next)
  {
    InitOfSnoc(calls, c);
    var s := Run(calls).now;
    var steps := EncodedRunsOn(s, c.frame, c.plan);
    if !FindsStopped(s, c.plan) {
      HappenAllRunsOn(s, c.plan.before);
      Cancel(s.happened, steps, c.plan.before);
    } else {
      Nil(Ready(s, c.plan).happened);
      Cancel(Ready(s, c.plan).happened, steps, []);
    }
  }

  // ---------------------------------------------------------------- what the channels keep

  /** The first four. */
  function FirstFour(chunks: seq<Bytes>): seq<Bytes> {
    if |chunks| <= 4 then chunks else chunks[..4]
  }

  lemma OneMoreChunk(chunks: seq<Bytes>, nal: Bytes)
    ensures FirstFour(chunks + [nal])
            == if |FirstFour(chunks)| < 4 then FirstFour(chunks) + [nal] else FirstFour(chunks)
  {}

  /** The NAL channel keeps its first four chunks and drops what comes later. */
  lemma {:induction false} QueueKeepsFirst(s: State, steps: seq<Env>)
    requires |s.nalCh| <= 4
    ensures HappenAll(s, steps).nalCh == FirstFour(s.nalCh + Emits(steps))
    decreases |steps|
  {
    if steps == [] {
      Nil(s.nalCh);
    } else {
      var init, e := steps[..|steps| - 1], steps[|steps| - 1];
      QueueKeepsFirst(s, init);
      Nil(Emits(init));
      if e.Emit? {
        Assoc(s.nalCh, Emits(init), [e.nal]);
        OneMoreChunk(s.nalCh + Emits(init), e.nal);
      }
    }
  }

  /** How often the writer takes a frame. */
  function WriterTakesIn(steps: seq<Env>): nat {
    if steps == [] then 0
    else WriterTakesIn(steps[..|steps| - 1]) + if steps[|steps| - 1].WriterTakes? then 1 else 0
  }

  /** The writer takes frames from the front. */
  lemma {:induction false} WriterTakesFront(s: State, steps: seq<Env>)
    ensures var n := WriterTakesIn(steps);
            HappenAll(s, steps).frames == s.frames[if n < |s.frames| then n else |s.frames|..]
    decreases |steps|
  {
    if steps != [] {
      WriterTakesFront(s, steps[..|steps| - 1]);
      var n := WriterTakesIn(steps[..|steps| - 1]);
      if n < |s.frames| {
        assert s.frames[n..][1..] == s.frames[n + 1..];
      }
    }
  }

  lemma {:induction false} DrainedAtRest(s: State)
    ensures Drained(s, []) == After(s.(nalCh := []), s.nalCh)
    decreases |s.nalCh|
  {
    if s.nalCh != [] {
      DrainedAtRest(s.(nalCh := s.nalCh[1..]));
      assert [s.nalCh[0]] + s.nalCh[1..] == s.nalCh;
    }
  }

  /** The frame offered is Y, then U, then V, and it is queued behind at most one other. */
  lemma FrameIsQueued(s: State, frame: I420Frame, plan: Plan)
    requires plan.sending == plan.waiting == [] && plan.drain == []
    ensures Exchanged(s, frame, plan).now.frames
            == s.frames + if |s.frames| < 2 then [frame.y + frame.u + frame.v] else []
  {
    DrainedAtRest(s);
  }

  lemma {:induction false} DrainedEmpties(s: State, rounds: seq<seq<Env>>)
    ensures Drained(s, rounds).now.nalCh == []
    decreases |rounds|, |s.nalCh|
  {
    var t := Round(s, rounds);
    if t.nalCh != [] {
      DrainedEmpties(t.(nalCh := t.nalCh[1..]), Rest(rounds));
    }
  }

  lemma {:induction false} EmitsAppend(a: seq<Env>, b: seq<Env>)
    ensures Emits(a + b) == Emits(a) + Emits(b)
    decreases |b|
  {
    if b == [] {
      Nil(a);
      Nil(Emits(a));
    } else {
      var init, e := b[..|b| - 1], b[|b| - 1];
      EmitsAppend(a, init);
      Snoc(b);
      Assoc(a, init, [e]);
      EmitsSnoc(a + init, e);
      EmitsSnoc(init, e);
      if e.Emit? {
        Assoc(Emits(a), Emits(init), [e.nal]);
      }
    }
  }

  lemma FirstOfFirstFour(a: seq<Bytes>, b: seq<Bytes>)
    ensures var q := FirstFour(FirstFour(a) + b);
            (q == [] <==> a + b == []) && (q != [] ==> q[0] == (a + b)[0])
  {}

  /** The first call waits: of what is emitted after the drain, a chunk received in time, the
      first, is added to what was drained; no other call waits. */
  lemma FirstCallWaits(s: State, frame: I420Frame, plan: Plan)
    requires |s.nalCh| <= 4 && plan.wait != Cancelled
    ensures var drained, later := Drained(s, plan.drain).result, Emits(plan.sending + plan.waiting);
            Exchanged(s, frame, plan).result
            == Some(drained + if s.firstFrame && plan.wait == GotNal && later != [] then [later[0]] else [])
  {
    var d := Drained(s, plan.drain);
    DrainedKeeps(s, plan.drain);
    DrainedEmpties(s, plan.drain);
    var t := HappenAll(d.now, plan.sending);
    HappenAllKeeps(d.now, plan.sending);
    QueueKeepsFirst(d.now, plan.sending);
    Nil(Emits(plan.sending));
    var u := Offered(t, Raw(frame)).(firstFrame := false);
    QueueKeepsFirst(u, plan.waiting);
    EmitsAppend(plan.sending, plan.waiting);
    Nil(d.result);
    FirstOfFirstFour(Emits(plan.sending), Emits(plan.waiting));
  }

  // ---------------------------------------------------------------- nothing is invented

  /** The goroutine steps that a call may meet until ffmpeg runs, and those after. */
  function Opening(plan: Plan): seq<Env> {
    plan.before + Flatten(plan.kill) + plan.starting
  }

  function Exchanging(plan: Plan): seq<Env> {
    Flatten(plan.drain) + plan.sending + plan.waiting
  }

  function Planned(plan: Plan): seq<Env> {
    Opening(plan) + Exchanging(plan)
  }

  function AllPlanned(calls: seq<Request>): seq<Env> {
    if calls == [] then [] else AllPlanned(calls[..|calls| - 1]) + Planned(calls[|calls| - 1].plan)
  }

  /** What has happened is, in order, among `all`. */
  ghost predicate Within(s: State, all: seq<Env>) {
    Subsequence(s.happened, all)
  }

  lemma HappenAllWithin(s: State, steps: seq<Env>, all: seq<Env>)
    requires Within(s, all)
    ensures Within(HappenAll(s, steps), all + steps)
  {
    HappenAllKeeps(s, steps);
    SubsequenceAppend(s.happened, all, steps);
  }

  /** A round of steps, if there is one, then perhaps others. */
  lemma RoundWithin(s: State, rounds: seq<seq<Env>>, all: seq<Env>) returns (first: seq<Env>)
    requires Within(s, all)
    ensures Within(Round(s, rounds), all + first) && Within(Round(s, rounds), all + Flatten(rounds))
    ensures all + Flatten(rounds) == (all + first) + Flatten(Rest(rounds))
  {
    Nil(all);
    if rounds == [] {
      first := [];
    } else {
      first := rounds[0];
      HappenAllWithin(s, first, all);
      Assoc(all, first, Flatten(Rest(rounds)));
      SubsequenceExtend(Round(s, rounds).happened, all + first, Flatten(Rest(rounds)));
    }
  }

  lemma {:induction false} DrainedWithin(s: State, rounds: seq<seq<Env>>, all: seq<Env>)
    requires Within(s, all)
    ensures Within(Drained(s, rounds).now, all + Flatten(rounds))
    decreases |rounds|, |s.nalCh|
  {
    var first := RoundWithin(s, rounds, all);
    var t := Round(s, rounds);
    if t.nalCh != [] {
      DrainedWithin(t.(nalCh := t.nalCh[1..]), Rest(rounds), all + first);
    }
  }

  lemma {:induction false} KilledWithin(s: State, rounds: seq<seq<Env>>, all: seq<Env>)
    requires Within(s, all)
    ensures Within(Killed(s, rounds), all + Flatten(rounds))
    decreases |rounds|, |s.nalCh|
  {
    var first := RoundWithin(s, rounds, all);
    var t := Round(s, rounds);
    if t.nalCh != [] {
      KilledWithin(t.(nalCh := t.nalCh[1..], discarded := t.discarded + 1), Rest(rounds), all + first);
    }
  }

  lemma ReadyWithin(s: State, plan: Plan, all: seq<Env>)
    requires Within(s, all)
    ensures Within(Ready(s, plan), all + Opening(plan))
  {
    Assoc(all, plan.before, Flatten(plan.kill));
    Assoc(all, plan.before + Flatten(plan.kill), plan.starting);
    HappenAllWithin(s, plan.before, all);
    var t := HappenAll(s, plan.before);
    if t.running {
      SubsequenceExtend(t.happened, all + plan.before, Flatten(plan.kill));
      SubsequenceExtend(t.happened, all + plan.before + Flatten(plan.kill), plan.starting);
    } else {
      KilledWithin(t, plan.kill, all + plan.before);
      HappenAllWithin(Renewed(t, plan.kill),
                      plan.starting, all + plan.before + Flatten(plan.kill));
    }
  }

  lemma ExchangedWithin(s: State, frame: I420Frame, plan: Plan, all: seq<Env>)
    requires Within(s, all)
    ensures Within(Exchanged(s, frame, plan).now, all + Exchanging(plan))
  {
    Assoc(all, Flatten(plan.drain), plan.sending);
    Assoc(all, Flatten(plan.drain) + plan.sending, plan.waiting);
    var d := Drained(s, plan.drain);
    DrainedWithin(s, plan.drain, all);
    HappenAllWithin(d.now, plan.sending, all + Flatten(plan.drain));
    var t := Offered(HappenAll(d.now, plan.sending), Raw(frame));
    HappenAllWithin(t.(firstFrame := false), plan.waiting, all + Flatten(plan.drain) + plan.sending);
    SubsequenceExtend(t.happened, all + Flatten(plan.drain) + plan.sending, plan.waiting);
  }

  lemma EncodedWithin(s: State, frame: I420Frame, plan: Plan, all: seq<Env>)
    requires Within(s, all)
    ensures Within(Encoded(s, frame, plan).now, all + Planned(plan))
  {
    var t := Ready(s, plan);
    ReadyWithin(s, plan, all);
    ExchangedWithin(t, frame, plan, all + Opening(plan));
    SubsequenceExtend(t.happened, all + Opening(plan), Exchanging(plan));
    Assoc(all, Opening(plan), Exchanging(plan));
  }

  /** The readers emit only what the plans make them emit. */
  lemma {:induction false} RunWithin(calls: seq<Request>)
    ensures Within(Run(calls).now, AllPlanned(calls))
    decreases |calls|
  {
    if calls == [] {
      SubsequenceRefl<Env>([]);
    } else {
      var init, c := calls[..|calls| - 1], calls[|calls| - 1];
      RunWithin(init);
      EncodedWithin(Run(init).now, c.frame, c.plan, AllPlanned(init));
    }
  }
}

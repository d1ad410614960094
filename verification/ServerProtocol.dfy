/** `handleWS`, `Broadcast` and `BroadcastAudio` of internal/server/server.go as one
    concurrent protocol. Every connection is a program counter walking through `handleWS`;
    one video and one audio broadcaster run beside them. A schedule is any sequence of
    atomic steps; a step that its program counter does not allow leaves the state alone, so
    the states of all schedules are exactly the reachable states. */
module ServerProtocol {
  import opened Basics
  import opened AnnexB
  import opened Keyframe
  import opened ClientQueue

  const MAX_CLIENTS := 25

  /** Where a handler stands: the name says what it has done last. */
  datatype PC =
    | Checked     // passed the client-count check
    | Accepted    // WebSocket upgraded, client and its writePump created
    | Won         // compare-and-swap took the controller slot
    | Ready       // onText decided
    | Stored      // in the registry
    | Counted     // count incremented
    | Cached      // lastIDR read
    | Sent        // cached IDR offered, if there was one
    | Reading     // in ReadLoop
    | Left        // ReadLoop has returned
    | Deleted     // out of the registry
    | Subtracted  // count decremented
    | Done        // controller slot released if held

  /** A broadcast message, named by its place in its stream. */
  datatype Msg = Video(k: nat) | Audio(j: nat)

  datatype Conn = Conn(
    pc: PC,
    control: bool,            // asked for role=control
    text: bool,               // onText is set
    cached: Option<nat>,      // the local variable idr
    queue: Queue<Msg>)

  /** One `sync.Map.Range` in progress. A key present during the whole call (`must`) is
      visited; a key present at some time during it (`live`) may be; none is twice. */
  datatype Range = Range(must: set<nat>, live: set<nat>, seen: set<nat>)

  datatype VideoPhase = Idle | Framed | IdrStored | Visiting(range: Range)

  datatype State = State(
    conns: seq<Conn>,
    registry: set<nat>,
    count: int,
    controller: Option<nat>,
    hasInput: bool,           // onInput is not nil
    video: seq<Bytes>,        // NALs whose broadcast has begun
    finished: nat,            // how many of them are done
    lastIDR: Option<nat>,
    phase: VideoPhase,
    chunks: nat,              // audio chunks begun
    audio: Option<Range>,
    delivered: seq<nat>)      // who sent each text that reached onInput

  function Init(hasInput: bool): State {
    State([], {}, 0, None, hasInput, [], 0, None, Idle, 0, None, [])
  }

  datatype Step =
    | Arrive
    | Accept(c: nat, ok: bool, control: bool)
    | TryControl(c: nat)
    | SetText(c: nat)
    | Store(c: nat)
    | Add(c: nat)
    | ReadCache(c: nat)
    | SendCached(c: nat)
    | Callback(c: nat)
    | Text(c: nat)
    | Disconnect(c: nat)
    | Delete(c: nat)
    | Subtract(c: nat)
    | Release(c: nat)
    | Pump(c: nat)
    | BeginVideo(nal: Bytes)
    | StoreIDR
    | StartVisits
    | Visit(c: nat)
    | EndVisits
    | BeginAudio
    | VisitAudio(c: nat)
    | EndAudio

  predicate At(s: State, c: nat, pc: PC) {
    c < |s.conns| && s.conns[c].pc == pc
  }

  function Goto(s: State, c: nat, pc: PC): State
    requires c < |s.conns|
  {
    s.(conns := s.conns[c := s.conns[c].(pc := pc)])
  }

  function Send(s: State, c: nat, m: Msg): State
    requires c < |s.conns|
  {
    s.(conns := s.conns[c := s.conns[c].(queue := Apply(s.conns[c].queue, Offer(m)))])
  }

  /** A key that appears during a `Range` call may be visited by it ... */
  function Joined(r: Range, c: nat): Range {
    r.(live := r.live + {c})
  }

  /** ... and one that disappears need not be. */
  function Gone(r: Range, c: nat): Range {
    r.(must := r.must - {c})
  }

  /** In its read loop with `onText` set: its next text message goes to `onInput`. */
  predicate CanDeliver(s: State, c: nat) {
    At(s, c, Reading) && s.conns[c].text
  }

  /** The range in progress may visit the connection now. */
  predicate CanVisit(s: State, c: nat) {
    s.phase.Visiting? && c in s.phase.range.live - s.phase.range.seen && c < |s.conns| && s.video != []
  }

  predicate CanVisitAudio(s: State, c: nat) {
    s.audio.Some? && c in s.audio.value.live - s.audio.value.seen && c < |s.conns| && s.chunks > 0
  }

  /** The two broadcasters. */
  function BroadcastNext(s: State, step: Step): State {
    match step
    case BeginVideo(nal) =>
      if s.phase != Idle then s else s.(video := s.video + [nal], phase := Framed)
    case StoreIDR =>
      if s.phase != Framed || s.video == [] then s
      else
        var k := |s.video| - 1;
        s.(lastIDR := if IsIDR(s.video[k]) then Some(k) else s.lastIDR, phase := IdrStored)
    case StartVisits =>
      if s.phase != IdrStored then s
      else s.(phase := Visiting(Range(s.registry, s.registry, {})))
    case Visit(c) =>
      if CanVisit(s, c) then
        var r := s.phase.range;
        Send(s, c, Video(|s.video| - 1)).(phase := Visiting(r.(seen := r.seen + {c})))
      else s
    case EndVisits =>
      if s.phase.Visiting? && s.phase.range.must <= s.phase.range.seen
      then s.(phase := Idle, finished := s.finished + 1)
      else s
    case BeginAudio =>
      if s.audio.Some? then s
      else s.(chunks := s.chunks + 1, audio := Some(Range(s.registry, s.registry, {})))
    case VisitAudio(c) =>
      if CanVisitAudio(s, c) then
        var r := s.audio.value;
        Send(s, c, Audio(s.chunks - 1)).(audio := Some(r.(seen := r.seen + {c})))
      else s
    case EndAudio =>
      if s.audio.Some? && s.audio.value.must <= s.audio.value.seen then s.(audio := None) else s
    case _ => s
  }

  /** One step of the server. */
  function Next(s: State, step: Step): State {
    match step
    case Arrive =>
      if s.count >= MAX_CLIENTS then s
      else s.(conns := s.conns + [Conn(Checked, false, false, None, Empty())])
    case Accept(c, ok, control) =>
      if !At(s, c, Checked) then s
      else if !ok then Goto(s, c, Done)
      else s.(conns := s.conns[c := s.conns[c].(pc := Accepted, control := control)])
    case TryControl(c) =>
      if !At(s, c, Accepted) then s
      else if s.conns[c].control && s.controller == None then Goto(s, c, Won).(controller := Some(c))
      else Goto(s, c, Ready)
    case SetText(c) =>
      if !At(s, c, Won) then s
      else s.(conns := s.conns[c := s.conns[c].(pc := Ready, text := s.hasInput)])
    case Store(c) =>
      if !At(s, c, Ready) then s
      else Goto(s, c, Stored).(
             registry := s.registry + {c},
             phase := if s.phase.Visiting? then Visiting(Joined(s.phase.range, c)) else s.phase,
             audio := if s.audio.Some? then Some(Joined(s.audio.value, c)) else None)
    case Add(c) =>
      if !At(s, c, Stored) then s else Goto(s, c, Counted).(count := s.count + 1)
    case ReadCache(c) =>
      if !At(s, c, Counted) then s
      else s.(conns := s.conns[c := s.conns[c].(pc := Cached, cached := s.lastIDR)])
    case SendCached(c) =>
      if !At(s, c, Cached) then s
      else if s.conns[c].cached == None then Goto(s, c, Sent)
      else Goto(Send(s, c, Video(s.conns[c].cached.value)), c, Sent)
    case Callback(c) =>
      if !At(s, c, Sent) then s else Goto(s, c, Reading)
    case Text(c) =>
      if !CanDeliver(s, c) then s else s.(delivered := s.delivered + [c])
    case Disconnect(c) =>
      if !At(s, c, Reading) then s else Goto(s, c, Left)
    case Delete(c) =>
      if !At(s, c, Left) then s
      else Goto(s, c, Deleted).(
             registry := s.registry - {c},
             phase := if s.phase.Visiting? then Visiting(Gone(s.phase.range, c)) else s.phase,
             audio := if s.audio.Some? then Some(Gone(s.audio.value, c)) else None)
    case Subtract(c) =>
      if !At(s, c, Deleted) then s else Goto(s, c, Subtracted).(count := s.count - 1)
    case Release(c) =>
      if !At(s, c, Subtracted) then s
      else Goto(s, c, Done).(controller := if s.controller == Some(c) then None else s.controller)
    case Pump(c) =>
      if c >= |s.conns| then s
      else s.(conns := s.conns[c := s.conns[c].(queue := Apply(s.conns[c].queue, Take))])
    case _ => BroadcastNext(s, step)
  }

  /** The state after a schedule. */
  function StateAfter(hasInput: bool, schedule: seq<Step>): State {
    if schedule == [] then Init(hasInput)
    else Next(StateAfter(hasInput, schedule[..|schedule| - 1]), schedule[|schedule| - 1])
  }

  // ---------------------------------------------------------------- kinds of steps

  /** Steps that only queue messages or concern a broadcaster. */
  predicate QueueStep(step: Step) {
    step.Pump? || step.BeginVideo? || step.StoreIDR? || step.StartVisits? || step.Visit?
    || step.EndVisits? || step.BeginAudio? || step.VisitAudio? || step.EndAudio?
  }

  /** A handler passing from one line to the next between registration and departure. */
  predicate Passage(step: Step) {
    step.Store? || step.Add? || step.ReadCache? || step.SendCached? || step.Callback?
    || step.Disconnect? || step.Delete? || step.Subtract?
  }

  /** Program counters, roles, slot and registry are the same. */
  ghost predicate SameHandlers(s: State, s': State) {
    && |s'.conns| == |s.conns|
    && (forall c :: 0 <= c < |s.conns| ==>
          && s'.conns[c].pc == s.conns[c].pc
          && s'.conns[c].control == s.conns[c].control && s'.conns[c].text == s.conns[c].text)
    && s'.controller == s.controller && s'.hasInput == s.hasInput && s'.delivered == s.delivered
    && s'.registry == s.registry && s'.count == s.count
  }

  predicate Midway(pc: PC) {
    !pc.Checked? && !pc.Accepted? && !pc.Won? && !pc.Done?
  }

  /** One handler moves on, strictly between deciding `onText` and releasing the slot. */
  ghost predicate Advances(s: State, s': State, c: nat) {
    && c < |s.conns| == |s'.conns|
    && (forall d :: 0 <= d < |s.conns| && d != c ==>
          && s'.conns[d].pc == s.conns[d].pc
          && s'.conns[d].control == s.conns[d].control && s'.conns[d].text == s.conns[d].text)
    && s'.conns[c].control == s.conns[c].control && s'.conns[c].text == s.conns[c].text
    && Midway(s.conns[c].pc) && Midway(s'.conns[c].pc)
    && s'.controller == s.controller && s'.hasInput == s.hasInput && s'.delivered == s.delivered
  }

  function Actor(step: Step): nat {
    match step
    case Arrive => 0
    case BeginVideo(_) => 0
    case StoreIDR => 0
    case StartVisits => 0
    case EndVisits => 0
    case BeginAudio => 0
    case EndAudio => 0
    case _ => step.c
  }

  /** A step changes at most one connection, or adds one. */
  lemma OneConnMoves(s: State, step: Step)
    ensures var s' := Next(s, step);
            || s'.conns == s.conns
            || (step.Arrive? && s.count < MAX_CLIENTS
                && s'.conns == s.conns + [Conn(Checked, false, false, None, Empty())])
            || (!step.Arrive? && Actor(step) < |s.conns| == |s'.conns|
                && s'.conns == s.conns[Actor(step) := s'.conns[Actor(step)]])
  {}

  lemma VisitSameHandlers(s: State, step: Step)
    requires step.Pump? || step.Visit? || step.VisitAudio?
    ensures SameHandlers(s, Next(s, step))
  {}

  lemma BroadcasterSameHandlers(s: State, step: Step)
    requires QueueStep(step) && !step.Pump? && !step.Visit? && !step.VisitAudio?
    ensures SameHandlers(s, Next(s, step)) && Next(s, step).conns == s.conns
  {}

  lemma QueueStepSameHandlers(s: State, step: Step)
    requires QueueStep(step)
    ensures SameHandlers(s, Next(s, step))
  {
    if step.Pump? || step.Visit? || step.VisitAudio? {
      VisitSameHandlers(s, step);
    } else {
      BroadcasterSameHandlers(s, step);
    }
  }

  lemma PassageAdvances(s: State, step: Step)
    requires Passage(step) && Next(s, step) != s
    ensures Advances(s, Next(s, step), step.c)
  {}

  /** Between `clients.Store` and `clients.Delete`. */
  predicate Registered(pc: PC) {
    pc.Stored? || pc.Counted? || pc.Cached? || pc.Sent? || pc.Reading? || pc.Left?
  }

  /** The registry holds exactly the clients whose handlers are between the two. */
  ghost predicate RegistryExact(s: State) {
    forall c: nat :: c in s.registry <==> c < |s.conns| && Registered(s.conns[c].pc)
  }

  lemma PassageKeepsRegistry(s: State, step: Step)
    requires RegistryExact(s) && Passage(step)
    ensures RegistryExact(Next(s, step))
  {}

  lemma SameHandlersKeepRegistry(s: State, s': State)
    requires RegistryExact(s) && SameHandlers(s, s')
    ensures RegistryExact(s')
  {}

  lemma EnterKeepsRegistry(s: State, step: Step)
    requires RegistryExact(s) && !Passage(step) && !QueueStep(step)
    ensures RegistryExact(Next(s, step))
  {}

  lemma NextKeepsRegistry(s: State, step: Step)
    requires RegistryExact(s)
    ensures RegistryExact(Next(s, step))
  {
    if Passage(step) {
      PassageKeepsRegistry(s, step);
    } else if QueueStep(step) {
      QueueStepSameHandlers(s, step);
      SameHandlersKeepRegistry(s, Next(s, step));
    } else {
      EnterKeepsRegistry(s, step);
    }
  }

  lemma {:induction false} RunKeepsRegistry(hasInput: bool, schedule: seq<Step>)
    ensures RegistryExact(StateAfter(hasInput, schedule))
    decreases |schedule|
  {
    if schedule != [] {
      RunKeepsRegistry(hasInput, schedule[..|schedule| - 1]);
      NextKeepsRegistry(StateAfter(hasInput, schedule[..|schedule| - 1]), schedule[|schedule| - 1]);
    }
  }
}

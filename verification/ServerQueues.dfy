/** Each client's queue in the running server: what one client does, or fails to do, changes
    nothing for the others. */
module ServerQueues {
  import opened Basics
  import opened ClientQueue
  import opened ServerProtocol

  /** What a step does to the queue of connection `c`. */
  function QueueOps(s: State, step: Step, c: nat): seq<Op<Msg>>
    requires c < |s.conns|
  {
    match step
    case Pump(d) => if d == c then [Take] else []
    case SendCached(d) =>
      if d == c && At(s, c, Cached) && s.conns[c].cached.Some? then [Offer(Video(s.conns[c].cached.value))] else []
    case Visit(d) => if d == c && CanVisit(s, c) then [Offer(Video(|s.video| - 1))] else []
    case VisitAudio(d) => if d == c && CanVisitAudio(s, c) then [Offer(Audio(s.chunks - 1))] else []
    case _ => []
  }

  /** The steps of a schedule that touch the queue of `c`, as queue operations. */
  function OwnOps(hasInput: bool, schedule: seq<Step>, c: nat): seq<Op<Msg>> {
    if schedule == [] then []
    else
      var init := schedule[..|schedule| - 1];
      var s := StateAfter(hasInput, init);
      OwnOps(hasInput, init, c) + if c < |s.conns| then QueueOps(s, schedule[|schedule| - 1], c) else []
  }

  /** The step changes the queue of `c` by its queue operation, if it has one. */
  ghost predicate QueueFollows(s: State, step: Step, c: nat) {
    c < |s.conns| && c < |Next(s, step).conns| &&
    var q, ops := s.conns[c].queue, QueueOps(s, step, c);
    Next(s, step).conns[c].queue == if ops == [] then q else Apply(q, ops[0])
  }

  lemma VisitQueue(s: State, step: Step, c: nat)
    requires c < |s.conns| && (step.Pump? || step.Visit? || step.VisitAudio?)
    ensures QueueFollows(s, step, c)
  {}

  lemma CachedQueue(s: State, step: Step, c: nat)
    requires c < |s.conns| && step.SendCached?
    ensures QueueFollows(s, step, c)
  {}

  lemma PassageQueue(s: State, step: Step, c: nat)
    requires c < |s.conns| && Passage(step) && !step.SendCached?
    ensures QueueFollows(s, step, c)
  {}

  lemma OtherQueue(s: State, step: Step, c: nat)
    requires c < |s.conns| && !Passage(step) && !step.Pump? && !step.Visit? && !step.VisitAudio?
    ensures QueueFollows(s, step, c)
  {}

  lemma StepQueue(s: State, step: Step, c: nat)
    requires c < |s.conns|
    ensures QueueFollows(s, step, c)
  {
    if step.Pump? || step.Visit? || step.VisitAudio? {
      VisitQueue(s, step, c);
    } else if step.SendCached? {
      CachedQueue(s, step, c);
    } else if Passage(step) {
      PassageQueue(s, step, c);
    } else {
      OtherQueue(s, step, c);
    }
  }

  lemma OneMore(s: State, own: seq<Op<Msg>>, step: Step, c: nat)
    requires c < |s.conns| && s.conns[c].queue == Run(Empty(), own)
    ensures c < |Next(s, step).conns|
    ensures Next(s, step).conns[c].queue == Run(Empty(), own + QueueOps(s, step, c))
  {
    var ops := QueueOps(s, step, c);
    StepQueue(s, step, c);
    Nil(own);
    if ops != [] {
      assert ops == [ops[0]];
      InitOfSnoc(own, ops[0]);
    }
  }

  /** A connection starts with an empty queue. */
  lemma NewQueue(s: State, step: Step, c: nat)
    requires |s.conns| <= c < |Next(s, step).conns|
    ensures Next(s, step).conns[c].queue == Empty()
  {
    OneConnMoves(s, step);
  }

  /** In every interleaving a client's queue is what its own steps make of the empty queue. */
  lemma {:induction false} OwnQueue(hasInput: bool, schedule: seq<Step>, c: nat)
    ensures var s := StateAfter(hasInput, schedule);
            if c < |s.conns| then s.conns[c].queue == Run(Empty(), OwnOps(hasInput, schedule, c))
            else OwnOps(hasInput, schedule, c) == []
    decreases |schedule|
  {
    if schedule != [] {
      var init, step := schedule[..|schedule| - 1], schedule[|schedule| - 1];
      var s, own := StateAfter(hasInput, init), OwnOps(hasInput, init, c);
      OwnQueue(hasInput, init, c);
      if c < |s.conns| {
        OneMore(s, own, step, c);
      } else {
        Nil(own);
        if c < |Next(s, step).conns| {
          NewQueue(s, step, c);
        }
      }
    }
  }

  /** In every interleaving every queue is bounded and in order. */
  lemma QueuesValid(hasInput: bool, schedule: seq<Step>, c: nat)
    requires c < |StateAfter(hasInput, schedule).conns|
    ensures Valid(StateAfter(hasInput, schedule).conns[c].queue)
  {
    OwnQueue(hasInput, schedule, c);
    RunValid(OwnOps(hasInput, schedule, c));
  }

  /** ... and complete exactly when none of the client's messages met a full buffer. */
  lemma QueueLosslessIffNeverFull(hasInput: bool, schedule: seq<Step>, c: nat)
    requires c < |StateAfter(hasInput, schedule).conns|
    ensures var q := StateAfter(hasInput, schedule).conns[c].queue;
            q.taken + q.send == q.offered <==> NeverFull(OwnOps(hasInput, schedule, c))
  {
    OwnQueue(hasInput, schedule, c);
    LosslessIffNeverFull(OwnOps(hasInput, schedule, c));
  }

  /** In every interleaving a client gets exactly the messages offered to it that met fewer
      than 16 queued ones. */
  lemma QueueIsAdmitted(hasInput: bool, schedule: seq<Step>, c: nat)
    requires c < |StateAfter(hasInput, schedule).conns|
    ensures var q := StateAfter(hasInput, schedule).conns[c].queue;
            q.taken + q.send == Admitted(OwnOps(hasInput, schedule, c))
  {
    OwnQueue(hasInput, schedule, c);
    GetsTheAdmitted(OwnOps(hasInput, schedule, c));
  }

  /** `n` receives by the pump of `c` in a row. */
  function Pumped(s: State, c: nat, n: nat): State {
    if n == 0 then s else Next(Pumped(s, c, n - 1), Pump(c))
  }

  /** They deliver the first `n` queued messages, in order. */
  lemma {:induction false} PumpDelivers(s: State, c: nat, n: nat)
    requires c < |s.conns| && n <= |s.conns[c].queue.send|
    ensures var q, t := s.conns[c].queue, Pumped(s, c, n);
            && |t.conns| == |s.conns|
            && t.conns[c].queue == q.(taken := q.taken + q.send[..n], send := q.send[n..])
    decreases n
  {
    var q := s.conns[c].queue;
    TakesDeliver(q, n);
    if n > 0 {
      PumpDelivers(s, c, n - 1);
      TakesDeliver(q, n - 1);
      assert Takes<Msg>(n)[..n - 1] == Takes(n - 1);
      VisitSameHandlers(Pumped(s, c, n - 1), Pump(c));
    } else {
      Nil(q.taken);
    }
  }

  // ---------------------------------------------------------------- slow neighbours

  /** Connections that differ at most in their queues. */
  predicate SameButQueue(x: Conn, y: Conn) {
    y == x.(queue := y.queue)
  }

  /** States that differ at most in the queues of connections other than `c`. */
  ghost predicate SameFor(c: nat, s: State, t: State) {
    && t == s.(conns := t.conns) && |t.conns| == |s.conns|
    && (forall d :: 0 <= d < |s.conns| ==> SameButQueue(s.conns[d], t.conns[d]))
    && (c < |s.conns| ==> t.conns[c] == s.conns[c])
  }

  lemma SameForTrans(c: nat, s: State, t: State, u: State)
    requires SameFor(c, s, t) && SameFor(c, t, u)
    ensures SameFor(c, s, u)
  {
    forall d | 0 <= d < |s.conns| ensures SameButQueue(s.conns[d], u.conns[d]) {
      assert SameButQueue(s.conns[d], t.conns[d]) && SameButQueue(t.conns[d], u.conns[d]);
    }
  }

  /** Program counters do not look at queues. */
  lemma RegistrySameFor(c: nat, s: State, t: State, step: Step)
    requires SameFor(c, s, t) && (step.Store? || step.Delete?)
    ensures SameFor(c, Next(s, step), Next(t, step))
  {
    if step.c < |s.conns| {
      assert SameButQueue(s.conns[step.c], t.conns[step.c]);
    }
  }

  lemma ReadSameFor(c: nat, s: State, t: State, d: nat)
    requires SameFor(c, s, t)
    ensures SameFor(c, Next(s, ReadCache(d)), Next(t, ReadCache(d)))
  {
    if d < |s.conns| {
      assert SameButQueue(s.conns[d], t.conns[d]);
    }
  }

  lemma SendSameFor(c: nat, s: State, t: State, d: nat)
    requires SameFor(c, s, t)
    ensures SameFor(c, Next(s, SendCached(d)), Next(t, SendCached(d)))
  {
    if d < |s.conns| {
      assert SameButQueue(s.conns[d], t.conns[d]);
    }
  }

  lemma AddSameFor(c: nat, s: State, t: State, d: nat)
    requires SameFor(c, s, t)
    ensures SameFor(c, Next(s, Add(d)), Next(t, Add(d)))
  {
    if d < |s.conns| {
      assert SameButQueue(s.conns[d], t.conns[d]);
    }
  }

  lemma CallbackSameFor(c: nat, s: State, t: State, d: nat)
    requires SameFor(c, s, t)
    ensures SameFor(c, Next(s, Callback(d)), Next(t, Callback(d)))
  {
    if d < |s.conns| {
      assert SameButQueue(s.conns[d], t.conns[d]);
    }
  }

  lemma DisconnectSameFor(c: nat, s: State, t: State, d: nat)
    requires SameFor(c, s, t)
    ensures SameFor(c, Next(s, Disconnect(d)), Next(t, Disconnect(d)))
  {
    if d < |s.conns| {
      assert SameButQueue(s.conns[d], t.conns[d]);
    }
  }

  lemma SubtractSameFor(c: nat, s: State, t: State, d: nat)
    requires SameFor(c, s, t)
    ensures SameFor(c, Next(s, Subtract(d)), Next(t, Subtract(d)))
  {
    if d < |s.conns| {
      assert SameButQueue(s.conns[d], t.conns[d]);
    }
  }

  lemma BroadcasterSameFor(c: nat, s: State, t: State, step: Step)
    requires SameFor(c, s, t) && QueueStep(step) && !step.Pump? && !step.Visit? && !step.VisitAudio?
    ensures SameFor(c, Next(s, step), Next(t, step))
  {}

  lemma PumpSameFor(c: nat, s: State, t: State, d: nat)
    requires SameFor(c, s, t)
    ensures SameFor(c, Next(s, Pump(d)), Next(t, Pump(d)))
  {
    if d < |s.conns| {
      assert SameButQueue(s.conns[d], t.conns[d]);
    }
  }

  lemma VisitSameFor(c: nat, s: State, t: State, d: nat)
    requires SameFor(c, s, t)
    ensures SameFor(c, Next(s, Visit(d)), Next(t, Visit(d)))
  {
    if d < |s.conns| {
      assert SameButQueue(s.conns[d], t.conns[d]);
    }
  }

  lemma HearSameFor(c: nat, s: State, t: State, d: nat)
    requires SameFor(c, s, t)
    ensures SameFor(c, Next(s, VisitAudio(d)), Next(t, VisitAudio(d)))
  {
    if d < |s.conns| {
      assert SameButQueue(s.conns[d], t.conns[d]);
    }
  }

  lemma EnterSameFor(c: nat, s: State, t: State, step: Step)
    requires SameFor(c, s, t) && (step.Arrive? || step.Accept?)
    ensures SameFor(c, Next(s, step), Next(t, step))
  {
    if step.Accept? && step.c < |s.conns| {
      assert SameButQueue(s.conns[step.c], t.conns[step.c]);
    }
  }

  lemma TrySameFor(c: nat, s: State, t: State, d: nat)
    requires SameFor(c, s, t)
    ensures SameFor(c, Next(s, TryControl(d)), Next(t, TryControl(d)))
  {
    if d < |s.conns| {
      assert SameButQueue(s.conns[d], t.conns[d]);
    }
  }

  lemma SetSameFor(c: nat, s: State, t: State, d: nat)
    requires SameFor(c, s, t)
    ensures SameFor(c, Next(s, SetText(d)), Next(t, SetText(d)))
  {
    if d < |s.conns| {
      assert SameButQueue(s.conns[d], t.conns[d]);
    }
  }

  lemma TextSameFor(c: nat, s: State, t: State, d: nat)
    requires SameFor(c, s, t)
    ensures SameFor(c, Next(s, Text(d)), Next(t, Text(d)))
  {
    if d < |s.conns| {
      assert SameButQueue(s.conns[d], t.conns[d]);
    }
  }

  lemma ReleaseSameFor(c: nat, s: State, t: State, d: nat)
    requires SameFor(c, s, t)
    ensures SameFor(c, Next(s, Release(d)), Next(t, Release(d)))
  {
    if d < |s.conns| {
      assert SameButQueue(s.conns[d], t.conns[d]);
    }
  }

  lemma NextSameFor(c: nat, s: State, t: State, step: Step)
    requires SameFor(c, s, t)
    ensures SameFor(c, Next(s, step), Next(t, step))
  {
    if step.Store? || step.Delete? {
      RegistrySameFor(c, s, t, step);
    } else if step.ReadCache? {
      ReadSameFor(c, s, t, step.c);
    } else if step.SendCached? {
      SendSameFor(c, s, t, step.c);
    } else if step.Add? {
      AddSameFor(c, s, t, step.c);
    } else if step.Callback? {
      CallbackSameFor(c, s, t, step.c);
    } else if step.Disconnect? {
      DisconnectSameFor(c, s, t, step.c);
    } else if step.Subtract? {
      SubtractSameFor(c, s, t, step.c);
    } else if step.Pump? {
      PumpSameFor(c, s, t, step.c);
    } else if step.Visit? {
      VisitSameFor(c, s, t, step.c);
    } else if step.VisitAudio? {
      HearSameFor(c, s, t, step.c);
    } else if QueueStep(step) {
      BroadcasterSameFor(c, s, t, step);
    } else if step.Arrive? || step.Accept? {
      EnterSameFor(c, s, t, step);
    } else if step.TryControl? {
      TrySameFor(c, s, t, step.c);
    } else if step.SetText? {
      SetSameFor(c, s, t, step.c);
    } else if step.Text? {
      TextSameFor(c, s, t, step.c);
    } else {
      ReleaseSameFor(c, s, t, step.c);
    }
  }

  /** The schedule in which the pumps of all clients but `c` have stopped. */
  function OthersStalled(schedule: seq<Step>, c: nat): seq<Step> {
    if schedule == [] then []
    else
      var step := schedule[|schedule| - 1];
      OthersStalled(schedule[..|schedule| - 1], c) + if step.Pump? && step.c != c then [] else [step]
  }

  lemma OtherPump(s: State, d: nat, c: nat)
    requires d != c
    ensures SameFor(c, Next(s, Pump(d)), s)
  {}

  /** Non-interference: whether the other clients keep up or not makes no difference to client
      `c`, nor to the registry, the counters, the cache or the broadcasters. */
  lemma {:induction false} SlowNeighboursInvisible(hasInput: bool, schedule: seq<Step>, c: nat)
    ensures SameFor(c, StateAfter(hasInput, schedule), StateAfter(hasInput, OthersStalled(schedule, c)))
    decreases |schedule|
  {
    if schedule != [] {
      var init, step := schedule[..|schedule| - 1], schedule[|schedule| - 1];
      var s, t := StateAfter(hasInput, init), StateAfter(hasInput, OthersStalled(init, c));
      SlowNeighboursInvisible(hasInput, init, c);
      if step.Pump? && step.c != c {
        Nil(OthersStalled(init, c));
        OtherPump(s, step.c, c);
        SameForTrans(c, Next(s, step), s, t);
      } else {
        NextSameFor(c, s, t, step);
        InitOfSnoc(OthersStalled(init, c), step);
      }
    }
  }
}

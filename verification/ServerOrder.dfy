/** What a client is offered, and in which order, while others register, leave and are
    broadcast to: when its first message is an IDR, and that nothing overtakes. */
module ServerOrder {
  import opened Basics
  import opened ClientQueue
  import opened ServerProtocol
  import opened ServerFrames
  import opened ServerQueues

  // ---------------------------------------------------------------- who can be visited

  /** Registered, the cached IDR not yet sent. */
  predicate Waiting(pc: PC) {
    pc.Stored? || pc.Counted? || pc.Cached?
  }

  /** Past the cached send, or done. */
  predicate AfterSend(pc: PC) {
    pc.Sent? || pc.Reading? || pc.Left? || pc.Deleted? || pc.Subtracted? || pc.Done?
  }

  ghost predicate Entered(s: State, c: nat) {
    c < |s.conns| && (Waiting(s.conns[c].pc) || AfterSend(s.conns[c].pc))
  }

  /** Whoever a range may visit has been registered, or is gone. */
  ghost predicate LiveEntered(s: State) {
    && (s.phase.Visiting? ==> forall c :: c in s.phase.range.live ==> Entered(s, c))
    && (s.audio.Some? ==> forall c :: c in s.audio.value.live ==> Entered(s, c))
  }

  lemma EnteredStays(s: State, step: Step, c: nat)
    requires Entered(s, c)
    ensures Entered(Next(s, step), c)
  {
    OneConnMoves(s, step);
  }

  lemma StoreEnters(s: State, c: nat)
    requires At(s, c, Ready)
    ensures Entered(Next(s, Store(c)), c)
  {}

  /** How a step changes who may be visited. */
  lemma LiveGrows(s: State, step: Step)
    ensures var t := Next(s, step);
            && (t.phase.Visiting? ==>
                  || (s.phase.Visiting? && t.phase.range.live == s.phase.range.live)
                  || (step.Store? && At(s, step.c, Ready) && s.phase.Visiting?
                      && t.phase.range.live == s.phase.range.live + {step.c})
                  || t.phase.range.live == s.registry)
            && (t.audio.Some? ==>
                  || (s.audio.Some? && t.audio.value.live == s.audio.value.live)
                  || (step.Store? && At(s, step.c, Ready) && s.audio.Some?
                      && t.audio.value.live == s.audio.value.live + {step.c})
                  || t.audio.value.live == s.registry)
  {}

  lemma NextKeepsLive(s: State, step: Step)
    requires RegistryExact(s) && LiveEntered(s)
    ensures LiveEntered(Next(s, step))
  {
    LiveGrows(s, step);
    forall c: nat | Entered(s, c) ensures Entered(Next(s, step), c) {
      EnteredStays(s, step, c);
    }
    forall c: nat | c in s.registry ensures Entered(s, c) {}
    if step.Store? && At(s, step.c, Ready) {
      StoreEnters(s, step.c);
    }
  }

  lemma {:induction false} RunKeepsLive(hasInput: bool, schedule: seq<Step>)
    ensures LiveEntered(StateAfter(hasInput, schedule))
    decreases |schedule|
  {
    if schedule != [] {
      RunKeepsLive(hasInput, schedule[..|schedule| - 1]);
      RunKeepsRegistry(hasInput, schedule[..|schedule| - 1]);
      NextKeepsLive(StateAfter(hasInput, schedule[..|schedule| - 1]), schedule[|schedule| - 1]);
    }
  }

  // ---------------------------------------------------------------- what is offered

  /** The message of a visit of `c` that takes effect. */
  function VisitMsg(s: State, step: Step, c: nat): seq<Msg> {
    match step
    case Visit(d) => if d == c && CanVisit(s, c) then [Video(|s.video| - 1)] else []
    case VisitAudio(d) => if d == c && CanVisitAudio(s, c) then [Audio(s.chunks - 1)] else []
    case _ => []
  }

  /** The cached send of `c`, if the step is that and there is a cached IDR. */
  function CachedMsg(s: State, step: Step, c: nat): seq<Msg> {
    if step == SendCached(c) && At(s, c, Cached) && s.conns[c].cached.Some?
    then [Video(s.conns[c].cached.value)] else []
  }

  lemma OfferedStep(s: State, step: Step, c: nat)
    requires c < |s.conns|
    ensures c < |Next(s, step).conns|
    ensures Next(s, step).conns[c].queue.offered
            == s.conns[c].queue.offered + VisitMsg(s, step, c) + CachedMsg(s, step, c)
  {
    StepQueue(s, step, c);
    var was := s.conns[c].queue.offered;
    Nil(was);
    Nil(was + VisitMsg(s, step, c));
  }

  /** The visits of `c` before its cached send, and those after. */
  function Early(hasInput: bool, schedule: seq<Step>, c: nat): seq<Msg> {
    if schedule == [] then []
    else
      var init := schedule[..|schedule| - 1];
      var s := StateAfter(hasInput, init);
      Early(hasInput, init, c)
      + if c < |s.conns| && Waiting(s.conns[c].pc) then VisitMsg(s, schedule[|schedule| - 1], c) else []
  }

  function Late(hasInput: bool, schedule: seq<Step>, c: nat): seq<Msg> {
    if schedule == [] then []
    else
      var init := schedule[..|schedule| - 1];
      var s := StateAfter(hasInput, init);
      Late(hasInput, init, c)
      + if c < |s.conns| && AfterSend(s.conns[c].pc) then VisitMsg(s, schedule[|schedule| - 1], c) else []
  }

  /** The cached IDR, once it has been sent. */
  function CachedSend(x: Conn): seq<Msg> {
    if AfterSend(x.pc) && x.cached.Some? then [Video(x.cached.value)] else []
  }

  /** Everything offered is the early visits, the cached IDR, the late visits. */
  ghost predicate Shape(s: State, c: nat, early: seq<Msg>, late: seq<Msg>) {
    if c >= |s.conns| then early == [] && late == []
    else
      var x := s.conns[c];
      && x.queue.offered == early + CachedSend(x) + late
      && (!AfterSend(x.pc) ==> late == [])
      && (x.cached.Some? ==> x.pc.Cached? || AfterSend(x.pc))
  }

  /** Program counter and cached IDR may change together like this, but for the cached send. */
  predicate Moves(x: Conn, y: Conn) {
    && (AfterSend(x.pc) ==> AfterSend(y.pc) && y.cached == x.cached)
    && (!AfterSend(x.pc) && AfterSend(y.pc) ==> x.pc.Checked? && y.cached == x.cached)
    && (y.cached != x.cached || x.pc.Cached? ==> y.pc.Cached?)
  }

  lemma CacheMoves(s: State, step: Step, c: nat)
    requires c < |s.conns| && (step.ReadCache? || step.SendCached?)
    requires !(step == SendCached(c) && s.conns[c].pc.Cached?)
    ensures c < |Next(s, step).conns| && Moves(s.conns[c], Next(s, step).conns[c])
  {}

  lemma PassageMoves(s: State, step: Step, c: nat)
    requires c < |s.conns| && Passage(step) && !step.ReadCache? && !step.SendCached?
    ensures c < |Next(s, step).conns| && Moves(s.conns[c], Next(s, step).conns[c])
  {}

  lemma OtherMoves(s: State, step: Step, c: nat)
    requires c < |s.conns| && !Passage(step) && !QueueStep(step)
    ensures c < |Next(s, step).conns| && Moves(s.conns[c], Next(s, step).conns[c])
  {}

  lemma QueueStepStays(s: State, step: Step, c: nat)
    requires c < |s.conns| && QueueStep(step)
    ensures c < |Next(s, step).conns|
    ensures var x, y := s.conns[c], Next(s, step).conns[c]; y.pc == x.pc && y.cached == x.cached
  {}

  /** Program counter and cached IDR, seen from `c`: most steps ... */
  lemma PassageOf(s: State, step: Step, c: nat)
    requires c < |s.conns| && !(step == SendCached(c) && s.conns[c].pc.Cached?)
    ensures c < |Next(s, step).conns|
    ensures Moves(s.conns[c], Next(s, step).conns[c])
    ensures step.Visit? || step.VisitAudio? ==> Next(s, step).conns[c].pc == s.conns[c].pc
  {
    if step.ReadCache? || step.SendCached? {
      CacheMoves(s, step, c);
    } else if Passage(step) {
      PassageMoves(s, step, c);
    } else if QueueStep(step) {
      QueueStepStays(s, step, c);
    } else {
      OtherMoves(s, step, c);
    }
  }

  /** ... and the cached send. */
  lemma CachedPassage(s: State, c: nat)
    requires At(s, c, Cached)
    ensures var y := Next(s, SendCached(c)).conns;
            c < |y| && y[c].pc.Sent? && y[c].cached == s.conns[c].cached
  {}

  lemma VisitShape(s: State, step: Step, c: nat, early: seq<Msg>, late: seq<Msg>)
    requires Shape(s, c, early, late) && LiveEntered(s) && c < |s.conns| && VisitMsg(s, step, c) != []
    ensures var x, v := s.conns[c], VisitMsg(s, step, c);
            Shape(Next(s, step), c, early + (if Waiting(x.pc) then v else []),
                  late + (if AfterSend(x.pc) then v else []))
  {
    var x, v := s.conns[c], VisitMsg(s, step, c);
    OfferedStep(s, step, c);
    PassageOf(s, step, c);
    Nil(early);
    Nil(late);
    Nil(early + v);
    Nil(x.queue.offered + v);
    assert Entered(s, c);
    Assoc(early + CachedSend(x), late, v);
  }

  lemma OtherShape(s: State, step: Step, c: nat, early: seq<Msg>, late: seq<Msg>)
    requires Shape(s, c, early, late) && c < |s.conns| && VisitMsg(s, step, c) == []
    ensures Shape(Next(s, step), c, early, late)
  {
    var x := s.conns[c];
    OfferedStep(s, step, c);
    Nil(x.queue.offered);
    if step == SendCached(c) && x.pc.Cached? {
      CachedPassage(s, c);
      Nil(early);
      Nil(early + CachedSend(Next(s, step).conns[c]));
    } else {
      PassageOf(s, step, c);
    }
  }

  lemma ShapeStep(s: State, step: Step, c: nat, early: seq<Msg>, late: seq<Msg>)
    requires Shape(s, c, early, late) && LiveEntered(s) && c < |s.conns|
    ensures var x, v := s.conns[c], VisitMsg(s, step, c);
            Shape(Next(s, step), c, early + (if Waiting(x.pc) then v else []),
                  late + (if AfterSend(x.pc) then v else []))
  {
    if VisitMsg(s, step, c) == [] {
      OtherShape(s, step, c, early, late);
      Nil(early);
      Nil(late);
    } else {
      VisitShape(s, step, c, early, late);
    }
  }

  lemma NewShape(s: State, step: Step, c: nat)
    requires |s.conns| <= c
    ensures Shape(Next(s, step), c, [], [])
  {
    OneConnMoves(s, step);
  }

  /** In every interleaving. */
  lemma {:induction false} OfferedShape(hasInput: bool, schedule: seq<Step>, c: nat)
    ensures Shape(StateAfter(hasInput, schedule), c, Early(hasInput, schedule, c), Late(hasInput, schedule, c))
    decreases |schedule|
  {
    if schedule != [] {
      var init, step := schedule[..|schedule| - 1], schedule[|schedule| - 1];
      var s := StateAfter(hasInput, init);
      OfferedShape(hasInput, init, c);
      RunKeepsLive(hasInput, init);
      if c < |s.conns| {
        ShapeStep(s, step, c, Early(hasInput, init, c), Late(hasInput, init, c));
      } else {
        NewShape(s, step, c);
      }
    }
  }

  // ---------------------------------------------------------------- the first message

  /** The message is a video frame that holds an IDR. */
  ghost predicate IsIdrMsg(s: State, m: Msg) {
    m.Video? && IdrAt(s, m.k)
  }

  ghost predicate CachedIsIdr(s: State, c: nat) {
    c < |s.conns| && s.conns[c].cached.Some? ==> IdrAt(s, s.conns[c].cached.value)
  }

  /** The cached frame of a connection only ever comes from the cache. */
  lemma CachedComes(s: State, step: Step, c: nat)
    requires c < |Next(s, step).conns| && Next(s, step).conns[c].cached.Some?
    ensures s.video <= Next(s, step).video
    ensures Next(s, step).conns[c].cached == s.lastIDR
            || (c < |s.conns| && Next(s, step).conns[c].cached == s.conns[c].cached)
  {
    OneConnMoves(s, step);
  }

  lemma {:induction false} RunCachesIdr(hasInput: bool, schedule: seq<Step>, c: nat)
    ensures CachedIsIdr(StateAfter(hasInput, schedule), c)
    decreases |schedule|
  {
    if schedule != [] {
      var init, step := schedule[..|schedule| - 1], schedule[|schedule| - 1];
      var s, t := StateAfter(hasInput, init), StateAfter(hasInput, schedule);
      RunCachesIdr(hasInput, init, c);
      ServerFrames.RunKeepsInv(hasInput, init);
      if c < |t.conns| && t.conns[c].cached.Some? {
        CachedComes(s, step, c);
        assert IdrAt(s, t.conns[c].cached.value);
      }
    }
  }

  /** The first message a client gets, now or later, is an IDR. */
  ghost predicate StartsWithIdr(s: State, c: nat)
    requires c < |s.conns|
  {
    var got := s.conns[c].queue.taken + s.conns[c].queue.send;
    got != [] && IsIdrMsg(s, got[0])
  }

  lemma FirstOfThree(a: seq<Msg>, b: seq<Msg>, c: seq<Msg>)
    ensures var all := a + b + c;
            && (all == [] <==> a == [] && b == [] && c == [])
            && (all != [] ==> all[0] == if a != [] then a[0] else if b != [] then b[0] else c[0])
  {}

  /** When a client starts with an IDR, in every interleaving: past the cached send, if and
      only if no broadcast reached it between its registration and that send, or the first
      that did was an IDR; with nothing cached, the first broadcast after it counts. */
  lemma StartsWithIdrIff(hasInput: bool, schedule: seq<Step>, c: nat)
    requires c < |StateAfter(hasInput, schedule).conns|
    requires AfterSend(StateAfter(hasInput, schedule).conns[c].pc)
    ensures var s := StateAfter(hasInput, schedule);
            var early, late := Early(hasInput, schedule, c), Late(hasInput, schedule, c);
            StartsWithIdr(s, c) <==>
            if early != [] then IsIdrMsg(s, early[0])
            else s.conns[c].cached.Some? || (late != [] && IsIdrMsg(s, late[0]))
  {
    var s := StateAfter(hasInput, schedule);
    OfferedShape(hasInput, schedule, c);
    RunCachesIdr(hasInput, schedule, c);
    OwnQueue(hasInput, schedule, c);
    FirstIsKept(OwnOps(hasInput, schedule, c));
    FirstOfThree(Early(hasInput, schedule, c), CachedSend(s.conns[c]), Late(hasInput, schedule, c));
  }

  /** Before the cached send, what a client has been offered are the early visits. */
  lemma EarlyIsOffered(hasInput: bool, schedule: seq<Step>, c: nat)
    requires c < |StateAfter(hasInput, schedule).conns|
    requires !AfterSend(StateAfter(hasInput, schedule).conns[c].pc)
    ensures StateAfter(hasInput, schedule).conns[c].queue.offered == Early(hasInput, schedule, c)
  {
    OfferedShape(hasInput, schedule, c);
    Nil(Early(hasInput, schedule, c));
  }

  // ---------------------------------------------------------------- nothing overtakes

  /** Audio chunks stand in the order in which they were broadcast, none twice. */
  ghost predicate AudioRises(msgs: seq<Msg>) {
    forall i, k :: 0 <= i < k < |msgs| && msgs[i].Audio? && msgs[k].Audio? ==> msgs[i].j < msgs[k].j
  }

  ghost predicate AudioBelow(msgs: seq<Msg>, bound: int) {
    forall i :: 0 <= i < |msgs| && msgs[i].Audio? ==> msgs[i].j < bound
  }

  ghost predicate VideoRises(msgs: seq<Msg>) {
    forall i, j :: 0 <= i < j < |msgs| && msgs[i].Video? && msgs[j].Video? ==> msgs[i].k < msgs[j].k
  }

  ghost predicate VideoBelow(msgs: seq<Msg>, bound: int) {
    forall i :: 0 <= i < |msgs| && msgs[i].Video? ==> msgs[i].k < bound
  }

  /** All visits of `c`. */
  function Visits(hasInput: bool, schedule: seq<Step>, c: nat): seq<Msg> {
    if schedule == [] then []
    else
      var init := schedule[..|schedule| - 1];
      Visits(hasInput, init, c) + VisitMsg(StateAfter(hasInput, init), schedule[|schedule| - 1], c)
  }

  /** A visit in progress has not come to `c` yet. */
  ghost predicate Ahead(s: State, c: nat, msgs: seq<Msg>) {
    && AudioBelow(msgs, s.chunks) && VideoBelow(msgs, |s.video|)
    && (s.audio.Some? && c !in s.audio.value.seen ==> AudioBelow(msgs, s.chunks - 1))
    && (s.phase.Framed? || s.phase.IdrStored? || (s.phase.Visiting? && c !in s.phase.range.seen) ==>
          VideoBelow(msgs, |s.video| - 1))
  }

  /** How the broadcasters move, seen from one client. */
  lemma BroadcastersMove(s: State, step: Step, c: nat)
    ensures var t := Next(s, step);
            && s.chunks <= t.chunks && s.video <= t.video
            && (t.audio.Some? && c !in t.audio.value.seen ==>
                  t.chunks > s.chunks
                  || (t.chunks == s.chunks && s.audio.Some? && c !in s.audio.value.seen))
            && (t.phase.Framed? || t.phase.IdrStored? || (t.phase.Visiting? && c !in t.phase.range.seen) ==>
                  || |t.video| > |s.video|
                  || (t.video == s.video
                      && (s.phase.Framed? || s.phase.IdrStored? || (s.phase.Visiting? && c !in s.phase.range.seen))))
  {}

  /** A visit of `c` that takes effect makes it seen, and had not seen it before. */
  lemma VisitSeen(s: State, step: Step, c: nat)
    requires VisitMsg(s, step, c) != []
    ensures var t := Next(s, step);
            && t.video == s.video && t.chunks == s.chunks
            && (step.Visit? ==> t.phase.Visiting? && c in t.phase.range.seen && t.audio == s.audio
                                && s.phase.Visiting? && c !in s.phase.range.seen)
            && (step.VisitAudio? ==> t.audio.Some? && c in t.audio.value.seen && t.phase == s.phase
                                     && s.audio.Some? && c !in s.audio.value.seen)
  {}

  lemma VideoSnoc(msgs: seq<Msg>, k: nat, bound: int)
    requires VideoRises(msgs) && VideoBelow(msgs, k) && AudioRises(msgs)
    ensures VideoRises(msgs + [Video(k)]) && VideoBelow(msgs + [Video(k)], k + 1)
    ensures AudioRises(msgs + [Video(k)]) && (AudioBelow(msgs, bound) ==> AudioBelow(msgs + [Video(k)], bound))
  {}

  lemma AudioSnoc(msgs: seq<Msg>, j: nat, bound: int)
    requires AudioRises(msgs) && AudioBelow(msgs, j) && VideoRises(msgs)
    ensures AudioRises(msgs + [Audio(j)]) && AudioBelow(msgs + [Audio(j)], j + 1)
    ensures VideoRises(msgs + [Audio(j)]) && (VideoBelow(msgs, bound) ==> VideoBelow(msgs + [Audio(j)], bound))
  {}

  lemma VisitKeepsAhead(s: State, step: Step, c: nat, msgs: seq<Msg>)
    requires Ahead(s, c, msgs) && AudioRises(msgs) && VideoRises(msgs) && VisitMsg(s, step, c) != []
    ensures var more := msgs + VisitMsg(s, step, c);
            Ahead(Next(s, step), c, more) && AudioRises(more) && VideoRises(more)
  {
    VisitSeen(s, step, c);
    if step.Visit? {
      VideoSnoc(msgs, |s.video| - 1, s.chunks);
      VideoSnoc(msgs, |s.video| - 1, s.chunks - 1);
    } else {
      AudioSnoc(msgs, s.chunks - 1, |s.video|);
      AudioSnoc(msgs, s.chunks - 1, |s.video| - 1);
    }
  }

  lemma NextKeepsAhead(s: State, step: Step, c: nat, msgs: seq<Msg>)
    requires Ahead(s, c, msgs) && AudioRises(msgs) && VideoRises(msgs)
    ensures var more := msgs + VisitMsg(s, step, c);
            Ahead(Next(s, step), c, more) && AudioRises(more) && VideoRises(more)
  {
    if VisitMsg(s, step, c) == [] {
      BroadcastersMove(s, step, c);
      Nil(msgs);
    } else {
      VisitKeepsAhead(s, step, c, msgs);
    }
  }

  /** In every interleaving a client is visited with audio chunks in the order of their
      broadcast, and with frames in the order of theirs. */
  lemma {:induction false} VisitsRise(hasInput: bool, schedule: seq<Step>, c: nat)
    ensures var visits := Visits(hasInput, schedule, c);
            Ahead(StateAfter(hasInput, schedule), c, visits) && AudioRises(visits) && VideoRises(visits)
    decreases |schedule|
  {
    if schedule != [] {
      var init, step := schedule[..|schedule| - 1], schedule[|schedule| - 1];
      VisitsRise(hasInput, init, c);
      NextKeepsAhead(StateAfter(hasInput, init), step, c, Visits(hasInput, init, c));
    }
  }

  lemma {:induction false} VisitsAreEarlyAndLate(hasInput: bool, schedule: seq<Step>, c: nat)
    ensures Visits(hasInput, schedule, c) == Early(hasInput, schedule, c) + Late(hasInput, schedule, c)
    decreases |schedule|
  {
    if schedule != [] {
      var init, step := schedule[..|schedule| - 1], schedule[|schedule| - 1];
      var s := StateAfter(hasInput, init);
      var early, late, v := Early(hasInput, init, c), Late(hasInput, init, c), VisitMsg(s, step, c);
      VisitsAreEarlyAndLate(hasInput, init, c);
      OfferedShape(hasInput, init, c);
      RunKeepsLive(hasInput, init);
      Nil(early);
      Nil(late);
      Nil(early + late);
      Nil(early + v);
      if v != [] {
        assert Entered(s, c);
        Assoc(early, late, v);
      }
    }
  }

  lemma InsertVideo(a: seq<Msg>, v: seq<Msg>, b: seq<Msg>, bound: int)
    requires AudioRises(a + b) && AudioBelow(a + b, bound)
    requires forall i :: 0 <= i < |v| ==> v[i].Video?
    ensures AudioRises(a + v + b) && AudioBelow(a + v + b, bound)
  {
    forall i | 0 <= i < |a + v + b| && (a + v + b)[i].Audio?
      ensures i < |a| || |a| + |v| <= i
      ensures (a + v + b)[i] == (a + b)[if i < |a| then i else i - |v|]
    {}
  }

  /** What a client is offered are its visits, frames and chunks each in the order of their
      broadcast, and the cached IDR somewhere among them. */
  lemma OfferedInOrder(hasInput: bool, schedule: seq<Step>, c: nat)
    requires c < |StateAfter(hasInput, schedule).conns|
    ensures var s := StateAfter(hasInput, schedule);
            var early, late := Early(hasInput, schedule, c), Late(hasInput, schedule, c);
            && s.conns[c].queue.offered == early + CachedSend(s.conns[c]) + late
            && VideoRises(early + late) && VideoBelow(early + late, |s.video|)
            && AudioRises(s.conns[c].queue.offered) && AudioBelow(s.conns[c].queue.offered, s.chunks)
  {
    OfferedShape(hasInput, schedule, c);
    VisitsRise(hasInput, schedule, c);
    VisitsAreEarlyAndLate(hasInput, schedule, c);
    var s := StateAfter(hasInput, schedule);
    InsertVideo(Early(hasInput, schedule, c), CachedSend(s.conns[c]), Late(hasInput, schedule, c), s.chunks);
  }

  /** What a client has taken is in order, too. */
  lemma TakenInOrder(hasInput: bool, schedule: seq<Step>, c: nat)
    requires c < |StateAfter(hasInput, schedule).conns|
    ensures var s := StateAfter(hasInput, schedule);
            AudioRises(s.conns[c].queue.taken) && AudioBelow(s.conns[c].queue.taken, s.chunks)
  {
    var s := StateAfter(hasInput, schedule);
    var q := s.conns[c].queue;
    OfferedInOrder(hasInput, schedule, c);
    QueuesValid(hasInput, schedule, c);
    Nil(q.taken);
    Nil(q.taken + q.send);
    SubsequenceDrop(q.taken, q.send, [], q.offered);
    var at: seq<nat> :| Embeds(q.taken, q.offered, at);
  }
}

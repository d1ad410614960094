/** What connected clients are offered while others register, leave and are broadcast to:
    no client misses an IDR. */
module ServerFrames {
  import opened Basics
  import opened AnnexB
  import opened Keyframe
  import opened ClientQueue
  import opened ServerProtocol

  // ---------------------------------------------------------------- the IDR cache

  /** The NALs whose place in the cache has been decided. */
  function Decided(s: State): int {
    if s.phase == Framed then |s.video| - 1 else |s.video|
  }

  ghost predicate IdrAt(s: State, k: int) {
    0 <= k < |s.video| && IsIDR(s.video[k])
  }

  ghost predicate CacheInv(s: State) {
    && s.finished == (if s.phase == Idle then |s.video| else |s.video| - 1)
    && (s.lastIDR.Some? ==> s.lastIDR.value < Decided(s) && IdrAt(s, s.lastIDR.value))
    && (forall k :: IdrAt(s, k) && k < Decided(s) ==> s.lastIDR.Some? && k <= s.lastIDR.value)
  }

  /** Past reading the cache, and in the registry. */
  predicate Past(pc: PC) {
    pc.Cached? || pc.Sent? || pc.Reading? || pc.Left?
  }

  /** IDR `j` has been offered to the connection or is the one it is about to be sent. */
  ghost predicate Holds(x: Conn, j: nat) {
    Video(j) in x.queue.offered || (x.pc == Cached && x.cached == Some(j))
  }

  /** The connection holds IDR `k` or a later one. */
  ghost predicate Covered(s: State, x: Conn, k: int) {
    exists j: nat :: k <= j && IdrAt(s, j) && Holds(x, j)
  }

  /** Broadcast has dealt with this client, or the client came after the cache was set. */
  ghost predicate Served(s: State, c: nat) {
    s.phase.Visiting? && (c !in s.phase.range.must || c in s.phase.range.seen)
  }

  ghost predicate ClientInv(s: State, c: nat) {
    c < |s.conns| && Past(s.conns[c].pc) ==>
      && (forall k :: IdrAt(s, k) && k < s.finished ==> Covered(s, s.conns[c], k))
      && (Served(s, c) && IdrAt(s, |s.video| - 1) ==> Covered(s, s.conns[c], |s.video| - 1))
  }

  ghost predicate Inv(s: State) {
    RegistryExact(s) && CacheInv(s) && forall c: nat :: ClientInv(s, c)
  }

  lemma SameVideo(s: State, step: Step)
    requires !step.BeginVideo? && !step.StoreIDR?
    ensures var s' := Next(s, step);
            && s'.video == s.video && s'.lastIDR == s.lastIDR && Decided(s') == Decided(s)
            && (s.finished == (if s.phase == Idle then |s.video| else |s.video| - 1) ==>
                s'.finished == (if s'.phase == Idle then |s'.video| else |s'.video| - 1))
  {}

  lemma NextKeepsCache(s: State, step: Step)
    requires CacheInv(s)
    ensures CacheInv(Next(s, step))
  {
    var s' := Next(s, step);
    if step.BeginVideo? || step.StoreIDR? {
      forall k | IdrAt(s', k) && k < Decided(s')
        ensures s'.lastIDR.Some? && k <= s'.lastIDR.value
      {
        assert k < |s.video| ==> IdrAt(s, k);
      }
      assert s.lastIDR.Some? ==> IdrAt(s', s.lastIDR.value);
    } else {
      SameVideo(s, step);
      forall k ensures IdrAt(s', k) <==> IdrAt(s, k) {}
    }
  }

  /** Being covered survives anything that keeps what the connection holds. */
  lemma CoveredGrows(s: State, s': State, x: Conn, x': Conn, k: int)
    requires Covered(s, x, k)
    requires s.video <= s'.video
    requires forall j: nat :: Holds(x, j) ==> Holds(x', j)
    ensures Covered(s', x', k)
  {
    var j: nat :| k <= j && IdrAt(s, j) && Holds(x, j);
    assert IdrAt(s', j) && Holds(x', j);
  }

  /** The connection holds what it held. */
  ghost predicate Keeps(x: Conn, x': Conn) {
    forall j: nat :: Holds(x, j) ==> Holds(x', j)
  }

  lemma SendHolds(s: State, d: nat, c: nat)
    requires c < |s.conns| && Past(s.conns[c].pc)
    ensures c < |Next(s, SendCached(d)).conns| && Keeps(s.conns[c], Next(s, SendCached(d)).conns[c])
  {}

  lemma PassageHolds(s: State, step: Step, c: nat)
    requires Passage(step) && !step.SendCached? && c < |s.conns| && Past(s.conns[c].pc)
    ensures c < |Next(s, step).conns|
    ensures Past(Next(s, step).conns[c].pc) ==> Keeps(s.conns[c], Next(s, step).conns[c])
  {}

  lemma QueueStepHolds(s: State, step: Step, c: nat)
    requires QueueStep(step) && c < |s.conns| && Past(s.conns[c].pc)
    ensures c < |Next(s, step).conns| && Keeps(s.conns[c], Next(s, step).conns[c])
  {}

  lemma OtherHolds(s: State, step: Step, c: nat)
    requires !Passage(step) && !QueueStep(step) && c < |s.conns| && Past(s.conns[c].pc)
    ensures c < |Next(s, step).conns| && Next(s, step).conns[c] == s.conns[c]
  {}

  lemma NothingForgotten(s: State, step: Step)
    ensures |s.conns| <= |Next(s, step).conns| && s.video <= Next(s, step).video
  {}

  lemma HoldsGrows(s: State, step: Step, c: nat)
    requires c < |s.conns| && Past(s.conns[c].pc)
    ensures |s.conns| <= |Next(s, step).conns| && s.video <= Next(s, step).video
    ensures Past(Next(s, step).conns[c].pc) ==> Keeps(s.conns[c], Next(s, step).conns[c])
  {
    NothingForgotten(s, step);
    if step.SendCached? {
      SendHolds(s, step.c, c);
    } else if Passage(step) {
      PassageHolds(s, step, c);
    } else if QueueStep(step) {
      QueueStepHolds(s, step, c);
    } else {
      OtherHolds(s, step, c);
    }
  }

  /** Reading the cache covers everything decided so far, hence everything finished and the
      IDR being broadcast. */
  lemma JustRead(s: State, c: nat)
    requires CacheInv(s) && At(s, c, Counted)
    ensures ClientInv(Next(s, ReadCache(c)), c)
  {
    var s' := Next(s, ReadCache(c));
    var x := s'.conns[c];
    forall k | IdrAt(s', k) && k < Decided(s') ensures Covered(s', x, k) {
      assert IdrAt(s, k);
      assert IdrAt(s', s.lastIDR.value) && Holds(x, s.lastIDR.value);
    }
  }

  lemma PastBefore(s: State, step: Step, c: nat)
    requires c < |Next(s, step).conns| && Past(Next(s, step).conns[c].pc)
    requires !(step == ReadCache(c) && At(s, c, Counted))
    ensures c < |s.conns| && Past(s.conns[c].pc)
  {
    OneConnMoves(s, step);
  }

  lemma VideoGrows(s: State, step: Step)
    requires CacheInv(s)
    ensures var s' := Next(s, step);
            && (s'.finished == s.finished
                || (step.EndVisits? && s.phase.Visiting? && s'.finished == s.finished + 1
                    && s'.video == s.video && s.phase.range.must <= s.phase.range.seen))
            && (s'.video == s.video || s'.phase == Framed)
  {}

  /** Becoming served while past the cache means being visited just now. */
  lemma ServedBefore(s: State, step: Step, c: nat)
    requires RegistryExact(s) && c < |s.conns| && Past(s.conns[c].pc)
    requires Past(Next(s, step).conns[c].pc) && Served(Next(s, step), c)
    ensures Next(s, step).video == s.video
    ensures Served(s, c)
            || (step == Visit(c) && s.video != [] && Holds(Next(s, step).conns[c], |s.video| - 1))
  {
    assert c in s.registry;
  }

  /** What was finished stays covered, and so does what a finished broadcast has visited. */
  lemma FinishedCovered(s: State, s': State, c: nat, k: int)
    requires CacheInv(s) && ClientInv(s, c) && c < |s.conns| && Past(s.conns[c].pc)
    requires c < |s'.conns| && Keeps(s.conns[c], s'.conns[c]) && s.video <= s'.video
    requires s'.finished == s.finished || (s'.finished == s.finished + 1 && Served(s, c))
    requires IdrAt(s', k) && k < s'.finished
    ensures Covered(s', s'.conns[c], k)
  {
    assert IdrAt(s, k);
    CoveredGrows(s, s', s.conns[c], s'.conns[c], k);
  }

  lemma ServedCovered(s: State, s': State, c: nat)
    requires ClientInv(s, c) && c < |s.conns| && Past(s.conns[c].pc)
    requires c < |s'.conns| && Keeps(s.conns[c], s'.conns[c]) && s'.video == s.video
    requires Served(s, c) || (s.video != [] && Holds(s'.conns[c], |s.video| - 1))
    requires IdrAt(s', |s'.video| - 1)
    ensures Covered(s', s'.conns[c], |s'.video| - 1)
  {
    assert IdrAt(s, |s.video| - 1);
    if Served(s, c) {
      CoveredGrows(s, s', s.conns[c], s'.conns[c], |s.video| - 1);
    }
  }

  lemma StaysCovered(s: State, s': State, step: Step, c: nat)
    requires RegistryExact(s) && CacheInv(s) && ClientInv(s, c) && c < |s.conns| && Past(s.conns[c].pc)
    requires s' == Next(s, step) && c < |s'.conns| && Past(s'.conns[c].pc)
    requires Keeps(s.conns[c], s'.conns[c]) && s.video <= s'.video
    requires s'.finished == s.finished
             || (s'.finished == s.finished + 1 && s.phase.Visiting? && s.phase.range.must <= s.phase.range.seen)
    ensures ClientInv(s', c)
  {
    forall k | IdrAt(s', k) && k < s'.finished ensures Covered(s', s'.conns[c], k) {
      FinishedCovered(s, s', c, k);
    }
    if Served(s', c) && IdrAt(s', |s'.video| - 1) {
      ServedBefore(s, step, c);
      ServedCovered(s, s', c);
    }
  }

  /** A step of client `c` or of the broadcaster, seen from `c`. */
  lemma NextKeepsClient(s: State, step: Step, c: nat)
    requires Inv(s)
    ensures ClientInv(Next(s, step), c)
  {
    var s' := Next(s, step);
    if step == ReadCache(c) && At(s, c, Counted) {
      JustRead(s, c);
    } else if c < |s'.conns| && Past(s'.conns[c].pc) {
      PastBefore(s, step, c);
      assert ClientInv(s, c);
      HoldsGrows(s, step, c);
      VideoGrows(s, step);
      StaysCovered(s, s', step, c);
    }
  }

  lemma {:induction false} RunKeepsInv(hasInput: bool, schedule: seq<Step>)
    ensures Inv(StateAfter(hasInput, schedule))
    decreases |schedule|
  {
    if schedule != [] {
      var s, step := StateAfter(hasInput, schedule[..|schedule| - 1]), schedule[|schedule| - 1];
      RunKeepsInv(hasInput, schedule[..|schedule| - 1]);
      NextKeepsRegistry(s, step);
      NextKeepsCache(s, step);
      forall c: nat ensures ClientInv(Next(s, step), c) {
        NextKeepsClient(s, step, c);
      }
    }
  }

  /** No missed IDR: in every interleaving, a registered client past its cached-IDR step has
      been offered every IDR whose broadcast has finished, or a later one. */
  lemma NoMissedIDR(hasInput: bool, schedule: seq<Step>, c: nat, k: nat)
    requires var s := StateAfter(hasInput, schedule);
             c in s.registry && c < |s.conns| && Past(s.conns[c].pc) && !s.conns[c].pc.Cached?
    requires var s := StateAfter(hasInput, schedule); k < s.finished && IdrAt(s, k)
    ensures var s := StateAfter(hasInput, schedule);
            exists j :: k <= j < |s.video| && IsIDR(s.video[j]) && Video(j) in s.conns[c].queue.offered
  {
    RunKeepsInv(hasInput, schedule);
    var s := StateAfter(hasInput, schedule);
    assert ClientInv(s, c);
    var j: nat :| k <= j && IdrAt(s, j) && Holds(s.conns[c], j);
  }

  lemma NewestOfInv(s: State, i: nat)
    requires CacheInv(s)
    ensures s.lastIDR == Some(i) <==>
            i < Decided(s) && IdrAt(s, i) && forall k :: i < k < Decided(s) ==> !IdrAt(s, k)
  {
    if s.lastIDR.Some? {
      assert IdrAt(s, s.lastIDR.value);
    }
  }

  /** The cache always names the newest IDR whose place in it has been decided. */
  lemma CacheIsNewest(hasInput: bool, schedule: seq<Step>, i: nat)
    ensures var s := StateAfter(hasInput, schedule);
            s.lastIDR == Some(i) <==>
            i < Decided(s) && IdrAt(s, i) && forall k :: i < k < Decided(s) ==> !IdrAt(s, k)
  {
    RunKeepsInv(hasInput, schedule);
    NewestOfInv(StateAfter(hasInput, schedule), i);
  }

  // ---------------------------------------------------------------- what is not guaranteed

  const IDR_UNIT: Bytes := [0, 0, 0, 1, 0x65]
  const DELTA_UNIT: Bytes := [0, 0, 0, 1, 0x41]
  const VIEWER := Conn(Checked, false, false, None, Empty())

  /** A run: an IDR is broadcast, then a viewer arrives and registers, then the next frame
      visits it before it is counted and sent the cached IDR_UNIT. Step `i` and the state after. */
  function Story(i: int): (Step, State) {
    var framed := Init(false).(video := [IDR_UNIT], phase := Framed);
    var idr := framed.(lastIDR := Some(0), phase := IdrStored);
    var quiet := idr.(phase := Idle, finished := 1);
    var stored := quiet.(conns := [VIEWER.(pc := Stored)], registry := {0});
    var next := stored.(video := [IDR_UNIT, DELTA_UNIT], phase := Framed);
    var x := VIEWER.(queue := Queue([Video(1)], [], [Video(1)]));
    var visited := next.(phase := Visiting(Range({0}, {0}, {0})), count := 1);
    if i == 0 then (BeginVideo(IDR_UNIT), framed)
    else if i == 1 then (StoreIDR, idr)
    else if i == 2 then (StartVisits, idr.(phase := Visiting(Range({}, {}, {}))))
    else if i == 3 then (EndVisits, quiet)
    else if i == 4 then (Arrive, quiet.(conns := [VIEWER]))
    else if i == 5 then (Accept(0, true, false), quiet.(conns := [VIEWER.(pc := Accepted)]))
    else if i == 6 then (TryControl(0), quiet.(conns := [VIEWER.(pc := Ready)]))
    else if i == 7 then (Store(0), stored)
    else if i == 8 then (BeginVideo(DELTA_UNIT), next)
    else if i == 9 then (StoreIDR, next.(phase := IdrStored))
    else if i == 10 then (StartVisits, next.(phase := Visiting(Range({0}, {0}, {}))))
    else if i == 11 then (Visit(0), visited.(conns := [x.(pc := Stored)], count := 0))
    else if i == 12 then (Add(0), visited.(conns := [x.(pc := Counted)]))
    else if i == 13 then (ReadCache(0), visited.(conns := [x.(pc := Cached, cached := Some(0))]))
    else
      (SendCached(0),
       visited.(conns := [x.(pc := Sent, cached := Some(0),
                             queue := Queue([Video(1), Video(0)], [], [Video(1), Video(0)]))]))
  }

  ghost predicate FollowsStory(i: int) {
    Story(i).1 == Next(if i == 0 then Init(false) else Story(i - 1).1, Story(i).0)
  }

  lemma StoryBegins(i: nat)
    requires i < 4
    ensures FollowsStory(i)
  {
    var t := Next(if i == 0 then Init(false) else Story(i - 1).1, Story(i).0);
    assert Story(i).1.video == t.video;
    assert Story(i).1.phase == t.phase;
  }

  lemma StoryArrives(i: nat)
    requires 4 <= i < 8
    ensures FollowsStory(i)
  {
    var t := Next(Story(i - 1).1, Story(i).0);
    assert {} + {0} == {0};
    assert Story(i).1.conns == t.conns;
    assert Story(i).1.registry == t.registry;
  }

  lemma StoryMeets(i: nat)
    requires 8 <= i < 12
    ensures FollowsStory(i)
  {
    var t := Next(Story(i - 1).1, Story(i).0);
    assert [] + [Video(1)] == [Video(1)] && {} + {0} == {0};
    assert Story(i).1.conns == t.conns;
    assert Story(i).1.video == t.video;
    assert Story(i).1.phase == t.phase;
  }

  lemma StoryEnds(i: nat)
    requires 12 <= i < 15
    ensures FollowsStory(i)
  {
    var t := Next(Story(i - 1).1, Story(i).0);
    assert [Video(1)] + [Video(0)] == [Video(1), Video(0)];
    assert Story(i).1.conns == t.conns;
  }

  lemma {:induction false} FollowRun(steps: seq<Step>, states: seq<State>)
    requires |states| == |steps| + 1 && states[0] == Init(false)
    requires forall i :: 0 <= i < |steps| ==> states[i + 1] == Next(states[i], steps[i])
    ensures StateAfter(false, steps) == states[|steps|]
    decreases |steps|
  {
    if steps != [] {
      var n := |steps| - 1;
      FollowRun(steps[..n], states[..n + 1]);
      assert states[n + 1] == Next(states[n], steps[n]);
    }
  }

  lemma StoryRuns() returns (steps: seq<Step>)
    ensures StateAfter(false, steps) == Story(14).1
  {
    steps := seq(15, i => Story(i).0);
    var states := [Init(false)] + seq(15, i => Story(i).1);
    forall i | 0 <= i < 15 ensures states[i + 1] == Next(states[i], steps[i]) {
      if i < 4 {
        StoryBegins(i);
      } else if i < 8 {
        StoryArrives(i);
      } else if i < 12 {
        StoryMeets(i);
      } else {
        StoryEnds(i);
      }
      assert FollowsStory(i);
    }
    FollowRun(steps, states);
  }

  /** Past its cached send, with a frame that is no IDR queued ahead of the IDR. */
  ghost predicate StartsUndecodable(s: State, c: nat) {
    && At(s, c, Sent) && |s.video| == 2 && IsIDR(s.video[0]) && !IsIDR(s.video[1])
    && s.conns[c].queue.send == [Video(1), Video(0)]
  }

  lemma StoryOutcome()
    ensures StartsUndecodable(Story(14).1, 0)
  {}

  /** A new client's first message need not be the cached IDR: a broadcast can reach it
      between its registration and the cached send. */
  lemma FirstMessageMayPrecedeIDR()
    ensures exists schedule, c: nat :: StartsUndecodable(StateAfter(false, schedule), c)
  {
    var steps := StoryRuns();
    StoryOutcome();
    assert StartsUndecodable(StateAfter(false, steps), 0);
  }
}

/** Whom a broadcast reaches: everyone who stays, and nobody can hold it up. */
module ServerReach {
  import opened Basics
  import opened AnnexB
  import opened ClientQueue
  import opened ServerProtocol
  import opened ServerFrames
  import opened ServerOrder
  import opened ServerSession

  lemma OfferedGrows(s: State, step: Step, c: nat)
    requires c < |s.conns|
    ensures c < |Next(s, step).conns|
    ensures s.conns[c].queue.offered <= Next(s, step).conns[c].queue.offered
    ensures forall m :: m in VisitMsg(s, step, c) ==> m in Next(s, step).conns[c].queue.offered
  {
    OfferedStep(s, step, c);
  }

  // ---------------------------------------------------------------- frames

  /** The broadcast of frame `k` has come to `c`, if it has got that far. */
  ghost predicate FrameReaches(s: State, c: nat, k: nat) {
    && c < |s.conns| && k <= |s.video|
    && s.finished == (if s.phase == Idle then |s.video| else |s.video| - 1)
    && (s.finished > k ==> Video(k) in s.conns[c].queue.offered)
    && (|s.video| == k + 1 && s.phase.Visiting? ==>
          c in s.phase.range.must
          && (c in s.phase.range.seen ==> Video(k) in s.conns[c].queue.offered))
  }

  /** How the video broadcaster moves while `c` stays in the registry. */
  lemma FrameMoves(s: State, step: Step, c: nat)
    requires c in s.registry && c in Next(s, step).registry && c < |s.conns|
    requires s.finished == (if s.phase == Idle then |s.video| else |s.video| - 1)
    ensures var t := Next(s, step);
            && |s.video| <= |t.video|
            && t.finished == (if t.phase == Idle then |t.video| else |t.video| - 1)
            && (t.phase.Visiting? && !s.phase.Visiting? ==>
                  t.video == s.video && c in t.phase.range.must && t.phase.range.seen == {})
            && (t.phase.Visiting? && s.phase.Visiting? ==>
                  t.video == s.video && (c in s.phase.range.must ==> c in t.phase.range.must)
                  && (c in t.phase.range.seen ==>
                        c in s.phase.range.seen || VisitMsg(s, step, c) == [Video(|s.video| - 1)]))
            && (t.finished > s.finished ==>
                  t.finished == s.finished + 1 == |s.video| && s.phase.Visiting? && s.phase.range.must <= s.phase.range.seen)
  {}

  lemma NextReachesFrame(s: State, step: Step, c: nat, k: nat)
    requires FrameReaches(s, c, k) && c in s.registry && c in Next(s, step).registry
    ensures FrameReaches(Next(s, step), c, k)
  {
    FrameMoves(s, step, c);
    OfferedGrows(s, step, c);
  }

  /** `c` is registered after each of the first `m`, ..., `|schedule|` steps. */
  ghost predicate Stays(hasInput: bool, schedule: seq<Step>, m: nat, c: nat) {
    forall n :: m <= n <= |schedule| ==> c in StateAfter(hasInput, schedule[..n]).registry
  }

  lemma StaysInit(hasInput: bool, schedule: seq<Step>, m: nat, c: nat)
    requires m < |schedule| && Stays(hasInput, schedule, m, c)
    ensures Stays(hasInput, schedule[..|schedule| - 1], m, c)
    ensures c in StateAfter(hasInput, schedule[..|schedule| - 1]).registry && c in StateAfter(hasInput, schedule).registry
  {
    var init := schedule[..|schedule| - 1];
    assert forall n :: 0 <= n <= |init| ==> init[..n] == schedule[..n];
    assert schedule[..|schedule|] == schedule;
  }

  lemma {:induction false} StayersAreReached(hasInput: bool, schedule: seq<Step>, m: nat, c: nat)
    requires m <= |schedule| && Stays(hasInput, schedule, m, c)
    ensures FrameReaches(StateAfter(hasInput, schedule), c, |StateAfter(hasInput, schedule[..m]).video|)
    decreases |schedule|
  {
    if m == |schedule| {
      assert schedule[..m] == schedule;
      RunKeepsRegistry(hasInput, schedule);
      ServerFrames.RunKeepsInv(hasInput, schedule);
    } else {
      var init := schedule[..|schedule| - 1];
      StaysInit(hasInput, schedule, m, c);
      StayersAreReached(hasInput, init, m, c);
      assert init[..m] == schedule[..m];
      NextReachesFrame(StateAfter(hasInput, init), schedule[|schedule| - 1], c,
                       |StateAfter(hasInput, schedule[..m]).video|);
    }
  }

  lemma FinishedBegan(hasInput: bool, schedule: seq<Step>)
    ensures StateAfter(hasInput, schedule).finished <= |StateAfter(hasInput, schedule).video|
  {
    ServerFrames.RunKeepsInv(hasInput, schedule);
  }

  lemma VideoStep(s: State, step: Step)
    ensures |s.video| <= |Next(s, step).video| <= |s.video| + 1
  {}

  /** Frames begin one by one: there is a moment just before frame `k`. */
  lemma {:induction false} FrameBegins(hasInput: bool, schedule: seq<Step>, m: nat, k: nat) returns (n: nat)
    requires m <= |schedule|
    requires |StateAfter(hasInput, schedule[..m]).video| <= k <= |StateAfter(hasInput, schedule).video|
    ensures m <= n <= |schedule| && |StateAfter(hasInput, schedule[..n]).video| == k
    decreases |schedule|
  {
    assert schedule[..|schedule|] == schedule;
    if |StateAfter(hasInput, schedule).video| == k {
      n := |schedule|;
    } else {
      var init := schedule[..|schedule| - 1];
      VideoStep(StateAfter(hasInput, init), schedule[|schedule| - 1]);
      assert init[..m] == schedule[..m];
      n := FrameBegins(hasInput, init, m, k);
      assert init[..n] == schedule[..n];
    }
  }

  /** In every interleaving: a client registered before a frame's broadcast begins, and from
      then on, has been offered the frame once its broadcast has finished. */
  lemma EveryFrameReachesStayers(hasInput: bool, schedule: seq<Step>, m: nat, c: nat, k: nat)
    requires m <= |schedule| && Stays(hasInput, schedule, m, c)
    requires |StateAfter(hasInput, schedule[..m]).video| <= k < StateAfter(hasInput, schedule).finished
    ensures var s := StateAfter(hasInput, schedule);
            c < |s.conns| && Video(k) in s.conns[c].queue.offered
  {
    FinishedBegan(hasInput, schedule);
    var n := FrameBegins(hasInput, schedule, m, k);
    StayersAreReached(hasInput, schedule, n, c);
  }

  // ---------------------------------------------------------------- audio chunks

  /** Chunk `j` has been broadcast to the end. */
  ghost predicate ChunkDone(s: State, j: nat) {
    s.chunks > j + 1 || (s.chunks == j + 1 && s.audio.None?)
  }

  ghost predicate ChunkReaches(s: State, c: nat, j: nat) {
    && c < |s.conns| && j <= s.chunks
    && (ChunkDone(s, j) ==> Audio(j) in s.conns[c].queue.offered)
    && (s.chunks == j + 1 && s.audio.Some? ==>
          c in s.audio.value.must
          && (c in s.audio.value.seen ==> Audio(j) in s.conns[c].queue.offered))
  }

  lemma ChunkMoves(s: State, step: Step, c: nat)
    requires c in s.registry && c in Next(s, step).registry && c < |s.conns|
    ensures var t := Next(s, step);
            && s.chunks <= t.chunks <= s.chunks + 1
            && (t.chunks > s.chunks ==>
                  s.audio.None? && t.audio.Some? && c in t.audio.value.must && t.audio.value.seen == {})
            && (t.chunks == s.chunks && t.audio.Some? ==>
                  s.audio.Some? && (c in s.audio.value.must ==> c in t.audio.value.must)
                  && (c in t.audio.value.seen ==>
                        c in s.audio.value.seen || VisitMsg(s, step, c) == [Audio(s.chunks - 1)]))
            && (s.audio.Some? && t.audio.None? ==> s.audio.value.must <= s.audio.value.seen)
  {}

  lemma NextReachesChunk(s: State, step: Step, c: nat, j: nat)
    requires ChunkReaches(s, c, j) && c in s.registry && c in Next(s, step).registry
    ensures ChunkReaches(Next(s, step), c, j)
  {
    ChunkMoves(s, step, c);
    OfferedGrows(s, step, c);
  }

  lemma {:induction false} StayersHear(hasInput: bool, schedule: seq<Step>, m: nat, c: nat)
    requires m <= |schedule| && Stays(hasInput, schedule, m, c)
    ensures ChunkReaches(StateAfter(hasInput, schedule), c, StateAfter(hasInput, schedule[..m]).chunks)
    decreases |schedule|
  {
    if m == |schedule| {
      assert schedule[..m] == schedule;
      RunKeepsRegistry(hasInput, schedule);
    } else {
      var init := schedule[..|schedule| - 1];
      StaysInit(hasInput, schedule, m, c);
      StayersHear(hasInput, init, m, c);
      assert init[..m] == schedule[..m];
      NextReachesChunk(StateAfter(hasInput, init), schedule[|schedule| - 1], c,
                       StateAfter(hasInput, schedule[..m]).chunks);
    }
  }

  lemma ChunkStep(s: State, step: Step)
    ensures s.chunks <= Next(s, step).chunks <= s.chunks + 1
  {}

  lemma {:induction false} ChunkBegins(hasInput: bool, schedule: seq<Step>, m: nat, j: nat) returns (n: nat)
    requires m <= |schedule|
    requires StateAfter(hasInput, schedule[..m]).chunks <= j <= StateAfter(hasInput, schedule).chunks
    ensures m <= n <= |schedule| && StateAfter(hasInput, schedule[..n]).chunks == j
    decreases |schedule|
  {
    assert schedule[..|schedule|] == schedule;
    if StateAfter(hasInput, schedule).chunks == j {
      n := |schedule|;
    } else {
      var init := schedule[..|schedule| - 1];
      ChunkStep(StateAfter(hasInput, init), schedule[|schedule| - 1]);
      assert init[..m] == schedule[..m];
      n := ChunkBegins(hasInput, init, m, j);
      assert init[..n] == schedule[..n];
    }
  }

  /** The same for audio chunks. */
  lemma EveryChunkReachesStayers(hasInput: bool, schedule: seq<Step>, m: nat, c: nat, j: nat)
    requires m <= |schedule| && Stays(hasInput, schedule, m, c)
    requires StateAfter(hasInput, schedule[..m]).chunks <= j && ChunkDone(StateAfter(hasInput, schedule), j)
    ensures var s := StateAfter(hasInput, schedule);
            c < |s.conns| && Audio(j) in s.conns[c].queue.offered
  {
    var n := ChunkBegins(hasInput, schedule, m, j);
    StayersHear(hasInput, schedule, n, c);
  }

  // ---------------------------------------------------------------- nothing holds a broadcast up

  /** A connection that registers during a broadcast may be visited by it. */
  lemma JoinerMayBeVisited(s: State, c: nat)
    requires At(s, c, Ready)
    ensures var t := Next(s, Store(c));
            && (s.phase.Visiting? && c !in s.phase.range.seen && s.video != [] ==> CanVisit(t, c))
            && (s.audio.Some? && c !in s.audio.value.seen && s.chunks > 0 ==> CanVisitAudio(t, c))
  {}

  /** One that leaves is not waited for. */
  lemma DepartedIsNotAwaited(s: State, c: nat)
    requires At(s, c, Left)
    ensures var t := Next(s, Delete(c));
            && (t.phase.Visiting? ==> c !in t.phase.range.must) && (t.audio.Some? ==> c !in t.audio.value.must)
  {}

  /** Everyone still to be visited can be. */
  ghost predicate Visitable(s: State) {
    && (s.phase.Visiting? ==> s.video != [] && forall c :: c in s.phase.range.must ==> c in s.phase.range.live && c < |s.conns|)
    && (s.audio.Some? ==> s.chunks > 0 && forall c :: c in s.audio.value.must ==> c in s.audio.value.live && c < |s.conns|)
  }

  lemma NothingLeft(must: set<nat>, seen: set<nat>)
    requires must - seen == {}
    ensures must <= seen
  {
    forall c | c in must ensures c in seen {
      assert c in must - seen || c in seen;
    }
  }

  lemma VisitProgress(s: State, c: nat)
    requires Visitable(s) && s.phase.Visiting? && c in s.phase.range.must - s.phase.range.seen
    ensures var t := Next(s, Visit(c));
            && Visitable(t) && t.phase.Visiting? && t.video == s.video && t.finished == s.finished
            && t.phase.range.must == s.phase.range.must && t.phase.range.seen == s.phase.range.seen + {c}
  {}

  /** A frame's broadcast can always be finished by its own steps alone. */
  lemma {:induction false} VisitsFinish(s: State) returns (steps: seq<Step>)
    requires Visitable(s) && s.phase.Visiting?
    ensures var t := Follow(s, steps);
            t.phase == Idle && t.video == s.video && t.finished == s.finished + 1
    ensures forall i :: 0 <= i < |steps| ==> steps[i].Visit? || steps[i].EndVisits?
    decreases |s.phase.range.must - s.phase.range.seen|
  {
    var todo := s.phase.range.must - s.phase.range.seen;
    if todo == {} {
      steps := [EndVisits];
      FollowOne(s, EndVisits);
      NothingLeft(s.phase.range.must, s.phase.range.seen);
    } else {
      var c :| c in todo;
      VisitProgress(s, c);
      var t := Next(s, Visit(c));
      assert t.phase.range.must - t.phase.range.seen == todo - {c};
      var rest := VisitsFinish(t);
      steps := [Visit(c)] + rest;
      FollowAppend(s, [Visit(c)], rest);
      FollowOne(s, Visit(c));
    }
  }

  lemma FrameStarts(s: State, nal: Bytes)
    requires RegistryExact(s) && Visitable(s) && s.phase == Idle
    ensures var t := Follow(s, [BeginVideo(nal), StoreIDR] + [StartVisits]);
            Visitable(t) && t.phase.Visiting? && t.video == s.video + [nal] && t.finished == s.finished
  {
    FollowAppend(s, [BeginVideo(nal), StoreIDR], [StartVisits]);
    FollowTwo(s, BeginVideo(nal), StoreIDR);
    var u := Next(Next(s, BeginVideo(nal)), StoreIDR);
    FollowOne(u, StartVisits);
    assert u.phase == IdrStored && u.registry == s.registry && u.conns == s.conns;
  }

  /** From any state with the broadcaster idle, a frame can be broadcast to the end, whatever
      the clients do or do not do. */
  lemma FrameCompletes(s: State, nal: Bytes) returns (steps: seq<Step>)
    requires RegistryExact(s) && Visitable(s) && s.phase == Idle
    ensures var t := Follow(s, steps);
            t.phase == Idle && t.video == s.video + [nal] && t.finished == s.finished + 1
  {
    var start := [BeginVideo(nal), StoreIDR] + [StartVisits];
    FrameStarts(s, nal);
    var rest := VisitsFinish(Follow(s, start));
    steps := start + rest;
    FollowAppend(s, start, rest);
  }

  lemma HearProgress(s: State, c: nat)
    requires Visitable(s) && s.audio.Some? && c in s.audio.value.must - s.audio.value.seen
    ensures var t := Next(s, VisitAudio(c));
            && Visitable(t) && t.audio.Some? && t.chunks == s.chunks
            && t.audio.value.must == s.audio.value.must && t.audio.value.seen == s.audio.value.seen + {c}
  {}

  lemma {:induction false} HearingFinishes(s: State) returns (steps: seq<Step>)
    requires Visitable(s) && s.audio.Some?
    ensures Follow(s, steps).audio == None && Follow(s, steps).chunks == s.chunks
    decreases |s.audio.value.must - s.audio.value.seen|
  {
    var todo := s.audio.value.must - s.audio.value.seen;
    if todo == {} {
      steps := [EndAudio];
      FollowOne(s, EndAudio);
      NothingLeft(s.audio.value.must, s.audio.value.seen);
    } else {
      var c :| c in todo;
      HearProgress(s, c);
      var t := Next(s, VisitAudio(c));
      assert t.audio.value.must - t.audio.value.seen == todo - {c};
      var rest := HearingFinishes(t);
      steps := [VisitAudio(c)] + rest;
      FollowAppend(s, [VisitAudio(c)], rest);
      FollowOne(s, VisitAudio(c));
    }
  }

  /** The same for an audio chunk. */
  lemma ChunkCompletes(s: State) returns (steps: seq<Step>)
    requires RegistryExact(s) && Visitable(s) && s.audio == None
    ensures Follow(s, steps).audio == None && Follow(s, steps).chunks == s.chunks + 1
  {
    FollowOne(s, BeginAudio);
    var t := Next(s, BeginAudio);
    assert t.audio == Some(Range(s.registry, s.registry, {})) && t.chunks == s.chunks + 1;
    assert Visitable(t);
    var rest := HearingFinishes(t);
    steps := [BeginAudio] + rest;
    FollowAppend(s, [BeginAudio], rest);
  }

  /** The video broadcaster has something to broadcast. */
  ghost predicate Loaded(s: State) {
    s.phase == Framed || s.phase == IdrStored ==> s.video != []
  }

  lemma PassageVisitable(s: State, step: Step)
    requires Visitable(s) && Passage(step)
    ensures Visitable(Next(s, step))
  {}

  lemma BroadcastVisitable(s: State, step: Step)
    requires RegistryExact(s) && Visitable(s) && Loaded(s) && QueueStep(step)
    ensures Visitable(Next(s, step))
  {}

  lemma OtherVisitable(s: State, step: Step)
    requires Visitable(s) && !Passage(step) && !QueueStep(step)
    ensures Visitable(Next(s, step))
  {}

  lemma LoadedStays(s: State, step: Step)
    requires Loaded(s)
    ensures Loaded(Next(s, step))
  {}

  lemma VisitableStays(s: State, step: Step)
    requires RegistryExact(s) && Visitable(s) && Loaded(s)
    ensures Visitable(Next(s, step)) && Loaded(Next(s, step))
  {
    LoadedStays(s, step);
    if Passage(step) {
      PassageVisitable(s, step);
    } else if QueueStep(step) {
      BroadcastVisitable(s, step);
    } else {
      OtherVisitable(s, step);
    }
  }

  /** Every reachable state is such a state. */
  lemma {:induction false} RunKeepsVisitable(hasInput: bool, schedule: seq<Step>)
    ensures var s := StateAfter(hasInput, schedule);
            RegistryExact(s) && Visitable(s) && Loaded(s)
    decreases |schedule|
  {
    RunKeepsRegistry(hasInput, schedule);
    if schedule != [] {
      RunKeepsVisitable(hasInput, schedule[..|schedule| - 1]);
      VisitableStays(StateAfter(hasInput, schedule[..|schedule| - 1]), schedule[|schedule| - 1]);
    }
  }
}

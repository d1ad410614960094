/** The client limit: what `count` means and how far it can pass `maxClients` when upgrades
    overlap, since the check and the increment are separate steps. */
module ServerAdmission {
  import opened Basics
  import opened ClientQueue
  import opened ServerProtocol

  /** Between `count.Add(1)` and `count.Add(-1)`. */
  const COUNTED_PCS: set<PC> := {Counted, Cached, Sent, Reading, Left, Deleted}

  /** Past the check, not yet counted. */
  const PENDING_PCS: set<PC> := {Checked, Accepted, Won, Ready, Stored}

  function CountIn(conns: seq<Conn>, pcs: set<PC>): nat {
    if conns == [] then 0
    else CountIn(conns[..|conns| - 1], pcs) + if conns[|conns| - 1].pc in pcs then 1 else 0
  }

  function Pending(s: State): nat {
    CountIn(s.conns, PENDING_PCS)
  }

  function One(x: Conn, pcs: set<PC>): nat {
    if x.pc in pcs then 1 else 0
  }

  lemma {:induction false} CountUpdate(conns: seq<Conn>, c: nat, x: Conn, pcs: set<PC>)
    requires c < |conns|
    ensures CountIn(conns[c := x], pcs) + One(conns[c], pcs) == CountIn(conns, pcs) + One(x, pcs)
    decreases |conns|
  {
    var n := |conns| - 1;
    if c < n {
      assert conns[c := x][..n] == conns[..n][c := x];
      CountUpdate(conns[..n], c, x, pcs);
    } else {
      assert conns[c := x][..n] == conns[..n];
    }
  }

  lemma CountAppend(conns: seq<Conn>, x: Conn, pcs: set<PC>)
    ensures CountIn(conns + [x], pcs) == CountIn(conns, pcs) + One(x, pcs)
  {
    assert (conns + [x])[..|conns|] == conns;
  }

  ghost predicate CountExact(s: State) {
    s.count == CountIn(s.conns, COUNTED_PCS)
  }

  /** How one step changes the number of connections in a group of program counters. */
  lemma NextCount(s: State, step: Step, pcs: set<PC>)
    ensures var s' := Next(s, step);
            || (s'.conns == s.conns && CountIn(s'.conns, pcs) == CountIn(s.conns, pcs))
            || (step.Arrive? && s.count < MAX_CLIENTS && |s'.conns| == |s.conns| + 1 &&
                s'.conns[|s.conns|].pc == Checked &&
                CountIn(s'.conns, pcs) == CountIn(s.conns, pcs) + One(s'.conns[|s.conns|], pcs))
            || (!step.Arrive? && Actor(step) < |s.conns| == |s'.conns| &&
                CountIn(s'.conns, pcs) + One(s.conns[Actor(step)], pcs)
                == CountIn(s.conns, pcs) + One(s'.conns[Actor(step)], pcs))
  {
    OneConnMoves(s, step);
    var s' := Next(s, step);
    if step.Arrive? && s'.conns != s.conns {
      CountAppend(s.conns, s'.conns[|s.conns|], pcs);
    } else if Actor(step) < |s.conns| && s'.conns != s.conns {
      CountUpdate(s.conns, Actor(step), s'.conns[Actor(step)], pcs);
    }
  }

  /** At the handler that moves, the counter follows `COUNTED_PCS`, and it does not start to
      wait. */
  ghost predicate CountsFollow(s: State, s': State, c: nat) {
    && c < |s.conns| == |s'.conns|
    && s'.count + One(s.conns[c], COUNTED_PCS) == s.count + One(s'.conns[c], COUNTED_PCS)
    && s'.count + One(s'.conns[c], PENDING_PCS) <= s.count + One(s.conns[c], PENDING_PCS)
  }

  lemma EnterCount(s: State, step: Step)
    requires (step.Accept? || step.TryControl? || step.SetText? || step.Store? || step.Add?)
             && Actor(step) < |s.conns|
    ensures CountsFollow(s, Next(s, step), Actor(step))
  {}

  lemma StayCount(s: State, step: Step)
    requires (step.ReadCache? || step.SendCached? || step.Callback? || step.Text? || step.Disconnect?)
             && Actor(step) < |s.conns|
    ensures CountsFollow(s, Next(s, step), Actor(step))
  {}

  lemma LeaveCount(s: State, step: Step)
    requires (step.Delete? || step.Subtract? || step.Release?) && Actor(step) < |s.conns|
    ensures CountsFollow(s, Next(s, step), Actor(step))
  {}

  lemma QueueCount(s: State, step: Step)
    requires QueueStep(step) && Actor(step) < |s.conns|
    ensures CountsFollow(s, Next(s, step), Actor(step))
  {
    QueueStepSameHandlers(s, step);
  }

  lemma ActorCount(s: State, step: Step)
    requires !step.Arrive? && Actor(step) < |s.conns|
    ensures CountsFollow(s, Next(s, step), Actor(step))
  {
    if step.Accept? || step.TryControl? || step.SetText? || step.Store? || step.Add? {
      EnterCount(s, step);
    } else if step.Delete? || step.Subtract? || step.Release? {
      LeaveCount(s, step);
    } else if QueueStep(step) {
      QueueCount(s, step);
    } else {
      StayCount(s, step);
    }
  }

  lemma IdleCount(s: State, step: Step)
    ensures Next(s, step).conns == s.conns ==> Next(s, step).count == s.count
    ensures step.Arrive? ==> Next(s, step).count == s.count
  {}

  /** Counting and waiting change hand in hand: only `Add` and `Subtract` move the counter,
      only a passed check makes a handler wait, and only below the limit. */
  lemma NextKeepsCount(s: State, step: Step)
    requires CountExact(s)
    ensures CountExact(Next(s, step))
    ensures Next(s, step).count + Pending(Next(s, step)) <= s.count + Pending(s)
            || (s.count < MAX_CLIENTS && Next(s, step).count == s.count
                && Pending(Next(s, step)) == Pending(s) + 1)
  {
    NextCount(s, step, COUNTED_PCS);
    NextCount(s, step, PENDING_PCS);
    IdleCount(s, step);
    if !step.Arrive? && Actor(step) < |s.conns| {
      ActorCount(s, step);
    }
  }

  /** No prefix of the schedule has more than `k` handlers between check and count. */
  ghost predicate PendingAtMost(hasInput: bool, schedule: seq<Step>, k: nat) {
    forall n :: 0 <= n <= |schedule| ==> Pending(StateAfter(hasInput, schedule[..n])) <= k
  }

  lemma {:induction false} AdmissionBound(hasInput: bool, schedule: seq<Step>, k: nat)
    requires PendingAtMost(hasInput, schedule, k)
    ensures var s := StateAfter(hasInput, schedule);
            CountExact(s) && 0 <= s.count && s.count + Pending(s) <= 24 + k
    decreases |schedule|
  {
    if schedule != [] {
      var init := schedule[..|schedule| - 1];
      assert forall n :: 0 <= n <= |init| ==> init[..n] == schedule[..n];
      assert schedule[..|schedule|] == schedule;
      AdmissionBound(hasInput, init, k);
      NextKeepsCount(StateAfter(hasInput, init), schedule[|schedule| - 1]);
    }
  }

  // ---------------------------------------------------------------- registry size

  lemma {:induction false} SetCount(conns: seq<Conn>, pcs: set<PC>)
    ensures |set c | 0 <= c < |conns| && conns[c].pc in pcs| == CountIn(conns, pcs)
    decreases |conns|
  {
    var all := set c | 0 <= c < |conns| && conns[c].pc in pcs;
    if conns == [] {
      assert all == {};
    } else {
      var n := |conns| - 1;
      var before := set c | 0 <= c < |conns[..n]| && conns[..n][c].pc in pcs;
      SetCount(conns[..n], pcs);
      assert all == if conns[n].pc in pcs then before + {n} else before;
    }
  }

  lemma {:induction false} CountDisjoint(conns: seq<Conn>, a: set<PC>, b: set<PC>)
    requires a !! b
    ensures CountIn(conns, a + b) == CountIn(conns, a) + CountIn(conns, b)
  {
    if conns != [] {
      CountDisjoint(conns[..|conns| - 1], a, b);
    }
  }

  lemma {:induction false} RunCountExact(hasInput: bool, schedule: seq<Step>)
    ensures CountExact(StateAfter(hasInput, schedule))
    decreases |schedule|
  {
    if schedule != [] {
      RunCountExact(hasInput, schedule[..|schedule| - 1]);
      NextKeepsCount(StateAfter(hasInput, schedule[..|schedule| - 1]), schedule[|schedule| - 1]);
    }
  }

  lemma {:induction false} NoneCounted(s: State, conns: seq<Conn>, pc: PC)
    requires conns <= s.conns && forall c: nat :: !At(s, c, pc)
    ensures CountIn(conns, {pc}) == 0
    decreases |conns|
  {
    if conns != [] {
      var n := |conns| - 1;
      assert !At(s, n, pc);
      NoneCounted(s, conns[..n], pc);
    }
  }

  /** In every reachable state registry and counter differ by exactly the handlers caught
      between their two updates; with none, they are equal. */
  lemma RegistrySize(hasInput: bool, schedule: seq<Step>)
    ensures var s := StateAfter(hasInput, schedule);
            && |s.registry| + CountIn(s.conns, {Deleted}) == s.count + CountIn(s.conns, {Stored})
            && ((forall c: nat :: !At(s, c, Stored) && !At(s, c, Deleted)) ==> s.count == |s.registry|)
  {
    var s := StateAfter(hasInput, schedule);
    var middle := {Counted, Cached, Sent, Reading, Left};
    var registered := middle + {Stored};
    RunKeepsRegistry(hasInput, schedule);
    RunCountExact(hasInput, schedule);
    SetCount(s.conns, registered);
    assert s.registry == set c | 0 <= c < |s.conns| && s.conns[c].pc in registered;
    CountDisjoint(s.conns, middle, {Stored});
    CountDisjoint(s.conns, middle, {Deleted});
    assert COUNTED_PCS == middle + {Deleted};
    if forall c: nat :: !At(s, c, Stored) && !At(s, c, Deleted) {
      NoneCounted(s, s.conns, Stored);
      NoneCounted(s, s.conns, Deleted);
    }
  }

  // ---------------------------------------------------------------- the bound is reached

  const MEMBER := Conn(Counted, false, false, None, Empty())
  const CANDIDATE := Conn(Checked, false, false, None, Empty())

  /** `n` viewers counted and `p` upgrades past the check. */
  function Crowd(hasInput: bool, n: nat, p: nat): State {
    var conns := seq(n + p, i => if i < n then MEMBER else CANDIDATE);
    Init(hasInput).(
      conns := conns,
      registry := (set i | 0 <= i < |conns| && conns[i] == MEMBER),
      count := n)
  }

  lemma {:induction false} CrowdPending(hasInput: bool, n: nat, p: nat)
    ensures Pending(Crowd(hasInput, n, p)) == p
    decreases n + p
  {
    var conns := Crowd(hasInput, n, p).conns;
    if p > 0 {
      CrowdPending(hasInput, n, p - 1);
      assert conns[..n + p - 1] == Crowd(hasInput, n, p - 1).conns;
    } else if n > 0 {
      CrowdPending(hasInput, n - 1, 0);
      assert conns[..n - 1] == Crowd(hasInput, n - 1, 0).conns;
    }
  }

  /** Some schedule with at most `k` pending at any time ends in `s`. */
  ghost predicate Reaches(k: nat, s: State) {
    exists schedule :: StateAfter(s.hasInput, schedule) == s && PendingAtMost(s.hasInput, schedule, k)
  }

  lemma NextKeepsInput(s: State, step: Step)
    ensures Next(s, step).hasInput == s.hasInput
  {}

  lemma ReachNext(k: nat, s: State, step: Step)
    requires Reaches(k, s) && Pending(Next(s, step)) <= k
    ensures Reaches(k, Next(s, step))
  {
    var schedule :| StateAfter(s.hasInput, schedule) == s && PendingAtMost(s.hasInput, schedule, k);
    var longer := schedule + [step];
    NextKeepsInput(s, step);
    assert longer[..|schedule|] == schedule;
    assert StateAfter(s.hasInput, longer) == Next(s, step);
    forall n | 0 <= n <= |longer| ensures Pending(StateAfter(s.hasInput, longer[..n])) <= k {
      if n <= |schedule| {
        assert longer[..n] == schedule[..n];
      } else {
        assert longer[..n] == longer;
      }
    }
  }

  lemma ReachArrival(hasInput: bool, k: nat, n: nat, p: nat)
    requires Reaches(k, Crowd(hasInput, n, p)) && n < MAX_CLIENTS && p < k
    ensures Reaches(k, Crowd(hasInput, n, p + 1))
  {
    CrowdPending(hasInput, n, p + 1);
    assert Next(Crowd(hasInput, n, p), Arrive).conns == Crowd(hasInput, n, p + 1).conns;
    assert Next(Crowd(hasInput, n, p), Arrive) == Crowd(hasInput, n, p + 1);
    ReachNext(k, Crowd(hasInput, n, p), Arrive);
  }

  /** `Crowd(hasInput, n, p)` with its first waiting upgrade moved on to `pc`. */
  function Entering(hasInput: bool, n: nat, p: nat, pc: PC): State {
    var s := Crowd(hasInput, n, p + 1);
    s.(conns := s.conns[n := CANDIDATE.(pc := pc)],
       registry := if pc == Stored then s.registry + {n} else s.registry)
  }

  lemma EnteringPending(hasInput: bool, n: nat, p: nat, pc: PC)
    requires pc in PENDING_PCS
    ensures Pending(Entering(hasInput, n, p, pc)) == p + 1
  {
    CrowdPending(hasInput, n, p + 1);
    CountUpdate(Crowd(hasInput, n, p + 1).conns, n, CANDIDATE.(pc := pc), PENDING_PCS);
  }

  lemma EnteringSteps(hasInput: bool, n: nat, p: nat)
    ensures Next(Crowd(hasInput, n, p + 1), Accept(n, true, false)) == Entering(hasInput, n, p, Accepted)
    ensures Next(Entering(hasInput, n, p, Accepted), TryControl(n)) == Entering(hasInput, n, p, Ready)
  {
    var conns := Crowd(hasInput, n, p + 1).conns;
    assert conns[n := CANDIDATE.(pc := Accepted)][n := CANDIDATE.(pc := Ready)]
           == conns[n := CANDIDATE.(pc := Ready)];
  }

  lemma StoringStep(hasInput: bool, n: nat, p: nat)
    ensures Next(Entering(hasInput, n, p, Ready), Store(n)) == Entering(hasInput, n, p, Stored)
  {
    var conns := Crowd(hasInput, n, p + 1).conns;
    assert conns[n := CANDIDATE.(pc := Ready)][n := CANDIDATE.(pc := Stored)]
           == conns[n := CANDIDATE.(pc := Stored)];
  }

  lemma CountingStep(hasInput: bool, n: nat, p: nat)
    ensures Next(Entering(hasInput, n, p, Stored), Add(n)) == Crowd(hasInput, n + 1, p)
  {
    var conns := Crowd(hasInput, n, p + 1).conns;
    assert conns[n := CANDIDATE.(pc := Stored)][n := MEMBER] == Crowd(hasInput, n + 1, p).conns;
    assert Crowd(hasInput, n, p + 1).registry + {n} == Crowd(hasInput, n + 1, p).registry;
  }

  /** The first waiting upgrade is accepted as a viewer, stored and counted. */
  lemma ReachAdmission(hasInput: bool, k: nat, n: nat, p: nat)
    requires Reaches(k, Crowd(hasInput, n, p + 1)) && p < k
    ensures Reaches(k, Crowd(hasInput, n + 1, p))
  {
    EnteringSteps(hasInput, n, p);
    StoringStep(hasInput, n, p);
    CountingStep(hasInput, n, p);
    EnteringPending(hasInput, n, p, Accepted);
    EnteringPending(hasInput, n, p, Ready);
    EnteringPending(hasInput, n, p, Stored);
    CrowdPending(hasInput, n + 1, p);
    ReachNext(k, Crowd(hasInput, n, p + 1), Accept(n, true, false));
    ReachNext(k, Entering(hasInput, n, p, Accepted), TryControl(n));
    ReachNext(k, Entering(hasInput, n, p, Ready), Store(n));
    ReachNext(k, Entering(hasInput, n, p, Stored), Add(n));
  }

  lemma {:induction false} ReachCrowd(hasInput: bool, k: nat, n: nat)
    requires 0 < k && n < MAX_CLIENTS
    ensures Reaches(k, Crowd(hasInput, n, 0))
    decreases n
  {
    if n == 0 {
      assert Crowd(hasInput, 0, 0) == Init(hasInput) == StateAfter(hasInput, []);
      assert PendingAtMost(hasInput, [], k);
    } else {
      ReachCrowd(hasInput, k, n - 1);
      ReachArrival(hasInput, k, n - 1, 0);
      ReachAdmission(hasInput, k, n - 1, 0);
    }
  }

  lemma {:induction false} ReachOverlap(hasInput: bool, k: nat, p: nat)
    requires 0 < k && p <= k
    ensures Reaches(k, Crowd(hasInput, MAX_CLIENTS - 1, p))
    decreases p
  {
    if p == 0 {
      ReachCrowd(hasInput, k, MAX_CLIENTS - 1);
    } else {
      ReachOverlap(hasInput, k, p - 1);
      ReachArrival(hasInput, k, MAX_CLIENTS - 1, p - 1);
    }
  }

  lemma {:induction false} ReachFull(hasInput: bool, k: nat, a: nat)
    requires 0 < k && a <= k
    ensures Reaches(k, Crowd(hasInput, MAX_CLIENTS - 1 + a, k - a))
    decreases a
  {
    if a == 0 {
      ReachOverlap(hasInput, k, k);
    } else {
      ReachFull(hasInput, k, a - 1);
      ReachAdmission(hasInput, k, MAX_CLIENTS - 1 + (a - 1), k - a);
    }
  }

  /** The documented limit of 25 is kept by every schedule exactly when at most one upgrade
      is ever between check and count; with `k` of them, 24 + `k` clients get in. */
  lemma LimitHoldsIffSerialised(hasInput: bool, k: nat)
    ensures (forall schedule :: PendingAtMost(hasInput, schedule, k) ==> StateAfter(hasInput, schedule).count <= 25)
            <==> k <= 1
    ensures k > 0 ==> exists schedule ::
              PendingAtMost(hasInput, schedule, k) && StateAfter(hasInput, schedule).count == 24 + k
  {
    if k > 0 {
      ReachFull(hasInput, k, k);
      var full := Crowd(hasInput, MAX_CLIENTS - 1 + k, 0);
      var schedule :| StateAfter(hasInput, schedule) == full && PendingAtMost(hasInput, schedule, k);
      assert StateAfter(hasInput, schedule).count == 24 + k;
    }
    if k <= 1 {
      forall schedule | PendingAtMost(hasInput, schedule, k)
        ensures StateAfter(hasInput, schedule).count <= 25
      {
        AdmissionBound(hasInput, schedule, k);
      }
    }
  }
}

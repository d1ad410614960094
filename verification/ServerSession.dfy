/** What one connection does to the server, from its accepted upgrade to its departure. */
module ServerSession {
  import opened Basics
  import opened ClientQueue
  import opened ServerProtocol
  import ServerController

  /** Several steps, one after the other. */
  function Follow(s: State, steps: seq<Step>): State
    decreases |steps|
  {
    if steps == [] then s else Follow(Next(s, steps[0]), steps[1..])
  }

  lemma {:induction false} FollowAppend(s: State, a: seq<Step>, b: seq<Step>)
    ensures Follow(s, a + b) == Follow(Follow(s, a), b)
    decreases |a|
  {
    if a == [] {
      Nil(b);
    } else {
      FollowAppend(Next(s, a[0]), a[1..], b);
      assert (a + b)[1..] == a[1..] + b;
    }
  }

  lemma {:induction false} FollowReaches(hasInput: bool, schedule: seq<Step>, steps: seq<Step>)
    ensures Follow(StateAfter(hasInput, schedule), steps) == StateAfter(hasInput, schedule + steps)
    decreases |steps|
  {
    if steps == [] {
      Nil(schedule);
    } else {
      InitOfSnoc(schedule, steps[0]);
      FollowReaches(hasInput, schedule + [steps[0]], steps[1..]);
      Assoc(schedule, [steps[0]], steps[1..]);
      assert [steps[0]] + steps[1..] == steps;
    }
  }

  lemma FollowOne(s: State, a: Step)
    ensures Follow(s, [a]) == Next(s, a)
  {
    assert Follow(Next(s, a), [a][1..]) == Next(s, a);
  }

  /** Steps one at a time. */
  lemma FollowTwo(s: State, a: Step, b: Step)
    ensures Follow(s, [a, b]) == Next(Next(s, a), b)
  {
    FollowAppend(s, [a], [b]);
    FollowOne(s, a);
    FollowOne(Next(s, a), b);
    assert [a] + [b] == [a, b];
  }

  lemma NextKeepsInput(s: State, step: Step)
    ensures Next(s, step).hasInput == s.hasInput
  {}

  lemma {:induction false} RunKeepsInput(hasInput: bool, schedule: seq<Step>)
    ensures StateAfter(hasInput, schedule).hasInput == hasInput
    decreases |schedule|
  {
    if schedule != [] {
      RunKeepsInput(hasInput, schedule[..|schedule| - 1]);
      NextKeepsInput(StateAfter(hasInput, schedule[..|schedule| - 1]), schedule[|schedule| - 1]);
    }
  }

  // ---------------------------------------------------------------- coming

  /** Upgrade, role, text callback. */
  function Admission(c: nat, control: bool): seq<Step> {
    [Accept(c, true, control), TryControl(c)] + [SetText(c)]
  }

  /** Registration. */
  function Registration(c: nat): seq<Step> {
    [Store(c), Add(c)]
  }

  /** The cached IDR. */
  function Greeting(c: nat): seq<Step> {
    [ReadCache(c), SendCached(c)] + [Callback(c)]
  }

  /** The other connections, the broadcasts and the texts delivered are as before. */
  ghost predicate Undisturbed(s: State, t: State, c: nat) {
    && c < |s.conns| == |t.conns|
    && (forall d :: 0 <= d < |s.conns| && d != c ==> t.conns[d] == s.conns[d])
    && t.hasInput == s.hasInput && t.video == s.video && t.finished == s.finished && t.lastIDR == s.lastIDR
    && t.chunks == s.chunks && t.delivered == s.delivered
  }

  lemma Admit(s: State, c: nat, control: bool)
    requires At(s, c, Checked) && !s.conns[c].text
    ensures var t := Follow(s, Admission(c, control));
            var wins := control && s.controller == None;
            && Undisturbed(s, t, c)
            && t.conns[c] == s.conns[c].(pc := Ready, control := control, text := wins && s.hasInput)
            && t.controller == (if wins then Some(c) else s.controller)
            && t.registry == s.registry && t.count == s.count && t.phase == s.phase && t.audio == s.audio
  {
    FollowAppend(s, [Accept(c, true, control), TryControl(c)], [SetText(c)]);
    FollowTwo(s, Accept(c, true, control), TryControl(c));
    var u := Next(s, Accept(c, true, control));
    assert u.conns == s.conns[c := s.conns[c].(pc := Accepted, control := control)];
    var v := Next(u, TryControl(c));
    FollowOne(v, SetText(c));
    assert v.conns[c] == u.conns[c].(pc := if control && s.controller == None then Won else Ready);
  }

  lemma Register(s: State, c: nat)
    requires At(s, c, Ready)
    ensures var t := Follow(s, Registration(c));
            && Undisturbed(s, t, c) && t.conns[c] == s.conns[c].(pc := Counted)
            && t.registry == s.registry + {c} && t.count == s.count + 1 && t.controller == s.controller
  {
    FollowTwo(s, Store(c), Add(c));
    var u := Next(s, Store(c));
    assert u.conns == s.conns[c := s.conns[c].(pc := Stored)];
  }

  lemma Consult(s: State, c: nat)
    requires At(s, c, Counted)
    ensures var t := Next(Next(s, ReadCache(c)), SendCached(c));
            && Undisturbed(s, t, c) && At(t, c, Sent)
            && t.conns[c].text == s.conns[c].text && t.conns[c].control == s.conns[c].control
            && t.conns[c].queue.offered == s.conns[c].queue.offered
                                           + (if s.lastIDR.Some? then [Video(s.lastIDR.value)] else [])
            && t.registry == s.registry && t.count == s.count && t.controller == s.controller
  {
    var u := Next(s, ReadCache(c));
    assert u.conns == s.conns[c := s.conns[c].(pc := Cached, cached := s.lastIDR)];
    Nil(s.conns[c].queue.offered);
  }

  lemma Greet(s: State, c: nat)
    requires At(s, c, Counted)
    ensures var t := Follow(s, Greeting(c));
            && Undisturbed(s, t, c) && At(t, c, Reading)
            && t.conns[c].text == s.conns[c].text && t.conns[c].control == s.conns[c].control
            && t.conns[c].queue.offered == s.conns[c].queue.offered
                                           + (if s.lastIDR.Some? then [Video(s.lastIDR.value)] else [])
            && t.registry == s.registry && t.count == s.count && t.controller == s.controller
  {
    FollowAppend(s, [ReadCache(c), SendCached(c)], [Callback(c)]);
    FollowTwo(s, ReadCache(c), SendCached(c));
    Consult(s, c);
    FollowOne(Follow(s, [ReadCache(c), SendCached(c)]), Callback(c));
  }

  /** All of it. */
  function Arrival(c: nat, control: bool): seq<Step> {
    Admission(c, control) + Registration(c) + Greeting(c)
  }

  /** A connection whose upgrade is accepted ends up reading, registered and counted, has been
      offered the cached IDR if there is one, and is heard exactly when it asked for control,
      the slot was free and there is an input callback. */
  lemma ArrivalOutcome(s: State, c: nat, control: bool)
    requires At(s, c, Checked) && !s.conns[c].text
    ensures var t := Follow(s, Arrival(c, control));
            && Undisturbed(s, t, c) && At(t, c, Reading)
            && t.registry == s.registry + {c} && t.count == s.count + 1
            && t.conns[c].queue.offered == s.conns[c].queue.offered
                                           + (if s.lastIDR.Some? then [Video(s.lastIDR.value)] else [])
            && t.controller == (if control && s.controller == None then Some(c) else s.controller)
            && (CanDeliver(t, c) <==> control && s.controller == None && s.hasInput)
  {
    FollowAppend(s, Admission(c, control) + Registration(c), Greeting(c));
    FollowAppend(s, Admission(c, control), Registration(c));
    Admit(s, c, control);
    var u := Follow(s, Admission(c, control));
    Register(u, c);
    var v := Follow(u, Registration(c));
    Greet(v, c);
  }

  // ---------------------------------------------------------------- going

  function Departure(c: nat): seq<Step> {
    [Disconnect(c), Delete(c)] + [Subtract(c), Release(c)]
  }

  lemma Unregister(s: State, c: nat)
    requires At(s, c, Reading)
    ensures var t := Follow(s, [Disconnect(c), Delete(c)]);
            && Undisturbed(s, t, c) && t.conns[c] == s.conns[c].(pc := Deleted)
            && t.registry == s.registry - {c} && t.count == s.count && t.controller == s.controller
  {
    FollowTwo(s, Disconnect(c), Delete(c));
    var u := Next(s, Disconnect(c));
    assert u.conns == s.conns[c := s.conns[c].(pc := Left)];
  }

  lemma LetGo(s: State, c: nat)
    requires At(s, c, Deleted)
    ensures var t := Follow(s, [Subtract(c), Release(c)]);
            && Undisturbed(s, t, c) && t.conns[c] == s.conns[c].(pc := Done)
            && t.registry == s.registry && t.count == s.count - 1
            && t.controller == (if s.controller == Some(c) then None else s.controller)
  {
    FollowTwo(s, Subtract(c), Release(c));
    var u := Next(s, Subtract(c));
    assert u.conns == s.conns[c := s.conns[c].(pc := Subtracted)];
  }

  /** A connection that leaves takes itself out of registry, count and slot, and nothing else. */
  lemma DepartureOutcome(s: State, c: nat)
    requires At(s, c, Reading)
    ensures var t := Follow(s, Departure(c));
            && Undisturbed(s, t, c) && t.conns[c].pc == Done
            && t.registry == s.registry - {c} && t.count == s.count - 1
            && t.controller == (if s.controller == Some(c) then None else s.controller)
  {
    FollowAppend(s, [Disconnect(c), Delete(c)], [Subtract(c), Release(c)]);
    Unregister(s, c);
    LetGo(Follow(s, [Disconnect(c), Delete(c)]), c);
  }

  /** Coming and going leaves no trace. */
  lemma SessionLeavesNoTrace(s: State, c: nat, control: bool)
    requires At(s, c, Checked) && !s.conns[c].text && c !in s.registry && s.controller != Some(c)
    ensures var t := Follow(s, Arrival(c, control) + Departure(c));
            && Undisturbed(s, t, c) && t.conns[c].pc == Done
            && t.registry == s.registry && t.count == s.count && t.controller == s.controller
  {
    FollowAppend(s, Arrival(c, control), Departure(c));
    ArrivalOutcome(s, c, control);
    DepartureOutcome(Follow(s, Arrival(c, control)), c);
  }

  /** An upgrade that fails leaves nothing behind. */
  lemma RejectedLeaves(s: State, c: nat, control: bool)
    requires At(s, c, Checked)
    ensures var t := Next(s, Accept(c, false, control));
            && Undisturbed(s, t, c) && t.conns[c] == s.conns[c].(pc := Done)
            && t.registry == s.registry && t.count == s.count && t.controller == s.controller
  {}

  /** The same in every interleaving: wherever a run has got to, a connection past the check
      can come and go, and only the messages it was offered remember it. */
  lemma SessionInRun(hasInput: bool, schedule: seq<Step>, c: nat, control: bool)
    requires At(StateAfter(hasInput, schedule), c, Checked)
    ensures var s := StateAfter(hasInput, schedule);
            var t := StateAfter(hasInput, schedule + Arrival(c, control));
            var u := StateAfter(hasInput, schedule + (Arrival(c, control) + Departure(c)));
            && At(t, c, Reading) && t.registry == s.registry + {c} && t.count == s.count + 1
            && (CanDeliver(t, c) <==> control && s.controller == None && hasInput)
            && u.registry == s.registry && u.count == s.count && u.controller == s.controller
  {
    var s := StateAfter(hasInput, schedule);
    ServerController.RunKeepsInv(hasInput, schedule);
    RunKeepsRegistry(hasInput, schedule);
    RunKeepsInput(hasInput, schedule);
    ArrivalOutcome(s, c, control);
    SessionLeavesNoTrace(s, c, control);
    FollowReaches(hasInput, schedule, Arrival(c, control));
    FollowReaches(hasInput, schedule, Arrival(c, control) + Departure(c));
  }
}

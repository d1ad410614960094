/** Controller exclusivity: who may inject input, over all interleavings. */
module ServerController {
  import opened Basics
  import opened ServerProtocol

  /** The handler has not yet reached the release of the controller slot. */
  predicate Live(s: State, c: nat) {
    c < |s.conns| && s.conns[c].pc != Done
  }

  /** The handler holds, or is about to hold, the right to deliver text. */
  ghost predicate Inv(s: State) {
    && (s.controller.Some? ==>
          var c := s.controller.value;
          Live(s, c) && s.conns[c].control && !s.conns[c].pc.Checked? && !s.conns[c].pc.Accepted?)
    && (forall c: nat :: At(s, c, Won) ==> s.controller == Some(c))
    && (forall c: nat :: c < |s.conns| && s.conns[c].text ==>
          s.hasInput && (s.controller == Some(c) || s.conns[c].pc == Done))
    && (forall c: nat :: c < |s.conns| && s.conns[c].text ==>
          !s.conns[c].pc.Checked? && !s.conns[c].pc.Accepted?)
    && (forall i :: 0 <= i < |s.delivered| ==>
          s.delivered[i] < |s.conns| && s.conns[s.delivered[i]].text)
    && (forall i, j :: 0 <= i < j < |s.delivered| && s.delivered[i] != s.delivered[j] ==>
          s.conns[s.delivered[i]].pc == Done)
  }

  lemma TryKeepsInv(s: State, c: nat)
    requires Inv(s)
    ensures Inv(Next(s, TryControl(c)))
  {}

  lemma SetKeepsInv(s: State, c: nat)
    requires Inv(s)
    ensures Inv(Next(s, SetText(c)))
  {}

  lemma TextKeepsInv(s: State, c: nat)
    requires Inv(s)
    ensures Inv(Next(s, Text(c)))
  {}

  lemma ReleaseKeepsInv(s: State, c: nat)
    requires Inv(s)
    ensures Inv(Next(s, Release(c)))
  {}

  lemma SameHandlersKeepInv(s: State, s': State)
    requires Inv(s) && SameHandlers(s, s')
    ensures Inv(s')
  {}

  lemma ArriveKeepsInv(s: State)
    requires Inv(s)
    ensures Inv(Next(s, Arrive))
  {}

  lemma AcceptKeepsInv(s: State, step: Step)
    requires Inv(s) && step.Accept?
    ensures Inv(Next(s, step))
  {}

  lemma AdvanceKeepsInv(s: State, s': State, c: nat)
    requires Inv(s) && Advances(s, s', c)
    ensures Inv(s')
  {}

  lemma NextKeepsInv(s: State, step: Step)
    requires Inv(s)
    ensures Inv(Next(s, step))
  {
    if step.TryControl? {
      TryKeepsInv(s, step.c);
    } else if step.SetText? {
      SetKeepsInv(s, step.c);
    } else if step.Text? {
      TextKeepsInv(s, step.c);
    } else if step.Release? {
      ReleaseKeepsInv(s, step.c);
    } else if step.Arrive? {
      ArriveKeepsInv(s);
    } else if step.Accept? {
      AcceptKeepsInv(s, step);
    } else if QueueStep(step) {
      QueueStepSameHandlers(s, step);
      SameHandlersKeepInv(s, Next(s, step));
    } else if Next(s, step) != s {
      PassageAdvances(s, step);
      AdvanceKeepsInv(s, Next(s, step), step.c);
    }
  }

  lemma {:induction false} RunKeepsInv(hasInput: bool, schedule: seq<Step>)
    ensures Inv(StateAfter(hasInput, schedule))
    decreases |schedule|
  {
    if schedule != [] {
      RunKeepsInv(hasInput, schedule[..|schedule| - 1]);
      NextKeepsInv(StateAfter(hasInput, schedule[..|schedule| - 1]), schedule[|schedule| - 1]);
    }
  }

  /** In every reachable state at most one connection can deliver text, it asked for control,
      it is the one in the slot, and a taken slot always names a live handler. */
  lemma ControllerExclusive(hasInput: bool, schedule: seq<Step>)
    ensures var s := StateAfter(hasInput, schedule);
            && (forall c: nat :: CanDeliver(s, c) ==> s.controller == Some(c) && s.conns[c].control)
            && (forall c: nat, d: nat :: CanDeliver(s, c) && CanDeliver(s, d) ==> c == d)
            && (s.controller.Some? ==> Live(s, s.controller.value))
  {
    RunKeepsInv(hasInput, schedule);
  }

  lemma OnlyTextDelivers(s: State, step: Step)
    ensures Next(s, step).delivered == s.delivered
            || (step.Text? && CanDeliver(s, step.c) && Next(s, step).delivered == s.delivered + [step.c])
  {}

  /** The texts reaching `onInput` come in uninterrupted stretches, one per controller:
      once another connection's text has been delivered, the earlier one is finished and
      never heard again. */
  lemma {:induction false} InputNeverInterleaves(hasInput: bool, schedule: seq<Step>, i: nat, j: nat, k: nat)
    requires i < j < k < |StateAfter(hasInput, schedule).delivered|
    ensures var d := StateAfter(hasInput, schedule).delivered; d[i] == d[k] ==> d[i] == d[j]
    decreases |schedule|
  {
    var init := schedule[..|schedule| - 1];
    var s, step := StateAfter(hasInput, init), schedule[|schedule| - 1];
    assert StateAfter(hasInput, schedule) == Next(s, step);
    RunKeepsInv(hasInput, init);
    OnlyTextDelivers(s, step);
    if k < |s.delivered| {
      InputNeverInterleaves(hasInput, init, i, j, k);
    }
  }

  // ---------------------------------------------------------------- the controller is heard

  /** Whoever is in the slot has `onText` set, if there is anything to set it to. */
  ghost predicate SlotHasText(s: State) {
    s.controller.Some? ==>
      var c := s.controller.value;
      c < |s.conns| && (s.conns[c].pc.Won? || s.conns[c].text == s.hasInput)
  }

  lemma TryKeepsText(s: State, c: nat)
    requires SlotHasText(s)
    ensures SlotHasText(Next(s, TryControl(c)))
  {}

  lemma SetKeepsText(s: State, c: nat)
    requires SlotHasText(s)
    ensures SlotHasText(Next(s, SetText(c)))
  {}

  lemma EnterKeepsText(s: State, step: Step)
    requires SlotHasText(s) && Inv(s) && (step.Arrive? || step.Accept?)
    ensures SlotHasText(Next(s, step))
  {}

  lemma UseKeepsText(s: State, step: Step)
    requires SlotHasText(s) && (step.Text? || step.Release?)
    ensures SlotHasText(Next(s, step))
  {}

  lemma NextKeepsText(s: State, step: Step)
    requires SlotHasText(s) && Inv(s)
    ensures SlotHasText(Next(s, step))
  {
    if step.TryControl? {
      TryKeepsText(s, step.c);
    } else if step.SetText? {
      SetKeepsText(s, step.c);
    } else if step.Arrive? || step.Accept? {
      EnterKeepsText(s, step);
    } else if step.Text? || step.Release? {
      UseKeepsText(s, step);
    } else if QueueStep(step) {
      QueueStepSameHandlers(s, step);
    } else if Next(s, step) != s {
      PassageAdvances(s, step);
    }
  }

  lemma {:induction false} RunKeepsText(hasInput: bool, schedule: seq<Step>)
    ensures SlotHasText(StateAfter(hasInput, schedule))
    decreases |schedule|
  {
    if schedule != [] {
      RunKeepsText(hasInput, schedule[..|schedule| - 1]);
      RunKeepsInv(hasInput, schedule[..|schedule| - 1]);
      NextKeepsText(StateAfter(hasInput, schedule[..|schedule| - 1]), schedule[|schedule| - 1]);
    }
  }

  /** Who can deliver, exactly: in every reachable state the connection in the slot, once it
      reads, if there is an input callback; and nobody else. */
  lemma DeliversIffInSlot(hasInput: bool, schedule: seq<Step>, c: nat)
    ensures var s := StateAfter(hasInput, schedule);
            CanDeliver(s, c) <==> At(s, c, Reading) && s.hasInput && s.controller == Some(c)
  {
    RunKeepsInv(hasInput, schedule);
    RunKeepsText(hasInput, schedule);
  }

  /** A text message reaches `onInput` exactly when its sender can deliver. */
  lemma TextReaches(s: State, c: nat)
    ensures Next(s, Text(c)).delivered == s.delivered + if CanDeliver(s, c) then [c] else []
  {
    Nil(s.delivered);
  }
}

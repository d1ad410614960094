/** What the kernel makes of the injected byte stream: which reports it sees and which keys
    are down at the end. */
module InputReplay {
  import opened Basics
  import opened Keymap
  import opened Input

  // ---------------------------------------------------------------- keys held down

  /** The key and button codes down after the events. */
  function Pressed(es: seq<InputEvent>): set<uint16> {
    if es == [] then {}
    else
      var before, e := Pressed(es[..|es| - 1]), es[|es| - 1];
      if e.typ != 0x01 then before
      else if e.value == 1 then before + {e.code}
      else if e.value == 0 then before - {e.code}
      else before
  }

  /** What the last key message for a browser code said, `true` for "down". */
  function LastKey(msgs: seq<InputMessage>, code: string): Option<bool> {
    if msgs == [] then None
    else
      var m := msgs[|msgs| - 1];
      if m.typ == "key" && m.code == code then Some(m.event == "down")
      else LastKey(msgs[..|msgs| - 1], code)
  }

  /** What the last button message for a Linux button said; several browser buttons can
      stand for one. */
  function LastButton(msgs: seq<InputMessage>, button: uint16): Option<bool> {
    if msgs == [] then None
    else
      var m := msgs[|msgs| - 1];
      if (m.typ == "mousedown" || m.typ == "mouseup") && MouseButtonToLinux(m.button) == button
      then Some(m.typ == "mousedown")
      else LastButton(msgs[..|msgs| - 1], button)
  }

  lemma PressedSnoc(es: seq<InputEvent>, e: InputEvent)
    ensures Pressed(es + [e]) ==
            if e.typ == EV_KEY && e.value == 1 then Pressed(es) + {e.code}
            else if e.typ == EV_KEY && e.value == 0 then Pressed(es) - {e.code}
            else Pressed(es)
  {
    assert (es + [e])[..|es|] == es;
  }

  lemma PressedKey(es: seq<InputEvent>, code: uint16, down: bool)
    ensures Pressed(es + KeyReport(code, down)) ==
            if down then Pressed(es) + {code} else Pressed(es) - {code}
  {
    var e := KeyReport(code, down)[0];
    PressedSnoc(es, e);
    PressedSnoc(es + [e], SYN);
    assert es + KeyReport(code, down) == (es + [e]) + [SYN];
  }

  lemma PressedOther(es: seq<InputEvent>, msg: InputMessage)
    requires msg.typ !in {"mousedown", "mouseup"}
    requires msg.typ == "key" ==> msg.code !in BROWSER_TO_LINUX
    ensures Pressed(es + Report(msg)) == Pressed(es)
  {
    var r := Report(msg);
    if r == [] {
      Nil(es);
    } else if |r| == 2 {
      PressedSnoc(es, r[0]);
      PressedSnoc(es + [r[0]], SYN);
      Assoc(es, [r[0]], [SYN]);
      assert r == [r[0]] + [SYN];
    } else {
      PressedSnoc(es, r[0]);
      PressedSnoc(es + [r[0]], r[1]);
      PressedSnoc(es + [r[0]] + [r[1]], SYN);
      Assoc(es, [r[0]], [r[1]]);
      Assoc(es, [r[0]] + [r[1]], [SYN]);
      assert r == [r[0]] + [r[1]] + [SYN];
    }
  }

  /** The codes down are those whose last message said so. */
  ghost predicate Replays(keys: map<string, uint16>, pressed: set<uint16>, msgs: seq<InputMessage>) {
    && (forall c :: c in keys ==> (keys[c] in pressed <==> LastKey(msgs, c) == Some(true)))
    && (forall b: uint16 :: BTN_LEFT <= b <= BTN_MIDDLE ==> (b in pressed <==> LastButton(msgs, b) == Some(true)))
    && (forall p :: p in pressed ==> BTN_LEFT <= p <= BTN_MIDDLE || exists c :: c in keys && keys[c] == p)
  }

  /** All that replay needs of the key map: no two keys share a code, none is a button. */
  ghost predicate Separates(keys: map<string, uint16>) {
    && (forall a, b :: a in keys && b in keys && keys[a] == keys[b] ==> a == b)
    && (forall c :: c in keys ==> keys[c] < BTN_LEFT)
  }

  lemma KeymapSeparates()
    ensures Separates(BROWSER_TO_LINUX)
  {
    forall a, b | a in BROWSER_TO_LINUX && b in BROWSER_TO_LINUX && BROWSER_TO_LINUX[a] == BROWSER_TO_LINUX[b]
      ensures a == b
    {
      KeymapInjective(a, b);
    }
    forall c | c in BROWSER_TO_LINUX ensures BROWSER_TO_LINUX[c] < BTN_LEFT {
      KeyCodeReadsBack(c);
    }
  }

  /** The codes that the messages leave down, through any key map. */
  function Held(keys: map<string, uint16>, msgs: seq<InputMessage>): set<uint16> {
    if msgs == [] then {}
    else
      var before, m := Held(keys, msgs[..|msgs| - 1]), msgs[|msgs| - 1];
      if m.typ == "mousedown" then before + {MouseButtonToLinux(m.button)}
      else if m.typ == "mouseup" then before - {MouseButtonToLinux(m.button)}
      else if m.typ == "key" && m.code in keys then
        if m.event == "down" then before + {keys[m.code]} else before - {keys[m.code]}
      else before
  }

  lemma {:induction false} HeldReplays(keys: map<string, uint16>, msgs: seq<InputMessage>)
    requires Separates(keys)
    ensures Replays(keys, Held(keys, msgs), msgs)
    decreases |msgs|
  {
    if msgs != [] {
      HeldReplays(keys, msgs[..|msgs| - 1]);
    }
  }

  lemma MessagePresses(es: seq<InputEvent>, m: InputMessage)
    ensures Pressed(es + Report(m)) ==
            if m.typ == "mousedown" then Pressed(es) + {MouseButtonToLinux(m.button)}
            else if m.typ == "mouseup" then Pressed(es) - {MouseButtonToLinux(m.button)}
            else if m.typ == "key" && m.code in BROWSER_TO_LINUX then
              if m.event == "down" then Pressed(es) + {BROWSER_TO_LINUX[m.code]}
              else Pressed(es) - {BROWSER_TO_LINUX[m.code]}
            else Pressed(es)
  {
    if m.typ == "mousedown" || m.typ == "mouseup" {
      PressedKey(es, MouseButtonToLinux(m.button), m.typ == "mousedown");
    } else if m.typ == "key" && m.code in BROWSER_TO_LINUX {
      PressedKey(es, BROWSER_TO_LINUX[m.code], m.event == "down");
    } else {
      PressedOther(es, m);
    }
  }

  lemma {:induction false} PressedIsHeld(msgs: seq<InputMessage>)
    ensures Pressed(Events(msgs)) == Held(BROWSER_TO_LINUX, msgs)
    decreases |msgs|
  {
    if msgs != [] {
      PressedIsHeld(msgs[..|msgs| - 1]);
      MessagePresses(Events(msgs[..|msgs| - 1]), msgs[|msgs| - 1]);
    }
  }

  /** After the messages, exactly the mapped keys and buttons whose last message was "down" or
      "mousedown" are held. */
  lemma EventsReplay(msgs: seq<InputMessage>)
    ensures Replays(BROWSER_TO_LINUX, Pressed(Events(msgs)), msgs)
  {
    KeymapSeparates();
    PressedIsHeld(msgs);
    HeldReplays(BROWSER_TO_LINUX, msgs);
  }

  // ---------------------------------------------------------------- pointer and wheel

  /** Where the kernel has the pointer on axis 0 (X) or 1 (Y). */
  function Axis(es: seq<InputEvent>, code: uint16): Option<int32> {
    if es == [] then None
    else
      var e := es[|es| - 1];
      if e.typ == 0x03 && e.code == code then Some(e.value) else Axis(es[..|es| - 1], code)
  }

  function LastMove(msgs: seq<InputMessage>): Option<InputMessage> {
    if msgs == [] then None
    else
      var m := msgs[|msgs| - 1];
      if m.typ == "mousemove" then Some(m) else LastMove(msgs[..|msgs| - 1])
  }

  /** How far the wheel has turned. */
  function Scrolled(es: seq<InputEvent>): int {
    if es == [] then 0
    else
      var e := es[|es| - 1];
      Scrolled(es[..|es| - 1]) + if e.typ == 0x02 && e.code == 0x08 then e.value else 0
  }

  /** The browser counts downwards, the kernel upwards, one notch a message. */
  function Turns(msgs: seq<InputMessage>): int {
    if msgs == [] then 0
    else
      var m := msgs[|msgs| - 1];
      var d := if m.typ == "wheel" then ToInt32(m.deltaY) else 0;
      Turns(msgs[..|msgs| - 1]) + if d > 0 then -1 else if d < 0 then 1 else 0
  }

  /** What one more event does. */
  lemma MotionSnoc(es: seq<InputEvent>, e: InputEvent)
    ensures forall code :: Axis(es + [e], code) == if e.typ == 0x03 && e.code == code then Some(e.value) else Axis(es, code)
    ensures Scrolled(es + [e]) == Scrolled(es) + if e.typ == 0x02 && e.code == 0x08 then e.value else 0
  {
    InitOfSnoc(es, e);
  }

  lemma MotionTwo(es: seq<InputEvent>, e: InputEvent)
    requires e.typ != 0x03
    ensures forall code :: Axis(es + [e, SYN], code) == Axis(es, code)
    ensures Scrolled(es + [e, SYN]) == Scrolled(es) + if e.typ == 0x02 && e.code == 0x08 then e.value else 0
  {
    MotionSnoc(es, e);
    MotionSnoc(es + [e], SYN);
    Assoc(es, [e], [SYN]);
    assert [e] + [SYN] == [e, SYN];
  }

  lemma MotionMove(es: seq<InputEvent>, x: int, y: int)
    ensures var t := es + MoveReport(x, y);
            Axis(t, 0) == Some(ToInt32(x)) && Axis(t, 1) == Some(ToInt32(y)) && Scrolled(t) == Scrolled(es)
  {
    var r := MoveReport(x, y);
    MotionSnoc(es, r[0]);
    MotionSnoc(es + [r[0]], r[1]);
    MotionSnoc(es + [r[0]] + [r[1]], SYN);
    Assoc(es, [r[0]], [r[1]]);
    Assoc(es, [r[0]] + [r[1]], [SYN]);
    assert r == [r[0]] + [r[1]] + [SYN];
  }

  /** The report of a message is empty or one of the three kinds. */
  lemma ReportKinds(msg: InputMessage)
    ensures var r := Report(msg);
            || r == []
            || (exists code, down :: r == KeyReport(code, down))
            || r == MoveReport(msg.x, msg.y)
            || r == WheelReport(1) || r == WheelReport(-1)
  {}

  lemma WheelMoves(es: seq<InputEvent>, m: InputMessage)
    requires m.typ == "wheel"
    ensures var t := es + Report(m);
            Axis(t, 0) == Axis(es, 0) && Axis(t, 1) == Axis(es, 1) && Scrolled(t) == Scrolled(es) + Turns([m])
  {
    Nil(es);
    assert [m][..0] == [];
    MotionTwo(es, InputEvent(EV_REL, REL_WHEEL, 1));
    MotionTwo(es, InputEvent(EV_REL, REL_WHEEL, -1));
  }

  lemma KeyMoves(es: seq<InputEvent>, code: uint16, down: bool)
    ensures var t := es + KeyReport(code, down);
            Axis(t, 0) == Axis(es, 0) && Axis(t, 1) == Axis(es, 1) && Scrolled(t) == Scrolled(es)
  {
    MotionTwo(es, KeyReport(code, down)[0]);
  }

  lemma ButtonMoves(es: seq<InputEvent>, m: InputMessage)
    requires m.typ != "wheel" && m.typ != "mousemove"
    ensures var t := es + Report(m);
            Axis(t, 0) == Axis(es, 0) && Axis(t, 1) == Axis(es, 1) && Scrolled(t) == Scrolled(es)
  {
    Nil(es);
    KeyMoves(es, MouseButtonToLinux(m.button), m.typ == "mousedown");
    if m.code in BROWSER_TO_LINUX {
      KeyMoves(es, BROWSER_TO_LINUX[m.code], m.event == "down");
    }
  }

  lemma MessageMoves(es: seq<InputEvent>, m: InputMessage)
    ensures var t := es + Report(m);
            && (m.typ == "mousemove" ==> Axis(t, 0) == Some(ToInt32(m.x)) && Axis(t, 1) == Some(ToInt32(m.y)))
            && (m.typ != "mousemove" ==> Axis(t, 0) == Axis(es, 0) && Axis(t, 1) == Axis(es, 1))
            && Scrolled(t) == Scrolled(es) + Turns([m])
  {
    assert [m][..0] == [];
    if m.typ == "wheel" {
      WheelMoves(es, m);
    } else if m.typ == "mousemove" {
      MotionMove(es, m.x, m.y);
    } else {
      ButtonMoves(es, m);
    }
  }

  /** After any messages the pointer is where the last one that moved it said, X on axis 0 and Y
      on axis 1, and the wheel has turned by one notch up for each message with a negative
      delta and one down for each with a positive. */
  lemma {:induction false} MotionReplayed(msgs: seq<InputMessage>)
    ensures var es := Events(msgs);
            && Scrolled(es) == Turns(msgs)
            && match LastMove(msgs)
               case None => Axis(es, 0) == None && Axis(es, 1) == None
               case Some(m) => Axis(es, 0) == Some(ToInt32(m.x)) && Axis(es, 1) == Some(ToInt32(m.y))
    decreases |msgs|
  {
    if msgs != [] {
      var m := msgs[|msgs| - 1];
      MotionReplayed(msgs[..|msgs| - 1]);
      MessageMoves(Events(msgs[..|msgs| - 1]), m);
      assert [m][..0] == [];
    }
  }

  // ---------------------------------------------------------------- reports

  /** Complete reports so far, and the events after the last SYN. */
  datatype Grouping = Grouping(reports: seq<seq<InputEvent>>, pending: seq<InputEvent>)

  function Group(es: seq<InputEvent>): Grouping {
    if es == [] then Grouping([], [])
    else
      var g, e := Group(es[..|es| - 1]), es[|es| - 1];
      if e.typ == 0x00 then Grouping(g.reports + [g.pending + [e]], [])
      else Grouping(g.reports, g.pending + [e])
  }

  function Reports(msgs: seq<InputMessage>): seq<seq<InputEvent>> {
    if msgs == [] then []
    else
      var r := Report(msgs[|msgs| - 1]);
      Reports(msgs[..|msgs| - 1]) + if r == [] then [] else [r]
  }

  lemma GroupSnoc(es: seq<InputEvent>, e: InputEvent)
    ensures Group(es + [e]) ==
            if e.typ == EV_SYN then Grouping(Group(es).reports + [Group(es).pending + [e]], [])
            else Grouping(Group(es).reports, Group(es).pending + [e])
  {
    assert (es + [e])[..|es|] == es;
  }

  /** Events ended by one SYN, the only one. */
  ghost predicate IsReport(r: seq<InputEvent>) {
    |r| >= 2 && r[|r| - 1] == SYN && forall i :: 0 <= i < |r| - 1 ==> r[i].typ != EV_SYN
  }

  lemma ReportsAreReports(code: uint16, down: bool, x: int, y: int, delta: int32)
    ensures IsReport(KeyReport(code, down)) && IsReport(MoveReport(x, y)) && IsReport(WheelReport(delta))
  {}

  lemma ReportShape(msg: InputMessage)
    ensures Report(msg) == [] || IsReport(Report(msg))
  {
    ReportKinds(msg);
    ReportsAreReports(0, true, msg.x, msg.y, 1);
    ReportsAreReports(0, true, msg.x, msg.y, -1);
    forall code, down ensures IsReport(KeyReport(code, down)) {
      ReportsAreReports(code, down, 0, 0, 0);
    }
  }

  lemma {:induction false} GroupOpen(es: seq<InputEvent>, r: seq<InputEvent>)
    requires forall i :: 0 <= i < |r| ==> r[i].typ != EV_SYN
    ensures Group(es + r) == Grouping(Group(es).reports, Group(es).pending + r)
    decreases |r|
  {
    if r == [] {
      Nil(es);
      Nil(Group(es).pending);
    } else {
      var n := |r| - 1;
      GroupOpen(es, r[..n]);
      GroupSnoc(es + r[..n], r[n]);
      Snoc(r);
      Assoc(es, r[..n], [r[n]]);
      Assoc(Group(es).pending, r[..n], [r[n]]);
    }
  }

  lemma GroupReport(es: seq<InputEvent>, body: seq<InputEvent>)
    requires Group(es).pending == [] && forall i :: 0 <= i < |body| ==> body[i].typ != EV_SYN
    ensures Group(es + (body + [SYN])) == Grouping(Group(es).reports + [body + [SYN]], [])
  {
    GroupOpen(es, body);
    GroupSnoc(es + body, SYN);
    assert es + (body + [SYN]) == (es + body) + [SYN];
    assert [] + body == body;
  }

  lemma GroupMessage(es: seq<InputEvent>, reports: seq<seq<InputEvent>>, r: seq<InputEvent>)
    requires Group(es) == Grouping(reports, []) && (r == [] || IsReport(r))
    ensures Group(es + r) == Grouping(reports + if r == [] then [] else [r], [])
  {
    if r == [] {
      assert es + r == es && reports + [] == reports;
    } else {
      GroupReport(es, r[..|r| - 1]);
      assert r[..|r| - 1] + [SYN] == r;
    }
  }

  lemma {:induction false} EventsGroup(msgs: seq<InputMessage>)
    ensures Group(Events(msgs)) == Grouping(Reports(msgs), [])
    ensures forall k :: 0 <= k < |Reports(msgs)| ==> IsReport(Reports(msgs)[k])
    decreases |msgs|
  {
    if msgs != [] {
      var n := |msgs| - 1;
      EventsGroup(msgs[..n]);
      ReportShape(msgs[n]);
      GroupMessage(Events(msgs[..n]), Reports(msgs[..n]), Report(msgs[n]));
    }
  }

  // ---------------------------------------------------------------- reports on a failing device

  /** The reports of which every write succeeds. */
  function Completed(msgs: seq<InputMessage>, faults: seq<bool>): seq<seq<InputEvent>> {
    if msgs == [] then []
    else
      var init, r := msgs[..|msgs| - 1], Report(msgs[|msgs| - 1]);
      Completed(init, faults)
      + if r != [] && Tried(r, FaultsLeft(init, faults)).done == r then [r] else []
  }

  /** The first write of the report succeeds and a later one fails. */
  ghost predicate CutShort(r: seq<InputEvent>, faults: seq<bool>) {
    |r| > 0 && |faults| > 0 && !faults[0] && exists i :: 0 < i < |r| && i < |faults| && faults[i]
  }

  ghost predicate NoneCutShort(msgs: seq<InputMessage>, faults: seq<bool>) {
    msgs == [] ||
    (NoneCutShort(msgs[..|msgs| - 1], faults)
     && !CutShort(Report(msgs[|msgs| - 1]), FaultsLeft(msgs[..|msgs| - 1], faults)))
  }

  lemma {:induction false} TriedAll(r: seq<InputEvent>, faults: seq<bool>)
    ensures |Tried(r, faults).done| <= |r|
    ensures Tried(r, faults).done == r <==> forall i :: 0 <= i < |r| && i < |faults| ==> !faults[i]
    ensures |Tried(r, faults).done| == |r| ==> Tried(r, faults).done == r
  {
    if r != [] && (faults == [] || !faults[0]) {
      var rest := Rest(faults);
      TriedAll(r[1..], rest);
      assert [r[0]] + r[1..] == r;
      assert ([r[0]] + Tried(r[1..], rest).done)[1..] == Tried(r[1..], rest).done;
      assert forall i :: 0 <= i < |rest| ==> rest[i] == faults[i + 1];
      assert forall i :: 1 <= i < |faults| ==> faults[i] == rest[i - 1];
    }
  }

  lemma CutShortMeans(r: seq<InputEvent>, faults: seq<bool>)
    ensures CutShort(r, faults) <==> Tried(r, faults).done != [] && Tried(r, faults).done != r
  {
    TriedAll(r, faults);
  }

  lemma {:induction false} GroupConserves(es: seq<InputEvent>)
    ensures Flatten(Group(es).reports) + Group(es).pending == es
    decreases |es|
  {
    if es != [] {
      var g, e := Group(es[..|es| - 1]), es[|es| - 1];
      GroupConserves(es[..|es| - 1]);
      Snoc(es);
      Assoc(Flatten(g.reports), g.pending, [e]);
      if e.typ == EV_SYN {
        FlattenAppend(g.reports, [g.pending + [e]]);
        FlattenOne(g.pending + [e]);
        Nil(Flatten(g.reports + [g.pending + [e]]));
      }
    }
  }

  /** Whatever is cut short is written beyond the completed reports. */
  lemma {:induction false} CutShortIsExtra(msgs: seq<InputMessage>, faults: seq<bool>)
    ensures |Flatten(Completed(msgs, faults))| <= |Written(msgs, faults)|
    ensures |Flatten(Completed(msgs, faults))| == |Written(msgs, faults)| ==> NoneCutShort(msgs, faults)
    decreases |msgs|
  {
    if msgs != [] {
      var init, r := msgs[..|msgs| - 1], Report(msgs[|msgs| - 1]);
      var left := FaultsLeft(init, faults);
      CutShortIsExtra(init, faults);
      CutShortMeans(r, left);
      if r != [] && Tried(r, left).done == r {
        FlattenAppend(Completed(init, faults), [r]);
        FlattenOne(r);
      } else {
        Nil(Completed(init, faults));
      }
    }
  }

  lemma {:induction false} WholeReports(msgs: seq<InputMessage>, faults: seq<bool>)
    requires NoneCutShort(msgs, faults)
    ensures Group(Written(msgs, faults)) == Grouping(Completed(msgs, faults), [])
    decreases |msgs|
  {
    if msgs != [] {
      var init, r := msgs[..|msgs| - 1], Report(msgs[|msgs| - 1]);
      var left := FaultsLeft(init, faults);
      WholeReports(init, faults);
      CutShortMeans(r, left);
      ReportShape(msgs[|msgs| - 1]);
      GroupMessage(Written(init, faults), Completed(init, faults), Tried(r, left).done);
    }
  }

  /** On a device whose writes may fail, the kernel sees exactly the reports that were written
      completely, with nothing left over, if and only if no report is cut short: a failure
      other than at a report's first write leaves events without their SYN, which run into
      the next report. */
  lemma WholeIffNoneCutShort(msgs: seq<InputMessage>, faults: seq<bool>)
    ensures Group(ParseStream(Stream(Written(msgs, faults)))) == Grouping(Completed(msgs, faults), [])
            <==> NoneCutShort(msgs, faults)
  {
    StreamReadsBack(Written(msgs, faults));
    if NoneCutShort(msgs, faults) {
      WholeReports(msgs, faults);
    } else {
      GroupConserves(Written(msgs, faults));
      CutShortIsExtra(msgs, faults);
    }
  }

  // ---------------------------------------------------------------- keys on a failing device

  /** The messages of which something is written: their reports' first writes succeed. */
  function Heard(msgs: seq<InputMessage>, faults: seq<bool>): seq<InputMessage> {
    if msgs == [] then []
    else
      var init, m := msgs[..|msgs| - 1], msgs[|msgs| - 1];
      Heard(init, faults) + if Tried(Report(m), FaultsLeft(init, faults)).done != [] then [m] else []
  }

  lemma HeardMeans(m: InputMessage, faults: seq<bool>)
    ensures Tried(Report(m), faults).done != [] <==> Report(m) != [] && (faults == [] || !faults[0])
  {}

  /** Events other than key events leave what is down alone. */
  lemma {:induction false} PressedNoKeys(es: seq<InputEvent>, tail: seq<InputEvent>)
    requires forall i :: 0 <= i < |tail| ==> tail[i].typ != EV_KEY
    ensures Pressed(es + tail) == Pressed(es)
    decreases |tail|
  {
    if tail == [] {
      Nil(es);
    } else {
      var n := |tail| - 1;
      PressedNoKeys(es, tail[..n]);
      Snoc(tail);
      Assoc(es, tail[..n], [tail[n]]);
      PressedSnoc(es + tail[..n], tail[n]);
    }
  }

  lemma {:induction false} TriedPrefix(report: seq<InputEvent>, faults: seq<bool>)
    ensures Tried(report, faults).done <= report
  {
    if report != [] && (faults == [] || !faults[0]) {
      TriedPrefix(report[1..], Rest(faults));
      assert [report[0]] + report[1..] == report;
    }
  }

  /** What a report does to the keys, its first record does. */
  lemma FirstRecordPresses(es: seq<InputEvent>, r: seq<InputEvent>, done: seq<InputEvent>)
    requires done <= r && done != []
    requires forall i :: 1 <= i < |r| ==> r[i].typ != EV_KEY
    ensures Pressed(es + done) == Pressed(es + r)
  {
    PressedNoKeys(es + [r[0]], done[1..]);
    PressedNoKeys(es + [r[0]], r[1..]);
    assert [r[0]] + done[1..] == done && [r[0]] + r[1..] == r;
    Assoc(es, [r[0]], done[1..]);
    Assoc(es, [r[0]], r[1..]);
  }

  lemma OnlyFirstIsKey(m: InputMessage)
    ensures forall i :: 1 <= i < |Report(m)| ==> Report(m)[i].typ != EV_KEY
  {}

  /** What is written of a message does to the keys what its whole report would. */
  lemma TriedPresses(es: seq<InputEvent>, m: InputMessage, faults: seq<bool>)
    ensures var done := Tried(Report(m), faults).done;
            Pressed(es + done) == Pressed(if done == [] then es else es + Report(m))
  {
    var done := Tried(Report(m), faults).done;
    if done == [] {
      Nil(es);
    } else {
      TriedPrefix(Report(m), faults);
      OnlyFirstIsKey(m);
      FirstRecordPresses(es, Report(m), done);
    }
  }

  lemma EventsSnoc(msgs: seq<InputMessage>, m: InputMessage)
    ensures Events(msgs + [m]) == Events(msgs) + Report(m)
  {
    InitOfSnoc(msgs, m);
  }

  lemma {:induction false} PressedIsHeard(msgs: seq<InputMessage>, faults: seq<bool>)
    ensures Pressed(Written(msgs, faults)) == Pressed(Events(Heard(msgs, faults)))
    decreases |msgs|
  {
    if msgs != [] {
      var init, m := msgs[..|msgs| - 1], msgs[|msgs| - 1];
      var es := Written(init, faults);
      PressedIsHeard(init, faults);
      TriedPresses(es, m, FaultsLeft(init, faults));
      Nil(Heard(init, faults));
      EventsSnoc(Heard(init, faults), m);
      MessagePresses(es, m);
      MessagePresses(Events(Heard(init, faults)), m);
    }
  }

  /** On a device whose writes may fail, in the end exactly those mapped keys and buttons are
      down whose last message with a successful first write said so. */
  lemma ReplayedDespiteFaults(msgs: seq<InputMessage>, faults: seq<bool>)
    ensures var read := ParseStream(Stream(Written(msgs, faults)));
            Replays(BROWSER_TO_LINUX, Pressed(read), Heard(msgs, faults))
  {
    StreamReadsBack(Written(msgs, faults));
    PressedIsHeard(msgs, faults);
    EventsReplay(Heard(msgs, faults));
  }

  // ---------------------------------------------------------------- what was written

  /** The event is of a kind and code that `NewDevice` enabled. */
  predicate Enabled(e: InputEvent) {
    || e == SYN
    || (e.typ == EV_KEY && (e.code < 0x100 || BTN_LEFT <= e.code <= BTN_MIDDLE) && 0 <= e.value <= 1)
    || (e.typ == EV_ABS && (e.code == ABS_X || e.code == ABS_Y))
    || (e.typ == EV_REL && e.code == REL_WHEEL && (e.value == 1 || e.value == -1))
  }

  lemma KeyReportEnabled(code: uint16, down: bool)
    requires code < 0x100 || BTN_LEFT <= code <= BTN_MIDDLE
    ensures forall i :: 0 <= i < |KeyReport(code, down)| ==> Enabled(KeyReport(code, down)[i])
  {}

  lemma OtherReportsEnabled(x: int, y: int, delta: int32)
    requires delta == 1 || delta == -1
    ensures forall i :: 0 <= i < |MoveReport(x, y)| ==> Enabled(MoveReport(x, y)[i])
    ensures forall i :: 0 <= i < |WheelReport(delta)| ==> Enabled(WheelReport(delta)[i])
  {}

  lemma ReportEnabled(m: InputMessage)
    ensures forall i :: 0 <= i < |Report(m)| ==> Enabled(Report(m)[i])
  {
    OtherReportsEnabled(m.x, m.y, 1);
    OtherReportsEnabled(m.x, m.y, -1);
    KeyReportEnabled(MouseButtonToLinux(m.button), m.typ == "mousedown");
    if m.code in BROWSER_TO_LINUX {
      KeyCodeReadsBack(m.code);
      KeyReportEnabled(BROWSER_TO_LINUX[m.code], m.event == "down");
    }
  }

  lemma {:induction false} EventsEnabled(msgs: seq<InputMessage>)
    ensures forall i :: 0 <= i < |Events(msgs)| ==> Enabled(Events(msgs)[i])
    decreases |msgs|
  {
    if msgs != [] {
      EventsEnabled(msgs[..|msgs| - 1]);
      ReportEnabled(msgs[|msgs| - 1]);
    }
  }

  /** The stream written for any messages on a device that accepts every write: its records
      read back as the events, they fall into the messages' reports with nothing pending, the
      device knows every code, and each mapped key or button is down in the end exactly when
      its last message said so. */
  lemma InputReplayed(msgs: seq<InputMessage>)
    ensures var written := Stream(Events(msgs));
            var read := ParseStream(written);
            && |written| == INPUT_EVENT_SIZE * |read|
            && Group(read) == Grouping(Reports(msgs), [])
            && (forall k :: 0 <= k < |Reports(msgs)| ==> IsReport(Reports(msgs)[k]))
            && (forall i :: 0 <= i < |read| ==> Enabled(read[i]))
            && Replays(BROWSER_TO_LINUX, Pressed(read), msgs)
  {
    StreamReadsBack(Events(msgs));
    EventsGroup(msgs);
    EventsEnabled(msgs);
    EventsReplay(msgs);
  }
}

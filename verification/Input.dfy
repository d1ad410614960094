/** Input injection: `HandleMessage` of internal/input/protocol.go turns browser messages into
    event reports, internal/input/device.go writes them as 24-byte records. */
module Input {
  import opened Basics
  import opened Binary
  import opened Keymap

  const EV_SYN: uint16 := 0x00
  const EV_KEY: uint16 := 0x01
  const EV_REL: uint16 := 0x02
  const EV_ABS: uint16 := 0x03
  const SYN_REPORT: uint16 := 0x00
  const ABS_X: uint16 := 0x00
  const ABS_Y: uint16 := 0x01
  const REL_WHEEL: uint16 := 0x08
  const INPUT_EVENT_SIZE := 24

  datatype InputEvent = InputEvent(typ: uint16, code: uint16, value: int32)

  const SYN := InputEvent(EV_SYN, SYN_REPORT, 0)

  datatype InputMessage = InputMessage(
    typ: string, event: string, code: string, button: int, x: int, y: int, deltaY: int)

  /** Conversion of a wide `int` to `int32` keeps the low 32 bits. */
  function ToInt32(n: int): int32 {
    (n + 0x8000_0000) % 0x1_0000_0000 - 0x8000_0000
  }

  function ToUint32(v: int32): uint32 {
    if v < 0 then v + 0x1_0000_0000 else v
  }

  /** The low 32 bits are kept, read as a signed number. */
  lemma ToInt32Keeps(n: int)
    ensures (ToInt32(n) - n) % 0x1_0000_0000 == 0
    ensures -0x8000_0000 <= n < 0x8000_0000 ==> ToInt32(n) == n
  {}

  // ---------------------------------------------------------------- records

  /** The time stamp of a record, left to the kernel. */
  const TIMEVAL: Bytes := [0, 0, 0, 0, 0, 0, 0, 0, 0, 0, 0, 0, 0, 0, 0, 0]

  function Record(e: InputEvent): (r: Bytes)
    ensures |r| == INPUT_EVENT_SIZE
  {
    TIMEVAL + LittleEndian(e.typ, 2) + LittleEndian(e.code, 2) + LittleEndian(ToUint32(e.value), 4)
  }

  function ParseRecord(bs: Bytes): InputEvent
    requires |bs| == INPUT_EVENT_SIZE
  {
    WidthBounds();
    LittleEndianWrites(bs[16..18]);
    LittleEndianWrites(bs[18..20]);
    LittleEndianWrites(bs[20..24]);
    InputEvent(FromLittleEndian(bs[16..18]), FromLittleEndian(bs[18..20]),
               ToInt32(FromLittleEndian(bs[20..24])))
  }

  lemma RecordSlices(t: Bytes, a: Bytes, b: Bytes, c: Bytes)
    requires |t| == 16 && |a| == 2 && |b| == 2 && |c| == 4
    ensures var bs := t + a + b + c; bs[16..18] == a && bs[18..20] == b && bs[20..24] == c
  {}

  lemma RecordReadsBack(e: InputEvent)
    ensures ParseRecord(Record(e)) == e
  {
    WidthBounds();
    RecordSlices(TIMEVAL, LittleEndian(e.typ, 2), LittleEndian(e.code, 2), LittleEndian(ToUint32(e.value), 4));
    LittleEndianReads(e.typ, 2);
    LittleEndianReads(e.code, 2);
    LittleEndianReads(ToUint32(e.value), 4);
  }

  lemma RecordStart(t: Bytes, a: Bytes, b: Bytes, c: Bytes)
    requires |t| == 16
    ensures forall i :: 0 <= i < 16 ==> (t + a + b + c)[i] == t[i]
  {}

  lemma Unsigned(v: int32)
    ensures ToUint32(v) == v % 0x1_0000_0000
  {}

  /** Where the fields of a record stand: `struct input_event` of a 64-bit kernel. */
  lemma RecordLayout(e: InputEvent)
    ensures var r := Record(e);
            && (forall i :: 0 <= i < 16 ==> r[i] == 0)
            && r[16..18] == LittleEndian(e.typ, 2) && r[18..20] == LittleEndian(e.code, 2)
            && r[20..24] == LittleEndian(e.value % 0x1_0000_0000, 4)
  {
    var a, b, c := LittleEndian(e.typ, 2), LittleEndian(e.code, 2), LittleEndian(ToUint32(e.value), 4);
    RecordSlices(TIMEVAL, a, b, c);
    RecordStart(TIMEVAL, a, b, c);
    Unsigned(e.value);
  }

  /** The byte stream of a list of events, and its reading. */
  function Stream(es: seq<InputEvent>): Bytes {
    if es == [] then [] else Stream(es[..|es| - 1]) + Record(es[|es| - 1])
  }

  function ParseStream(bs: Bytes): seq<InputEvent>
    decreases |bs|
  {
    if |bs| < INPUT_EVENT_SIZE then []
    else
      ParseStream(bs[..|bs| - INPUT_EVENT_SIZE]) + [ParseRecord(bs[|bs| - INPUT_EVENT_SIZE..])]
  }

  lemma ParseSnoc(bs: Bytes, r: Bytes)
    requires |r| == INPUT_EVENT_SIZE
    ensures ParseStream(bs + r) == ParseStream(bs) + [ParseRecord(r)]
  {
    assert (bs + r)[..|bs + r| - INPUT_EVENT_SIZE] == bs;
    assert (bs + r)[|bs + r| - INPUT_EVENT_SIZE..] == r;
  }

  /** Reading a stream gives back what was written. */
  ghost predicate ReadsAs(bs: Bytes, es: seq<InputEvent>) {
    |bs| == INPUT_EVENT_SIZE * |es| && ParseStream(bs) == es
  }

  lemma ReadsAsSnoc(bs: Bytes, es: seq<InputEvent>, e: InputEvent)
    requires ReadsAs(bs, es)
    ensures ReadsAs(bs + Record(e), es + [e])
  {
    RecordReadsBack(e);
    ParseSnoc(bs, Record(e));
  }

  lemma {:induction false} StreamReadsBack(es: seq<InputEvent>)
    ensures ReadsAs(Stream(es), es)
    decreases |es|
  {
    if es != [] {
      var n := |es| - 1;
      StreamReadsBack(es[..n]);
      ReadsAsSnoc(Stream(es[..n]), es[..n], es[n]);
      Snoc(es);
    }
  }

  lemma StreamSnoc(es: seq<InputEvent>, e: InputEvent)
    ensures Stream(es + [e]) == Stream(es) + Record(e)
  {
    assert (es + [e])[..|es|] == es;
  }

  lemma {:induction false} StreamAppend(a: seq<InputEvent>, b: seq<InputEvent>)
    ensures Stream(a + b) == Stream(a) + Stream(b)
    decreases |b|
  {
    if b == [] {
      assert a + b == a;
    } else {
      var init, e := b[..|b| - 1], b[|b| - 1];
      StreamAppend(a, init);
      Snoc(b);
      Assoc(a, init, [e]);
      StreamSnoc(a + init, e);
      StreamSnoc(init, e);
      Assoc(Stream(a), Stream(init), Record(e));
    }
  }

  // ---------------------------------------------------------------- reports

  function KeyReport(code: uint16, down: bool): seq<InputEvent> {
    [InputEvent(EV_KEY, code, if down then 1 else 0), SYN]
  }

  function MoveReport(x: int, y: int): seq<InputEvent> {
    [InputEvent(EV_ABS, ABS_X, ToInt32(x)), InputEvent(EV_ABS, ABS_Y, ToInt32(y)), SYN]
  }

  function WheelReport(delta: int32): seq<InputEvent> {
    [InputEvent(EV_REL, REL_WHEEL, delta), SYN]
  }

  /** What a message injects; unknown types and keys inject nothing. */
  function Report(msg: InputMessage): seq<InputEvent> {
    if msg.typ == "key" then
      match BrowserCodeToLinux(msg.code)
      case None => []
      case Some(code) => KeyReport(code, msg.event == "down")
    else if msg.typ == "mousemove" then MoveReport(msg.x, msg.y)
    else if msg.typ == "mousedown" then KeyReport(MouseButtonToLinux(msg.button), true)
    else if msg.typ == "mouseup" then KeyReport(MouseButtonToLinux(msg.button), false)
    else if msg.typ == "wheel" then
      var delta := ToInt32(msg.deltaY);
      if delta > 0 then WheelReport(-1) else if delta < 0 then WheelReport(1) else []
    else []
  }

  function Events(msgs: seq<InputMessage>): seq<InputEvent> {
    if msgs == [] then [] else Events(msgs[..|msgs| - 1]) + Report(msgs[|msgs| - 1])
  }

  // ---------------------------------------------------------------- failing writes

  /** `faults` are the outcomes of the next writes, `true` for a failed one; all further writes
      succeed. Of a report the events before its first failing write reach the device, and
      the failure ends it. */
  datatype Attempt = Attempt(done: seq<InputEvent>, left: seq<bool>)

  function Tried(report: seq<InputEvent>, faults: seq<bool>): Attempt {
    if report == [] then Attempt([], faults)
    else if faults != [] && faults[0] then Attempt([], faults[1..])
    else
      var rest := Tried(report[1..], Rest(faults));
      Attempt([report[0]] + rest.done, rest.left)
  }

  /** The first write of a report, then the others. */
  lemma TriedFirst(before: Bytes, report: seq<InputEvent>, faults: seq<bool>)
    requires report != []
    ensures var t, rest := Tried(report, faults), Tried(report[1..], Rest(faults));
            if faults != [] && faults[0]
            then before + Stream(t.done) == before && t.left == faults[1..] && t.done != report
            else before + Stream(t.done) == (before + Record(report[0])) + Stream(rest.done) && t.left == rest.left
                 && (t.done == report <==> rest.done == report[1..])
  {
    var e, rest := report[0], Tried(report[1..], Rest(faults));
    Nil(before);
    assert [e] + report[1..] == report;
    StreamAppend([e], rest.done);
    assert [e][..0] == [];
    Nil(Record(e));
    Assoc(before, Record(e), Stream(rest.done));
    if faults == [] || !faults[0] {
      assert ([e] + rest.done)[1..] == rest.done;
    }
  }

  function FaultsLeft(msgs: seq<InputMessage>, faults: seq<bool>): seq<bool> {
    if msgs == [] then faults
    else Tried(Report(msgs[|msgs| - 1]), FaultsLeft(msgs[..|msgs| - 1], faults)).left
  }

  /** The events of a run of messages that reach the device. */
  function Written(msgs: seq<InputMessage>, faults: seq<bool>): seq<InputEvent> {
    if msgs == [] then []
    else
      var init := msgs[..|msgs| - 1];
      Written(init, faults) + Tried(Report(msgs[|msgs| - 1]), FaultsLeft(init, faults)).done
  }

  lemma {:induction false} TriedWithoutFaults(report: seq<InputEvent>)
    ensures Tried(report, []) == Attempt(report, [])
  {
    if report != [] {
      TriedWithoutFaults(report[1..]);
      assert [report[0]] + report[1..] == report;
    }
  }

  /** A device that accepts every write gets everything. */
  lemma {:induction false} WrittenWithoutFaults(msgs: seq<InputMessage>)
    ensures Written(msgs, []) == Events(msgs) && FaultsLeft(msgs, []) == []
    decreases |msgs|
  {
    if msgs != [] {
      WrittenWithoutFaults(msgs[..|msgs| - 1]);
      TriedWithoutFaults(Report(msgs[|msgs| - 1]));
    }
  }

  // ---------------------------------------------------------------- the device

  /** `written` is what the device file has received. */
  class Device {
    var written: Bytes
    var faults: seq<bool>

    constructor (faults: seq<bool>)
      ensures written == [] && this.faults == faults
    {
      written, this.faults := [], faults;
    }

    method WriteEvent(typ: uint16, code: uint16, value: int32) returns (ok: bool)
      modifies this
      ensures ok <==> old(faults) == [] || !old(faults)[0]
      ensures written == old(written) + if ok then Record(InputEvent(typ, code, value)) else []
      ensures faults == Rest(old(faults))
    {
      var buf := new byte[INPUT_EVENT_SIZE](_ => 0);
      ghost var rest := buf[16..];
      assert buf[..] == TIMEVAL + rest;
      PatchNext(TIMEVAL, rest, LittleEndian(typ, 2));
      PutLittleEndian(buf, 16, 2, typ);
      ghost var done := TIMEVAL + LittleEndian(typ, 2);
      PatchNext(done, rest[2..], LittleEndian(code, 2));
      PutLittleEndian(buf, 18, 2, code);
      done := done + LittleEndian(code, 2);
      PatchNext(done, rest[2..][2..], LittleEndian(ToUint32(value), 4));
      PutLittleEndian(buf, 20, 4, ToUint32(value));
      Nil(done + LittleEndian(ToUint32(value), 4));
      assert rest[2..][2..][4..] == [];
      ok := faults == [] || !faults[0];
      faults := Rest(faults);
      if ok {
        written := written + buf[..];
      }
    }

    /** A report has been tried: what was written of it, and whether all of it was. */
    ghost predicate Did(before: Bytes, left: seq<bool>, report: seq<InputEvent>, ok: bool)
      reads this
    {
      var t := Tried(report, left);
      written == before + Stream(t.done) && faults == t.left && (ok <==> t.done == report)
    }

    /** The last write of every report. */
    method WriteSyn() returns (ok: bool)
      modifies this
      ensures Did(old(written), old(faults), [SYN], ok)
    {
      TriedFirst(written, [SYN], faults);
      Nil(written + Record(SYN));
      ok := WriteEvent(EV_SYN, SYN_REPORT, 0);
    }

    method InjectKey(code: uint16, down: bool) returns (ok: bool)
      modifies this
      ensures Did(old(written), old(faults), KeyReport(code, down), ok)
    {
      ghost var report := KeyReport(code, down);
      TriedFirst(written, report, faults);
      ok := WriteEvent(EV_KEY, code, if down then 1 else 0);
      if ok {
        assert report[1..] == [SYN];
        ok := WriteSyn();
      }
    }

    method InjectMouseMove(x: int, y: int) returns (ok: bool)
      modifies this
      ensures Did(old(written), old(faults), MoveReport(x, y), ok)
    {
      ghost var report := MoveReport(x, y);
      TriedFirst(written, report, faults);
      ok := WriteEvent(EV_ABS, ABS_X, ToInt32(x));
      if !ok {
        return;
      }
      TriedFirst(written, report[1..], faults);
      ok := WriteEvent(EV_ABS, ABS_Y, ToInt32(y));
      if !ok {
        return;
      }
      assert report[1..][1..] == [SYN];
      ok := WriteSyn();
    }

    method InjectMouseButton(button: uint16, down: bool) returns (ok: bool)
      modifies this
      ensures Did(old(written), old(faults), KeyReport(button, down), ok)
    {
      ghost var report := KeyReport(button, down);
      TriedFirst(written, report, faults);
      ok := WriteEvent(EV_KEY, button, if down then 1 else 0);
      if ok {
        assert report[1..] == [SYN];
        ok := WriteSyn();
      }
    }

    method InjectWheel(delta: int32) returns (ok: bool)
      modifies this
      ensures Did(old(written), old(faults), WheelReport(delta), ok)
    {
      ghost var report := WheelReport(delta);
      TriedFirst(written, report, faults);
      ok := WriteEvent(EV_REL, REL_WHEEL, delta);
      if ok {
        assert report[1..] == [SYN];
        ok := WriteSyn();
      }
    }

    /** Write errors are ignored by the caller. */
    method HandleMessage(msg: InputMessage)
      modifies this
      ensures var t := Tried(Report(msg), old(faults));
              written == old(written) + Stream(t.done) && faults == t.left
    {
      var ok := true;
      Nil(written);
      if msg.typ == "key" {
        var code := BrowserCodeToLinux(msg.code);
        if code.Some? {
          ok := InjectKey(code.value, msg.event == "down");
        }
      } else if msg.typ == "mousemove" {
        ok := InjectMouseMove(msg.x, msg.y);
      } else if msg.typ == "mousedown" {
        ok := InjectMouseButton(MouseButtonToLinux(msg.button), true);
      } else if msg.typ == "mouseup" {
        ok := InjectMouseButton(MouseButtonToLinux(msg.button), false);
      } else if msg.typ == "wheel" {
        var delta := ToInt32(msg.deltaY);
        if delta > 0 {
          ok := InjectWheel(-1);
        } else if delta < 0 {
          ok := InjectWheel(1);
        }
      }
    }
  }

  /** The input callback, message after message. */
  method HandleAll(msgs: seq<InputMessage>, faults: seq<bool>) returns (d: Device)
    ensures d.written == Stream(Written(msgs, faults)) && d.faults == FaultsLeft(msgs, faults)
    ensures faults == [] ==> d.written == Stream(Events(msgs))
  {
    d := new Device(faults);
    for k := 0 to |msgs|
      invariant fresh(d)
      invariant d.written == Stream(Written(msgs[..k], faults)) && d.faults == FaultsLeft(msgs[..k], faults)
    {
      PrefixOfPrefix(msgs, k);
      StreamAppend(Written(msgs[..k], faults), Tried(Report(msgs[k]), d.faults).done);
      d.HandleMessage(msgs[k]);
    }
    assert msgs[..|msgs|] == msgs;
    if faults == [] {
      WrittenWithoutFaults(msgs);
    }
  }
}

/** The per-client send queue of internal/server/client.go: `Send` never blocks and drops
    the newest message when the buffer is full; `writePump` takes from the front. */
module ClientQueue {
  import opened Basics

  const WRITE_BUFFER_SIZE := 16

  /** What one goroutine does to the queue in one atomic step. */
  datatype Op<M> = Offer(msg: M) | Take

  /** `send` is the channel buffer, `taken` what the pump has received, `offered` the
      arguments of all `Send` calls. */
  datatype Queue<M> = Queue(send: seq<M>, taken: seq<M>, offered: seq<M>)

  function Empty<M>(): Queue<M> {
    Queue([], [], [])
  }

  function Apply<M>(q: Queue<M>, op: Op<M>): Queue<M> {
    match op
    case Offer(m) =>
      if |q.send| < WRITE_BUFFER_SIZE then q.(send := q.send + [m], offered := q.offered + [m])
      else q.(offered := q.offered + [m])
    case Take =>
      if q.send == [] then q
      else q.(send := q.send[1..], taken := q.taken + [q.send[0]])
  }

  /** The last step of a run is applied to the state of the steps before it. */
  function Run<M>(q: Queue<M>, ops: seq<Op<M>>): Queue<M> {
    if ops == [] then q else Apply(Run(q, ops[..|ops| - 1]), ops[|ops| - 1])
  }

  ghost predicate Valid<M>(q: Queue<M>) {
    |q.send| <= WRITE_BUFFER_SIZE && Subsequence(q.taken + q.send, q.offered)
  }

  /** A receive only moves the boundary between what was taken and what is queued. */
  lemma TakeMoves<M>(q: Queue<M>)
    ensures var t := Apply(q, Take); t.taken + t.send == q.taken + q.send && t.offered == q.offered
  {
    if q.send != [] {
      Assoc(q.taken, [q.send[0]], q.send[1..]);
      assert [q.send[0]] + q.send[1..] == q.send;
    }
  }

  lemma ApplyKeepsValid<M>(q: Queue<M>, op: Op<M>)
    requires Valid(q)
    ensures Valid(Apply(q, op))
  {
    match op
    case Offer(m) =>
      if |q.send| < WRITE_BUFFER_SIZE {
        SubsequenceKeep(q.taken + q.send, q.offered, m);
        Assoc(q.taken, q.send, [m]);
      } else {
        SubsequenceSkip(q.taken + q.send, q.offered, m);
      }
    case Take => TakeMoves(q);
  }

  /** Over every run from an empty queue: bounded, and messages come out in the order they
      went in, some missing. */
  lemma {:induction false} RunValid<M>(ops: seq<Op<M>>)
    ensures Valid(Run(Empty(), ops)) && |Run(Empty(), ops).send| <= 16
  {
    if ops == [] {
      var none: seq<M> := [];
      SubsequenceRefl(none);
      assert none + none == none;
    } else {
      RunValid(ops[..|ops| - 1]);
      ApplyKeepsValid(Run(Empty(), ops[..|ops| - 1]), ops[|ops| - 1]);
    }
  }

  /** No message met a full buffer. */
  ghost predicate NeverFull<M>(ops: seq<Op<M>>) {
    forall i :: 0 <= i < |ops| && ops[i].Offer? ==> |Run(Empty(), ops[..i]).send| < WRITE_BUFFER_SIZE
  }

  lemma NeverFullSnoc<M>(ops: seq<Op<M>>)
    requires ops != []
    ensures var n := |ops| - 1;
            NeverFull(ops) <==>
            NeverFull(ops[..n]) && (ops[n].Offer? ==> |Run(Empty(), ops[..n]).send| < WRITE_BUFFER_SIZE)
  {
    var n := |ops| - 1;
    assert forall i :: 0 <= i <= n ==> ops[..n][..i] == ops[..i];
  }

  lemma {:induction false} Accounting<M>(ops: seq<Op<M>>)
    ensures var q := Run(Empty(), ops);
            && |q.taken| + |q.send| <= |q.offered|
            && (|q.taken| + |q.send| == |q.offered| <==> NeverFull(ops))
            && (NeverFull(ops) ==> q.taken + q.send == q.offered)
  {
    if ops != [] {
      var n := |ops| - 1;
      var q := Run(Empty(), ops[..n]);
      Accounting(ops[..n]);
      NeverFullSnoc(ops);
      match ops[n] {
        case Offer(m) => Assoc(q.taken, q.send, [m]);
        case Take => TakeMoves(q);
      }
    }
  }

  /** A client gets everything exactly when none of its messages met a full buffer. */
  lemma LosslessIffNeverFull<M>(ops: seq<Op<M>>)
    ensures var q := Run(Empty(), ops);
            q.taken + q.send == q.offered <==> NeverFull(ops)
  {
    Accounting(ops);
    var q := Run(Empty(), ops);
    if q.taken + q.send == q.offered {
      assert |q.taken| + |q.send| == |q.offered|;
    }
  }

  /** The first message offered is never lost: the client gets it first. */
  lemma {:induction false} FirstIsKept<M>(ops: seq<Op<M>>)
    ensures var q := Run(Empty(), ops);
            var got := q.taken + q.send;
            && (got == [] <==> q.offered == [])
            && (got != [] ==> got[0] == q.offered[0])
    decreases |ops|
  {
    if ops != [] {
      FirstIsKept(ops[..|ops| - 1]);
      var q := Run(Empty(), ops[..|ops| - 1]);
      match ops[|ops| - 1] {
        case Offer(m) => Assoc(q.taken, q.send, [m]);
        case Take => TakeMoves(q);
      }
    }
  }

  // ---------------------------------------------------------------- which messages survive

  /** What a client has got or will get only grows at its end, by a message that found room:
      nothing queued is displaced, a full queue drops the new message. */
  lemma NeverDisplaced<M>(q: Queue<M>, op: Op<M>)
    ensures var t := Apply(q, op);
            t.taken + t.send == q.taken + q.send + if op.Offer? && |q.send| < 16 then [op.msg] else []
  {
    match op
    case Offer(m) =>
      Assoc(q.taken, q.send, [m]);
      Nil(q.taken + q.send);
    case Take =>
      TakeMoves(q);
      Nil(q.taken + q.send);
  }

  /** The offers of a run that met fewer than 16 queued messages. */
  function Admitted<M>(ops: seq<Op<M>>): seq<M> {
    if ops == [] then []
    else
      var init, op := ops[..|ops| - 1], ops[|ops| - 1];
      Admitted(init) + if op.Offer? && |Run(Empty(), init).send| < 16 then [op.msg] else []
  }

  /** A client gets exactly those. */
  lemma {:induction false} GetsTheAdmitted<M>(ops: seq<Op<M>>)
    ensures var q := Run(Empty(), ops); q.taken + q.send == Admitted(ops)
    decreases |ops|
  {
    if ops != [] {
      GetsTheAdmitted(ops[..|ops| - 1]);
      NeverDisplaced(Run(Empty(), ops[..|ops| - 1]), ops[|ops| - 1]);
    }
  }

  function Takes<M>(n: nat): (r: seq<Op<M>>)
    ensures |r| == n && forall i :: 0 <= i < n ==> r[i] == Take
  {
    seq(n, _ => Take)
  }

  /** Receives take the queued messages from the front, one each. */
  lemma {:induction false} TakesDeliver<M>(q: Queue<M>, n: nat)
    requires n <= |q.send|
    ensures Run(q, Takes(n)) == q.(taken := q.taken + q.send[..n], send := q.send[n..])
    decreases n
  {
    if n == 0 {
      Nil(q.taken);
    } else {
      TakesDeliver(q, n - 1);
      assert Takes<M>(n)[..n - 1] == Takes(n - 1);
      PrefixOfPrefix(q.send, n - 1);
      Assoc(q.taken, q.send[..n - 1], [q.send[n - 1]]);
      assert q.send[n - 1..][1..] == q.send[n..];
    }
  }
}

/** Vocabulary shared by the models: machine integers, flattening and embedding of sequences. */
module Basics {
  type byte = b: int | 0 <= b < 0x100
  type uint16 = n: int | 0 <= n < 0x1_0000
  type uint32 = n: int | 0 <= n < 0x1_0000_0000
  type uint64 = n: int | 0 <= n < 0x1_0000_0000_0000_0000
  type int32 = n: int | -0x8000_0000 <= n < 0x8000_0000
  type int64 = n: int | -0x8000_0000_0000_0000 <= n < 0x8000_0000_0000_0000
  type Bytes = seq<byte>

  datatype Option<+T> = None | Some(value: T)

  lemma Assoc<T>(a: seq<T>, b: seq<T>, c: seq<T>)
    ensures (a + b) + c == a + (b + c)
  {}

  lemma Nil<T>(a: seq<T>)
    ensures a + [] == a && [] + a == a
  {}

  lemma Cancel<T>(a: seq<T>, b: seq<T>, c: seq<T>)
    requires a + b == a + c
    ensures b == c
  {
    assert (a + b)[|a|..] == b && (a + c)[|a|..] == c;
  }

  /** A non-empty sequence is its beginning and its last element. */
  lemma Snoc<T>(s: seq<T>)
    requires s != []
    ensures s[..|s| - 1] + [s[|s| - 1]] == s
  {}

  lemma InitOfSnoc<T>(s: seq<T>, x: T)
    ensures (s + [x])[..|s|] == s && (s + [x])[|s|] == x
  {}

  lemma PrefixOfPrefix<T>(s: seq<T>, k: nat)
    requires k < |s|
    ensures s[..k + 1][..k] == s[..k] && s[..k + 1][k] == s[k] && s[..k + 1] == s[..k] + [s[k]]
  {}

  lemma ProductNonNegative(a: int, b: int)
    requires 0 <= a && 0 <= b
    ensures 0 <= a * b
  {}

  lemma NextMultiple(a: int, b: int, d: int)
    requires 0 < d
    ensures a < b ==> a * d + d <= b * d
  {
    if a < b {
      ProductNonNegative(b - a - 1, d);
      assert (b - a - 1) * d == b * d - a * d - d;
    }
  }

  lemma DivUnique(p: int, d: int, q: int, r: int)
    requires 0 <= r < d && p == q * d + r
    ensures p / d == q && p % d == r
  {
    var q', r' := p / d, p % d;
    assert p == q' * d + r';
    NextMultiple(q, q', d);
    NextMultiple(q', q, d);
  }

  /** All but the first, if there is one. */
  function Rest<T>(s: seq<T>): seq<T> {
    if s == [] then [] else s[1..]
  }

  /** The concatenation of a list of sequences. */
  function Flatten<T>(parts: seq<seq<T>>): seq<T> {
    if parts == [] then [] else parts[0] + Flatten(parts[1..])
  }

  lemma {:induction false} FlattenAppend<T>(a: seq<seq<T>>, b: seq<seq<T>>)
    ensures Flatten(a + b) == Flatten(a) + Flatten(b)
  {
    if a == [] {
      assert a + b == b;
    } else {
      assert (a + b)[1..] == a[1..] + b;
      FlattenAppend(a[1..], b);
    }
  }

  lemma FlattenOne<T>(a: seq<T>)
    ensures Flatten([a]) == a
  {
    assert [a][1..] == [];
  }

  /** `at` lists, in increasing order, positions of `whole` that spell `part`. */
  ghost predicate Embeds<T>(part: seq<T>, whole: seq<T>, at: seq<nat>) {
    && |at| == |part|
    && (forall i :: 0 <= i < |at| ==> at[i] < |whole| && part[i] == whole[at[i]])
    && (forall i, j :: 0 <= i < j < |at| ==> at[i] < at[j])
  }

  /** `part` is what remains of `whole` after dropping some elements, order kept. */
  ghost predicate Subsequence<T>(part: seq<T>, whole: seq<T>) {
    exists at: seq<nat> :: Embeds(part, whole, at)
  }

  lemma SubsequenceRefl<T>(s: seq<T>)
    ensures Subsequence(s, s)
  {
    assert Embeds(s, s, seq(|s|, i => i));
  }

  /** An element may be skipped ... */
  lemma SubsequenceSkip<T>(part: seq<T>, whole: seq<T>, x: T)
    requires Subsequence(part, whole)
    ensures Subsequence(part, whole + [x])
  {
    var at: seq<nat> :| Embeds(part, whole, at);
    assert Embeds(part, whole + [x], at);
  }

  /** ... or kept. */
  lemma SubsequenceKeep<T>(part: seq<T>, whole: seq<T>, x: T)
    requires Subsequence(part, whole)
    ensures Subsequence(part + [x], whole + [x])
  {
    var at: seq<nat> :| Embeds(part, whole, at);
    assert Embeds(part + [x], whole + [x], at + [|whole|]);
  }

  lemma SubsequenceExtend<T>(part: seq<T>, whole: seq<T>, tail: seq<T>)
    requires Subsequence(part, whole)
    ensures Subsequence(part, whole + tail)
  {
    var at: seq<nat> :| Embeds(part, whole, at);
    assert Embeds(part, whole + tail, at);
  }

  lemma SubsequenceAppend<T>(part: seq<T>, whole: seq<T>, tail: seq<T>)
    requires Subsequence(part, whole)
    ensures Subsequence(part + tail, whole + tail)
  {
    var at: seq<nat> :| Embeds(part, whole, at);
    assert Embeds(part + tail, whole + tail, at + seq(|tail|, i requires 0 <= i => |whole| + i));
  }

  lemma SubsequenceTrans<T>(a: seq<T>, b: seq<T>, c: seq<T>)
    requires Subsequence(a, b) && Subsequence(b, c)
    ensures Subsequence(a, c)
  {
    var at: seq<nat> :| Embeds(a, b, at);
    var bt: seq<nat> :| Embeds(b, c, bt);
    assert Embeds(a, c, seq(|at|, i requires 0 <= i < |at| => bt[at[i]]));
  }

  lemma {:induction false} IndexAtLeast(at: seq<nat>, i: nat)
    requires i < |at| && forall j, k :: 0 <= j < k < |at| ==> at[j] < at[k]
    ensures i <= at[i]
    decreases i
  {
    if i > 0 {
      IndexAtLeast(at, i - 1);
    }
  }

  lemma {:induction false} IndexAtMost(at: seq<nat>, n: nat, i: nat)
    requires i < |at| <= n && forall j, k :: 0 <= j < k < |at| ==> at[j] < at[k]
    requires forall j :: 0 <= j < |at| ==> at[j] < n
    ensures at[i] + |at| <= n + i
    decreases |at| - i
  {
    if i + 1 < |at| {
      IndexAtMost(at, n, i + 1);
    }
  }

  /** As many increasing positions as there are places are all the places. */
  lemma Identity(at: seq<nat>, n: nat)
    requires |at| == n && forall j, k :: 0 <= j < k < |at| ==> at[j] < at[k]
    requires forall j :: 0 <= j < |at| ==> at[j] < n
    ensures forall i :: 0 <= i < |at| ==> at[i] == i
  {
    forall i | 0 <= i < |at| ensures at[i] == i {
      IndexAtLeast(at, i);
      IndexAtMost(at, n, i);
    }
  }

  /** Nothing is missing from a subsequence as long as the whole. */
  lemma SubsequenceWhole<T>(part: seq<T>, whole: seq<T>)
    requires Subsequence(part, whole) && |part| == |whole|
    ensures part == whole
  {
    var at: seq<nat> :| Embeds(part, whole, at);
    Identity(at, |whole|);
  }

  /** Deleting a stretch from the middle of an embedded sequence keeps it embedded. */
  lemma SubsequenceDrop<T>(a: seq<T>, gone: seq<T>, b: seq<T>, whole: seq<T>)
    requires Subsequence(a + gone + b, whole)
    ensures Subsequence(a + b, whole)
  {
    var at: seq<nat> :| Embeds(a + gone + b, whole, at);
    var n, m := |a|, |a| + |gone|;
    var cut := at[..n] + at[m..];
    forall i | 0 <= i < |cut|
      ensures cut[i] < |whole| && (a + b)[i] == whole[cut[i]]
    {
      var j := if i < n then i else i + |gone|;
      assert cut[i] == at[j] && (a + b)[i] == (a + gone + b)[j];
    }
    assert Embeds(a + b, whole, cut);
  }
}

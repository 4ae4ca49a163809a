/** The receiving half of a `ReliableOrdered` relay connection: `expected_seq`, the out-of-order
    buffer `recv_buf`, and the log of payloads handed to the application. */
module Reassembly {
  import opened Common

  datatype Receiver = Receiver(window: nat, expected: nat, buf: map<nat, Payload>, delivered: seq<Payload>)

  /** Hands over the buffered frames that continue the delivered run, one at a time. */
  function Drain(r: Receiver): (d: Receiver)
    ensures d.window == r.window
    decreases r.buf.Keys
  {
    if r.expected in r.buf then
      Drain(r.(expected := r.expected + 1,
               buf := r.buf - {r.expected},
               delivered := r.delivered + [r.buf[r.expected]]))
    else
      r
  }

  /** What one DATA frame does to the receiver; the ACK it triggers is the endpoint's business. */
  function Accept(r: Receiver, seqNo: nat, payload: Payload): (n: Receiver)
    ensures n.window == r.window
  {
    if seqNo == r.expected then
      Drain(r.(expected := r.expected + 1, delivered := r.delivered + [payload]))
    else if seqNo > r.expected && seqNo - r.expected < r.window then
      r.(buf := r.buf[seqNo := payload])
    else
      r
  }

  /** Every buffered sequence number lies strictly inside the receive window. */
  predicate Bounded(r: Receiver) {
    forall k :: k in r.buf ==> r.expected < k < r.expected + r.window
  }

  /** The receiver has `k`: already delivered, or waiting in the buffer. */
  predicate Holds(r: Receiver, k: nat) {
    k < r.expected || k in r.buf
  }

  /** The frame is not thrown away on arrival. */
  predicate InReach(r: Receiver, seqNo: nat) {
    seqNo <= r.expected || seqNo - r.expected < r.window
  }

  lemma {:induction false} AtMost(s: set<nat>, lo: nat, n: nat)
    requires forall k :: k in s ==> lo <= k < lo + n
    ensures |s| <= n
    decreases n
  {
    if n > 0 {
      AtMost(s - {lo}, lo + 1, n - 1);
    }
  }

  /** At most `window_size - 1` frames wait in the buffer. */
  lemma BufferSize(r: Receiver)
    requires Bounded(r)
    ensures |r.buf| <= if r.window == 0 then 0 else r.window - 1
  {
    AtMost(r.buf.Keys, r.expected + 1, if r.window == 0 then 0 else r.window - 1);
  }

  predicate Covers(m: map<nat, Payload>, lo: nat, hi: nat) {
    forall k :: lo <= k < hi ==> k in m
  }

  /** The payloads stored under lo, lo+1, ..., hi-1, in that order. */
  function Slice(m: map<nat, Payload>, lo: nat, hi: nat): (s: seq<Payload>)
    requires lo <= hi && Covers(m, lo, hi)
    ensures |s| == hi - lo
    ensures forall i :: 0 <= i < |s| ==> s[i] == m[lo + i]
  {
    seq(hi - lo, i requires 0 <= i < hi - lo => m[lo + i])
  }

  /** What the drain loop achieves: it consumes the longest contiguous run, in order, and keeps the
      rest of the buffer as it was. */
  lemma {:induction false} DrainTakesContiguousRun(r: Receiver)
    requires forall k :: k in r.buf ==> r.expected <= k
    ensures var d := Drain(r);
      && d.window == r.window
      && r.expected <= d.expected
      && d.expected !in r.buf
      && Covers(r.buf, r.expected, d.expected)
      && d.delivered == r.delivered + Slice(r.buf, r.expected, d.expected)
      && d.buf == (map k | k in r.buf && d.expected < k :: r.buf[k])
    decreases r.buf.Keys
  {
    if r.expected in r.buf {
      var n := r.(expected := r.expected + 1,
                  buf := r.buf - {r.expected},
                  delivered := r.delivered + [r.buf[r.expected]]);
      DrainTakesContiguousRun(n);
      var d := Drain(r);
      assert Slice(r.buf, r.expected, d.expected) == [r.buf[r.expected]] + Slice(n.buf, n.expected, d.expected);
    }
  }

  /** One frame: the window bound survives, what is held grows by exactly this frame if it is in
      reach, and buffered payloads are the ones that arrived. */
  lemma AcceptEffect(r: Receiver, seqNo: nat, payload: Payload)
    requires Bounded(r)
    ensures var n := Accept(r, seqNo, payload);
      && Bounded(n)
      && n.window == r.window
      && r.expected <= n.expected
      && n.expected !in n.buf
      && (forall k: nat :: Holds(n, k) <==> Holds(r, k) || (k == seqNo && InReach(r, seqNo)))
      && (n.expected > seqNo <==> seqNo <= r.expected)
  {
    if seqNo == r.expected {
      var m := r.(expected := r.expected + 1, delivered := r.delivered + [payload]);
      DrainTakesContiguousRun(m);
    }
  }

  /** The delivered payloads are exactly those of the sequence numbers passed, and every buffered
      payload belongs to its number; `sent` says which payload each number carries. */
  predicate Genuine(r: Receiver, sent: map<nat, Payload>, from: nat, before: seq<Payload>) {
    && from <= r.expected
    && Covers(sent, from, r.expected)
    && r.delivered == before + Slice(sent, from, r.expected)
    && forall k :: k in r.buf ==> k in sent && r.buf[k] == sent[k]
  }

  lemma AcceptGenuine(r: Receiver, seqNo: nat, sent: map<nat, Payload>, from: nat, before: seq<Payload>)
    requires Bounded(r) && Genuine(r, sent, from, before) && seqNo in sent
    ensures Genuine(Accept(r, seqNo, sent[seqNo]), sent, from, before)
  {
    if seqNo == r.expected {
      var m := r.(expected := r.expected + 1, delivered := r.delivered + [sent[seqNo]]);
      DrainTakesContiguousRun(m);
      var n := Drain(m);
      assert Slice(sent, from, n.expected)
          == Slice(sent, from, r.expected) + [sent[seqNo]] + Slice(m.buf, m.expected, n.expected);
    }
  }

  // ----- A whole list of arrivals -----

  /** Feeds the numbered frames of `sent` to the receiver in the order of `arrivals`. */
  function Feed(r: Receiver, arrivals: seq<nat>, sent: map<nat, Payload>): Receiver
    requires forall s :: s in arrivals ==> s in sent
  {
    if arrivals == [] then r
    else
      var last := arrivals[|arrivals| - 1];
      assert forall s :: s in arrivals[..|arrivals| - 1] ==> s in arrivals;
      Accept(Feed(r, arrivals[..|arrivals| - 1], sent), last, sent[last])
  }

  function Numbers(arrivals: seq<nat>): set<nat> {
    set s | s in arrivals
  }

  function From(got: set<nat>, from: nat): set<nat> {
    set k | k in got && from <= k
  }

  /** The least number from `from` on that is missing from `got`. */
  function LeastMissing(got: set<nat>, from: nat): (m: nat)
    ensures from <= m && m !in got
    ensures forall k :: from <= k < m ==> k in got
    decreases From(got, from)
  {
    if from in got then
      assert from in From(got, from) && from !in From(got, from + 1);
      LeastMissing(got, from + 1)
    else from
  }

  /** The reference result, computed from the set of frames alone. */
  function Assembled(r: Receiver, got: set<nat>, sent: map<nat, Payload>): Receiver
    requires got <= sent.Keys
  {
    var m := LeastMissing(got, r.expected);
    Receiver(r.window, m,
             map k | k in got && m < k < m + r.window :: sent[k],
             r.delivered + Slice(sent, r.expected, m))
  }

  function Reach(r: Receiver): nat {
    r.expected + if r.window == 0 then 1 else r.window
  }

  /** Each frame is either in reach from the start, or out of reach whatever arrives before it. */
  predicate Decided(r: Receiver, got: set<nat>) {
    forall s :: s in got ==> s < Reach(r) || LeastMissing(got, r.expected) + r.window <= s
  }

  lemma {:induction false} FeedKeeps(r: Receiver, arrivals: seq<nat>, sent: map<nat, Payload>)
    requires r.buf == map[]
    requires forall s :: s in arrivals ==> s in sent
    ensures var n := Feed(r, arrivals, sent);
      && Bounded(n) && n.window == r.window && n.expected !in n.buf
      && Genuine(n, sent, r.expected, r.delivered)
      && (forall k: nat :: r.expected <= k && Holds(n, k) ==> k in arrivals)
  {
    if arrivals == [] {
      assert Slice(sent, r.expected, r.expected) == [];
    } else {
      var front, last := arrivals[..|arrivals| - 1], arrivals[|arrivals| - 1];
      assert forall s :: s in front ==> s in arrivals;
      FeedKeeps(r, front, sent);
      AcceptEffect(Feed(r, front, sent), last, sent[last]);
      AcceptGenuine(Feed(r, front, sent), last, sent, r.expected, r.delivered);
    }
  }

  /** The delivered run never passes the least missing number. */
  lemma ExpectedBelowMissing(r: Receiver, arrivals: seq<nat>, sent: map<nat, Payload>, got: set<nat>)
    requires r.buf == map[]
    requires forall s :: s in arrivals ==> s in sent && s in got
    ensures Feed(r, arrivals, sent).expected <= LeastMissing(got, r.expected)
  {
    FeedKeeps(r, arrivals, sent);
    var n, m := Feed(r, arrivals, sent), LeastMissing(got, r.expected);
    assert m < n.expected ==> Holds(n, m);
  }

  lemma {:induction false} FeedHolds(r: Receiver, arrivals: seq<nat>, sent: map<nat, Payload>, got: set<nat>)
    requires r.buf == map[] && Decided(r, got)
    requires forall s :: s in arrivals ==> s in sent && s in got
    ensures forall k: nat ::
      Holds(Feed(r, arrivals, sent), k) <==> k < r.expected || (k in arrivals && k < Reach(r))
  {
    if arrivals != [] {
      var front, last := arrivals[..|arrivals| - 1], arrivals[|arrivals| - 1];
      assert arrivals == front + [last];
      assert forall s :: s in front ==> s in arrivals;
      FeedHolds(r, front, sent, got);
      FeedKeeps(r, front, sent);
      ExpectedBelowMissing(r, front, sent, got);
      AcceptEffect(Feed(r, front, sent), last, sent[last]);
      assert last in got;
      var n := Feed(r, front, sent);
      if last < Reach(r) {
        assert InReach(n, last);
      } else {
        assert LeastMissing(got, r.expected) != last;
        assert !InReach(n, last);
      }
    }
  }

  /** Reassembly refines its set specification: for a decided set of frames the receiver ends in the
      reference state whatever the order and the number of copies. */
  lemma FeedIsAssembled(r: Receiver, arrivals: seq<nat>, sent: map<nat, Payload>)
    requires r.buf == map[]
    requires forall s :: s in arrivals ==> s in sent
    requires Decided(r, Numbers(arrivals))
    ensures Numbers(arrivals) <= sent.Keys
    ensures Feed(r, arrivals, sent) == Assembled(r, Numbers(arrivals), sent)
  {
    var got := Numbers(arrivals);
    var n, a := Feed(r, arrivals, sent), Assembled(r, got, sent);
    FeedKeeps(r, arrivals, sent);
    FeedHolds(r, arrivals, sent, got);
    ExpectedBelowMissing(r, arrivals, sent, got);
    assert a.expected <= n.expected by {
      assert !Holds(n, n.expected);
      assert n.expected in got ==> Reach(r) <= n.expected;
    }
    forall k ensures k in n.buf <==> k in a.buf {
      assert k in n.buf ==> Holds(n, k);
      if k in a.buf {
        assert k in got && k < Reach(r);
        assert Holds(n, k);
      }
    }
    assert n.buf == a.buf;
  }

  // ----- When the order does matter -----

  function UpFrom(lo: nat, n: nat): (s: seq<nat>)
    ensures |s| == n && forall i :: 0 <= i < n ==> s[i] == lo + i
  {
    seq(n, i requires 0 <= i < n => lo + i)
  }

  lemma {:induction false} FeedUp(r: Receiver, n: nat, sent: map<nat, Payload>)
    requires r.buf == map[]
    requires forall k :: r.expected <= k < r.expected + n ==> k in sent
    ensures var f := Feed(r, UpFrom(r.expected, n), sent);
      f.expected == r.expected + n && f.buf == map[] && f.window == r.window
  {
    if n > 0 {
      assert UpFrom(r.expected, n)[..n - 1] == UpFrom(r.expected, n - 1);
      FeedUp(r, n - 1, sent);
    }
  }

  /** A held frame stays held. */
  lemma {:induction false} FeedStays(r: Receiver, first: seq<nat>, rest: seq<nat>, sent: map<nat, Payload>, k: nat)
    requires r.buf == map[]
    requires forall s :: s in first + rest ==> s in sent
    requires forall s :: s in first ==> s in sent
    requires Holds(Feed(r, first, sent), k)
    ensures Holds(Feed(r, first + rest, sent), k)
  {
    if rest == [] {
      assert first + rest == first;
    } else {
      var front, last := rest[..|rest| - 1], rest[|rest| - 1];
      assert (first + rest)[..|first + rest| - 1] == first + front;
      assert forall s :: s in first + front ==> s in first + rest;
      assert last in first + rest;
      FeedStays(r, first, front, sent, k);
      FeedKeeps(r, first + front, sent);
      AcceptEffect(Feed(r, first + front, sent), last, sent[last]);
    }
  }

  /** A frame that was out of reach when it arrived, and does not arrive again, is never held. */
  lemma {:induction false} FeedLoses(r: Receiver, k: nat, rest: seq<nat>, sent: map<nat, Payload>)
    requires r.buf == map[] && k !in rest && Reach(r) <= k
    requires k in sent && forall s :: s in rest ==> s in sent
    ensures !Holds(Feed(r, [k] + rest, sent), k)
  {
    if rest == [] {
      assert [k] + rest == [k];
      assert Feed(r, [k][..0], sent) == r;
    } else {
      var front, last := rest[..|rest| - 1], rest[|rest| - 1];
      assert ([k] + rest)[..|[k] + rest| - 1] == [k] + front;
      assert forall s :: s in front ==> s in rest;
      FeedLoses(r, k, front, sent);
      FeedKeeps(r, [k] + front, sent);
      AcceptEffect(Feed(r, [k] + front, sent), last, sent[last]);
    }
  }

  lemma {:induction false} ListOf(got: set<nat>) returns (l: seq<nat>)
    ensures Numbers(l) == got
  {
    if got == {} {
      l := [];
    } else {
      var k :| k in got;
      var rest := ListOf(got - {k});
      l := [k] + rest;
      assert k in l && forall s :: s in l ==> s == k || s in rest;
      forall s | s in got ensures s in l {
        assert s == k || s in Numbers(rest);
      }
    }
  }

  predicate SameFrames(a: seq<nat>, b: seq<nat>, got: set<nat>) {
    Numbers(a) == got && Numbers(b) == got
  }

  /** The outcome depends on nothing but the set of frames. */
  ghost predicate OrderIndependent(r: Receiver, got: set<nat>, sent: map<nat, Payload>)
    requires got <= sent.Keys
  {
    forall a, b {:trigger SameFrames(a, b, got)} :: SameFrames(a, b, got) ==>
      (assert forall s :: s in a ==> s in Numbers(a);
       assert forall s :: s in b ==> s in Numbers(b);
       Feed(r, a, sent) == Feed(r, b, sent))
  }

  /** A frame in `got` that is out of reach at first but in reach once its predecessors are in. */
  predicate Undecided(r: Receiver, got: set<nat>, k: nat) {
    k in got && Reach(r) <= k < LeastMissing(got, r.expected) + r.window
  }

  /** The predecessors of `k` that close the gap, then `k` itself. */
  function Patient(r: Receiver, got: set<nat>, k: nat): seq<nat>
    requires Undecided(r, got, k)
  {
    var m := LeastMissing(got, r.expected);
    UpFrom(r.expected, (if k < m then k else m) - r.expected) + [k]
  }

  lemma PatientHolds(r: Receiver, got: set<nat>, sent: map<nat, Payload>, k: nat)
    requires r.buf == map[] && got <= sent.Keys && Undecided(r, got, k)
    ensures forall s :: s in Patient(r, got, k) ==> s in got
    ensures Holds(Feed(r, Patient(r, got, k), sent), k)
  {
    var m := LeastMissing(got, r.expected);
    var n := (if k < m then k else m) - r.expected;
    var up := UpFrom(r.expected, n);
    assert forall s :: s in up ==> s in got;
    FeedUp(r, n, sent);
    assert Patient(r, got, k)[..|Patient(r, got, k)| - 1] == up;
  }

  /** Two orders of an undecided set that end differently. */
  lemma UndecidedDiverges(r: Receiver, got: set<nat>, sent: map<nat, Payload>, k: nat)
    requires r.buf == map[] && got <= sent.Keys && Undecided(r, got, k)
    ensures !OrderIndependent(r, got, sent)
  {
    var others := ListOf(got - {k});
    assert forall s :: s in others <==> s in Numbers(others);
    var early, late := [k] + others, Patient(r, got, k) + others;
    FeedLoses(r, k, others, sent);
    PatientHolds(r, got, sent, k);
    FeedStays(r, Patient(r, got, k), others, sent, k);
    forall s ensures (s in early <==> s in got) && (s in late <==> s in got) {
      assert k in Patient(r, got, k);
      assert s in got ==> s == k || s in Numbers(others);
    }
    assert Numbers(early) == got && Numbers(late) == got;
    assert SameFrames(early, late, got);
  }

  /** Exactly when the order of arrival is irrelevant. */
  lemma OrderIndependentIff(r: Receiver, got: set<nat>, sent: map<nat, Payload>)
    requires r.buf == map[] && got <= sent.Keys
    ensures OrderIndependent(r, got, sent) <==> Decided(r, got)
  {
    if Decided(r, got) {
      forall a, b | SameFrames(a, b, got)
        ensures (assert forall s :: s in a ==> s in Numbers(a);
                 assert forall s :: s in b ==> s in Numbers(b);
                 Feed(r, a, sent) == Feed(r, b, sent))
      {
        assert forall s :: s in a ==> s in Numbers(a);
        assert forall s :: s in b ==> s in Numbers(b);
        FeedIsAssembled(r, a, sent);
        FeedIsAssembled(r, b, sent);
      }
    } else {
      var k :| k in got && !(k < Reach(r) || LeastMissing(got, r.expected) + r.window <= k);
      UndecidedDiverges(r, got, sent, k);
    }
  }
}

/** The bounded reception queue of one connection (src/backpressure.rs). */
module Backpressure {
  import opened Streams
  import opened Relay

  /** A connection's reset token, shared by its tasks and callbacks. */
  class CancelToken {
    var tripped: Token

    constructor ()
      ensures tripped == None
    {
      tripped := None;
    }

    method Cancel(now: nat)
      modifies this
      ensures tripped == Trip(old(tripped), now)
    {
      if tripped.None? {
        tripped := Some(now);
      }
    }
  }

  /** The queue with its history: samples offered while the receiver was there,
      and samples received. */
  datatype Rx<T> = Rx(queue: seq<T>, open: bool, shed: nat, tripped: bool, offered: seq<T>, received: seq<T>) {
    function Offer(capacity: nat, mode: Mode, sample: T): Rx<T> {
      if !open then this
      else
        var seen := this.(offered := offered + [sample]);
        if |queue| < capacity then seen.(queue := queue + [sample])
        else if mode == Stream then seen.(tripped := true)
        else seen.(shed := shed + 1)
    }

    function Recv(): Rx<T> {
      if queue == [] then this else this.(queue := queue[1..], received := received + [queue[0]])
    }
  }

  datatype Op<T> = Offered(sample: T) | Received | Closed

  function Apply<T>(rx: Rx<T>, capacity: nat, mode: Mode, op: Op<T>): Rx<T> {
    match op
    case Offered(sample) => rx.Offer(capacity, mode, sample)
    case Received => rx.Recv()
    case Closed => rx.(open := false)
  }

  function RunOps<T>(capacity: nat, mode: Mode, ops: seq<Op<T>>): Rx<T> {
    if ops == [] then Rx([], true, 0, false, [], [])
    else Apply(RunOps(capacity, mode, ops[..|ops| - 1]), capacity, mode, ops[|ops| - 1])
  }

  ghost predicate Subsequence<T(!new)>(a: seq<T>, b: seq<T>) {
    if b == [] then a == []
    else
      var rest, last := b[..|b| - 1], b[|b| - 1];
      Subsequence(a, rest) || (a != [] && a[|a| - 1] == last && Subsequence(a[..|a| - 1], rest))
  }

  lemma SubsequenceSnoc<T(!new)>(a: seq<T>, b: seq<T>, x: T)
    requires Subsequence(a, b)
    ensures Subsequence(a, b + [x]) && Subsequence(a + [x], b + [x])
  {
    assert (b + [x])[..|b|] == b && (a + [x])[..|a|] == a;
  }

  lemma RecvKeepsOrder<T>(rx: Rx<T>)
    ensures rx.Recv().received + rx.Recv().queue == rx.received + rx.queue
  {
  }

  /** Stream mode: the token is tripped exactly when a sample had to be dropped,
      and until then what came out and what is queued is what was offered.  The
      queue never passes its capacity, and no call ever waits. */
  lemma {:induction false} StreamIsExact<T>(capacity: nat, ops: seq<Op<T>>)
    ensures var rx := RunOps(capacity, Stream, ops);
            && |rx.queue| <= capacity
            && (rx.tripped <==> rx.received + rx.queue != rx.offered)
            && |rx.received| + |rx.queue| <= |rx.offered|
            && (rx.tripped ==> |rx.received| + |rx.queue| < |rx.offered|)
  {
    if ops != [] {
      var before := ops[..|ops| - 1];
      StreamIsExact(capacity, before);
      var rx := RunOps(capacity, Stream, before);
      RecvKeepsOrder(rx);
      match ops[|ops| - 1]
      case Offered(sample) =>
        assert rx.received + (rx.queue + [sample]) == (rx.received + rx.queue) + [sample];
        var next := RunOps(capacity, Stream, ops);
        if next.tripped {
          assert |next.received + next.queue| < |next.offered|;
        }
      case _ =>
    }
  }

  /** Call `k` offers a sample to a receiver that is there and whose queue is full. */
  ghost predicate FullAt<T>(capacity: nat, mode: Mode, ops: seq<Op<T>>, k: nat) {
    && k < |ops| && ops[k].Offered?
    && var rx := RunOps(capacity, mode, ops[..k]); rx.open && |rx.queue| == capacity
  }

  /** A sample that finds room is queued, and the reset and the shed count are left alone. */
  lemma RoomIsUsed<T>(rx: Rx<T>, capacity: nat, mode: Mode, sample: T)
    requires rx.open && |rx.queue| < capacity
    ensures rx.Offer(capacity, mode, sample) ==
            rx.(queue := rx.queue + [sample], offered := rx.offered + [sample])
  {
  }

  lemma FullBefore<T>(capacity: nat, mode: Mode, ops: seq<Op<T>>, k: nat)
    requires k < |ops| - 1
    ensures FullAt(capacity, mode, ops, k) <==> FullAt(capacity, mode, ops[..|ops| - 1], k)
  {
    assert ops[..|ops| - 1][..k] == ops[..k];
  }

  /** So the token is tripped exactly when some call found the queue full. */
  lemma {:induction false} TripsExactly<T>(capacity: nat, ops: seq<Op<T>>)
    ensures RunOps(capacity, Stream, ops).tripped <==> exists k :: FullAt(capacity, Stream, ops, k)
  {
    if ops != [] {
      var last, before := |ops| - 1, ops[..|ops| - 1];
      TripsExactly(capacity, before);
      StreamIsExact(capacity, before);
      forall k: nat | k < last ensures FullAt(capacity, Stream, ops, k) <==> FullAt(capacity, Stream, before, k) {
        FullBefore(capacity, Stream, ops, k);
      }
      TripsNow(capacity, ops);
      hide RunOps, FullAt;
      if exists k :: FullAt(capacity, Stream, before, k) {
        var k: nat :| FullAt(capacity, Stream, before, k);
        FullInside(capacity, before, k);
        assert FullAt(capacity, Stream, ops, k);
      }
      if exists k :: FullAt(capacity, Stream, ops, k) {
        var k: nat :| FullAt(capacity, Stream, ops, k);
        FullInside(capacity, ops, k);
        assert k < last ==> FullAt(capacity, Stream, before, k);
      }
    }
  }

  lemma FullInside<T>(capacity: nat, ops: seq<Op<T>>, k: nat)
    requires FullAt(capacity, Stream, ops, k)
    ensures k < |ops|
  {
  }

  lemma TripsNow<T>(capacity: nat, ops: seq<Op<T>>)
    requires ops != [] && |RunOps(capacity, Stream, ops[..|ops| - 1]).queue| <= capacity
    ensures RunOps(capacity, Stream, ops).tripped <==>
            RunOps(capacity, Stream, ops[..|ops| - 1]).tripped || FullAt(capacity, Stream, ops, |ops| - 1)
  {
  }

  ghost predicate Sheds<T(!new)>(rx: Rx<T>, capacity: nat) {
    && |rx.queue| <= capacity && !rx.tripped
    && |rx.received| + |rx.queue| + rx.shed == |rx.offered|
    && Subsequence(rx.received + rx.queue, rx.offered)
  }

  lemma OfferSheds<T(!new)>(rx: Rx<T>, capacity: nat, sample: T)
    requires Sheds(rx, capacity)
    ensures Sheds(rx.Offer(capacity, Telemetry, sample), capacity)
  {
    assert rx.received + (rx.queue + [sample]) == (rx.received + rx.queue) + [sample];
    SubsequenceSnoc(rx.received + rx.queue, rx.offered, sample);
    hide Subsequence;
  }

  lemma RecvSheds<T(!new)>(rx: Rx<T>, capacity: nat)
    requires Sheds(rx, capacity)
    ensures Sheds(rx.Recv(), capacity)
  {
    RecvKeepsOrder(rx);
    hide Subsequence;
  }

  /** Telemetry mode: the token is never tripped, every sample is received,
      queued or counted as shed, and nothing is reordered. */
  lemma {:induction false} TelemetrySheds<T(!new)>(capacity: nat, ops: seq<Op<T>>)
    ensures var rx := RunOps(capacity, Telemetry, ops);
            && |rx.queue| <= capacity && !rx.tripped
            && |rx.received| + |rx.queue| + rx.shed == |rx.offered|
            && Subsequence(rx.received + rx.queue, rx.offered)
  {
    if ops != [] {
      var before := ops[..|ops| - 1];
      TelemetrySheds(capacity, before);
      var rx := RunOps(capacity, Telemetry, before);
      assert Sheds(rx, capacity);
      hide Subsequence;
      match ops[|ops| - 1]
      case Offered(sample) => OfferSheds(rx, capacity, sample);
      case Received => RecvSheds(rx, capacity);
      case Closed =>
    }
  }

  /** The non-blocking callback and the channel it feeds. */
  class RxChannel<T> {
    const capacity: nat
    const mode: Mode
    const token: CancelToken
    var queue: seq<T>
    var open: bool
    var shed: nat
    ghost var offered: seq<T>
    ghost var received: seq<T>

    ghost function State(): Rx<T>
      reads this, token
    {
      Rx(queue, open, shed, token.tripped.Some?, offered, received)
    }

    constructor (capacity: nat, mode: Mode, token: CancelToken)
      requires capacity > 0
      ensures this.capacity == capacity && this.mode == mode && this.token == token
      ensures State() == Rx([], true, 0, token.tripped.Some?, [], [])
    {
      this.capacity, this.mode, this.token := capacity, mode, token;
      queue, open, shed := [], true, 0;
      offered, received := [], [];
    }

    /** Called on the shared reception thread for every sample. */
    method Offer(sample: T, now: nat)
      modifies this, token
      ensures State() == old(State()).Offer(capacity, mode, sample)
      ensures token.tripped == if old(open && |queue| >= capacity) && mode == Stream
                               then Trip(old(token.tripped), now) else old(token.tripped)
      ensures queue == old(queue) + if old(open && |queue| < capacity) then [sample] else []
      ensures shed == old(shed) + if old(open && |queue| >= capacity) && mode == Telemetry then 1 else 0
    {
      if !open {
        return;
      }
      offered := offered + [sample];
      if |queue| < capacity {
        queue := queue + [sample];
        return;
      }
      match mode {
        case Stream =>
          if token.tripped.None? {
            token.Cancel(now);
          }
        case Telemetry =>
          shed := shed + 1;
      }
    }

    method Recv() returns (sample: Option<T>)
      modifies this
      ensures State() == old(State()).Recv()
      ensures sample == if old(queue) == [] then None else Some(old(queue)[0])
      ensures old(queue) == (if sample.Some? then [sample.value] else []) + queue
    {
      if queue == [] {
        return None;
      }
      sample := Some(queue[0]);
      received := received + [queue[0]];
      queue := queue[1..];
    }

    method Close()
      modifies this
      ensures State() == old(State()).(open := false)
    {
      open := false;
    }
  }
}

/** The relay of one connection: two bridges, two directions, one cancel token
    per bridge (src/import/bridge.rs, src/export/bridge.rs). */
module Relay {
  import opened Streams

  /** How one direction's task ended by itself. */
  datatype DirectionEnd = Eof | Reset | Error

  datatype Task = Live | Done(end: DirectionEnd) | Aborted

  /** The time a token was tripped at, if it was. */
  type Token = Option<nat>

  function Trip(token: Token, now: nat): Token {
    if token.None? then Some(now) else token
  }

  /** One direction: a reader task publishes samples on the bus, the bus delivers
      them in order to a bounded queue, a writer task takes them out.  Samples are
      named by their index in `published`; the empty sample is the EOF marker. */
  datatype Flow = Flow(
    source: Bytes,          // all bytes read, the initial buffer first
    published: seq<Bytes>,
    reader: Task,
    arrived: nat,           // samples the bus has handed to the receiving callback
    lost: set<nat>,         // samples the bus will report as missed
    queue: seq<nat>,
    taken: seq<nat>,        // samples the writer task took
    dropped: set<nat>,      // samples that arrived but were never queued
    hand: bool,             // the last of them is being written
    written: Bytes,
    fin: bool,              // the end of stream was passed on
    writer: Task)

  datatype WriteResult = WriteOk | WriteFails(n: nat)

  /** What a task, the bus or the runtime may do next in one direction. */
  datatype Step =
    | Read(data: Bytes, putOk: bool)  // an empty read is the source's end of stream
    | ReadFails
    | ReaderCancelled
    | Lose(i: nat)
    | Arrive
    | Take
    | Write(result: WriteResult)
    | ChannelCloses
    | WriterCancelled
    | AbortReader(unpublished: Bytes)
    | AbortWriter(n: nat)             // a write in progress got `n` bytes through

  /** A direction together with the tokens of its two ends and the time. */
  datatype Ends = Ends(flow: Flow, src: Token, dst: Token, now: nat)

  /** The direction before any task ran: an initial buffer is already published. */
  function Start(initial: Option<Bytes>): Flow {
    match initial
    case None => Flow([], [], Live, 0, {}, [], [], {}, false, [], false, Live)
    case Some(buffer) => Flow(buffer, [buffer], Live, 0, {}, [], [], {}, false, [], false, Live)
  }

  function Upto(n: nat): (s: seq<nat>)
    ensures |s| == n && forall i :: 0 <= i < n ==> s[i] == i
  {
    seq(n, i => i)
  }

  function Clip(payload: Bytes, n: nat): Bytes {
    if n <= |payload| then payload[..n] else payload
  }

  predicate Within(indices: seq<nat>, n: nat) {
    forall k :: 0 <= k < |indices| ==> indices[k] < n
  }

  /** The bytes of the samples `indices`, in that order. */
  function Payloads(published: seq<Bytes>, indices: seq<nat>): Bytes
    requires Within(indices, |published|)
  {
    if indices == [] then []
    else Payloads(published, indices[..|indices| - 1]) + published[indices[|indices| - 1]]
  }

  // --- The steps ---

  function ReadStep(e: Ends, data: Bytes, putOk: bool): Ends {
    var f := e.flow;
    if !f.reader.Live? then e
    else if !putOk then
      e.(flow := f.(source := f.source + data, reader := Done(Error)), src := Trip(e.src, e.now))
    else
      e.(flow := f.(source := f.source + data, published := f.published + [data],
                    reader := if data == [] then Done(Eof) else Live))
  }

  function ArriveStep(e: Ends, capacity: nat): Ends {
    var f := e.flow;
    if f.arrived >= |f.published| then e
    else
      var i := f.arrived;
      var g := f.(arrived := i + 1);
      if i in f.lost then e.(flow := g.(dropped := f.dropped + {i}), dst := Trip(e.dst, e.now))
      else if !f.writer.Live? then e.(flow := g.(dropped := f.dropped + {i}))
      else if |f.queue| < capacity then e.(flow := g.(queue := f.queue + [i]))
      else e.(flow := g.(dropped := f.dropped + {i}), dst := Trip(e.dst, e.now))
  }

  function TakeStep(e: Ends): Ends {
    var f := e.flow;
    if !f.writer.Live? || f.hand || f.queue == [] then e
    else e.(flow := f.(queue := f.queue[1..], taken := f.taken + [f.queue[0]], hand := true))
  }

  /** The payload of the sample in hand. */
  function InHand(f: Flow): Bytes {
    if f.taken != [] && f.taken[|f.taken| - 1] < |f.published| then f.published[f.taken[|f.taken| - 1]] else []
  }

  function WriteStep(e: Ends, result: WriteResult): Ends {
    var f := e.flow;
    if !f.hand then e
    else match result
      case WriteOk =>
        if InHand(f) == [] then e.(flow := f.(hand := false, fin := true, writer := Done(Eof)))
        else e.(flow := f.(hand := false, written := f.written + InHand(f)))
      case WriteFails(n) =>
        e.(flow := f.(hand := false, written := f.written + Clip(InHand(f), n), writer := Done(Error)),
           dst := Trip(e.dst, e.now))
  }

  function Next(e: Ends, capacity: nat, step: Step): Ends {
    var f := e.flow;
    match step
    case Read(data, putOk) => ReadStep(e, data, putOk)
    case ReadFails =>
      if !f.reader.Live? then e
      else e.(flow := f.(reader := Done(Error)), src := Trip(e.src, e.now))
    case ReaderCancelled =>
      if !f.reader.Live? || e.src.None? then e else e.(flow := f.(reader := Done(Reset)))
    case Lose(i) =>
      if f.arrived <= i < |f.published| then e.(flow := f.(lost := f.lost + {i})) else e
    case Arrive => ArriveStep(e, capacity)
    case Take => TakeStep(e)
    case Write(result) => WriteStep(e, result)
    case ChannelCloses =>
      if !f.writer.Live? || f.hand || f.queue != [] then e
      else e.(flow := f.(writer := Done(Error)), dst := Trip(e.dst, e.now))
    case WriterCancelled =>
      if !f.writer.Live? || f.hand || e.dst.None? then e else e.(flow := f.(writer := Done(Reset)))
    case AbortReader(unpublished) =>
      if !f.reader.Live? || e.src.None? then e
      else e.(flow := f.(reader := Aborted, source := f.source + unpublished))
    case AbortWriter(n) =>
      if !f.writer.Live? || e.dst.None? then e
      else if !f.hand then e.(flow := f.(writer := Aborted))
      else e.(flow := f.(hand := false, written := f.written + Clip(InHand(f), n), writer := Aborted))
  }

  function Fold(e: Ends, capacity: nat, steps: seq<Step>): Ends {
    if steps == [] then e else Next(Fold(e, capacity, steps[..|steps| - 1]), capacity, steps[|steps| - 1])
  }

  // --- What every direction keeps ---

  ghost predicate Increasing(s: seq<nat>) {
    forall i, j :: 0 <= i < j < |s| ==> s[i] < s[j]
  }

  /** The reader's side: what was published is what was read, and the marker is
      the last sample of a stream that ended cleanly. */
  ghost predicate ReaderInv(e: Ends) {
    var f := e.flow;
    && Flat(f.published) <= f.source
    && (f.reader.Live? || f.reader == Done(Eof) || f.reader == Done(Reset) ==> Flat(f.published) == f.source)
    && (forall i :: 0 <= i < |f.published| && f.published[i] == [] ==>
          i == |f.published| - 1 && f.reader == Done(Eof))
    && (f.reader == Done(Eof) ==> f.published != [] && f.published[|f.published| - 1] == [])
    && (!f.reader.Live? && f.reader != Done(Eof) ==> e.src.Some?)
  }

  /** The bus and the queue: samples are kept in order, and none is missing
      unless the receiving token says so. */
  ghost predicate QueueInv(e: Ends, capacity: nat) {
    var f := e.flow;
    && f.arrived <= |f.published|
    && |f.queue| <= capacity
    && Increasing(f.taken + f.queue)
    && Within(f.taken, f.arrived) && Within(f.queue, f.arrived)
    && (f.dropped == {} ==> f.taken + f.queue == Upto(f.arrived))
    && (f.dropped != {} ==> |f.taken| + |f.queue| < f.arrived)
    && (f.dropped != {} ==> e.dst.Some?)
  }

  /** The writer's side: what was written is what was taken. */
  ghost predicate WriterInv(e: Ends) {
    var f := e.flow;
    && Within(f.taken, |f.published|)
    && (f.hand ==> f.writer.Live? && f.taken != [])
    && f.written <= Payloads(f.published, f.taken)
    && (f.hand ==> f.written == Payloads(f.published, f.taken[..|f.taken| - 1]))
    && (!f.hand && (f.writer.Live? || f.writer == Done(Eof) || f.writer == Done(Reset)) ==>
          f.written == Payloads(f.published, f.taken))
    && (f.fin <==> f.writer == Done(Eof))
    && (f.fin ==> f.taken != [] && f.published[f.taken[|f.taken| - 1]] == [])
    && (f.writer.Live? ==>
          forall k :: 0 <= k < |f.taken| - (if f.hand then 1 else 0) ==> f.published[f.taken[k]] != [])
    && (!f.writer.Live? && f.writer != Done(Eof) ==> e.dst.Some?)
  }

  ghost predicate Inv(e: Ends, capacity: nat) {
    ReaderInv(e) && QueueInv(e, capacity) && WriterInv(e)
  }

  lemma PayloadsSnoc(published: seq<Bytes>, indices: seq<nat>, i: nat)
    requires i < |published| && Within(indices, |published|)
    ensures Payloads(published, indices + [i]) == Payloads(published, indices) + published[i]
  {
    assert (indices + [i])[..|indices|] == indices;
  }

  lemma {:induction false} PayloadsGrow(published: seq<Bytes>, more: seq<Bytes>, indices: seq<nat>)
    requires published <= more && Within(indices, |published|)
    ensures Payloads(published, indices) == Payloads(more, indices)
    ensures indices != [] ==> Payloads(published, indices[..|indices| - 1]) == Payloads(more, indices[..|indices| - 1])
  {
    if indices != [] {
      PayloadsGrow(published, more, indices[..|indices| - 1]);
    }
  }

  lemma {:induction false} PayloadsUpto(published: seq<Bytes>, n: nat)
    requires n <= |published|
    ensures Payloads(published, Upto(n)) == Flat(published[..n])
  {
    if n > 0 {
      PayloadsUpto(published, n - 1);
      assert Upto(n)[..n - 1] == Upto(n - 1);
      assert published[..n] == published[..n - 1] + [published[n - 1]];
      FlatSnoc(published[..n - 1], published[n - 1]);
    }
  }

  lemma StartReads(initial: Option<Bytes>, now: nat)
    requires initial != Some([])
    ensures ReaderInv(Ends(Start(initial), None, None, now))
  {
    assert Flat([]) == [];
    if initial.Some? {
      FlatSnoc([], initial.value);
      assert [] + [initial.value] == [initial.value];
    }
    hide Flat;
  }

  lemma StartWrites(initial: Option<Bytes>, capacity: nat, now: nat)
    ensures var e := Ends(Start(initial), None, None, now); QueueInv(e, capacity) && WriterInv(e)
  {
  }

  lemma StartInv(initial: Option<Bytes>, capacity: nat, now: nat)
    requires initial != Some([])
    ensures Inv(Ends(Start(initial), None, None, now), capacity)
  {
    StartReads(initial, now);
    StartWrites(initial, capacity, now);
    hide ReaderInv, QueueInv, WriterInv;
  }

  lemma ReadReads(e: Ends, data: Bytes, putOk: bool)
    requires ReaderInv(e)
    ensures ReaderInv(ReadStep(e, data, putOk))
  {
    FlatSnoc(e.flow.published, data);
    hide Flat;
  }

  lemma ReadWrites(e: Ends, data: Bytes, putOk: bool)
    requires WriterInv(e)
    ensures WriterInv(ReadStep(e, data, putOk))
  {
    var f := e.flow;
    PayloadsGrow(f.published, f.published + [data], f.taken);
    hide Payloads;
  }

  lemma ReadKeeps(e: Ends, capacity: nat, data: Bytes, putOk: bool)
    requires Inv(e, capacity)
    ensures Inv(ReadStep(e, data, putOk), capacity)
  {
    ReadReads(e, data, putOk);
    ReadWrites(e, data, putOk);
    hide ReaderInv, WriterInv, Increasing, Within, Upto;
  }

  lemma TakenInOrder(f: Flow)
    requires f.taken + f.queue == Upto(f.arrived)
    ensures f.taken == Upto(|f.taken|) && |f.taken| <= f.arrived
  {
    forall k | 0 <= k < |f.taken| ensures f.taken[k] == k {
      assert (f.taken + f.queue)[k] == f.taken[k];
    }
  }

  /** An end of stream passed on under an untripped token: the source ended
      cleanly and every byte of it was written. */
  lemma FinIsComplete(e: Ends, capacity: nat)
    requires Inv(e, capacity) && e.flow.fin && e.flow.dropped == {}
    ensures var f := e.flow;
            && f.reader == Done(Eof) && f.written == f.source
            && f.queue == [] && f.arrived == |f.published|
  {
    var f := e.flow;
    TakenInOrder(f);
    var marker := f.taken[|f.taken| - 1];
    assert marker == |f.published| - 1;
    PayloadsUpto(f.published, |f.taken|);
    assert f.published[..|f.taken|] == f.published;
  }

  /** After a clean end nothing is left to arrive, and any other end is known. */
  lemma NothingArrivesUnknown(e: Ends, capacity: nat)
    requires Inv(e, capacity) && !e.flow.writer.Live? && e.dst.None?
    ensures e.flow.arrived == |e.flow.published|
  {
    FinIsComplete(e, capacity);
  }

  lemma Enqueue(taken: seq<nat>, queue: seq<nat>, i: nat)
    requires Increasing(taken + queue) && Within(taken, i) && Within(queue, i)
    ensures Increasing(taken + (queue + [i])) && Within(taken, i + 1) && Within(queue + [i], i + 1)
    ensures Within(queue, i + 1)
    ensures taken + queue == Upto(i) ==> taken + (queue + [i]) == Upto(i + 1)
  {
    var all := taken + queue;
    assert taken + (queue + [i]) == all + [i];
    forall k | 0 <= k < |all| ensures all[k] < i {
      assert all[k] == if k < |taken| then taken[k] else queue[k - |taken|];
    }
  }

  lemma ArriveQueues(e: Ends, capacity: nat)
    requires Inv(e, capacity)
    ensures QueueInv(ArriveStep(e, capacity), capacity)
  {
    var f := e.flow;
    if f.arrived < |f.published| {
      if !f.writer.Live? && e.dst.None? {
        NothingArrivesUnknown(e, capacity);
      }
      Enqueue(f.taken, f.queue, f.arrived);
      hide Increasing, Within, Upto, ReaderInv, WriterInv;
      assert f.arrived in f.dropped + {f.arrived};
    }
  }

  /** What no arrival touches. */
  lemma ArriveLeaves(e: Ends, capacity: nat)
    requires WriterInv(e)
    ensures ReaderInv(e) ==> ReaderInv(ArriveStep(e, capacity))
    ensures WriterInv(ArriveStep(e, capacity))
  {
    hide Flat, Payloads, Within;
  }

  lemma ArriveKeeps(e: Ends, capacity: nat)
    requires Inv(e, capacity)
    ensures Inv(ArriveStep(e, capacity), capacity)
  {
    ArriveQueues(e, capacity);
    ArriveLeaves(e, capacity);
    hide ReaderInv, QueueInv, WriterInv, ArriveStep;
  }

  lemma TakeQueues(e: Ends, capacity: nat)
    requires QueueInv(e, capacity)
    ensures QueueInv(TakeStep(e), capacity)
  {
    hide Increasing, Upto;
    var f := e.flow;
    if f.queue != [] {
      assert (f.taken + [f.queue[0]]) + f.queue[1..] == f.taken + f.queue;
    }
  }

  lemma TakeWrites(e: Ends)
    requires WriterInv(e) && (e.flow.queue != [] ==> e.flow.queue[0] < |e.flow.published|)
    ensures WriterInv(TakeStep(e))
  {
    var f := e.flow;
    if f.queue != [] {
      assert (f.taken + [f.queue[0]])[..|f.taken|] == f.taken;
      PayloadsSnoc(f.published, f.taken, f.queue[0]);
    }
    hide Payloads;
  }

  lemma TakeKeeps(e: Ends, capacity: nat)
    requires Inv(e, capacity)
    ensures Inv(TakeStep(e), capacity)
  {
    TakeQueues(e, capacity);
    TakeWrites(e);
    hide QueueInv, WriterInv, Flat;
  }

  lemma WriteWrites(e: Ends, result: WriteResult)
    requires WriterInv(e)
    ensures WriterInv(WriteStep(e, result))
  {
    var f := e.flow;
    if f.hand {
      assert f.taken == f.taken[..|f.taken| - 1] + [f.taken[|f.taken| - 1]];
      PayloadsSnoc(f.published, f.taken[..|f.taken| - 1], f.taken[|f.taken| - 1]);
      hide Payloads, Within;
    }
  }

  lemma WriteKeeps(e: Ends, capacity: nat, result: WriteResult)
    requires Inv(e, capacity)
    ensures Inv(WriteStep(e, result), capacity)
  {
    WriteWrites(e, result);
    hide WriterInv, Flat, Increasing;
  }

  lemma AbortWriterKeeps(e: Ends, capacity: nat, n: nat)
    requires Inv(e, capacity)
    ensures Inv(Next(e, capacity, AbortWriter(n)), capacity)
  {
    if e.flow.hand && e.dst.Some? {
      WriteKeeps(e, capacity, WriteFails(n));
    }
  }

  lemma NextKeeps(e: Ends, capacity: nat, step: Step)
    requires Inv(e, capacity)
    ensures Inv(Next(e, capacity, step), capacity)
  {
    hide Flat, Payloads, Increasing;
    match step
    case Read(data, putOk) => ReadKeeps(e, capacity, data, putOk);
    case Arrive => ArriveKeeps(e, capacity);
    case Take => TakeKeeps(e, capacity);
    case Write(result) => WriteKeeps(e, capacity, result);
    case AbortWriter(n) => AbortWriterKeeps(e, capacity, n);
    case _ =>
  }

  /** Whatever the tasks, the bus and the environment do, in any order. */
  lemma {:induction false} FoldKeeps(e: Ends, capacity: nat, steps: seq<Step>)
    requires Inv(e, capacity)
    ensures Inv(Fold(e, capacity, steps), capacity)
  {
    if steps != [] {
      FoldKeeps(e, capacity, steps[..|steps| - 1]);
      NextKeeps(Fold(e, capacity, steps[..|steps| - 1]), capacity, steps[|steps| - 1]);
    }
  }

  /** Tripping a token, and time, change nothing else. */
  lemma TripKeeps(e: Ends, capacity: nat, src: Token, dst: Token, now: nat)
    requires Inv(e, capacity) && (e.src.Some? ==> src.Some?) && (e.dst.Some? ==> dst.Some?)
    ensures Inv(Ends(e.flow, src, dst, now), capacity)
  {
  }

  // --- What the directions promise ---

  /** Samples wholly written. */
  function Delivered(f: Flow): nat {
    if f.hand && f.taken != [] then |f.taken| - 1 else |f.taken|
  }

  /** While the receiving token is untripped: samples taken, queued and in flight
      are the samples published, in order, so the bytes written are a prefix of
      the bytes read at the other end. */
  lemma ExactWhileUntripped(e: Ends, capacity: nat)
    requires Inv(e, capacity) && e.dst.None?
    ensures var f := e.flow;
            && f.taken + f.queue == Upto(f.arrived)
            && Delivered(f) <= f.arrived <= |f.published|
            && f.written == Flat(f.published[..Delivered(f)])
            && f.written <= f.source
  {
    var f := e.flow;
    TakenInOrder(f);
    PayloadsUpto(f.published, Delivered(f));
    assert f.hand ==> f.taken[..|f.taken| - 1] == Upto(|f.taken| - 1);
    FlatPrefix(f.published[..Delivered(f)], f.published);
  }

  // --- In order, and complete ---

  /** Every sample that arrived is taken, queued or dropped, and a dropped one is
      neither of the others. */
  ghost predicate Placed(f: Flow) {
    && (forall i :: 0 <= i < f.arrived ==> i in f.taken || i in f.queue || i in f.dropped)
    && (forall d :: d in f.dropped ==> d < f.arrived && d !in f.taken && d !in f.queue)
  }

  lemma PlacedNext(e: Ends, capacity: nat, step: Step)
    requires Inv(e, capacity) && Placed(e.flow)
    ensures Placed(Next(e, capacity, step).flow)
  {
    match step
    case Arrive => PlacedArrive(e, capacity);
    case Take => PlacedTake(e, capacity);
    case _ =>
      hide Inv;
  }

  lemma PlacedArrive(e: Ends, capacity: nat)
    requires Inv(e, capacity) && Placed(e.flow)
    ensures Placed(ArriveStep(e, capacity).flow)
  {
    var f := e.flow;
    assert Within(f.taken, f.arrived) && Within(f.queue, f.arrived);
    hide Inv;
  }

  lemma PlacedTake(e: Ends, capacity: nat)
    requires Inv(e, capacity) && Placed(e.flow)
    ensures Placed(TakeStep(e).flow)
  {
    var f := e.flow;
    assert f.queue != [] ==> f.queue == [f.queue[0]] + f.queue[1..];
    hide Inv;
  }

  /** The samples taken are the first ones published. */
  ghost predicate InOrder(f: Flow) {
    f.taken == Upto(|f.taken|)
  }

  /** No sample was taken past a dropped one. */
  ghost predicate NoGap(f: Flow) {
    forall d, t :: d in f.dropped && t in f.taken ==> t < d
  }

  /** A sample that was skipped was dropped before. */
  lemma {:induction false} NoSkips(e: Ends, capacity: nat, k: nat)
    requires Inv(e, capacity) && Placed(e.flow) && NoGap(e.flow) && k <= |e.flow.taken|
    ensures forall i :: 0 <= i < k ==> e.flow.taken[i] == i
  {
    var f := e.flow;
    if k > 0 {
      NoSkips(e, capacity, k - 1);
      var t, all := f.taken[k - 1], f.taken + f.queue;
      assert t in f.taken && all[k - 1] == t;
      assert forall i :: 0 <= i < k - 1 ==> all[i] == f.taken[i] == i;
      assert forall i :: k - 1 < i < |all| ==> t < all[i];
      assert k > 1 ==> all[k - 2] < all[k - 1];
      if t != k - 1 {
        SkippedIsListed(e, capacity, k - 1, t);
      }
    }
  }

  lemma SkippedIsListed(e: Ends, capacity: nat, i: nat, t: nat)
    requires Inv(e, capacity) && Placed(e.flow) && NoGap(e.flow) && i < t && t in e.flow.taken
    ensures exists j :: 0 <= j < |e.flow.taken + e.flow.queue| && (e.flow.taken + e.flow.queue)[j] == i
  {
    var f := e.flow;
    assert Within(f.taken, f.arrived);
    var all := f.taken + f.queue;
    assert i in all;
  }

  /** Samples are taken in order exactly when none was taken past a dropped one. */
  lemma InOrderExact(e: Ends, capacity: nat)
    requires Inv(e, capacity) && Placed(e.flow)
    ensures InOrder(e.flow) <==> NoGap(e.flow)
  {
    var f := e.flow;
    if NoGap(f) {
      NoSkips(e, capacity, |f.taken|);
    }
    if InOrder(f) {
      forall d, t | d in f.dropped && t in f.taken ensures t < d {
        forall k | 0 <= k < |f.taken| ensures k in f.taken {
          assert f.taken[k] == k;
        }
        assert forall k :: k in f.taken ==> k < |f.taken|;
      }
    }
  }

  /** The write half is shut down: by the end of the stream, by a reset, or, with
      a writer that failed or was aborted, by being dropped.  Over TCP all of these
      look the same to the peer. */
  predicate FinOnWire(f: Flow) {
    !f.writer.Live?
  }

  /** The last sample taken was wholly written, and so were all before it. */
  ghost predicate WroteTaken(f: Flow) {
    Within(f.taken, |f.published|) && f.written == Payloads(f.published, f.taken)
  }

  /** Every one of the first `n` samples that carries bytes is listed. */
  ghost predicate Includes(published: seq<Bytes>, indices: seq<nat>, n: nat)
    requires n <= |published|
  {
    forall i :: 0 <= i < n && published[i] != [] ==> i in indices
  }

  /** All the bytes read were published, and no sample that carries any was
      left untaken. */
  ghost predicate TookEverything(f: Flow) {
    Flat(f.published) == f.source && Includes(f.published, f.taken, |f.published|)
  }

  lemma IncludesLast(published: seq<Bytes>, indices: seq<nat>, n: nat)
    requires 0 < n <= |published|
    ensures n - 1 !in indices ==>
              (Includes(published, indices, n) <==> Includes(published, indices, n - 1) && published[n - 1] == [])
    ensures indices != [] && indices[|indices| - 1] == n - 1 ==>
              (Includes(published, indices, n) <==> Includes(published, indices[..|indices| - 1], n - 1))
  {
    if indices != [] {
      assert indices == indices[..|indices| - 1] + [indices[|indices| - 1]];
    }
  }

  /** Increasing samples carry all the bytes of the first `n` exactly when they
      include every one of these that carries any. */
  lemma {:induction false} CoversBytes(published: seq<Bytes>, indices: seq<nat>, n: nat)
    requires n <= |published| && Increasing(indices) && Within(indices, n) && Within(indices, |published|)
    ensures |Payloads(published, indices)| <= |Flat(published[..n])|
    ensures Payloads(published, indices) == Flat(published[..n]) <==> Includes(published, indices, n)
  {
    if n == 0 {
      assert indices == [] && published[..0] == [];
    } else {
      InitOrBelow(indices, n);
      assert Within(indices[..if indices == [] then 0 else |indices| - 1], |published|);
      assert published[..n] == published[..n - 1] + [published[n - 1]];
      FlatSnoc(published[..n - 1], published[n - 1]);
      IncludesLast(published, indices, n);
      hide Includes, Payloads, Flat, Increasing, Within;
      if indices != [] && indices[|indices| - 1] == n - 1 {
        var init := indices[..|indices| - 1];
        PayloadsSnoc(published, init, n - 1);
        CoversBytes(published, init, n - 1);
        SameTail(Payloads(published, init), Flat(published[..n - 1]), published[n - 1]);
      } else {
        CoversBytes(published, indices, n - 1);
        ShorterUnless(Payloads(published, indices), Flat(published[..n - 1]), published[n - 1]);
      }
    }
  }

  lemma InitOrBelow(indices: seq<nat>, n: nat)
    requires 0 < n && Increasing(indices) && Within(indices, n)
    ensures if indices != [] && indices[|indices| - 1] == n - 1 then
              var init := indices[..|indices| - 1];
              indices == init + [n - 1] && Increasing(init) && Within(init, n - 1)
            else Within(indices, n - 1) && n - 1 !in indices
  {
  }

  lemma ShorterUnless(a: Bytes, b: Bytes, tail: Bytes)
    requires |a| <= |b|
    ensures a == b + tail <==> a == b && tail == []
  {
  }

  lemma SameTail(a: Bytes, b: Bytes, tail: Bytes)
    ensures a + tail == b + tail <==> a == b
  {
    if a + tail == b + tail {
      assert |a| == |b|;
      assert a == (a + tail)[..|a|] && b == (b + tail)[..|b|];
    }
  }

  /** When a FIN on the wire follows the whole stream: exactly when everything
      read was published, every sample that carries bytes was taken, and the last
      one taken was wholly written, as it always is after an end of stream or a
      reset. */
  lemma FinOnWireExact(e: Ends, capacity: nat)
    requires Inv(e, capacity) && FinOnWire(e.flow)
    ensures e.flow.written == e.flow.source <==> TookEverything(e.flow) && WroteTaken(e.flow)
    ensures e.flow.fin || e.flow.writer == Done(Reset) ==> WroteTaken(e.flow)
  {
    var f := e.flow;
    var n := |f.published|;
    assert f.published[..n] == f.published;
    assert forall k :: 0 <= k < |f.taken| ==> (f.taken + f.queue)[k] == f.taken[k];
    CoversBytes(f.published, f.taken, n);
    hide Payloads, Flat, Upto;
  }
}

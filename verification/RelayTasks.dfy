/** One direction of the relay as it runs: a reader task, a reception callback, a
    writer task and the two cancel tokens they share (src/import/bridge.rs,
    src/export/bridge.rs, src/backpressure.rs). */
module RelayTasks {
  import opened Streams
  import opened Relay
  import opened Backpressure

  /** An arm of the reader task's select. */
  datatype ReadArm = Data(data: Bytes, putOk: bool) | ReadError | Cancelled

  class Direction {
    const src: CancelToken
    const dst: CancelToken
    const rx: RxChannel<nat>
    var source: Bytes
    var published: seq<Bytes>
    var reader: Task
    var arrived: nat
    var lost: set<nat>
    var taken: seq<nat>
    var hand: bool
    var written: Bytes
    var fin: bool
    var writer: Task
    ghost var dropped: set<nat>

    ghost predicate Valid()
      reads this, rx
    {
      src != dst && rx.token == dst && rx.mode == Stream && (rx.open <==> writer.Live?)
    }

    ghost function State(now: nat): Ends
      reads this, rx, src, dst
    {
      Ends(Flow(source, published, reader, arrived, lost, rx.queue, taken, dropped, hand, written, fin, writer),
           src.tripped, dst.tripped, now)
    }

    constructor (src: CancelToken, dst: CancelToken, rx: RxChannel<nat>, initial: Option<Bytes>)
      requires src != dst && rx.token == dst && rx.mode == Stream && rx.open && rx.queue == []
      ensures Valid() && this.src == src && this.dst == dst && this.rx == rx
      ensures forall now :: State(now) == Ends(Start(initial), src.tripped, dst.tripped, now)
    {
      this.src, this.dst, this.rx := src, dst, rx;
      source, published := [], [];
      match initial {
        case Some(buffer) => source, published := buffer, [buffer];
        case None =>
      }
      reader, arrived, lost, taken, hand, written, fin, writer := Live, 0, {}, [], false, [], false, Live;
      dropped := {};
    }

    /** One turn of the reader task's loop. */
    method ReaderTurn(arm: ReadArm, now: nat)
      requires Valid() && reader.Live?
      modifies this`source, this`published, this`reader, src
      ensures Valid()
      ensures State(now) == Next(old(State(now)), rx.capacity,
                match arm
                case Data(data, putOk) => Read(data, putOk)
                case ReadError => ReadFails
                case Cancelled => ReaderCancelled)
      ensures match arm
              case Data(data, putOk) =>
                && source == old(source) + data
                && published == old(published) + (if putOk then [data] else [])
                && reader == (if !putOk then Done(Error) else if data == [] then Done(Eof) else Live)
              case ReadError => reader == Done(Error)
              case Cancelled => reader == if src.tripped.Some? then Done(Reset) else Live
      ensures reader == Done(Error) ==> src.tripped.Some?
    {
      match arm {
        case Data(data, putOk) =>
          source := source + data;
          if !putOk {
            src.Cancel(now);
            reader := Done(Error);
          } else {
            published := published + [data];
            if data == [] {
              reader := Done(Eof);
            }
          }
        case ReadError =>
          src.Cancel(now);
          reader := Done(Error);
        case Cancelled =>
          if src.tripped.Some? {
            reader := Done(Reset);
          }
      }
    }

    /** The bus reports that a sample will never arrive. */
    method BusLoses(i: nat, now: nat)
      requires Valid()
      modifies this`lost
      ensures Valid() && State(now) == Next(old(State(now)), rx.capacity, Lose(i))
      ensures lost == old(lost) + if arrived <= i < |published| then {i} else {}
    {
      if arrived <= i < |published| {
        lost := lost + {i};
      }
    }

    /** The next sample reaches the callback, or is reported as missed. */
    method Reception(now: nat)
      requires Valid()
      modifies this`arrived, this`dropped, rx, dst
      ensures Valid() && State(now) == Next(old(State(now)), rx.capacity, Step.Arrive)
      ensures old(arrived) < |published| ==>
                var i, room := old(arrived), old(rx.open && |rx.queue| < rx.capacity);
                && arrived == i + 1
                && (i in lost || !room ==> dropped == old(dropped) + {i} && rx.queue == old(rx.queue))
                && (i !in lost && room ==> dropped == old(dropped) && rx.queue == old(rx.queue) + [i])
                && (i in lost || (rx.open && !room) ==> dst.tripped.Some?)
    {
      if arrived >= |published| {
        return;
      }
      var i := arrived;
      arrived := arrived + 1;
      if i in lost {
        dropped := dropped + {i};
        dst.Cancel(now);
      } else {
        if !rx.open || |rx.queue| >= rx.capacity {
          dropped := dropped + {i};
        }
        rx.Offer(i, now);
      }
    }

    /** The writer task takes the next sample out of its channel. */
    method WriterTakes(now: nat)
      requires Valid() && writer.Live? && !hand
      modifies this`taken, this`hand, rx
      ensures Valid() && State(now) == Next(old(State(now)), rx.capacity, Take)
      ensures old(rx.queue) != [] ==>
                hand && taken == old(taken) + [old(rx.queue)[0]] && rx.queue == old(rx.queue)[1..]
    {
      var sample := rx.Recv();
      if sample.Some? {
        taken := taken + [sample.value];
        hand := true;
      }
    }

    /** And passes it on: an empty sample is the end of the stream. */
    method WriterWrites(result: WriteResult, now: nat)
      requires Valid() && hand && writer.Live? && taken != [] && taken[|taken| - 1] < |published|
      modifies this`hand, this`written, this`fin, this`writer, rx, dst
      ensures Valid() && State(now) == Next(old(State(now)), rx.capacity, Write(result))
      ensures var payload := published[taken[|taken| - 1]];
              && !hand
              && match result
                 case WriteOk =>
                   && written == old(written) + payload
                   && (if payload == [] then fin && writer == Done(Eof) else fin == old(fin) && writer == Live)
                 case WriteFails(n) =>
                   && written == old(written) + payload[..if n < |payload| then n else |payload|]
                   && writer == Done(Error) && dst.tripped.Some? && fin == old(fin)
    {
      var payload := published[taken[|taken| - 1]];
      hand := false;
      match result {
        case WriteOk =>
          if payload == [] {
            fin := true;
            writer := Done(Eof);
            rx.Close();
          } else {
            written := written + payload;
          }
        case WriteFails(n) =>
          written := written + Clip(payload, n);
          writer := Done(Error);
          rx.Close();
          dst.Cancel(now);
      }
    }

    /** The subscriber is gone and the channel empty. */
    method WriterFindsClosed(now: nat)
      requires Valid() && writer.Live? && !hand && rx.queue == []
      modifies this`writer, rx, dst
      ensures Valid() && State(now) == Next(old(State(now)), rx.capacity, ChannelCloses)
      ensures writer == Done(Error) && dst.tripped.Some?
    {
      writer := Done(Error);
      rx.Close();
      dst.Cancel(now);
    }

    method WriterIsCancelled(now: nat)
      requires Valid() && writer.Live? && !hand && dst.tripped.Some?
      modifies this`writer, rx
      ensures Valid() && State(now) == Next(old(State(now)), rx.capacity, WriterCancelled)
      ensures writer == Done(Reset)
    {
      writer := Done(Reset);
      rx.Close();
    }

    /** The watchdog's aborts. */
    method ReaderIsAborted(unpublished: Bytes, now: nat)
      requires Valid() && reader.Live? && src.tripped.Some?
      modifies this`reader, this`source
      ensures Valid() && State(now) == Next(old(State(now)), rx.capacity, AbortReader(unpublished))
      ensures reader == Aborted && source == old(source) + unpublished
    {
      reader := Aborted;
      source := source + unpublished;
    }

    method WriterIsAborted(n: nat, now: nat)
      requires Valid() && writer.Live? && dst.tripped.Some?
      requires hand ==> taken != [] && taken[|taken| - 1] < |published|
      modifies this`writer, this`hand, this`written, rx
      ensures Valid() && State(now) == Next(old(State(now)), rx.capacity, AbortWriter(n))
      ensures writer == Aborted && !hand
      ensures old(hand) ==>
                var payload := published[taken[|taken| - 1]];
                written == old(written) + payload[..if n < |payload| then n else |payload|]
      ensures !old(hand) ==> written == old(written)
    {
      if hand {
        written := written + Clip(published[taken[|taken| - 1]], n);
        hand := false;
      }
      writer := Aborted;
      rx.Close();
    }

    /** Whichever task or callback the runtime picks; one that is not ready does
        nothing. */
    method Perform(step: Step, now: nat)
      requires Valid() && Inv(State(now), rx.capacity)
      modifies this, rx, src, dst
      ensures Valid() && State(now) == Next(old(State(now)), rx.capacity, step)
    {
      hide Inv, Payloads, Flat, Increasing;
      HandIsTaken(State(now), rx.capacity);
      match step {
        case Read(data, putOk) => if reader.Live? { ReaderTurn(Data(data, putOk), now); }
        case ReadFails => if reader.Live? { ReaderTurn(ReadError, now); }
        case ReaderCancelled => if reader.Live? { ReaderTurn(Cancelled, now); }
        case Lose(i) => BusLoses(i, now);
        case Arrive => Reception(now);
        case Take => if writer.Live? && !hand { WriterTakes(now); }
        case Write(result) => if hand { WriterWrites(result, now); }
        case ChannelCloses => if writer.Live? && !hand && rx.queue == [] { WriterFindsClosed(now); }
        case WriterCancelled => if writer.Live? && !hand && dst.tripped.Some? { WriterIsCancelled(now); }
        case AbortReader(unpublished) =>
          if reader.Live? && src.tripped.Some? { ReaderIsAborted(unpublished, now); }
        case AbortWriter(n) => if writer.Live? && dst.tripped.Some? { WriterIsAborted(n, now); }
      }
    }

    /** Any schedule of the tasks, the bus and the environment: while the
        receiving token is untripped, what was written is a prefix of what was
        read, and an end of stream passed on means all of it was. */
    method RunSchedule(steps: seq<Step>, now: nat)
      requires Valid() && Inv(State(now), rx.capacity)
      modifies this, rx, src, dst
      ensures Valid() && Inv(State(now), rx.capacity)
      ensures State(now) == Fold(old(State(now)), rx.capacity, steps)
      ensures dst.tripped.None? ==> written <= source && (fin ==> written == source && reader == Done(Eof))
    {
      hide Inv, Next;
      ghost var start := State(now);
      for i := 0 to |steps|
        invariant Valid() && Inv(State(now), rx.capacity)
        invariant State(now) == Fold(start, rx.capacity, steps[..i])
      {
        assert steps[..i + 1][..i] == steps[..i];
        NextKeeps(State(now), rx.capacity, steps[i]);
        Perform(steps[i], now);
      }
      assert steps[..|steps|] == steps;
      if dst.tripped.None? {
        Promises(State(now), rx.capacity);
      }
    }
  }

  lemma HandIsTaken(e: Ends, capacity: nat)
    requires Inv(e, capacity)
    ensures var f := e.flow;
            f.hand ==> f.writer.Live? && f.taken != [] && f.taken[|f.taken| - 1] < |f.published|
  {
  }

  lemma Promises(e: Ends, capacity: nat)
    requires Inv(e, capacity) && e.dst.None?
    ensures e.flow.written <= e.flow.source
    ensures e.flow.fin ==> e.flow.written == e.flow.source && e.flow.reader == Done(Eof)
  {
    ExactWhileUntripped(e, capacity);
    if e.flow.fin {
      FinIsComplete(e, capacity);
    }
  }
}

/** That a relayed connection gets its bytes across: what one direction does when
    nothing goes wrong, and what it takes for something to go wrong
    (src/import/bridge.rs, src/export/bridge.rs). */
module Delivery {
  import opened Streams
  import opened Relay
  import RelayConnection

  // --- One direction ---

  /** The steps of a direction to which nothing happens. */
  predicate Delivering(step: Step) {
    step == Arrive || step == Take || step == Write(WriteOk)
  }

  /** The bus has lost no sample that is still to arrive. */
  predicate NoneLost(f: Flow) {
    forall i :: i in f.lost ==> i < f.arrived
  }

  /** A writer at work under an untripped token. */
  ghost predicate Running(e: Ends, capacity: nat) {
    Inv(e, capacity) && e.flow.writer.Live? && e.dst.None? && NoneLost(e.flow)
  }

  /** All that was published is written, and the end of it passed on. */
  ghost predicate Through(f: Flow) {
    && f.written == Flat(f.published)
    && f.arrived == |f.published| && f.queue == [] && !f.hand
    && (f.fin <==> f.reader == Done(Eof))
    && (f.reader != Done(Eof) ==> f.writer.Live?)
  }

  /** Only the receiving half moved. */
  predicate SameSource(e: Ends, e': Ends) {
    && e'.flow.source == e.flow.source && e'.flow.published == e.flow.published && e'.flow.reader == e.flow.reader
    && e'.flow.lost == e.flow.lost && e'.src == e.src && e'.dst == e.dst && e'.now == e.now
  }

  /** A writer with a sample waiting takes the oldest one, and nothing else changes. */
  lemma TakesOldest(e: Ends, capacity: nat)
    requires Running(e, capacity) && !e.flow.hand && e.flow.queue != []
    ensures var e', f := Next(e, capacity, Take), e.flow;
            e' == e.(flow := f.(queue := f.queue[1..], taken := f.taken + [f.queue[0]], hand := true))
    ensures e.flow.queue[0] == |e.flow.taken|
  {
    var f := e.flow;
    assert (f.taken + f.queue)[|f.taken|] == f.queue[0];
  }

  /** The next sample is dropped exactly when the bus lost it, the writer has
      ended, or the queue is full; otherwise it is queued behind the others. */
  lemma DropsExactly(e: Ends, capacity: nat)
    requires Inv(e, capacity) && e.flow.arrived < |e.flow.published|
    ensures var f, f' := e.flow, Next(e, capacity, Arrive).flow;
            && f'.arrived == f.arrived + 1
            && (f.arrived in f'.dropped <==>
                f.arrived in f.lost || !f.writer.Live? || |f.queue| == capacity || f.arrived in f.dropped)
            && (f.arrived !in f'.dropped ==> f'.queue == f.queue + [f.arrived] && Next(e, capacity, Arrive).dst == e.dst)
  {
  }

  function Left(f: Flow): nat {
    (if f.arrived <= |f.published| then 3 * (|f.published| - f.arrived) else 0) + 2 * |f.queue| + if f.hand then 1 else 0
  }

  /** The step that is next when arrivals wait for an empty queue. */
  function NextUp(f: Flow): Step {
    if f.hand then Write(WriteOk) else if f.queue != [] then Take else Arrive
  }

  lemma EndIsThrough(e: Ends, capacity: nat)
    requires Inv(e, capacity) && e.dst.None? && e.flow.fin
    ensures Through(e.flow)
  {
    FinIsComplete(e, capacity);
  }

  lemma IdleIsThrough(e: Ends, capacity: nat)
    requires Running(e, capacity) && !e.flow.hand && e.flow.queue == [] && e.flow.arrived == |e.flow.published|
    ensures Through(e.flow)
  {
    var f := e.flow;
    TakenInOrder(f);
    PayloadsUpto(f.published, |f.published|);
    assert f.taken + [] == f.taken && f.published[..|f.published|] == f.published;
    assert f.published != [] ==> f.taken[|f.published| - 1] == |f.published| - 1;
  }

  lemma OneStep(e: Ends, capacity: nat)
    requires Running(e, capacity) && capacity > 0
    requires e.flow.hand || e.flow.queue != [] || e.flow.arrived < |e.flow.published|
    ensures var e' := Next(e, capacity, NextUp(e.flow));
            && Inv(e', capacity) && SameSource(e, e') && NoneLost(e'.flow) && Left(e'.flow) < Left(e.flow)
            && (e'.flow.writer.Live? || e'.flow.fin)
  {
    NextKeeps(e, capacity, NextUp(e.flow));
    hide ReaderInv, Flat, Payloads, Increasing, Upto;
  }

  /** Everything published gets written, by arrivals, takes and writes alone. */
  lemma {:induction false} Delivers(e: Ends, capacity: nat) returns (more: seq<Step>)
    requires Running(e, capacity) && capacity > 0
    ensures forall step :: step in more ==> Delivering(step)
    ensures var e' := Fold(e, capacity, more);
            Inv(e', capacity) && SameSource(e, e') && Through(e'.flow)
    decreases Left(e.flow)
  {
    hide Inv, Through, Next;
    if e.flow.hand || e.flow.queue != [] || e.flow.arrived < |e.flow.published| {
      OneStep(e, capacity);
      var step := NextUp(e.flow);
      var e' := Next(e, capacity, step);
      FoldOne(e, capacity, step);
      if e'.flow.fin {
        EndIsThrough(e', capacity);
        more := [step];
      } else {
        var rest := Delivers(e', capacity);
        more := [step] + rest;
        FoldConcat(e, capacity, [step], rest);
      }
    } else {
      ArrivedAll(e, capacity);
      IdleIsThrough(e, capacity);
      more := [];
    }
  }

  lemma ArrivedAll(e: Ends, capacity: nat)
    requires Inv(e, capacity) && e.flow.arrived >= |e.flow.published|
    ensures e.flow.arrived == |e.flow.published|
  {
  }

  lemma FoldOne(e: Ends, capacity: nat, step: Step)
    ensures Fold(e, capacity, [step]) == Next(e, capacity, step)
  {
    assert Fold(e, capacity, [step][..0]) == e;
  }

  lemma {:induction false} FoldConcat(e: Ends, capacity: nat, a: seq<Step>, b: seq<Step>)
    ensures Fold(e, capacity, a + b) == Fold(Fold(e, capacity, a), capacity, b)
  {
    if b == [] {
      assert a + b == a;
    } else {
      assert (a + b)[..|a + b| - 1] == a + b[..|b| - 1];
      FoldConcat(e, capacity, a, b[..|b| - 1]);
    }
  }

  /** And no schedule can strand a byte: a writer at work that no arrival, take or
      write moves any more has written everything. */
  lemma StuckIsThrough(e: Ends, capacity: nat)
    requires Running(e, capacity)
    requires forall step :: Delivering(step) ==> Next(e, capacity, step) == e
    ensures Through(e.flow)
  {
    assert Delivering(Arrive) && Delivering(Take) && Delivering(Write(WriteOk));
    assert Next(e, capacity, Arrive) == e && Next(e, capacity, Take) == e && Next(e, capacity, Write(WriteOk)) == e;
    NothingMoves(e, capacity);
    IdleIsThrough(e, capacity);
  }

  lemma NothingMoves(e: Ends, capacity: nat)
    requires Running(e, capacity)
    requires Next(e, capacity, Arrive) == e && Next(e, capacity, Take) == e && Next(e, capacity, Write(WriteOk)) == e
    ensures !e.flow.hand && e.flow.queue == [] && e.flow.arrived == |e.flow.published|
  {
    var f := e.flow;
    assert f.arrived < |f.published| ==> Next(e, capacity, Arrive).flow.arrived == f.arrived + 1;
    assert f.hand ==> !Next(e, capacity, Write(WriteOk)).flow.hand;
    assert !f.hand && f.queue != [] ==> Next(e, capacity, Take).flow.hand;
  }

  /** Where a sample the bus has lost can be: still to be missed, or dropped under
      a tripped token. */
  predicate KnownLost(e: Ends, i: nat) {
    if i < e.flow.arrived then i in e.flow.dropped && e.dst.Some? else i in e.flow.lost
  }

  lemma LostStep(e: Ends, capacity: nat, step: Step, i: nat)
    requires KnownLost(e, i)
    ensures KnownLost(Next(e, capacity, step), i)
  {
  }

  /** A lost sample never goes unnoticed: whatever happens after it was lost, once
      its turn has come it counts as dropped and the receiving side resets. */
  lemma {:induction false} LossIsNoticed(e: Ends, capacity: nat, i: nat, steps: seq<Step>)
    requires e.flow.arrived <= i < |e.flow.published|
    ensures var e' := Fold(Next(e, capacity, Lose(i)), capacity, steps);
            e'.flow.arrived > i ==> i in e'.flow.dropped && e'.dst.Some?
    ensures KnownLost(Fold(Next(e, capacity, Lose(i)), capacity, steps), i)
  {
    if steps != [] {
      var before := steps[..|steps| - 1];
      LossIsNoticed(e, capacity, i, before);
      LostStep(Fold(Next(e, capacity, Lose(i)), capacity, before), capacity, steps[|steps| - 1], i);
    }
  }

  // --- Both bridges ---

  function Ups(steps: seq<Step>): (events: seq<RelayConnection.Event>)
    ensures |events| == |steps| && forall k :: 0 <= k < |steps| ==> events[k] == RelayConnection.Up(steps[k])
  {
    seq(|steps|, k requires 0 <= k < |steps| => RelayConnection.Up(steps[k]))
  }

  function Downs(steps: seq<Step>): (events: seq<RelayConnection.Event>)
    ensures |events| == |steps| && forall k :: 0 <= k < |steps| ==> events[k] == RelayConnection.Down(steps[k])
  {
    seq(|steps|, k requires 0 <= k < |steps| => RelayConnection.Down(steps[k]))
  }

  predicate NoAborts(steps: seq<Step>) {
    forall step :: step in steps ==> !step.AbortReader? && !step.AbortWriter?
  }

  /** The steps of one direction, run among both bridges, move that direction. */
  lemma {:induction false} RunsUp(cfg: RelayConnection.Config, c: RelayConnection.Conn, steps: seq<Step>)
    requires NoAborts(steps)
    ensures RelayConnection.Run(cfg, c, Ups(steps)) == c.WithUp(Fold(c.UpEnds(), cfg.exportCapacity, steps))
  {
    if steps != [] {
      var before, step := steps[..|steps| - 1], steps[|steps| - 1];
      assert step in steps && forall x :: x in before ==> x in steps;
      assert Ups(steps)[..|steps| - 1] == Ups(before);
      RunsUp(cfg, c, before);
      hide Next;
      var e := Fold(c.UpEnds(), cfg.exportCapacity, before);
      KeepsNow(c.UpEnds(), cfg.exportCapacity, before);
      assert c.WithUp(e).UpEnds() == e;
    }
  }

  lemma {:induction false} RunsDown(cfg: RelayConnection.Config, c: RelayConnection.Conn, steps: seq<Step>)
    requires NoAborts(steps)
    ensures RelayConnection.Run(cfg, c, Downs(steps)) == c.WithDown(Fold(c.DownEnds(), cfg.importCapacity, steps))
  {
    if steps != [] {
      var before, step := steps[..|steps| - 1], steps[|steps| - 1];
      assert step in steps && forall x :: x in before ==> x in steps;
      assert Downs(steps)[..|steps| - 1] == Downs(before);
      RunsDown(cfg, c, before);
      hide Next;
      var e := Fold(c.DownEnds(), cfg.importCapacity, before);
      KeepsNow(c.DownEnds(), cfg.importCapacity, before);
      assert c.WithDown(e).DownEnds() == e;
    }
  }

  lemma {:induction false} KeepsNow(e: Ends, capacity: nat, steps: seq<Step>)
    ensures Fold(e, capacity, steps).now == e.now
  {
    if steps != [] {
      KeepsNow(e, capacity, steps[..|steps| - 1]);
    }
  }

  lemma {:induction false} RunConcat(cfg: RelayConnection.Config, c: RelayConnection.Conn,
                                     a: seq<RelayConnection.Event>, b: seq<RelayConnection.Event>)
    ensures RelayConnection.Run(cfg, c, a + b) == RelayConnection.Run(cfg, RelayConnection.Run(cfg, c, a), b)
  {
    if b == [] {
      assert a + b == a;
    } else {
      assert (a + b)[..|a + b| - 1] == a + b[..|b| - 1];
      RunConcat(cfg, c, a, b[..|b| - 1]);
    }
  }

  lemma UpFromHere(cfg: RelayConnection.Config, c: RelayConnection.Conn) returns (more: seq<RelayConnection.Event>)
    requires Running(c.UpEnds(), cfg.exportCapacity) && cfg.exportCapacity > 0
    ensures forall ev :: ev in more ==> ev.Up? && Delivering(ev.step)
    ensures var c' := RelayConnection.Run(cfg, c, more);
            Through(c'.up) && SameSource(c.UpEnds(), c'.UpEnds()) && c'.down == c.down
  {
    hide Through, SameSource, Running, Fold, RelayConnection.Run;
    var steps := Delivers(c.UpEnds(), cfg.exportCapacity);
    more := Ups(steps);
    RunsUp(cfg, c, steps);
    KeepsNow(c.UpEnds(), cfg.exportCapacity, steps);
    var e := Fold(c.UpEnds(), cfg.exportCapacity, steps);
    assert c.WithUp(e).UpEnds() == e;
  }

  lemma DownFromHere(cfg: RelayConnection.Config, c: RelayConnection.Conn) returns (more: seq<RelayConnection.Event>)
    requires Running(c.DownEnds(), cfg.importCapacity) && cfg.importCapacity > 0
    ensures forall ev :: ev in more ==> ev.Down? && Delivering(ev.step)
    ensures var c' := RelayConnection.Run(cfg, c, more);
            Through(c'.down) && SameSource(c.DownEnds(), c'.DownEnds()) && c'.up == c.up
  {
    hide Through, SameSource, Running, Fold, RelayConnection.Run;
    var steps := Delivers(c.DownEnds(), cfg.importCapacity);
    more := Downs(steps);
    RunsDown(cfg, c, steps);
    KeepsNow(c.DownEnds(), cfg.importCapacity, steps);
    var e := Fold(c.DownEnds(), cfg.importCapacity, steps);
    assert c.WithDown(e).DownEnds() == e;
  }

  /** In every run: while the backend's writer is at work under an untripped token
      and the bus has lost nothing, all that was read from the client and
      published can still reach the backend, by the export side's own steps
      alone; nothing else of the connection changes. */
  lemma DeliversUp(cfg: RelayConnection.Config, initial: Option<Bytes>, events: seq<RelayConnection.Event>)
    returns (more: seq<RelayConnection.Event>)
    requires initial != Some([]) && cfg.exportCapacity > 0
    requires var c := RelayConnection.Run(cfg, RelayConnection.Init(initial), events);
             c.up.writer.Live? && c.exportToken.None? && NoneLost(c.up)
    ensures forall ev :: ev in more ==> ev.Up? && Delivering(ev.step)
    ensures var c := RelayConnection.Run(cfg, RelayConnection.Init(initial), events);
            var c' := RelayConnection.Run(cfg, RelayConnection.Init(initial), events + more);
            && Through(c'.up) && SameSource(c.UpEnds(), c'.UpEnds()) && c'.down == c.down
  {
    var c := RelayConnection.Run(cfg, RelayConnection.Init(initial), events);
    RelayConnection.RunKeeps(cfg, initial, events);
    hide Through, SameSource, NoneLost, Inv, Delivering, RelayConnection.Run, RelayConnection.Init;
    more := UpFromHere(cfg, c);
    RunConcat(cfg, RelayConnection.Init(initial), events, more);
  }

  lemma DeliversDown(cfg: RelayConnection.Config, initial: Option<Bytes>, events: seq<RelayConnection.Event>)
    returns (more: seq<RelayConnection.Event>)
    requires initial != Some([]) && cfg.importCapacity > 0
    requires var c := RelayConnection.Run(cfg, RelayConnection.Init(initial), events);
             c.down.writer.Live? && c.importToken.None? && NoneLost(c.down)
    ensures forall ev :: ev in more ==> ev.Down? && Delivering(ev.step)
    ensures var c := RelayConnection.Run(cfg, RelayConnection.Init(initial), events);
            var c' := RelayConnection.Run(cfg, RelayConnection.Init(initial), events + more);
            && Through(c'.down) && SameSource(c.DownEnds(), c'.DownEnds()) && c'.up == c.up
  {
    var c := RelayConnection.Run(cfg, RelayConnection.Init(initial), events);
    RelayConnection.RunKeeps(cfg, initial, events);
    hide Through, SameSource, NoneLost, Inv, Delivering, RelayConnection.Run, RelayConnection.Init;
    more := DownFromHere(cfg, c);
    RunConcat(cfg, RelayConnection.Init(initial), events, more);
  }

  // --- A whole connection ---

  /** A source that gives these bytes, one read each, and then ends. */
  function Reads(chunks: seq<Bytes>): seq<Step> {
    if chunks == [] then [Read([], true)] else [Read(chunks[0], true)] + Reads(chunks[1..])
  }

  /** The reader gave all of `chunks` and then ended. */
  function AfterReads(e: Ends, chunks: seq<Bytes>): Ends {
    var f := e.flow;
    e.(flow := f.(source := f.source + Flat(chunks), published := f.published + chunks + [[]], reader := Done(Eof)))
  }

  lemma ReadsNothing(e: Ends, capacity: nat)
    requires e.flow.reader.Live?
    ensures Next(e, capacity, Read([], true)) == AfterReads(e, [])
  {
    assert e.flow.published + [] + [[]] == e.flow.published + [[]];
    assert e.flow.source + Flat([]) == e.flow.source + [];
  }

  lemma ReadsFirst(e: Ends, capacity: nat, chunk: Bytes, rest: seq<Bytes>)
    requires e.flow.reader.Live? && chunk != []
    ensures var e' := Next(e, capacity, Read(chunk, true));
            e'.flow.reader.Live? && AfterReads(e', rest) == AfterReads(e, [chunk] + rest)
  {
    var f := e.flow;
    FlatConcat([chunk], rest);
    FlatSnoc([], chunk);
    assert [] + [chunk] == [chunk] && [] + chunk == chunk;
    assert (f.source + chunk) + Flat(rest) == f.source + (chunk + Flat(rest));
    assert (f.published + [chunk]) + rest + [[]] == f.published + ([chunk] + rest) + [[]];
  }

  lemma {:induction false} ReadsAll(e: Ends, capacity: nat, chunks: seq<Bytes>)
    requires e.flow.reader.Live? && [] !in chunks
    ensures NoAborts(Reads(chunks)) && Fold(e, capacity, Reads(chunks)) == AfterReads(e, chunks)
    decreases |chunks|
  {
    hide Next, AfterReads;
    if chunks == [] {
      FoldOne(e, capacity, Read([], true));
      ReadsNothing(e, capacity);
    } else {
      var first := Read(chunks[0], true);
      assert chunks == [chunks[0]] + chunks[1..];
      FoldOne(e, capacity, first);
      FoldConcat(e, capacity, [first], Reads(chunks[1..]));
      ReadsFirst(e, capacity, chunks[0], chunks[1..]);
      ReadsAll(Next(e, capacity, first), capacity, chunks[1..]);
    }
  }

  function Before(initial: Option<Bytes>): Bytes {
    if initial.Some? then initial.value else []
  }

  lemma BothRead(cfg: RelayConnection.Config, initial: Option<Bytes>, ups: seq<Bytes>, downs: seq<Bytes>)
    returns (events: seq<RelayConnection.Event>)
    requires [] !in ups && [] !in downs
    ensures var c0 := RelayConnection.Init(initial);
            RelayConnection.Run(cfg, c0, events) ==
            c0.(up := AfterReads(c0.UpEnds(), ups).flow, down := AfterReads(c0.DownEnds(), downs).flow)
  {
    var c0 := RelayConnection.Init(initial);
    ReadsAll(c0.UpEnds(), cfg.exportCapacity, ups);
    RunsUp(cfg, c0, Reads(ups));
    var c1 := c0.WithUp(AfterReads(c0.UpEnds(), ups));
    ReadsAll(c1.DownEnds(), cfg.importCapacity, downs);
    RunsDown(cfg, c1, Reads(downs));
    events := Ups(Reads(ups)) + Downs(Reads(downs));
    RunConcat(cfg, c0, Ups(Reads(ups)), Downs(Reads(downs)));
  }

  /** Any two byte streams, however they are cut into reads and whatever the queue
      sizes, can be relayed whole: every byte arrives, both ends are passed on, and
      both bridges count the connection as completed. */
  lemma WholeConnection(cfg: RelayConnection.Config, initial: Option<Bytes>, ups: seq<Bytes>, downs: seq<Bytes>)
    returns (events: seq<RelayConnection.Event>)
    requires initial != Some([]) && [] !in ups && [] !in downs
    requires cfg.importCapacity > 0 && cfg.exportCapacity > 0
    ensures var c := RelayConnection.Run(cfg, RelayConnection.Init(initial), events);
            && c.up.written == Before(initial) + Flat(ups) && c.up.fin
            && c.down.written == Flat(downs) && c.down.fin
            && RelayConnection.ImportEnded(c) && RelayConnection.ImportOutcome(c) == RelayConnection.Completed
            && RelayConnection.ExportEnded(c) && RelayConnection.ExportOutcome(c) == RelayConnection.Completed
  {
    var read := BothRead(cfg, initial, ups, downs);
    var c0 := RelayConnection.Run(cfg, RelayConnection.Init(initial), read);
    var up := DeliversUp(cfg, initial, read);
    var c1 := RelayConnection.Run(cfg, RelayConnection.Init(initial), read + up);
    var down := DeliversDown(cfg, initial, read + up);
    events := read + up + down;
    RelayConnection.RunKeeps(cfg, initial, events);
    var c := RelayConnection.Run(cfg, RelayConnection.Init(initial), events);
    AllThrough(cfg, c);
  }

  lemma AllThrough(cfg: RelayConnection.Config, c: RelayConnection.Conn)
    requires RelayConnection.Good(cfg, c) && Through(c.up) && Through(c.down)
    requires c.up.reader == Done(Eof) && c.down.reader == Done(Eof) && c.importToken.None?
    ensures c.up.written == c.up.source && c.up.fin && c.down.written == c.down.source && c.down.fin
    ensures RelayConnection.ImportEnded(c) && RelayConnection.ImportOutcome(c) == RelayConnection.Completed
    ensures RelayConnection.ExportEnded(c) && RelayConnection.ExportOutcome(c) == RelayConnection.Completed
  {
    RelayConnection.FoldIsExact(RelayConnection.Joined(c.down.reader), RelayConnection.Joined(c.up.writer));
    hide Flat, Payloads, QueueInv;
  }

  // --- What brings a connection down ---

  /** The event makes the import side reset: it is told to, a read, a publish or a
      write of its own fails, its channel closes, or a sample for it is missed or
      finds its queue full. */
  predicate TripsImport(cfg: RelayConnection.Config, c: RelayConnection.Conn, ev: RelayConnection.Event) {
    match ev
    case ResetImport => true
    case Up(step) => FailsReader(c.up, step)
    case Down(step) => FailsWriter(c.down, step) || Misses(c.down, cfg.importCapacity, step)
    case _ => false
  }

  predicate TripsExport(cfg: RelayConnection.Config, c: RelayConnection.Conn, ev: RelayConnection.Event) {
    match ev
    case ResetExport => true
    case Up(step) => FailsWriter(c.up, step) || Misses(c.up, cfg.exportCapacity, step)
    case Down(step) => FailsReader(c.down, step)
    case _ => false
  }

  predicate FailsReader(f: Flow, step: Step) {
    f.reader.Live? && (step.ReadFails? || (step.Read? && !step.putOk))
  }

  predicate FailsWriter(f: Flow, step: Step) {
    if step.Write? then f.hand && step.result.WriteFails?
    else step.ChannelCloses? && f.writer.Live? && !f.hand && f.queue == []
  }

  predicate Misses(f: Flow, capacity: nat, step: Step) {
    step.Arrive? && f.arrived < |f.published| && (f.arrived in f.lost || (f.writer.Live? && |f.queue| >= capacity))
  }

  lemma DirectionTrips(e: Ends, capacity: nat, step: Step)
    ensures var n := Next(e, capacity, step);
            && (n.src.Some? <==> e.src.Some? || FailsReader(e.flow, step))
            && (n.dst.Some? <==> e.dst.Some? || FailsWriter(e.flow, step) || Misses(e.flow, capacity, step))
  {
  }

  lemma AdvanceTrips(cfg: RelayConnection.Config, c: RelayConnection.Conn, ev: RelayConnection.Event)
    ensures var c' := RelayConnection.Advance(cfg, c, ev);
            && (c'.importToken.Some? <==> c.importToken.Some? || TripsImport(cfg, c, ev))
            && (c'.exportToken.Some? <==> c.exportToken.Some? || TripsExport(cfg, c, ev))
  {
    match ev
    case Up(step) =>
      DirectionTrips(c.UpEnds(), cfg.exportCapacity, step);
      hide Next;
    case Down(step) =>
      DirectionTrips(c.DownEnds(), cfg.importCapacity, step);
      hide Next;
    case _ =>
  }

  /** Event `k` of the run does so. */
  ghost predicate At(cfg: RelayConnection.Config, initial: Option<Bytes>, events: seq<RelayConnection.Event>, k: nat,
                     does: (RelayConnection.Config, RelayConnection.Conn, RelayConnection.Event) -> bool)
  {
    k < |events| && does(cfg, RelayConnection.Run(cfg, RelayConnection.Init(initial), events[..k]), events[k])
  }

  lemma AtSnoc(cfg: RelayConnection.Config, initial: Option<Bytes>, events: seq<RelayConnection.Event>,
               does: (RelayConnection.Config, RelayConnection.Conn, RelayConnection.Event) -> bool)
    requires events != []
    ensures var last := |events| - 1;
            (exists k :: At(cfg, initial, events, k, does)) <==>
            (exists k :: At(cfg, initial, events[..last], k, does)) || At(cfg, initial, events, last, does)
  {
    var last := |events| - 1;
    forall k: nat | k < last
      ensures At(cfg, initial, events[..last], k, does) <==> At(cfg, initial, events, k, does)
    {
      assert events[..last][..k] == events[..k] && events[..last][k] == events[k];
    }
    if exists k :: At(cfg, initial, events, k, does) {
      var k: nat :| At(cfg, initial, events, k, does);
      assert k < last ==> At(cfg, initial, events[..last], k, does);
    }
    if exists k :: At(cfg, initial, events[..last], k, does) {
      var k: nat :| At(cfg, initial, events[..last], k, does);
      assert At(cfg, initial, events, k, does);
    }
  }

  /** A bridge resets exactly when one of these things has happened to it; an
      import connection then counts as reset. */
  lemma {:induction false} ResetsExactly(cfg: RelayConnection.Config, initial: Option<Bytes>,
                                         events: seq<RelayConnection.Event>)
    ensures var c := RelayConnection.Run(cfg, RelayConnection.Init(initial), events);
            && (c.importToken.Some? <==> exists k :: At(cfg, initial, events, k, TripsImport))
            && (c.exportToken.Some? <==> exists k :: At(cfg, initial, events, k, TripsExport))
            && (RelayConnection.ImportOutcome(c) == RelayConnection.Outcome.Reset <==> c.importToken.Some?)
  {
    if events != [] {
      var last := |events| - 1;
      ResetsExactly(cfg, initial, events[..last]);
      AdvanceTrips(cfg, RelayConnection.Run(cfg, RelayConnection.Init(initial), events[..last]), events[last]);
      AtLast(cfg, initial, events, TripsImport);
      AtLast(cfg, initial, events, TripsExport);
      AtSnoc(cfg, initial, events, TripsImport);
      AtSnoc(cfg, initial, events, TripsExport);
      hide RelayConnection.Advance, TripsImport, TripsExport, RelayConnection.Init, At;
    }
  }

  lemma AtLast(cfg: RelayConnection.Config, initial: Option<Bytes>, events: seq<RelayConnection.Event>,
               does: (RelayConnection.Config, RelayConnection.Conn, RelayConnection.Event) -> bool)
    requires events != []
    ensures var last := |events| - 1;
            At(cfg, initial, events, last, does) <==>
            does(cfg, RelayConnection.Run(cfg, RelayConnection.Init(initial), events[..last]), events[last])
  {
  }

  /** The event ends a task of the export side in an error, or aborts one. */
  predicate FailsExport(cfg: RelayConnection.Config, c: RelayConnection.Conn, ev: RelayConnection.Event) {
    match ev
    case Up(AbortWriter(_)) =>
      c.up.writer.Live? && RelayConnection.Due(c.exportToken, cfg.exportDrain, c.now)
    case Down(AbortReader(_)) =>
      c.down.reader.Live? && RelayConnection.Due(c.exportToken, cfg.exportDrain, c.now)
    case Up(step) => FailsWriter(c.up, step)
    case Down(step) => FailsReader(c.down, step)
    case _ => false
  }

  predicate Bad(t: Task) {
    t == Done(Error) || t == Aborted
  }

  lemma DirectionFails(e: Ends, capacity: nat, step: Step)
    requires Inv(e, capacity)
    ensures var n := Next(e, capacity, step);
            && (Bad(n.flow.reader) <==>
                Bad(e.flow.reader) || FailsReader(e.flow, step) || (step.AbortReader? && e.flow.reader.Live? && e.src.Some?))
            && (Bad(n.flow.writer) <==>
                Bad(e.flow.writer) || FailsWriter(e.flow, step) || (step.AbortWriter? && e.flow.writer.Live? && e.dst.Some?))
  {
    RelayConnection.HandMeansLive(e, capacity);
    hide Inv;
  }

  lemma AdvanceFails(cfg: RelayConnection.Config, c: RelayConnection.Conn, ev: RelayConnection.Event)
    requires RelayConnection.Good(cfg, c)
    ensures var c' := RelayConnection.Advance(cfg, c, ev);
            Bad(c'.down.reader) || Bad(c'.up.writer) <==>
            Bad(c.down.reader) || Bad(c.up.writer) || FailsExport(cfg, c, ev)
  {
    match ev
    case Up(step) =>
      DirectionFails(c.UpEnds(), cfg.exportCapacity, step);
      RelayConnection.NextMonotone(c.UpEnds(), cfg.exportCapacity, step);
      hide Next, Inv;
    case Down(step) =>
      DirectionFails(c.DownEnds(), cfg.importCapacity, step);
      RelayConnection.NextMonotone(c.DownEnds(), cfg.importCapacity, step);
      hide Next, Inv;
    case _ =>
      hide Inv;
  }

  /** An export connection that has ended counts as failed exactly when one of its
      tasks met an error or had to be aborted. */
  lemma {:induction false} FailsExactly(cfg: RelayConnection.Config, initial: Option<Bytes>,
                                        events: seq<RelayConnection.Event>)
    requires initial != Some([])
    ensures var c := RelayConnection.Run(cfg, RelayConnection.Init(initial), events);
            && (Bad(c.down.reader) || Bad(c.up.writer) <==> exists k :: At(cfg, initial, events, k, FailsExport))
            && (RelayConnection.ExportEnded(c) ==>
                (RelayConnection.ExportOutcome(c) == RelayConnection.Failed <==> Bad(c.down.reader) || Bad(c.up.writer)))
  {
    var c := RelayConnection.Run(cfg, RelayConnection.Init(initial), events);
    RelayConnection.FoldIsExact(RelayConnection.Joined(c.down.reader), RelayConnection.Joined(c.up.writer));
    if events != [] {
      var last := |events| - 1;
      FailsExactly(cfg, initial, events[..last]);
      RelayConnection.RunKeeps(cfg, initial, events[..last]);
      AdvanceFails(cfg, RelayConnection.Run(cfg, RelayConnection.Init(initial), events[..last]), events[last]);
      AtLast(cfg, initial, events, FailsExport);
      AtSnoc(cfg, initial, events, FailsExport);
      hide RelayConnection.Advance, FailsExport, RelayConnection.Good, RelayConnection.FoldOutcome, At;
    }
  }
}

/** Both bridges of one connection: outcomes, teardown and whole runs
    (src/import/bridge.rs, src/export/bridge.rs). */
module RelayConnection {
  import opened Streams
  import opened Relay

  /** `up` runs from the client to the backend, `down` back.  The import bridge
      reads `up` and writes `down`; the export bridge writes `up` and reads `down`. */
  datatype Conn = Conn(
    up: Flow, down: Flow,
    importToken: Token, exportToken: Token,
    now: nat)
  {
    function UpEnds(): Ends { Ends(up, importToken, exportToken, now) }

    function DownEnds(): Ends { Ends(down, exportToken, importToken, now) }

    function WithUp(e: Ends): Conn { Conn(e.flow, down, e.src, e.dst, now) }

    function WithDown(e: Ends): Conn { Conn(up, e.flow, e.dst, e.src, now) }
  }

  datatype Config = Config(importCapacity: nat, exportCapacity: nat, importDrain: nat, exportDrain: nat)

  datatype Event =
    | Up(step: Step)
    | Down(step: Step)
    | ResetImport        // shutdown, error signal from the export side
    | ResetExport        // liveliness delete, demotion, drain
    | Tick

  function Init(initial: Option<Bytes>): Conn {
    Conn(Start(initial), Start(None), None, None, 0)
  }

  /** The watchdog of a bridge aborts its tasks once its token has been tripped
      for the drain budget. */
  predicate Due(token: Token, drain: nat, now: nat) {
    token.Some? && now >= token.value + drain
  }

  predicate Allowed(cfg: Config, c: Conn, ev: Event) {
    match ev
    case Up(AbortReader(_)) => Due(c.importToken, cfg.importDrain, c.now)
    case Up(AbortWriter(_)) => Due(c.exportToken, cfg.exportDrain, c.now)
    case Down(AbortReader(_)) => Due(c.exportToken, cfg.exportDrain, c.now)
    case Down(AbortWriter(_)) => Due(c.importToken, cfg.importDrain, c.now)
    case Tick =>
      // A watchdog that is due runs before time goes on.
      && (Due(c.importToken, cfg.importDrain, c.now) ==> ImportEnded(c))
      && (Due(c.exportToken, cfg.exportDrain, c.now) ==> ExportEnded(c))
    case _ => true
  }

  predicate ImportEnded(c: Conn) { !c.up.reader.Live? && !c.down.writer.Live? }

  predicate ExportEnded(c: Conn) { !c.down.reader.Live? && !c.up.writer.Live? }

  function Advance(cfg: Config, c: Conn, ev: Event): Conn {
    if !Allowed(cfg, c, ev) then c
    else match ev
      case Up(step) => c.WithUp(Next(c.UpEnds(), cfg.exportCapacity, step))
      case Down(step) => c.WithDown(Next(c.DownEnds(), cfg.importCapacity, step))
      case ResetImport => c.(importToken := Trip(c.importToken, c.now))
      case ResetExport => c.(exportToken := Trip(c.exportToken, c.now))
      case Tick => c.(now := c.now + 1)
  }

  /** Any interleaving of tasks, bus and environment. */
  function Run(cfg: Config, c: Conn, events: seq<Event>): Conn {
    if events == [] then c
    else Advance(cfg, Run(cfg, c, events[..|events| - 1]), events[|events| - 1])
  }

  // --- Outcomes ---

  datatype Outcome = Completed | Reset | Failed

  function Joined(t: Task): Option<DirectionEnd> {
    if t.Done? then Some(t.end) else None
  }

  /** `None` is a task that did not join. */
  function FoldOutcome(b2z: Option<DirectionEnd>, z2b: Option<DirectionEnd>): Outcome {
    if b2z.None? || b2z == Some(Error) || z2b.None? || z2b == Some(Error) then Failed
    else if b2z == Some(DirectionEnd.Reset) || z2b == Some(DirectionEnd.Reset) then Outcome.Reset
    else Completed
  }

  /** The export bridge folds how its two directions ended. */
  function ExportOutcome(c: Conn): Outcome {
    FoldOutcome(Joined(c.down.reader), Joined(c.up.writer))
  }

  /** The import bridge looks at its token. */
  function ImportOutcome(c: Conn): Outcome {
    if c.importToken.Some? then Outcome.Reset else Completed
  }

  // --- The invariant of every run ---

  ghost predicate Watched(token: Token, drain: nat, now: nat, reader: Task, writer: Task) {
    && (token.Some? ==> token.value <= now)
    && (token.Some? && now > token.value + drain ==> !reader.Live? && !writer.Live?)
    && (reader.Aborted? || writer.Aborted? ==> Due(token, drain, now))
  }

  ghost predicate Good(cfg: Config, c: Conn) {
    && Inv(c.UpEnds(), cfg.exportCapacity)
    && Inv(c.DownEnds(), cfg.importCapacity)
    && Watched(c.importToken, cfg.importDrain, c.now, c.up.reader, c.down.writer)
    && Watched(c.exportToken, cfg.exportDrain, c.now, c.down.reader, c.up.writer)
  }

  /** Tokens stay tripped, ended tasks stay ended, and only an abort aborts. */
  lemma NextMonotone(e: Ends, capacity: nat, step: Step)
    ensures var n := Next(e, capacity, step);
            && (n.src == e.src || (e.src.None? && n.src == Some(e.now)))
            && (n.dst == e.dst || (e.dst.None? && n.dst == Some(e.now)))
            && n.now == e.now
            && (!e.flow.reader.Live? ==> n.flow.reader == e.flow.reader)
            && (!e.flow.writer.Live? ==> n.flow.writer == e.flow.writer || e.flow.hand)
            && (n.flow.reader.Aborted? ==> e.flow.reader.Aborted? || step.AbortReader?)
            && (n.flow.writer.Aborted? ==> e.flow.writer.Aborted? || step.AbortWriter?)
  {
  }

  lemma UpKeeps(cfg: Config, c: Conn, step: Step)
    requires Good(cfg, c) && Allowed(cfg, c, Up(step))
    ensures Good(cfg, Advance(cfg, c, Up(step)))
  {
    hide Inv, Next;
    HandMeansLive(c.UpEnds(), cfg.exportCapacity);
    NextKeeps(c.UpEnds(), cfg.exportCapacity, step);
    NextMonotone(c.UpEnds(), cfg.exportCapacity, step);
    var n := Next(c.UpEnds(), cfg.exportCapacity, step);
    TripKeeps(c.DownEnds(), cfg.importCapacity, n.dst, n.src, c.now);
    assert c.WithUp(n).UpEnds() == n;
  }

  lemma DownKeeps(cfg: Config, c: Conn, step: Step)
    requires Good(cfg, c) && Allowed(cfg, c, Down(step))
    ensures Good(cfg, Advance(cfg, c, Down(step)))
  {
    hide Inv, Next;
    HandMeansLive(c.DownEnds(), cfg.importCapacity);
    NextKeeps(c.DownEnds(), cfg.importCapacity, step);
    NextMonotone(c.DownEnds(), cfg.importCapacity, step);
    var n := Next(c.DownEnds(), cfg.importCapacity, step);
    TripKeeps(c.UpEnds(), cfg.exportCapacity, n.dst, n.src, c.now);
    assert c.WithDown(n).DownEnds() == n;
  }

  lemma AdvanceKeeps(cfg: Config, c: Conn, ev: Event)
    requires Good(cfg, c)
    ensures Good(cfg, Advance(cfg, c, ev))
  {
    hide Inv, Next;
    if Allowed(cfg, c, ev) {
      match ev
      case Up(step) => UpKeeps(cfg, c, step);
      case Down(step) => DownKeeps(cfg, c, step);
      case _ =>
        var n := Advance(cfg, c, ev);
        TripKeeps(c.UpEnds(), cfg.exportCapacity, n.importToken, n.exportToken, n.now);
        TripKeeps(c.DownEnds(), cfg.importCapacity, n.exportToken, n.importToken, n.now);
    }
  }

  lemma HandMeansLive(e: Ends, capacity: nat)
    requires Inv(e, capacity)
    ensures e.flow.hand ==> e.flow.writer.Live?
  {
  }

  lemma {:induction false} RunKeeps(cfg: Config, initial: Option<Bytes>, events: seq<Event>)
    requires initial != Some([])
    ensures Good(cfg, Run(cfg, Init(initial), events))
  {
    if events == [] {
      StartInv(initial, cfg.exportCapacity, 0);
      StartInv(None, cfg.importCapacity, 0);
    } else {
      var before := events[..|events| - 1];
      RunKeeps(cfg, initial, before);
      AdvanceKeeps(cfg, Run(cfg, Init(initial), before), events[|events| - 1]);
    }
  }

  // --- What every run promises ---

  /** Byte-exactness: on each side, as long as its token is untripped, what it
      wrote is a prefix of what the other side read, initial buffer first; and
      samples taken, queued and in flight are the samples published. */
  lemma ByteExact(cfg: Config, initial: Option<Bytes>, events: seq<Event>)
    requires initial != Some([])
    ensures var c := Run(cfg, Init(initial), events);
            && (initial.Some? ==> initial.value <= c.up.source)
            && (c.exportToken.None? ==> c.up.written <= c.up.source && c.up.taken + c.up.queue == Upto(c.up.arrived))
            && (c.importToken.None? ==>
                  c.down.written <= c.down.source && c.down.taken + c.down.queue == Upto(c.down.arrived))
  {
    var c := Run(cfg, Init(initial), events);
    RunKeeps(cfg, initial, events);
    InitialFirst(cfg, initial, events);
    if c.exportToken.None? {
      ExactWhileUntripped(c.UpEnds(), cfg.exportCapacity);
    }
    if c.importToken.None? {
      ExactWhileUntripped(c.DownEnds(), cfg.importCapacity);
    }
  }

  lemma {:induction false} InitialFirst(cfg: Config, initial: Option<Bytes>, events: seq<Event>)
    ensures initial.Some? ==> initial.value <= Run(cfg, Init(initial), events).up.source
  {
    if events != [] {
      var before := events[..|events| - 1];
      InitialFirst(cfg, initial, before);
      SourceGrows(cfg, Run(cfg, Init(initial), before), events[|events| - 1]);
    }
  }

  lemma SourceGrows(cfg: Config, c: Conn, ev: Event)
    ensures c.up.source <= Advance(cfg, c, ev).up.source
  {
  }

  /** A half-close passed on under an untripped token is a true one. */
  ghost predicate TrueFin(c: Conn) {
    && (c.up.fin && c.exportToken.None? ==> c.up.reader == Done(Eof) && c.up.written == c.up.source)
    && (c.down.fin && c.importToken.None? ==> c.down.reader == Done(Eof) && c.down.written == c.down.source)
  }

  lemma CleanFin(cfg: Config, initial: Option<Bytes>, events: seq<Event>)
    requires initial != Some([])
    ensures TrueFin(Run(cfg, Init(initial), events))
  {
    var c := Run(cfg, Init(initial), events);
    RunKeeps(cfg, initial, events);
    if c.up.fin && c.exportToken.None? {
      FinIsComplete(c.UpEnds(), cfg.exportCapacity);
    }
    if c.down.fin && c.importToken.None? {
      FinIsComplete(c.DownEnds(), cfg.importCapacity);
    }
  }

  /** An empty initial buffer would pass for the EOF marker: half-closes are true
      in every run exactly when there is no such buffer. */
  lemma CleanFinExact(cfg: Config, initial: Option<Bytes>)
    requires cfg.exportCapacity > 0
    ensures (forall events :: TrueFin(Run(cfg, Init(initial), events))) <==> initial != Some([])
  {
    if initial == Some([]) {
      var events := [Up(Arrive), Up(Take), Up(Write(WriteOk))];
      RunThree(cfg, Init(initial), events);
      var c := Run(cfg, Init(initial), events);
      assert c.up.fin && c.up.reader.Live?;
    } else {
      forall events ensures TrueFin(Run(cfg, Init(initial), events)) {
        CleanFin(cfg, initial, events);
      }
    }
  }

  lemma RunThree(cfg: Config, c: Conn, events: seq<Event>)
    requires |events| == 3
    ensures Run(cfg, c, events) == Advance(cfg, Advance(cfg, Advance(cfg, c, events[0]), events[1]), events[2])
  {
    RunSnoc(cfg, c, [], events[0]);
    RunSnoc(cfg, c, [events[0]], events[1]);
    RunSnoc(cfg, c, [events[0], events[1]], events[2]);
    assert [] + [events[0]] == [events[0]] && [events[0]] + [events[1]] == [events[0], events[1]];
    assert [events[0], events[1]] + [events[2]] == events;
  }

  lemma RunSnoc(cfg: Config, c: Conn, events: seq<Event>, ev: Event)
    ensures Run(cfg, c, events + [ev]) == Advance(cfg, Run(cfg, c, events), ev)
  {
    assert (events + [ev])[..|events|] == events;
  }

  /** An import connection reported as completed: both directions ended on a
      clean end of stream, every byte of the backend's stream reached the client,
      and nothing was dropped, missed or left unpublished. */
  lemma ImportCompleted(cfg: Config, initial: Option<Bytes>, events: seq<Event>)
    requires initial != Some([])
    ensures var c := Run(cfg, Init(initial), events);
            ImportEnded(c) && ImportOutcome(c) == Completed ==>
              && c.up.reader == Done(Eof) && Flat(c.up.published) == c.up.source
              && c.down.writer == Done(Eof) && c.down.reader == Done(Eof)
              && c.down.written == c.down.source && c.down.dropped == {}
  {
    var c := Run(cfg, Init(initial), events);
    RunKeeps(cfg, initial, events);
    if ImportEnded(c) && c.importToken.None? {
      FinIsComplete(c.DownEnds(), cfg.importCapacity);
    }
  }

  lemma FoldIsExact(b2z: Option<DirectionEnd>, z2b: Option<DirectionEnd>)
    ensures FoldOutcome(b2z, z2b) == Completed <==> b2z == Some(Eof) && z2b == Some(Eof)
    ensures FoldOutcome(b2z, z2b) == Failed <==> !(b2z.Some? && b2z != Some(Error) && z2b.Some? && z2b != Some(Error))
  {
    assert b2z.Some? ==> b2z.value.Eof? || b2z.value.Reset? || b2z.value.Error?;
    assert z2b.Some? ==> z2b.value.Eof? || z2b.value.Reset? || z2b.value.Error?;
  }

  /** An export connection reported as completed: exactly when nothing was
      dropped did the backend get the client's whole stream.  An untripped token
      is enough for that. */
  lemma ExportCompleted(cfg: Config, initial: Option<Bytes>, events: seq<Event>)
    requires initial != Some([])
    ensures var c := Run(cfg, Init(initial), events);
            ExportOutcome(c) == Completed ==>
              && c.down.reader == Done(Eof) && Flat(c.down.published) == c.down.source
              && c.up.fin && c.up.reader == Done(Eof)
              && (c.up.written == c.up.source <==> c.up.dropped == {})
              && (c.exportToken.None? ==> c.up.dropped == {})
  {
    var c := Run(cfg, Init(initial), events);
    RunKeeps(cfg, initial, events);
    FoldIsExact(Joined(c.down.reader), Joined(c.up.writer));
    if ExportOutcome(c) == Completed {
      FinSeesEverything(c.UpEnds(), cfg.exportCapacity);
    }
  }

  /** Once the marker was taken, the bytes written are all bytes read exactly
      when no sample was dropped. */
  lemma FinSeesEverything(e: Ends, capacity: nat)
    requires Inv(e, capacity) && e.flow.fin
    ensures e.flow.reader == Done(Eof)
    ensures e.flow.written == e.flow.source <==> e.flow.dropped == {}
  {
    var f := e.flow;
    if f.dropped == {} {
      FinIsComplete(e, capacity);
    } else {
      var last := |f.taken| - 1;
      MarkerTakenLast(e, capacity);
      hide QueueInv, Increasing;
      assert f.published == f.published[..|f.published| - 1] + [[]];
      FlatSnoc(f.published[..|f.published| - 1], []);
      MissingBytes(f.published, f.taken[..last], |f.published| - 1);
      PayloadsSnoc(f.published, f.taken[..last], f.taken[last]);
      assert f.taken[..last] + [f.taken[last]] == f.taken;
    }
  }

  lemma MarkerTakenLast(e: Ends, capacity: nat)
    requires Inv(e, capacity) && e.flow.fin && e.flow.dropped != {}
    ensures var f := e.flow; var last := |f.taken| - 1;
            && last >= 0 && |f.published| > 0 && f.taken[last] == |f.published| - 1
            && Increasing(f.taken[..last]) && Within(f.taken[..last], |f.published| - 1)
            && last < |f.published| - 1
  {
    var f := e.flow;
    var last := |f.taken| - 1;
    var all := f.taken + f.queue;
    assert forall k :: 0 <= k <= last ==> all[k] == f.taken[k];
    assert f.taken[last] == |f.published| - 1;
  }

  /** Leaving out a non-empty sample leaves out bytes. */
  lemma {:induction false} MissingBytes(published: seq<Bytes>, indices: seq<nat>, n: nat)
    requires n <= |published| && Increasing(indices) && Within(indices, n) && Within(indices, |published|)
    requires forall i :: 0 <= i < n ==> published[i] != []
    ensures |indices| <= n
    ensures |Payloads(published, indices)| <= |Flat(published[..n])|
    ensures |indices| < n ==> |Payloads(published, indices)| < |Flat(published[..n])|
  {
    if n > 0 {
      assert published[..n] == published[..n - 1] + [published[n - 1]];
      FlatSnoc(published[..n - 1], published[n - 1]);
      if indices != [] && indices[|indices| - 1] == n - 1 {
        MissingBytes(published, indices[..|indices| - 1], n - 1);
      } else {
        MissingBytes(published, indices, n - 1);
      }
    }
  }

  /** How a connection comes down: a direction that fails trips its bridge's
      token, a tripped token ends both tasks of the bridge within its drain
      budget, and a bridge whose token is untripped has no task reset or aborted,
      however long it stays half-open. */
  lemma Teardown(cfg: Config, initial: Option<Bytes>, events: seq<Event>)
    requires initial != Some([])
    ensures var c := Run(cfg, Init(initial), events);
            && TornDown(c.importToken, cfg.importDrain, c.now, c.up.reader, c.down.writer)
            && TornDown(c.exportToken, cfg.exportDrain, c.now, c.down.reader, c.up.writer)
  {
    RunKeeps(cfg, initial, events);
  }

  ghost predicate TornDown(token: Token, drain: nat, now: nat, reader: Task, writer: Task) {
    && (reader == Done(Error) || writer == Done(Error) ==> token.Some?)
    && (token.Some? && now > token.value + drain ==> !reader.Live? && !writer.Live?)
    && (token.None? ==> (reader.Live? || reader == Done(Eof)) && (writer.Live? || writer == Done(Eof)))
    && (reader.Aborted? || writer.Aborted? ==> token.Some? && now >= token.value + drain)
  }

  predicate IsAbort(ev: Event) {
    (ev.Up? || ev.Down?) && (ev.step.AbortReader? || ev.step.AbortWriter?)
  }

  lemma ImportAborts(cfg: Config, c: Conn)
    ensures var c' := Advance(cfg, Advance(cfg, c, Up(AbortReader([]))), Down(AbortWriter(0)));
            && c'.importToken == c.importToken && c'.exportToken == c.exportToken && c'.now == c.now
            && (Due(c.importToken, cfg.importDrain, c.now) ==> ImportEnded(c'))
            && c'.up.writer == c.up.writer && c'.down.reader == c.down.reader
  {
  }

  lemma ExportAborts(cfg: Config, c: Conn)
    ensures var c' := Advance(cfg, Advance(cfg, c, Down(AbortReader([]))), Up(AbortWriter(0)));
            && c'.importToken == c.importToken && c'.exportToken == c.exportToken && c'.now == c.now
            && (Due(c.exportToken, cfg.exportDrain, c.now) ==> ExportEnded(c'))
            && c'.down.writer == c.down.writer && c'.up.reader == c.up.reader
  {
  }

  /** A watchdog that is due ends both tasks of its bridge by its two aborts, so
      no tripped token ever stops time. */
  lemma TimeGoesOn(cfg: Config, c: Conn) returns (more: seq<Event>)
    ensures |more| == 4 && forall ev :: ev in more ==> IsAbort(ev)
    ensures var c' := Run(cfg, c, more);
            && (Due(c.importToken, cfg.importDrain, c.now) ==> ImportEnded(c'))
            && (Due(c.exportToken, cfg.exportDrain, c.now) ==> ExportEnded(c'))
            && c'.importToken == c.importToken && c'.exportToken == c.exportToken
            && Advance(cfg, c', Tick).now == c.now + 1
  {
    more := [Up(AbortReader([])), Down(AbortWriter(0)), Down(AbortReader([])), Up(AbortWriter(0))];
    RunThree(cfg, c, more[..3]);
    RunSnoc(cfg, c, more[..3], more[3]);
    assert more[..3] + [more[3]] == more;
    ImportAborts(cfg, c);
    ExportAborts(cfg, Advance(cfg, Advance(cfg, c, more[0]), more[1]));
    hide Run, Next;
    assert Advance(cfg, Run(cfg, c, more), Tick).now == c.now + 1;
  }

  // --- After the token is tripped ---

  lemma {:induction false} RunPlaced(cfg: Config, initial: Option<Bytes>, events: seq<Event>)
    requires initial != Some([])
    ensures var c := Run(cfg, Init(initial), events);
            Placed(c.up) && Placed(c.down)
  {
    if events != [] {
      var before, ev := events[..|events| - 1], events[|events| - 1];
      var c := Run(cfg, Init(initial), before);
      RunPlaced(cfg, initial, before);
      RunKeeps(cfg, initial, before);
      hide Inv, Next, Placed;
      match ev
      case Up(step) => PlacedNext(c.UpEnds(), cfg.exportCapacity, step);
      case Down(step) => PlacedNext(c.DownEnds(), cfg.importCapacity, step);
      case _ =>
    }
  }

  /** Exactly when a writer's samples are the first ones published, token tripped
      or not: when it took none past a dropped one.  Then what it wrote is a
      prefix of what the other side read. */
  lemma PrefixExact(cfg: Config, initial: Option<Bytes>, events: seq<Event>)
    requires initial != Some([])
    ensures var c := Run(cfg, Init(initial), events);
            && (InOrder(c.up) <==> NoGap(c.up)) && (NoGap(c.up) ==> c.up.written <= c.up.source)
            && (InOrder(c.down) <==> NoGap(c.down)) && (NoGap(c.down) ==> c.down.written <= c.down.source)
  {
    var c := Run(cfg, Init(initial), events);
    RunKeeps(cfg, initial, events);
    RunPlaced(cfg, initial, events);
    InOrderExact(c.UpEnds(), cfg.exportCapacity);
    InOrderExact(c.DownEnds(), cfg.importCapacity);
    hide Inv, NoGap, Placed;
    if InOrder(c.up) {
      WrittenIsPrefix(c.UpEnds(), cfg.exportCapacity);
    }
    if InOrder(c.down) {
      WrittenIsPrefix(c.DownEnds(), cfg.importCapacity);
    }
  }

  /** When a FIN the peer sees, whatever ended the writer, follows the whole
      stream. */
  lemma FinIsWhole(cfg: Config, initial: Option<Bytes>, events: seq<Event>)
    requires initial != Some([])
    ensures var c := Run(cfg, Init(initial), events);
            && (FinOnWire(c.up) ==> (c.up.written == c.up.source <==> TookEverything(c.up) && WroteTaken(c.up)))
            && (FinOnWire(c.down) ==>
                  (c.down.written == c.down.source <==> TookEverything(c.down) && WroteTaken(c.down)))
            && (c.up.fin || c.up.writer == Done(DirectionEnd.Reset) ==> FinOnWire(c.up) && WroteTaken(c.up))
            && (c.down.fin || c.down.writer == Done(DirectionEnd.Reset) ==> FinOnWire(c.down) && WroteTaken(c.down))
  {
    var c := Run(cfg, Init(initial), events);
    RunKeeps(cfg, initial, events);
    FinMeansEnded(c.UpEnds(), cfg.exportCapacity);
    FinMeansEnded(c.DownEnds(), cfg.importCapacity);
    hide Inv, TookEverything, WroteTaken;
    if FinOnWire(c.up) {
      FinOnWireExact(c.UpEnds(), cfg.exportCapacity);
    }
    if FinOnWire(c.down) {
      FinOnWireExact(c.DownEnds(), cfg.importCapacity);
    }
  }

  lemma FinMeansEnded(e: Ends, capacity: nat)
    requires Inv(e, capacity)
    ensures e.flow.fin ==> FinOnWire(e.flow)
  {
  }

  /** A reset before the first sample arrived: the backend sees a FIN and none
      of the bytes read. */
  lemma ResetLooksClean(cfg: Config, a: Byte)
    ensures exists events :: var s := Run(cfg, Init(None), events);
              FinOnWire(s.up) && s.up.source == [a] && s.up.written == []
  {
    var events := [Up(Read([a], true)), ResetExport, Up(WriterCancelled)];
    RunThree(cfg, Init(None), events);
    assert FinOnWire(Run(cfg, Init(None), events).up);
  }

  /** Runs in which no writer takes a sample once its token is tripped: what a
      select that prefers the cancellation arm would give. */
  ghost predicate PrefersCancel(cfg: Config, c: Conn, events: seq<Event>) {
    events != [] ==>
      var before, ev := events[..|events| - 1], events[|events| - 1];
      && PrefersCancel(cfg, c, before)
      && (ev == Up(Take) ==> Run(cfg, c, before).exportToken.None?)
      && (ev == Down(Take) ==> Run(cfg, c, before).importToken.None?)
  }

  /** In such runs what is written stays a prefix of what was read, even after a
      reset. */
  lemma PrefixIfCancelFirst(cfg: Config, initial: Option<Bytes>, events: seq<Event>)
    requires initial != Some([]) && PrefersCancel(cfg, Init(initial), events)
    ensures var c := Run(cfg, Init(initial), events);
            c.up.written <= c.up.source && c.down.written <= c.down.source
  {
    var c := Run(cfg, Init(initial), events);
    RunKeeps(cfg, initial, events);
    StaysInOrder(cfg, initial, events);
    WrittenIsPrefix(c.UpEnds(), cfg.exportCapacity);
    WrittenIsPrefix(c.DownEnds(), cfg.importCapacity);
  }

  lemma WrittenIsPrefix(e: Ends, capacity: nat)
    requires Inv(e, capacity) && InOrder(e.flow)
    ensures e.flow.written <= e.flow.source
  {
    var f := e.flow;
    PayloadsUpto(f.published, |f.taken|);
    FlatPrefix(f.published[..|f.taken|], f.published);
  }

  lemma {:induction false} StaysInOrder(cfg: Config, initial: Option<Bytes>, events: seq<Event>)
    requires initial != Some([]) && PrefersCancel(cfg, Init(initial), events)
    ensures var c := Run(cfg, Init(initial), events);
            InOrder(c.up) && InOrder(c.down)
  {
    if events != [] {
      var before, ev := events[..|events| - 1], events[|events| - 1];
      var c := Run(cfg, Init(initial), before);
      StaysInOrder(cfg, initial, before);
      RunKeeps(cfg, initial, before);
      match ev
      case Up(step) => TakenOnlyByTake(c.UpEnds(), cfg.exportCapacity, step);
      case Down(step) => TakenOnlyByTake(c.DownEnds(), cfg.importCapacity, step);
      case _ =>
    }
  }

  lemma TakenOnlyByTake(e: Ends, capacity: nat, step: Step)
    requires Inv(e, capacity) && InOrder(e.flow) && (step == Take ==> e.dst.None?)
    ensures InOrder(Next(e, capacity, step).flow)
  {
    var f := e.flow;
    if step == Take && f.writer.Live? && !f.hand && f.queue != [] {
      assert (f.taken + f.queue)[|f.taken|] == f.queue[0];
      assert f.taken + [f.queue[0]] == Upto(|f.taken| + 1);
    }
  }

  lemma Then(cfg: Config, start: Conn, events: seq<Event>, c: Conn, ev: Event) returns (more: seq<Event>, next: Conn)
    requires Run(cfg, start, events) == c
    ensures more == events + [ev] && next == Advance(cfg, c, ev) && Run(cfg, start, more) == next
  {
    more, next := events + [ev], Advance(cfg, c, ev);
    RunSnoc(cfg, start, events, ev);
  }

  /** Three samples published on a fresh connection. */
  lemma PublishThree(cfg: Config, p: Bytes, q: Bytes, r: Bytes) returns (events: seq<Event>, s: Conn)
    requires p != [] && q != []
    ensures s == Run(cfg, Init(None), events)
    ensures s == Init(None).(up := Flow(p + q + r, [p, q, r], if r == [] then Done(Eof) else Live,
                                        0, {}, [], [], {}, false, [], false, Live))
  {
    events, s := Then(cfg, Init(None), [], Init(None), Up(Read(p, true)));
    events, s := Then(cfg, Init(None), events, s, Up(Read(q, true)));
    events, s := Then(cfg, Init(None), events, s, Up(Read(r, true)));
    assert [] + p == p;
  }

  /** With room for one sample the second overflows and trips the token. */
  lemma OverflowSecond(cfg: Config, p: Bytes, q: Bytes, r: Bytes) returns (events: seq<Event>, s: Conn)
    requires p != [] && q != [] && cfg.exportCapacity == 1
    ensures s == Run(cfg, Init(None), events)
    ensures s == Init(None).(exportToken := Some(0),
                             up := Flow(p + q + r, [p, q, r], if r == [] then Done(Eof) else Live,
                                        2, {}, [], [0], {1}, false, p, false, Live))
  {
    events, s := PublishThree(cfg, p, q, r);
    events, s := Then(cfg, Init(None), events, s, Up(Arrive));
    events, s := Then(cfg, Init(None), events, s, Up(Arrive));
    assert s.up.queue == [0] && s.up.dropped == {1};
    events, s := Then(cfg, Init(None), events, s, Up(Take));
    events, s := Then(cfg, Init(None), events, s, Up(Write(WriteOk)));
    assert [] + p == p && s.up.taken == [0];
  }

  /** The third sample still gets through. */
  lemma ThirdGetsThrough(cfg: Config, p: Bytes, q: Bytes, r: Bytes) returns (events: seq<Event>, s: Conn)
    requires p != [] && q != [] && cfg.exportCapacity == 1
    ensures s == Run(cfg, Init(None), events)
    ensures s.exportToken.Some? && s.down == Start(None) && s.up.source == p + q + r && s.up.written == p + r
    ensures r == [] ==> s.up.fin && s.up.writer == Done(Eof)
  {
    events, s := OverflowSecond(cfg, p, q, r);
    events, s := Then(cfg, Init(None), events, s, Up(Arrive));
    events, s := Then(cfg, Init(None), events, s, Up(Take));
    assert s.up.taken == [0, 2] && InHand(s.up) == r;
    events, s := Then(cfg, Init(None), events, s, Up(Write(WriteOk)));
    assert p + [] == p;
  }

  /** The select is not biased: after an overflow tripped the token, the writer
      may still take a sample queued past the gap.  With a one-sample queue and
      bytes a, b, c the backend can be sent a, c. */
  lemma GapCanReachTheBackend(cfg: Config, a: Byte, b: Byte, c: Byte)
    requires cfg.exportCapacity == 1
    ensures exists events :: var s := Run(cfg, Init(None), events);
              s.exportToken.Some? && s.up.source == [a, b, c] && s.up.written == [a, c]
  {
    var events, s := ThirdGetsThrough(cfg, [a], [b], [c]);
    assert [a] + [b] + [c] == [a, b, c] && [a] + [c] == [a, c];
  }

  /** And an export connection can be reported as completed although its backend
      was handed a truncated stream with a clean end: the fold of the two
      directions' ends does not look at the token. */
  lemma TruncatedYetCompleted(cfg: Config, a: Byte, b: Byte)
    requires cfg.exportCapacity == 1
    ensures exists events :: var s := Run(cfg, Init(None), events);
              && ExportOutcome(s) == Completed && s.exportToken.Some?
              && s.up.fin && s.up.source == [a, b] && s.up.written == [a]
  {
    var events, s := ThirdGetsThrough(cfg, [a], [b], []);
    events, s := Then(cfg, Init(None), events, s, Down(Read([], true)));
    FoldIsExact(Some(Eof), Some(Eof));
    assert [a] + [b] + [] == [a, b] && [a] + [] == [a];
    assert Run(cfg, Init(None), events) == s && ExportOutcome(s) == Completed;
  }
}

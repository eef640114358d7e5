/** A relayed connection together with its error signal: which broken connections
    the client is told of (src/export/bridge.rs, src/import/bridge.rs,
    src/zenoh_util.rs). */
module Notification {
  import opened Streams
  import Relay
  import RelayConnection
  import ErrorSignal

  datatype System = System(conn: RelayConnection.Conn, signal: ErrorSignal.System)

  datatype Step = Bridges(event: RelayConnection.Event) | Signal(step: ErrorSignal.Step)

  function Begin(initial: Option<Bytes>): System {
    System(RelayConnection.Init(initial), ErrorSignal.Start())
  }

  /** What the export side signals: an end that is not a completion. */
  predicate Broken(c: RelayConnection.Conn) {
    RelayConnection.ExportEnded(c) && RelayConnection.ExportOutcome(c) != RelayConnection.Completed
  }

  /** Bytes are relayed once the client's token is declared.  The import side
      drops its error subscriber when both its directions have ended; time passes
      for both parts at once. */
  predicate Allowed(cfg: RelayConnection.Config, s: System, step: Step) {
    match step
    case Bridges(ev) =>
      && s.signal.declared
      && (ev.Tick? ==> RelayConnection.Allowed(cfg, s.conn, ev) && !ErrorSignal.CapDue(s.signal))
    case Signal(PutSignal) => Broken(s.conn)
    case Signal(ImportDropsSubscriber) => RelayConnection.ImportEnded(s.conn)
    case Signal(Tick) => false
    case _ => true
  }

  function Next(cfg: RelayConnection.Config, s: System, step: Step): System {
    if !Allowed(cfg, s, step) then s
    else match step
      case Bridges(ev) =>
        System(RelayConnection.Advance(cfg, s.conn, ev),
               if ev.Tick? then ErrorSignal.Next(s.signal, ErrorSignal.Tick) else s.signal)
      case Signal(st) =>
        // A signal that is received resets the connection.
        var received := st.ImportRecovers? && s.signal.subscribed && ErrorSignal.Cached(s.signal);
        System(if received then RelayConnection.Advance(cfg, s.conn, RelayConnection.ResetImport) else s.conn,
               ErrorSignal.Next(s.signal, st))
  }

  function Run(cfg: RelayConnection.Config, s: System, steps: seq<Step>): System {
    if steps == [] then s else Next(cfg, Run(cfg, s, steps[..|steps| - 1]), steps[|steps| - 1])
  }

  lemma RunSnoc(cfg: RelayConnection.Config, s: System, steps: seq<Step>, step: Step)
    ensures Run(cfg, s, steps + [step]) == Next(cfg, Run(cfg, s, steps), step)
  {
    assert (steps + [step])[..|steps|] == steps;
  }

  lemma {:induction false} RunConcat(cfg: RelayConnection.Config, s: System, a: seq<Step>, b: seq<Step>)
    ensures Run(cfg, s, a + b) == Run(cfg, Run(cfg, s, a), b)
  {
    hide Next;
    if b == [] {
      assert a + b == a;
    } else {
      assert (a + b)[..|a + b| - 1] == a + b[..|b| - 1];
      RunConcat(cfg, s, a, b[..|b| - 1]);
    }
  }

  // --- Both parts run as they do alone ---

  /** A run of the whole is a run of each part, so what holds of their runs holds
      here. */
  lemma {:induction false} Projects(cfg: RelayConnection.Config, initial: Option<Bytes>, steps: seq<Step>)
    returns (events: seq<RelayConnection.Event>, signals: seq<ErrorSignal.Step>)
    ensures var s := Run(cfg, Begin(initial), steps);
            && s.conn == RelayConnection.Run(cfg, RelayConnection.Init(initial), events)
            && s.signal == ErrorSignal.Run(ErrorSignal.Start(), signals)
    ensures forall st :: st in signals ==> st.Tick? || Signal(st) in steps
  {
    events, signals := [], [];
    if steps != [] {
      var before, step := steps[..|steps| - 1], steps[|steps| - 1];
      events, signals := Projects(cfg, initial, before);
      assert step in steps && forall x :: x in before ==> x in steps;
      var s := Run(cfg, Begin(initial), before);
      hide RelayConnection.Advance, ErrorSignal.Next, RelayConnection.Allowed;
      if Allowed(cfg, s, step) {
        match step
        case Bridges(ev) =>
          RelayConnection.RunSnoc(cfg, RelayConnection.Init(initial), events, ev);
          events := events + [ev];
          if ev.Tick? {
            SignalSnoc(signals, ErrorSignal.Tick);
            signals := signals + [ErrorSignal.Tick];
          }
        case Signal(st) =>
          if st.ImportRecovers? && s.signal.subscribed && ErrorSignal.Cached(s.signal) {
            RelayConnection.RunSnoc(cfg, RelayConnection.Init(initial), events, RelayConnection.ResetImport);
            events := events + [RelayConnection.ResetImport];
          }
          SignalSnoc(signals, st);
          signals := signals + [st];
      }
    }
  }

  lemma SignalSnoc(signals: seq<ErrorSignal.Step>, step: ErrorSignal.Step)
    ensures ErrorSignal.Run(ErrorSignal.Start(), signals + [step]) ==
            ErrorSignal.Next(ErrorSignal.Run(ErrorSignal.Start(), signals), step)
  {
    assert (signals + [step])[..|signals|] == signals;
  }

  lemma ConnGood(cfg: RelayConnection.Config, initial: Option<Bytes>, steps: seq<Step>)
    requires initial != Some([])
    ensures RelayConnection.Good(cfg, Run(cfg, Begin(initial), steps).conn)
  {
    var events, _ := Projects(cfg, initial, steps);
    RelayConnection.RunKeeps(cfg, initial, events);
  }

  // --- What is kept ---

  predicate Unborn(g: ErrorSignal.System) {
    !g.alive && !g.closing && g.stage == ErrorSignal.Unpublished
  }

  ghost predicate Inv(initial: Option<Bytes>, s: System) {
    && (s.signal.stage != ErrorSignal.Unpublished ==> Broken(s.conn))
    && (s.signal.closing && s.signal.alive ==> RelayConnection.ImportEnded(s.conn))
    && (!s.signal.declared ==> s.conn == RelayConnection.Init(initial) && Unborn(s.signal))
  }

  /** What is over stays over, with the same outcome. */
  ghost predicate Settles(c: RelayConnection.Conn, c': RelayConnection.Conn) {
    && (RelayConnection.ImportEnded(c) ==> RelayConnection.ImportEnded(c'))
    && (RelayConnection.ExportEnded(c) ==>
          RelayConnection.ExportEnded(c') && RelayConnection.ExportOutcome(c') == RelayConnection.ExportOutcome(c))
  }

  lemma StepSettles(cfg: RelayConnection.Config, c: RelayConnection.Conn, ev: RelayConnection.Event)
    requires RelayConnection.Good(cfg, c)
    ensures Settles(c, RelayConnection.Advance(cfg, c, ev))
  {
    hide Relay.Inv, Relay.Next;
    RelayConnection.HandMeansLive(c.UpEnds(), cfg.exportCapacity);
    RelayConnection.HandMeansLive(c.DownEnds(), cfg.importCapacity);
    match ev
    case Up(step) => RelayConnection.NextMonotone(c.UpEnds(), cfg.exportCapacity, step);
    case Down(step) => RelayConnection.NextMonotone(c.DownEnds(), cfg.importCapacity, step);
    case _ =>
  }

  lemma NextSettles(cfg: RelayConnection.Config, s: System, step: Step)
    requires RelayConnection.Good(cfg, s.conn)
    ensures Settles(s.conn, Next(cfg, s, step).conn)
  {
    match step
    case Bridges(ev) => StepSettles(cfg, s.conn, ev);
    case Signal(_) => StepSettles(cfg, s.conn, RelayConnection.ResetImport);
  }

  /** Only its own step publishes the signal. */
  lemma StageMoves(g: ErrorSignal.System, step: ErrorSignal.Step)
    ensures var g' := ErrorSignal.Next(g, step);
            g'.stage != ErrorSignal.Unpublished ==> g.stage != ErrorSignal.Unpublished || step.PutSignal?
  {
    match step
    case TokenWithdrawn =>
    case HolderReceives =>
    case CapFires =>
    case _ =>
  }

  /** And only theirs close the import side or declare its token. */
  lemma ImportMoves(g: ErrorSignal.System, step: ErrorSignal.Step)
    ensures var g' := ErrorSignal.Next(g, step);
            && (g'.closing && g'.alive ==> g.closing || step.ImportDropsSubscriber?)
            && (g'.alive && !g.alive ==> !g.declared)
            && (!g'.declared ==> !g.declared && (Unborn(g) ==> Unborn(g')))
  {
  }

  lemma TickMoves(g: ErrorSignal.System)
    ensures var g' := ErrorSignal.Next(g, ErrorSignal.Tick); g' == g.(now := g'.now)
  {
  }

  lemma SignalKeeps(cfg: RelayConnection.Config, initial: Option<Bytes>, s: System, st: ErrorSignal.Step)
    requires RelayConnection.Good(cfg, s.conn) && Inv(initial, s)
    ensures Inv(initial, Next(cfg, s, Signal(st)))
  {
    NextSettles(cfg, s, Signal(st));
    StageMoves(s.signal, st);
    ImportMoves(s.signal, st);
    hide RelayConnection.Good, RelayConnection.ImportEnded, RelayConnection.ExportEnded, RelayConnection.ExportOutcome,
      RelayConnection.Advance, RelayConnection.Init, ErrorSignal.Next;
  }

  lemma NextKeeps(cfg: RelayConnection.Config, initial: Option<Bytes>, s: System, step: Step)
    requires RelayConnection.Good(cfg, s.conn) && Inv(initial, s)
    ensures Inv(initial, Next(cfg, s, step))
  {
    NextSettles(cfg, s, step);
    TickMoves(s.signal);
    hide RelayConnection.Good, RelayConnection.ImportEnded, RelayConnection.ExportEnded, RelayConnection.ExportOutcome,
      RelayConnection.Advance, RelayConnection.Init, ErrorSignal.Next, ErrorSignal.CapDue, RelayConnection.Allowed;
    match step
    case Bridges(_) =>
    case Signal(st) => SignalKeeps(cfg, initial, s, st);
  }

  lemma {:induction false} RunKeeps(cfg: RelayConnection.Config, initial: Option<Bytes>, steps: seq<Step>)
    requires initial != Some([])
    ensures Inv(initial, Run(cfg, Begin(initial), steps))
  {
    if steps != [] {
      RunKeeps(cfg, initial, steps[..|steps| - 1]);
      ConnGood(cfg, initial, steps[..|steps| - 1]);
      NextKeeps(cfg, initial, Run(cfg, Begin(initial), steps[..|steps| - 1]), steps[|steps| - 1]);
    }
  }

  lemma {:induction false} RunSettles(cfg: RelayConnection.Config, initial: Option<Bytes>, steps: seq<Step>, more: seq<Step>)
    requires initial != Some([])
    ensures Settles(Run(cfg, Begin(initial), steps).conn, Run(cfg, Begin(initial), steps + more).conn)
  {
    if more == [] {
      assert steps + more == steps;
    } else {
      var before := more[..|more| - 1];
      assert (steps + more)[..|steps + more| - 1] == steps + before;
      RunSettles(cfg, initial, steps, before);
      ConnGood(cfg, initial, steps + before);
      NextSettles(cfg, Run(cfg, Begin(initial), steps + before), more[|more| - 1]);
    }
  }

  // --- Which connections are signalled ---

  /** However the run goes on, no signal is published. */
  ghost predicate NeverSignalled(cfg: RelayConnection.Config, s: System) {
    forall more :: Run(cfg, s, more).signal.stage == ErrorSignal.Unpublished
  }

  /** The backend did not get all that was read from the client. */
  predicate Truncated(c: RelayConnection.Conn) {
    c.up.written != c.up.source
  }

  /** An export connection that has ended is never signalled exactly when it
      counts as completed. */
  lemma QuietExactly(cfg: RelayConnection.Config, initial: Option<Bytes>, steps: seq<Step>)
    requires initial != Some([])
    ensures var s := Run(cfg, Begin(initial), steps);
            RelayConnection.ExportEnded(s.conn) ==> (NeverSignalled(cfg, s) <==> !Broken(s.conn))
  {
    var s := Run(cfg, Begin(initial), steps);
    RunKeeps(cfg, initial, steps);
    if RelayConnection.ExportEnded(s.conn) {
      if Broken(s.conn) {
        SignalStarts(cfg, initial, s);
      } else {
        forall more ensures Run(cfg, s, more).signal.stage == ErrorSignal.Unpublished {
          RunConcat(cfg, Begin(initial), steps, more);
          RunSettles(cfg, initial, steps, more);
          RunKeeps(cfg, initial, steps + more);
        }
      }
    }
  }

  lemma SignalStarts(cfg: RelayConnection.Config, initial: Option<Bytes>, s: System)
    requires Inv(initial, s) && Broken(s.conn)
    ensures !NeverSignalled(cfg, s)
  {
    var put := Signal(ErrorSignal.PutSignal);
    RunSnoc(cfg, s, [], put);
    assert [] + [put] == [put];
    assert Run(cfg, s, []) == s;
    assert s.signal.stage != ErrorSignal.Unpublished || Run(cfg, s, [put]).signal.stage != ErrorSignal.Unpublished;
  }

  /** A truncated client stream goes unsignalled exactly when the export
      connection counts as completed although samples were dropped. */
  lemma UnsignalledExactly(cfg: RelayConnection.Config, initial: Option<Bytes>, steps: seq<Step>)
    requires initial != Some([])
    ensures var s := Run(cfg, Begin(initial), steps); var c := s.conn;
            RelayConnection.ExportEnded(c) ==>
              (Truncated(c) && NeverSignalled(cfg, s) <==>
               RelayConnection.ExportOutcome(c) == RelayConnection.Completed && c.up.dropped != {})
  {
    QuietExactly(cfg, initial, steps);
    var events, _ := Projects(cfg, initial, steps);
    RelayConnection.ExportCompleted(cfg, initial, events);
    hide Run, NeverSignalled, RelayConnection.ExportOutcome, RelayConnection.Run;
  }

  /** A signalled client is reset: while its token lives and the cap has not
      passed, its connection has ended anyway or the signal can still reach and
      reset it, unless it happened that the holder could not watch the token or
      that its watch was closed. */
  lemma SignalResets(cfg: RelayConnection.Config, initial: Option<Bytes>, steps: seq<Step>)
    requires initial != Some([])
    ensures var s := Run(cfg, Begin(initial), steps); var g := s.signal;
            g.stage != ErrorSignal.Unpublished && g.alive && g.now < g.since + ErrorSignal.HOLD_CAP ==>
              || RelayConnection.ImportEnded(s.conn)
              || Next(cfg, s, Signal(ErrorSignal.ImportRecovers)).conn.importToken.Some?
              || (g.stage == ErrorSignal.Released(ErrorSignal.CannotWatch)
                  && Signal(ErrorSignal.WatchDeclared(false)) in steps)
              || (g.stage == ErrorSignal.Released(ErrorSignal.WatchClosed) && Signal(ErrorSignal.WatchCloses) in steps)
  {
    var s := Run(cfg, Begin(initial), steps);
    RunKeeps(cfg, initial, steps);
    var _, signals := Projects(cfg, initial, steps);
    ErrorSignal.RunKeeps(signals);
    ErrorSignal.SignalNotLost(signals);
    hide Run, ErrorSignal.Run;
  }

  // --- A truncated connection that nobody is told of ---

  function Relays(events: seq<RelayConnection.Event>): (steps: seq<Step>)
    ensures |steps| == |events|
  {
    if events == [] then [] else Relays(events[..|events| - 1]) + [Bridges(events[|events| - 1])]
  }

  /** A client that declared its token and its error subscriber. */
  function Declared(initial: Option<Bytes>): System {
    Begin(initial).(signal := ErrorSignal.Start().(subscribed := true, declared := true, alive := true))
  }

  lemma Declares(cfg: RelayConnection.Config, initial: Option<Bytes>)
    ensures Run(cfg, Begin(initial), [Signal(ErrorSignal.ImportSubscribes), Signal(ErrorSignal.ImportDeclaresToken)]) ==
            Declared(initial)
  {
    var subscribe, declare := Signal(ErrorSignal.ImportSubscribes), Signal(ErrorSignal.ImportDeclaresToken);
    RunSnoc(cfg, Begin(initial), [], subscribe);
    RunSnoc(cfg, Begin(initial), [subscribe], declare);
    assert [] + [subscribe] == [subscribe] && [subscribe] + [declare] == [subscribe, declare];
  }

  /** Every run of the two bridges is part of a run of the whole. */
  lemma {:induction false} Lifts(cfg: RelayConnection.Config, initial: Option<Bytes>, events: seq<RelayConnection.Event>)
    ensures var s := Run(cfg, Declared(initial), Relays(events));
            && s.conn == RelayConnection.Run(cfg, RelayConnection.Init(initial), events)
            && s.signal.declared && s.signal.stage == ErrorSignal.Unpublished
  {
    if events != [] {
      var before, ev := events[..|events| - 1], events[|events| - 1];
      Lifts(cfg, initial, before);
      RunSnoc(cfg, Declared(initial), Relays(before), Bridges(ev));
      hide Run;
      var s := Run(cfg, Declared(initial), Relays(before));
      if ev.Tick? && !RelayConnection.Allowed(cfg, s.conn, ev) {
        assert RelayConnection.Advance(cfg, s.conn, ev) == s.conn;
      }
    }
  }

  /** There are such connections: the backend got a truncated stream with a clean
      end, and the client is never told. */
  lemma TruncatedUnsignalled(cfg: RelayConnection.Config, a: Byte, b: Byte)
    requires cfg.exportCapacity == 1
    ensures exists steps :: var s := Run(cfg, Begin(None), steps);
              && RelayConnection.ExportEnded(s.conn) && s.conn.up.fin && Truncated(s.conn)
              && NeverSignalled(cfg, s)
  {
    RelayConnection.TruncatedYetCompleted(cfg, a, b);
    var events :| var c := RelayConnection.Run(cfg, RelayConnection.Init(None), events);
                  && RelayConnection.ExportOutcome(c) == RelayConnection.Completed
                  && c.up.fin && c.up.source == [a, b] && c.up.written == [a];
    var declare := [Signal(ErrorSignal.ImportSubscribes), Signal(ErrorSignal.ImportDeclaresToken)];
    var steps := declare + Relays(events);
    Declares(cfg, None);
    RunConcat(cfg, Begin(None), declare, Relays(events));
    Lifts(cfg, None, events);
    var s := Run(cfg, Begin(None), steps);
    QuietExactly(cfg, None, steps);
    assert [a, b] != [a];
    assert RelayConnection.ExportEnded(s.conn) && s.conn.up.fin && Truncated(s.conn) && NeverSignalled(cfg, s);
  }
}

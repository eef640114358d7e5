/** Exporters of one scope that elect, serve, drain and fail over: the election
    and the client maps together (src/export/bridge.rs, src/export/election.rs). */
module HighAvailability {
  import opened Streams
  import opened ClaimOrder
  import Election
  import Scope
  import ClientMap

  /** `demoted` exporters have seen an elder claim and drain next. */
  datatype System = System(world: Scope.World, loops: map<string, ClientMap.Loop>, demoted: set<string>)

  datatype Step = Bus(event: Scope.Step) | Local(j: string, step: ClientMap.Step)

  function Start(): System {
    System(Scope.Start(), map[], {})
  }

  /** The loop looks at its claim only where it awaits it. */
  predicate MayLook(s: System, j: string) {
    && j in s.loops && j !in s.demoted && s.loops[j].unsent == []
    && (s.loops[j].phase == ClientMap.Standby || s.loops[j].phase == ClientMap.Serving)
  }

  /** A demoted loop handles no client event any more, and only it drains to
      stand by again; `Elected` comes of a look. */
  predicate MayStep(s: System, j: string, step: ClientMap.Step) {
    match step
    case Elected => false
    case ClientPut(_) => j !in s.demoted
    case ClientDelete(_) => j !in s.demoted
    case Drain(shutdown, _) => shutdown <==> j !in s.demoted
    case _ => true
  }

  function AfterLook(s: System, world: Scope.World, j: string): System
    requires j in s.loops && j in world.exporters
  {
    var l, elected := s.loops[j], world.exporters[j].elected;
    if l.phase == ClientMap.Standby && elected then
      System(world, s.loops[j := ClientMap.Next(l, ClientMap.Elected)], s.demoted)
    else if l.phase == ClientMap.Serving && !elected then System(world, s.loops, s.demoted + {j})
    else System(world, s.loops, s.demoted)
  }

  function Next(s: System, step: Step): System {
    match step
    case Bus(b) =>
      var world := Scope.Next(s.world, b);
      if b.Look? then (if MayLook(s, b.o) && b.o in world.exporters then AfterLook(s, world, b.o) else s)
      else if b.Declare? && b.j in world.exporters && b.j !in s.loops then
        System(world, s.loops[b.j := ClientMap.Start()], s.demoted)
      else if b.Leave? then System(world, s.loops - {b.j}, s.demoted - {b.j})
      else System(world, s.loops, s.demoted)
    case Local(j, l) =>
      if j !in s.loops || !MayStep(s, j, l) then s
      else
        var loop := ClientMap.Next(s.loops[j], l);
        System(s.world, s.loops[j := loop],
               if loop.phase == ClientMap.Serving then s.demoted else s.demoted - {j})
  }

  function Run(s: System, steps: seq<Step>): System {
    if steps == [] then s else Next(Run(s, steps[..|steps| - 1]), steps[|steps| - 1])
  }

  // --- The invariant ---

  ghost predicate LoopOk(s: System, j: string)
    requires j in s.loops
  {
    && Scope.Declared(s.world, j)
    && ClientMap.Inv(s.loops[j]) && ClientMap.OneEntryEach(s.loops[j])
    && (j in s.demoted ==> s.loops[j].phase == ClientMap.Serving)
    && (s.loops[j].phase == ClientMap.Starting || s.loops[j].phase == ClientMap.Serving ==>
          s.world.exporters[j].elected || j in s.demoted)
  }

  ghost predicate Inv(s: System) {
    && Scope.Inv(s.world)
    && (forall j :: j in s.loops ==> LoopOk(s, j))
    && (forall j :: j in s.world.exporters && s.world.exporters[j].declared ==> j in s.loops)
    && s.demoted <= s.loops.Keys
  }

  /** Only a look, a leave or a declare changes what an exporter concluded. */
  lemma BusLeavesRoles(w: Scope.World, step: Scope.Step, j: string)
    requires Scope.Declared(w, j) && step != Scope.Leave(j) && step != Scope.Look(j)
    ensures var w' := Scope.Next(w, step);
            Scope.Declared(w', j) && w'.exporters[j].elected == w.exporters[j].elected
  {
  }

  lemma BusDeclares(w: Scope.World, step: Scope.Step, j: string)
    ensures var w' := Scope.Next(w, step);
            && (Scope.Declared(w', j) ==> Scope.Declared(w, j) || step == Scope.Declare(j))
            && (step == Scope.Leave(j) ==> j !in w'.exporters)
            && (step == Scope.Declare(j) && j in w'.exporters ==> Scope.Declared(w', j))
            && (step == Scope.Look(j) && Scope.Declared(w, j) ==> Scope.Declared(w', j))
  {
  }

  lemma BusKeeps(s: System, b: Scope.Step)
    requires Inv(s)
    ensures Inv(Next(s, Bus(b)))
  {
    hide Scope.Inv, ClientMap.Inv, Scope.Next, ClientMap.Next;
    Scope.InvNext(s.world, b);
    var s' := Next(s, Bus(b));
    FreshLoops(s, b);
    forall j | j in s'.loops ensures LoopOk(s', j) {
      BusDeclares(s.world, b, j);
      if j in s.loops {
        assert LoopOk(s, j);
        if b != Scope.Leave(j) && b != Scope.Look(j) {
          BusLeavesRoles(s.world, b, j);
        }
      }
    }
    forall j | Scope.Declared(s'.world, j) ensures j in s'.loops {
      BusDeclares(s.world, b, j);
    }
  }

  lemma FreshLoops(s: System, b: Scope.Step)
    requires Inv(s)
    ensures ClientMap.Inv(ClientMap.Start()) && ClientMap.Start().phase == ClientMap.Standby
    ensures b.Look? && b.o in s.loops ==>
              var l := s.loops[b.o];
              && ClientMap.Inv(ClientMap.Next(l, ClientMap.Elected))
              && (l.phase == ClientMap.Standby ==>
                    ClientMap.Next(l, ClientMap.Elected) == l.(phase := ClientMap.Starting))
  {
    ClientMap.StartInv();
    if b.Look? && b.o in s.loops {
      assert LoopOk(s, b.o);
      ClientMap.NextKeeps(s.loops[b.o], ClientMap.Elected);
    }
  }

  lemma LocalKeeps(s: System, j: string, step: ClientMap.Step)
    requires Inv(s)
    ensures Inv(Next(s, Local(j, step)))
  {
    if j in s.loops && MayStep(s, j, step) {
      assert LoopOk(s, j);
      ClientMap.NextKeeps(s.loops[j], step);
      ClientMap.OneEntryNext(s.loops[j], step);
      PhaseSteps(s.loops[j], step);
      hide Scope.Inv, ClientMap.Inv, ClientMap.Next;
      var s' := Next(s, Local(j, step));
      forall k | k in s'.loops ensures LoopOk(s', k) {
        assert LoopOk(s, k);
      }
    }
  }

  lemma PhaseSteps(l: ClientMap.Loop, step: ClientMap.Step)
    requires !step.Elected?
    ensures var p, p' := l.phase, ClientMap.Next(l, step).phase;
            && (p' == ClientMap.Serving ==> p == ClientMap.Serving || p == ClientMap.Starting)
            && (p' == ClientMap.Starting ==> p == ClientMap.Starting)
  {
  }

  lemma {:induction false} RunKeeps(steps: seq<Step>)
    ensures Inv(Run(Start(), steps))
  {
    hide Scope.Inv, ClientMap.Inv, Scope.Next, ClientMap.Next;
    if steps == [] {
      Scope.RunKeeps([]);
    } else {
      var s := Run(Start(), steps[..|steps| - 1]);
      RunKeeps(steps[..|steps| - 1]);
      match steps[|steps| - 1]
      case Bus(b) => BusKeeps(s, b);
      case Local(j, l) => LocalKeeps(s, j, l);
    }
  }

  // --- What every run promises ---

  /** Exporter `j` has a client task that is not, and is not about to be,
      cancelled. */
  ghost predicate Serves(s: System, j: string, t: nat, client: string) {
    j in s.loops && ClientMap.Uncancelled(s.loops[j], t, client)
  }

  /** An exporter serves only while elected, or between seeing an elder claim and
      draining; and while it is elected, the Put of every smaller live claim it
      is not partitioned from is still on its way to it. */
  lemma ServesOnlyUntold(steps: seq<Step>, j: string, t: nat, client: string)
    ensures var s := Run(Start(), steps);
            Serves(s, j, t, client) && j !in s.demoted ==>
              && Scope.Declared(s.world, j) && s.world.exporters[j].elected
              && forall i :: Scope.Declared(s.world, i) && Less(i, j) && !s.world.cut(j, i) ==>
                   Scope.PutUnderWay(s.world, j, i)
  {
    var s := Run(Start(), steps);
    RunKeeps(steps);
    if Serves(s, j, t, client) && j !in s.demoted {
      assert LoopOk(s, j);
      ClientMap.UncancelledIsTracked(s.loops[j], t, client);
      forall i | Scope.Declared(s.world, i) && Less(i, j) && !s.world.cut(j, i)
        ensures Scope.PutUnderWay(s.world, j, i)
      {
        Scope.Untold(s.world, i, j);
      }
    }
  }

  /** Once the claims are known and no demotion is outstanding, each client has at
      most one uncancelled task in the whole scope, and it runs at the exporter
      with the smallest claim. */
  lemma OneServerPerClient(steps: seq<Step>, j: string, t: nat, k: string, u: nat, client: string)
    ensures var s := Run(Start(), steps);
            Scope.Settled(s.world) && s.demoted == {} && Serves(s, j, t, client) ==>
              && Election.Elect(s.world.exporters.Keys, j)
              && (Serves(s, k, u, client) ==> k == j && u == t)
  {
    hide Scope.Inv, Scope.Settled, Scope.Next, ClientMap.Next, Election.Elect;
    var s := Run(Start(), steps);
    RunKeeps(steps);
    if Scope.Settled(s.world) && s.demoted == {} && Serves(s, j, t, client) {
      ServesOnlyUntold(steps, j, t, client);
      ServesOnlyUntold(steps, k, u, client);
      var m := Scope.OneElected(s.world);
      assert LoopOk(s, j);
      ClientMap.UncancelledIsTracked(s.loops[j], t, client);
      if Serves(s, k, u, client) {
        ClientMap.UncancelledIsTracked(s.loops[j], u, client);
      }
    }
  }

  // --- Drains included ---

  /** Exporter `j` has a task for `client` that has not come to its end, cancelled
      or not. */
  predicate Runs(s: System, j: string, t: nat, client: string) {
    && j in s.loops && t < |s.loops[j].tasks|
    && s.loops[j].tasks[t].client == client && !ClientMap.Finished(s.loops[j].tasks[t])
  }

  /** `client` was never reported as gone to exporter `j`. */
  ghost predicate NeverDeleted(steps: seq<Step>, j: string, client: string) {
    Local(j, ClientMap.ClientDelete(client)) !in steps
  }

  lemma {:induction false} StaysHeld(steps: seq<Step>, j: string, t: nat, client: string)
    requires NeverDeleted(steps, j, client)
    ensures var s := Run(Start(), steps);
            j in s.loops && t < |s.loops[j].tasks| && s.loops[j].tasks[t].client == client ==>
              ClientMap.Held(s.loops[j], t)
  {
    if steps != [] {
      var before, step := steps[..|steps| - 1], steps[|steps| - 1];
      var s := Run(Start(), before);
      StaysHeld(before, j, t, client);
      RunKeeps(before);
      assert step in steps && forall x :: x in before ==> x in steps;
      assert j in s.loops ==> LoopOk(s, j);
      hide ClientMap.Inv, ClientMap.Held, ClientMap.Next, Scope.Next, Inv, LoopOk;
      if step.Local? && step.j == j && j in s.loops && MayStep(s, j, step.step) {
        LocalHolds(s.loops[j], step.step, t, client);
      } else if step.Bus? {
        BusHolds(s, step.event, j, t);
      }
    }
  }

  lemma LocalHolds(l: ClientMap.Loop, step: ClientMap.Step, t: nat, client: string)
    requires ClientMap.Inv(l) && step != ClientMap.ClientDelete(client)
    requires t < |l.tasks| && l.tasks[t].client == client ==> ClientMap.Held(l, t)
    ensures var l' := ClientMap.Next(l, step);
            t < |l'.tasks| && l'.tasks[t].client == client ==> ClientMap.Held(l', t)
  {
    var l' := ClientMap.Next(l, step);
    if t < |l'.tasks| && l'.tasks[t].client == client {
      TaskKeepsClient(l, step, t);
      ClientMap.HeldNext(l, step, t);
    }
  }

  lemma TaskKeepsClient(l: ClientMap.Loop, step: ClientMap.Step, t: nat)
    ensures t < |l.tasks| ==>
              t < |ClientMap.Next(l, step).tasks| && ClientMap.Next(l, step).tasks[t].client == l.tasks[t].client
  {
  }

  lemma BusHolds(s: System, b: Scope.Step, j: string, t: nat)
    ensures var s' := Next(s, Bus(b));
            && (j in s'.loops && t < |s'.loops[j].tasks| ==>
                  && j in s.loops && s'.loops[j].tasks == s.loops[j].tasks
                  && (ClientMap.Held(s.loops[j], t) ==> ClientMap.Held(s'.loops[j], t)))
  {
  }

  /** Exporter `j` tracks a task of `client`. */
  predicate Tracks(s: System, j: string, client: string) {
    j in s.loops && client in s.loops[j].tracked
  }

  /** The drain of exporter `j` has yet to join a task of `client` that is still
      running. */
  ghost predicate Drains(s: System, j: string, client: string) {
    j in s.loops && exists t :: t in s.loops[j].entries && Runs(s, j, t, client)
  }

  /** Two tasks of `client` are running, at one exporter or at two. */
  ghost predicate DoubleService(s: System, client: string) {
    exists j, t: nat, k, u: nat :: (j != k || t != u) && Runs(s, j, t, client) && Runs(s, k, u, client)
  }

  /** An exporter still drains a task of `client` that another one has taken on,
      or drains as well. */
  ghost predicate Overlap(s: System, client: string) {
    exists j, k :: j != k && Drains(s, j, client) && (Tracks(s, k, client) || Drains(s, k, client))
  }

  lemma TrackedRuns(s: System, j: string, client: string)
    requires Inv(s) && Tracks(s, j, client)
    ensures Runs(s, j, s.loops[j].tracked[client], client)
    ensures s.demoted == {} ==> Scope.Declared(s.world, j) && s.world.exporters[j].elected
  {
    hide Scope.Inv;
    assert LoopOk(s, j);
    assert ClientMap.TaskOk(s.loops[j], s.loops[j].tracked[client]);
  }

  /** One exporter holds at most one running task of a client. */
  lemma OneHeldEach(s: System, j: string, t: nat, u: nat, client: string)
    requires Inv(s) && Runs(s, j, t, client) && ClientMap.Held(s.loops[j], t)
    requires Runs(s, j, u, client) && ClientMap.Held(s.loops[j], u)
    ensures t == u
  {
    hide Scope.Inv;
    assert LoopOk(s, j);
    assert s.loops[j].phase.Draining? ==> s.loops[j].tracked == map[];
    ClientMap.HeldIsFinished(s.loops[j], t);
    ClientMap.HeldIsFinished(s.loops[j], u);
  }

  /** Two held tasks of one client run at two exporters, of which one drains. */
  lemma TwoHeldOverlap(s: System, j: string, t: nat, k: string, u: nat, client: string)
    requires Inv(s) && Scope.Settled(s.world) && s.demoted == {} && (j != k || t != u)
    requires Runs(s, j, t, client) && ClientMap.Held(s.loops[j], t)
    requires Runs(s, k, u, client) && ClientMap.Held(s.loops[k], u)
    ensures j != k
    ensures Drains(s, j, client) || Drains(s, k, client)
    ensures Drains(s, j, client) || Tracks(s, j, client)
    ensures Drains(s, k, client) || Tracks(s, k, client)
  {
    if j == k {
      OneHeldEach(s, j, t, u, client);
    }
    hide Inv, Scope.Inv, Scope.Settled;
    if Tracks(s, j, client) && Tracks(s, k, client) {
      TrackedRuns(s, j, client);
      TrackedRuns(s, k, client);
      var m := Scope.OneElected(s.world);
    }
  }

  /** Exactly when double service happens, drains included: settled and with no
      demotion outstanding, a client whose token never went has two running tasks
      exactly when some exporter still drains one of its tasks while another
      tracks it or drains one too. */
  lemma DoubleServiceExactly(steps: seq<Step>, client: string)
    requires forall j :: NeverDeleted(steps, j, client)
    ensures var s := Run(Start(), steps);
            Scope.Settled(s.world) && s.demoted == {} ==> (DoubleService(s, client) <==> Overlap(s, client))
  {
    var s := Run(Start(), steps);
    RunKeeps(steps);
    hide Inv, Scope.Inv, Scope.Settled, ClientMap.Held, Run;
    if Scope.Settled(s.world) && s.demoted == {} {
      forall j, t: nat, k, u: nat | (j != k || t != u) && Runs(s, j, t, client) && Runs(s, k, u, client)
        ensures Overlap(s, client)
      {
        StaysHeld(steps, j, t, client);
        StaysHeld(steps, k, u, client);
        TwoHeldOverlap(s, j, t, k, u, client);
      }
      forall j, k | j != k && Drains(s, j, client) && (Tracks(s, k, client) || Drains(s, k, client))
        ensures DoubleService(s, client)
      {
        var t :| t in s.loops[j].entries && Runs(s, j, t, client);
        if Tracks(s, k, client) {
          TrackedRuns(s, k, client);
        }
      }
    }
  }

  ghost predicate NoDrain(s: System) {
    s.demoted == {} && forall j :: j in s.loops ==> !s.loops[j].phase.Draining?
  }

  lemma NothingToJoin(s: System, j: string, client: string)
    requires Inv(s)
    ensures NoDrain(s) ==> !Drains(s, j, client)
  {
    hide Scope.Inv;
    assert j in s.loops ==> LoopOk(s, j);
  }

  /** So, with no drain outstanding, such a client has at most one running task in
      the whole scope, cancelled ones included, and it runs at the exporter with
      the smallest claim. */
  lemma NoDoubleService(steps: seq<Step>, j: string, t: nat, k: string, u: nat, client: string)
    requires NeverDeleted(steps, j, client) && NeverDeleted(steps, k, client)
    ensures var s := Run(Start(), steps);
            Scope.Settled(s.world) && NoDrain(s) && Runs(s, j, t, client) ==>
              && Election.Elect(s.world.exporters.Keys, j)
              && (Runs(s, k, u, client) ==> k == j && u == t)
  {
    var s := Run(Start(), steps);
    RunKeeps(steps);
    StaysHeld(steps, j, t, client);
    StaysHeld(steps, k, u, client);
    NothingToJoin(s, j, client);
    NothingToJoin(s, k, client);
    hide Inv, Scope.Inv, Scope.Settled, ClientMap.Held, Election.Elect, Run;
    if Scope.Settled(s.world) && NoDrain(s) && Runs(s, j, t, client) {
      RunnerIsElected(s, j, t, client);
      if Runs(s, k, u, client) && (k != j || u != t) {
        TwoHeldOverlap(s, j, t, k, u, client);
      }
    }
  }

  lemma RunnerIsElected(s: System, j: string, t: nat, client: string)
    requires Inv(s) && NoDrain(s) && Scope.Settled(s.world)
    requires Runs(s, j, t, client) && ClientMap.Held(s.loops[j], t)
    ensures Election.Elect(s.world.exporters.Keys, j)
  {
    hide Scope.Inv, Scope.Settled, Election.Elect;
    assert LoopOk(s, j);
    ClientMap.HeldIsFinished(s.loops[j], t);
    TrackedRuns(s, j, client);
    var m := Scope.OneElected(s.world);
  }

  // --- And while a drain is under way ---

  lemma RunSnoc(s: System, steps: seq<Step>, step: Step)
    ensures Run(s, steps + [step]) == Next(Run(s, steps), step)
  {
    assert (steps + [step])[..|steps|] == steps;
  }

  /** Exporter `j` has joined, has heard of nobody yet and has elected itself;
      those it is not partitioned from will hear of it. */
  ghost predicate Joined(w: Scope.World, w': Scope.World, j: string) {
    && Scope.Declared(w', j) && w'.exporters[j].elected
    && w'.exporters[j].claims == {j} && w'.exporters[j].inbox == [] && w'.cut == w.cut
    && w'.exporters.Keys == w.exporters.Keys + {j}
    && (forall o :: o in w.exporters ==> o in w'.exporters && w'.exporters[o] == w.exporters[o])
    && (forall o :: o in w.exporters && !w.cut(o, j) ==> w'.net(o, j) == w.net(o, j) + [Put])
    && (forall c :: c != j && !Scope.Declared(w, c) ==> w'.net(j, c) == [])
  }

  lemma JoinedWorld(w: Scope.World, j: string)
    requires j !in w.exporters
    ensures var w1 := Scope.Next(w, Scope.Subscribe(j));
            var w2 := Scope.Next(w1, Scope.Declare(j));
            var w3 := Scope.Next(w2, Scope.Look(j));
            j in w1.exporters && j in w2.exporters && Joined(w, w3, j)
  {
    LessTotal(j, j);
  }

  /** A serving loop with one task. */
  function Busy(client: string): ClientMap.Loop {
    ClientMap.Loop(ClientMap.Serving, map[client := 0],
                   [ClientMap.ClientTask(client, ClientMap.Working, 0)], [], [])
  }

  lemma JoinsElected(s: System, j: string)
    requires j !in s.world.exporters && j !in s.loops && j !in s.demoted
    ensures var s' := Next(Next(Next(s, Bus(Scope.Subscribe(j))), Bus(Scope.Declare(j))), Bus(Scope.Look(j)));
            && Joined(s.world, s'.world, j) && s'.demoted == s.demoted
            && s'.loops == s.loops[j := ClientMap.Start().(phase := ClientMap.Starting)]
  {
    JoinedWorld(s.world, j);
    hide Scope.Next;
  }

  lemma StartsBusy(s: System, j: string, client: string)
    requires j in s.loops && j !in s.demoted && s.loops[j] == ClientMap.Start().(phase := ClientMap.Starting)
    ensures var s' := Next(Next(s, Local(j, ClientMap.StartServing)), Local(j, ClientMap.ClientPut(client)));
            s'.world == s.world && s'.loops == s.loops[j := Busy(client)] && s'.demoted == s.demoted
  {
    var s1 := Next(s, Local(j, ClientMap.StartServing));
    assert Next(s1, Local(j, ClientMap.ClientPut(client))).loops[j] == Busy(client);
  }

  /** An exporter that has heard of nobody joins, elects itself and starts on a
      client. */
  lemma JoinAndServe(steps: seq<Step>, j: string, client: string) returns (more: seq<Step>)
    requires var s := Run(Start(), steps); j !in s.world.exporters && j !in s.loops && j !in s.demoted
    ensures var s, s' := Run(Start(), steps), Run(Start(), more);
            && Joined(s.world, s'.world, j)
            && s'.loops == s.loops[j := Busy(client)] && s'.demoted == s.demoted
  {
    hide Next, Joined, Busy;
    var s := Run(Start(), steps);
    var subscribe, declare, look := Bus(Scope.Subscribe(j)), Bus(Scope.Declare(j)), Bus(Scope.Look(j));
    RunSnoc(Start(), steps, subscribe);
    RunSnoc(Start(), steps + [subscribe], declare);
    RunSnoc(Start(), steps + [subscribe] + [declare], look);
    JoinsElected(s, j);
    var elected := steps + [subscribe] + [declare] + [look];
    var serve, put := Local(j, ClientMap.StartServing), Local(j, ClientMap.ClientPut(client));
    RunSnoc(Start(), elected, serve);
    RunSnoc(Start(), elected + [serve], put);
    StartsBusy(Run(Start(), elected), j, client);
    more := elected + [serve] + [put];
  }

  lemma SeesElder(j: string, i: string)
    requires Less(i, j)
    ensures !Election.Elect(Election.ApplyAll({j}, [Election.Event(i, Put)]), j)
  {
    LessTotal(i, j);
    var put := Election.Event(i, Put);
    Election.ApplySnoc({j}, [], put);
    assert [] + [put] == [put];
    assert i in Election.ApplyAll({j}, [put]);
  }

  lemma HearsElder(w: Scope.World, j: string, i: string)
    requires Scope.Declared(w, j) && w.exporters[j].claims == {j} && w.exporters[j].inbox == []
    requires w.net(j, i) == [Put] && Less(i, j)
    ensures var w1 := Scope.Next(w, Scope.Deliver(j, i));
            var w2 := Scope.Next(w1, Scope.Look(j));
            && j in w1.exporters && j in w2.exporters && !w2.exporters[j].elected
  {
    SeesElder(j, i);
    hide Less, Election.Elect, Election.ApplyAll;
    var w1 := Scope.Next(w, Scope.Deliver(j, i));
    var put := Election.Event(i, Put);
    assert w1.exporters[j].inbox == [] + [put] == [put];
  }

  lemma BothServe(i: string, j: string, client: string) returns (steps: seq<Step>)
    requires i != j
    ensures var s := Run(Start(), steps);
            && s.loops == map[j := Busy(client)][i := Busy(client)] && s.demoted == {}
            && Scope.Declared(s.world, j) && s.world.exporters[j].claims == {j} && s.world.exporters[j].inbox == []
            && s.world.net(j, i) == [Put]
  {
    hide Next, Busy;
    assert Run(Start(), []) == Start();
    var one := JoinAndServe([], j, client);
    steps := JoinAndServe(one, i, client);
    assert [] + [Put] == [Put];
  }

  lemma LookDemotes(s: System, j: string, i: string, client: string)
    requires s.demoted == {} && j in s.loops && s.loops[j] == Busy(client)
    requires Scope.Declared(s.world, j) && s.world.exporters[j].claims == {j} && s.world.exporters[j].inbox == []
    requires s.world.net(j, i) == [Put] && Less(i, j)
    ensures var s' := Next(Next(s, Bus(Scope.Deliver(j, i))), Bus(Scope.Look(j)));
            s'.loops == s.loops && s'.demoted == {j}
  {
    HearsElder(s.world, j, i);
    hide Scope.Next, Less;
  }

  lemma DrainBegins(s: System, j: string, client: string)
    requires s.demoted == {j} && j in s.loops && s.loops[j] == Busy(client)
    ensures var s' := Next(s, Local(j, ClientMap.Drain(false, [0])));
            && s'.demoted == {} && Runs(s', j, 0, client) && s'.loops[j].phase == ClientMap.Draining(false)
            && forall i :: i in s.loops && i != j ==> i in s'.loops && s'.loops[i] == s.loops[i]
  {
    assert s.loops[j].tracked[client] == 0;
    assert 0 in s.loops[j].tracked.Values && 0 in [0];
    assert ClientMap.Lists([0], s.loops[j].tracked);
  }

  /** One exporter can have started on a client while another still drains its
      task for it: the claims alone do not keep them apart, only the drain does. */
  lemma DrainOverlaps(i: string, j: string, client: string)
    requires Less(i, j)
    ensures exists steps :: var s := Run(Start(), steps);
              && Runs(s, i, 0, client) && Runs(s, j, 0, client)
              && s.loops[j].phase == ClientMap.Draining(false) && s.demoted == {}
  {
    LessTotal(i, j);
    hide Next, Less, Scope.Declared;
    var steps := BothServe(i, j, client);
    var deliver, look := Bus(Scope.Deliver(j, i)), Bus(Scope.Look(j));
    var drain := Local(j, ClientMap.Drain(false, [0]));
    RunSnoc(Start(), steps, deliver);
    RunSnoc(Start(), steps + [deliver], look);
    RunSnoc(Start(), steps + [deliver] + [look], drain);
    LookDemotes(Run(Start(), steps), j, i, client);
    DrainBegins(Run(Start(), steps + [deliver] + [look]), j, client);
    var s := Run(Start(), steps + [deliver] + [look] + [drain]);
    assert Runs(s, i, 0, client) && Runs(s, j, 0, client);
  }
}

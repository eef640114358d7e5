/** Service resumes: whatever a scope's exporters have been through, the elected
    one can be serving again (src/export/bridge.rs, src/export/election.rs). */
module Failover {
  import opened Streams
  import opened HighAvailability
  import ClientMap
  import Election
  import Scope

  /** The exporter has not been told to shut down and has not failed; one that
      has withdraws its claim and is no survivor. */
  predicate Able(l: ClientMap.Loop) {
    l.phase != ClientMap.Stopped && l.phase != ClientMap.Draining(true)
  }

  /** Partitions heal, samples arrive, and exporters look at their claims. */
  predicate Calm(event: Scope.Step) {
    event.Heal? || event.Deliver? || event.Look?
  }

  /** And their loops go on: a demoted one drains, a finished task removes itself. */
  predicate Recovers(step: Step) {
    match step
    case Bus(b) => Calm(b)
    case Local(_, l) =>
      l.StartServing? || (l.Drain? && !l.shutdown) || l.Send? || l.Join? || l.EndDrain? || l.SelfRemove?
  }

  ghost predicate Recovery(steps: seq<Step>) {
    forall step :: step in steps ==> Recovers(step)
  }

  /** Only the loop of `j` has changed. */
  ghost predicate Alone(s: System, s': System, j: string) {
    && s'.world == s.world && s'.loops.Keys == s.loops.Keys
    && (forall k :: k in s.loops && k != j ==> s'.loops[k] == s.loops[k])
    && (forall k :: k != j ==> (k in s'.demoted <==> k in s.demoted))
  }

  /** `j` stands by or serves, with nothing of its own left to do. */
  predicate Ready(s: System, j: string) {
    MayLook(s, j)
  }

  ghost predicate AllReady(s: System) {
    forall j :: j in s.loops ==> Ready(s, j)
  }

  lemma {:induction false} RunConcat(s: System, a: seq<Step>, b: seq<Step>)
    ensures Run(s, a + b) == Run(Run(s, a), b)
  {
    hide Next;
    if b == [] {
      assert a + b == a;
    } else {
      assert (a + b)[..|a + b| - 1] == a + b[..|b| - 1];
      RunConcat(s, a, b[..|b| - 1]);
    }
  }

  lemma RunCons(s: System, step: Step, rest: seq<Step>)
    ensures Run(s, [step] + rest) == Run(Next(s, step), rest)
  {
    hide Next;
    RunConcat(s, [step], rest);
    RunSnoc(s, [], step);
    assert [] + [step] == [step];
  }

  /** One step of the loop of `j`. */
  lemma Once(s: System, j: string, step: ClientMap.Step)
    requires Inv(s) && j in s.loops && MayStep(s, j, step)
    ensures var s' := Next(s, Local(j, step));
            && Inv(s') && Alone(s, s', j) && s'.loops[j] == ClientMap.Next(s.loops[j], step)
            && (j in s'.demoted <==> j in s.demoted && s'.loops[j].phase == ClientMap.Serving)
  {
    hide Inv, ClientMap.Next, MayStep;
    LocalKeeps(s, j, step);
  }

  // --- A loop finishes what it is at ---

  lemma LoopFacts(s: System, j: string)
    requires Inv(s) && j in s.loops
    ensures ClientMap.Inv(s.loops[j])
    ensures j in s.demoted ==> s.loops[j].phase == ClientMap.Serving
  {
    hide Scope.Inv, ClientMap.Inv;
    assert LoopOk(s, j);
  }

  lemma JoinTakes(l: ClientMap.Loop)
    requires ClientMap.Inv(l) && l.phase.Draining? && l.unsent == [] && l.entries != []
    ensures var l' := ClientMap.Next(l, ClientMap.Join(true));
            l'.entries == l.entries[1..] && l'.phase == l.phase && l'.unsent == []
  {
    assert l.entries[0] in l.entries;
  }

  lemma DrainTakes(l: ClientMap.Loop) returns (order: seq<nat>)
    requires ClientMap.Inv(l) && l.phase == ClientMap.Serving && l.unsent == []
    ensures ClientMap.Next(l, ClientMap.Drain(false, order)).phase == ClientMap.Draining(false)
  {
    order := AnOrder(l.tracked);
  }

  /** The pending cancels go out. */
  lemma {:induction false} SendAll(s: System, j: string) returns (more: seq<Step>)
    requires Inv(s) && j in s.loops
    ensures Recovery(more)
    ensures var s' := Run(s, more);
            && Inv(s') && Alone(s, s', j) && (j in s'.demoted <==> j in s.demoted)
            && s'.loops[j].unsent == [] && s'.loops[j].phase == s.loops[j].phase
    decreases |s.loops[j].unsent|
  {
    hide Inv, Next, ClientMap.Next, ClientMap.Inv;
    LoopFacts(s, j);
    if s.loops[j].unsent == [] {
      more := [];
    } else {
      var step := Local(j, ClientMap.Send);
      ClientMap.SendTakes(s.loops[j]);
      Once(s, j, ClientMap.Send);
      var s1 := Next(s, step);
      var rest := SendAll(s1, j);
      more := [step] + rest;
      RunCons(s, step, rest);
    }
  }

  /** Every handle is joined, at the deadline if need be. */
  lemma {:induction false} JoinAll(s: System, j: string) returns (more: seq<Step>)
    requires Inv(s) && j in s.loops && s.loops[j].phase == ClientMap.Draining(false) && s.loops[j].unsent == []
    ensures Recovery(more)
    ensures var s' := Run(s, more); Inv(s') && Alone(s, s', j) && Ready(s', j)
    decreases |s.loops[j].entries|
  {
    hide Inv, Next, ClientMap.Next, ClientMap.Inv;
    var l := s.loops[j];
    LoopFacts(s, j);
    var step := if l.entries == [] then ClientMap.EndDrain else ClientMap.Join(true);
    Once(s, j, step);
    var s1 := Next(s, Local(j, step));
    var rest := [];
    if l.entries == [] {
      ClientMap.EndDrains(l);
    } else {
      JoinTakes(l);
      rest := JoinAll(s1, j);
    }
    more := [Local(j, step)] + rest;
    RunCons(s, Local(j, step), rest);
  }

  /** The handles of a map can be listed. */
  lemma {:induction false} AnOrder(tracked: map<string, nat>) returns (order: seq<nat>)
    requires forall c, d :: c in tracked && d in tracked && tracked[c] == tracked[d] ==> c == d
    ensures ClientMap.Lists(order, tracked)
    decreases tracked.Keys
  {
    if tracked == map[] {
      order := [];
    } else {
      var c :| c in tracked;
      var rest := tracked - {c};
      var first := AnOrder(rest);
      order := first + [tracked[c]];
      assert tracked[c] !in rest.Values;
      forall t | t in order ensures t in tracked.Values {
        assert t in first ==> t in rest.Values;
      }
      forall d | d in tracked ensures tracked[d] in order {
        assert d in rest || d == c;
      }
    }
  }

  /** A demoted loop drains and stands by. */
  lemma DrainOut(s: System, j: string) returns (more: seq<Step>)
    requires Inv(s) && j in s.loops && j in s.demoted && s.loops[j].unsent == []
    ensures Recovery(more)
    ensures var s' := Run(s, more); Inv(s') && Alone(s, s', j) && Ready(s', j)
  {
    hide Inv, Next, ClientMap.Next, ClientMap.Inv, Run;
    LoopFacts(s, j);
    var order := DrainTakes(s.loops[j]);
    var drain := Local(j, ClientMap.Drain(false, order));
    Once(s, j, drain.step);
    var s1 := Next(s, drain);
    var sends := SendAll(s1, j);
    var joins := JoinAll(Run(s1, sends), j);
    RunCons(s, drain, sends + joins);
    RunConcat(s1, sends, joins);
    more := [drain] + (sends + joins);
  }

  lemma Starts(l: ClientMap.Loop)
    requires l.phase == ClientMap.Starting
    ensures ClientMap.Next(l, ClientMap.StartServing) == l.(phase := ClientMap.Serving)
  {
  }

  /** A loop that was elected starts serving. */
  lemma StartUp(s: System, j: string) returns (more: seq<Step>)
    requires Inv(s) && j in s.loops && Able(s.loops[j])
    ensures Recovery(more)
    ensures var s' := Run(s, more);
            && Inv(s') && Alone(s, s', j) && Able(s'.loops[j]) && s'.loops[j].phase != ClientMap.Starting
  {
    hide Inv, Next, ClientMap.Next;
    more := [];
    if s.loops[j].phase == ClientMap.Starting {
      Once(s, j, ClientMap.StartServing);
      Starts(s.loops[j]);
      more := [Local(j, ClientMap.StartServing)] + [];
      RunCons(s, Local(j, ClientMap.StartServing), []);
    }
  }

  /** A loop finishes what it is at, and is ready to look again. */
  lemma Quiesce(s: System, j: string) returns (more: seq<Step>)
    requires Inv(s) && j in s.loops && Able(s.loops[j])
    ensures Recovery(more)
    ensures var s' := Run(s, more); Inv(s') && Alone(s, s', j) && Ready(s', j)
  {
    hide Inv, Next, Run, Recovers;
    var first := StartUp(s, j);
    var s1 := Run(s, first);
    var sends := SendAll(s1, j);
    var s2 := Run(s1, sends);
    LoopFacts(s2, j);
    assert Alone(s, s2, j);
    var last := Finish(s2, j);
    RunConcat(s1, sends, last);
    RunConcat(s, first, sends + last);
    more := first + (sends + last);
  }

  lemma Finish(s: System, j: string) returns (more: seq<Step>)
    requires Inv(s) && j in s.loops && Able(s.loops[j])
    requires s.loops[j].phase != ClientMap.Starting && s.loops[j].unsent == []
    ensures Recovery(more)
    ensures var s' := Run(s, more); Inv(s') && Alone(s, s', j) && Ready(s', j)
  {
    hide Inv, Next, Recovers;
    LoopFacts(s, j);
    more := [];
    if j in s.demoted {
      more := DrainOut(s, j);
    } else if s.loops[j].phase.Draining? {
      more := JoinAll(s, j);
    }
  }

  lemma {:induction false} QuiesceAll(s: System, js: set<string>) returns (more: seq<Step>)
    requires Inv(s) && js <= s.loops.Keys && forall j :: j in js ==> Able(s.loops[j])
    ensures Recovery(more)
    ensures var s' := Run(s, more);
            && Inv(s') && s'.world == s.world && s'.loops.Keys == s.loops.Keys
            && forall j :: j in s.loops ==> if j in js then Ready(s', j) else Ready(s, j) ==> Ready(s', j)
    decreases js
  {
    hide Inv, Next;
    if js == {} {
      more := [];
    } else {
      var j :| j in js;
      var first := Quiesce(s, j);
      var rest := QuiesceAll(Run(s, first), js - {j});
      RunConcat(s, first, rest);
      more := first + rest;
    }
  }

  // --- The election goes on underneath ---

  lemma WorldMoves(s: System, step: Step)
    ensures var world := Next(s, step).world;
            world == s.world || (step.Bus? && world == Scope.Next(s.world, step.event))
  {
    hide Scope.Next, ClientMap.Next;
  }

  /** The bus is a world of the election. */
  lemma {:induction false} WorldIsReached(steps: seq<Step>) returns (bus: seq<Scope.Step>)
    ensures Run(Start(), steps).world == Scope.Run(Scope.Start(), bus)
  {
    hide Scope.Next, Next;
    bus := [];
    if steps != [] {
      var before, step := Run(Start(), steps[..|steps| - 1]), steps[|steps| - 1];
      bus := WorldIsReached(steps[..|steps| - 1]);
      WorldMoves(before, step);
      if step.Bus? {
        Scope.RunSnoc(Scope.Start(), bus, step.event);
        if Next(before, step).world != before.world {
          bus := bus + [step.event];
        }
      }
    }
  }

  /** A heal, a delivery, or a look by a loop that is ready for it, is a step of the
      election; the loop then goes on. */
  lemma FollowOne(s: System, event: Scope.Step) returns (more: seq<Step>)
    requires Inv(s) && AllReady(s) && Calm(event)
    ensures Recovery(more)
    ensures var s' := Run(s, more);
            && Inv(s') && AllReady(s') && s'.world == Scope.Next(s.world, event) && s'.loops.Keys == s.loops.Keys
  {
    var s1 := Next(s, Bus(event));
    BusKeeps(s, event);
    BusFacts(s, event);
    assert Recovers(Bus(event));
    hide Inv, Next, Scope.Next, AllReady, Able, Ready, Run, Recovers;
    more := [Bus(event)];
    RunSnoc(s, [], Bus(event));
    RunNone(s);
    assert [] + [Bus(event)] == more;
    if event.Look? && event.o in s.loops {
      var rest := Quiesce(s1, event.o);
      RunConcat(s, more, rest);
      more := more + rest;
      ReadyAgain(s, s1, Run(s, more), event);
    } else {
      ReadyAgain(s, s1, s1, event);
    }
  }

  lemma RunNone(s: System)
    ensures Run(s, []) == s
  {
  }

  lemma ReadyAgain(s: System, s1: System, s': System, event: Scope.Step)
    requires AllReady(s) && s'.loops.Keys == s1.loops.Keys == s.loops.Keys
    requires forall j :: j in s.loops && event != Scope.Look(j) ==> s1.loops[j] == s.loops[j]
    requires forall j :: event != Scope.Look(j) ==> (j in s1.demoted <==> j in s.demoted)
    requires if event.Look? && event.o in s.loops then Alone(s1, s', event.o) && Ready(s', event.o) else s' == s1
    ensures AllReady(s')
  {
    forall j | j in s.loops ensures Ready(s', j) {
      assert Ready(s, j);
    }
  }

  lemma BusFacts(s: System, event: Scope.Step)
    requires Inv(s) && AllReady(s) && Calm(event)
    ensures var s' := Next(s, Bus(event));
            && s'.world == Scope.Next(s.world, event) && s'.loops.Keys == s.loops.Keys
            && (forall j :: j in s.loops && event != Scope.Look(j) ==> s'.loops[j] == s.loops[j])
            && (forall j :: event != Scope.Look(j) ==> (j in s'.demoted <==> j in s.demoted))
            && (forall j :: j in s.loops ==> Able(s'.loops[j]))
  {
    hide Scope.Inv, ClientMap.Inv, Scope.LookStep, LoopOk;
    assert forall j :: j in s.loops ==> Ready(s, j);
    if event.Look? {
      LookFacts(s, event.o);
      hide Scope.Next, Inv;
    }
  }

  lemma LookFacts(s: System, o: string)
    requires Inv(s) && (o in s.loops ==> Ready(s, o))
    ensures var world := Scope.Next(s.world, Scope.Look(o));
            if o in s.loops then o in world.exporters && Able(AfterLook(s, world, o).loops[o]) else world == s.world
  {
    hide Scope.Inv, ClientMap.Inv, Scope.LookStep;
    if o in s.loops {
      assert LoopOk(s, o);
    }
  }

  lemma {:induction false} Follow(s: System, events: seq<Scope.Step>) returns (more: seq<Step>)
    requires Inv(s) && AllReady(s) && forall event :: event in events ==> Calm(event)
    ensures Recovery(more)
    ensures var s' := Run(s, more);
            && Inv(s') && AllReady(s') && s'.world == Scope.Run(s.world, events) && s'.loops.Keys == s.loops.Keys
  {
    hide Inv, Next, Scope.Next, AllReady;
    more := [];
    if events != [] {
      var before, event := events[..|events| - 1], events[|events| - 1];
      assert event in events && forall x :: x in before ==> x in events;
      more := Follow(s, before);
      var last := FollowOne(Run(s, more), event);
      RunConcat(s, more, last);
      more := more + last;
    }
  }

  // --- And so the elected exporter serves ---

  /** In a settled scope another look changes nothing for the active exporter. */
  lemma LookAgain(w: Scope.World, m: string)
    requires Scope.Inv(w) && Scope.Settled(w) && Scope.Declared(w, m) && w.exporters[m].elected
    ensures Scope.Next(w, Scope.Look(m)) == w
  {
    assert Scope.Sane(w, m);
    hide Scope.Inv, Scope.Tracks, Election.Elect;
    assert Scope.LookStep(w.exporters[m], m) == w.exporters[m];
  }

  lemma LookStarts(s: System, m: string)
    requires Inv(s) && Ready(s, m) && s.loops[m].phase == ClientMap.Standby && Scope.Settled(s.world)
    requires Scope.Declared(s.world, m) && s.world.exporters[m].elected
    ensures var s' := Next(s, Bus(Scope.Look(m)));
            Inv(s') && s' == s.(loops := s.loops[m := s.loops[m].(phase := ClientMap.Starting)])
  {
    BusKeeps(s, Scope.Look(m));
    LookAgain(s.world, m);
    hide Scope.Settled, Scope.Next, Scope.Inv, LoopOk;
  }

  lemma StartsServing(s: System, m: string) returns (more: seq<Step>)
    requires Inv(s) && Ready(s, m) && Scope.Settled(s.world)
    requires Scope.Declared(s.world, m) && s.world.exporters[m].elected
    ensures Recovery(more)
    ensures var s' := Run(s, more);
            && Inv(s') && Alone(s, s', m) && Ready(s', m) && s'.loops[m].phase == ClientMap.Serving
  {
    hide Inv, Next, ClientMap.Next, Scope.Settled;
    more := [];
    if s.loops[m].phase == ClientMap.Standby {
      var look := Bus(Scope.Look(m));
      LookStarts(s, m);
      var s1 := Next(s, look);
      Once(s1, m, ClientMap.StartServing);
      Starts(s1.loops[m]);
      more := [look] + ([Local(m, ClientMap.StartServing)] + []);
      RunCons(s1, Local(m, ClientMap.StartServing), []);
      RunCons(s, look, [Local(m, ClientMap.StartServing)] + []);
    }
  }

  /** The task a client already has is at work, or over and about to free its
      entry. */
  lemma EntryIsAtWork(l: ClientMap.Loop, client: string)
    requires ClientMap.Inv(l) && l.phase == ClientMap.Serving && l.unsent == [] && client in l.tracked
    ensures var t := l.tracked[client];
            && t < |l.tasks|
            && (ClientMap.Uncancelled(l, t, client) ||
                var l' := ClientMap.Next(l, ClientMap.SelfRemove(t));
                client !in l'.tracked && l'.phase == l.phase && l'.unsent == [])
  {
    var t := l.tracked[client];
    assert ClientMap.TaskOk(l, t) && ClientMap.Tracks(l, t);
  }

  lemma PutServes(l: ClientMap.Loop, client: string)
    requires l.phase == ClientMap.Serving && l.unsent == [] && client !in l.tracked
    ensures var l' := ClientMap.Next(l, ClientMap.ClientPut(client));
            && ClientMap.Uncancelled(l', |l.tasks|, client)
            && l'.phase == l.phase && l'.unsent == []
  {
  }

  /** A client that appears at a serving exporter gets a task of its own there. */
  lemma TakesOn(s: System, m: string, client: string) returns (more: seq<Step>, t: nat)
    requires Inv(s) && Ready(s, m) && s.loops[m].phase == ClientMap.Serving
    ensures forall step :: step in more ==> Recovers(step) || step == Local(m, ClientMap.ClientPut(client))
    ensures var s' := Run(s, more);
            && Inv(s') && Alone(s, s', m) && Ready(s', m) && Serves(s', m, t, client)
  {
    hide Inv, Next, ClientMap.Next, ClientMap.Inv, ClientMap.Uncancelled;
    LoopFacts(s, m);
    more := [];
    var s1 := s;
    if client in s.loops[m].tracked {
      t := s.loops[m].tracked[client];
      EntryIsAtWork(s.loops[m], client);
      if ClientMap.Uncancelled(s.loops[m], t, client) {
        return;
      }
      var remove := Local(m, ClientMap.SelfRemove(t));
      Once(s, m, remove.step);
      RunCons(s, remove, []);
      more := [remove] + [];
      s1 := Next(s, remove);
    }
    t := |s1.loops[m].tasks|;
    var put := Local(m, ClientMap.ClientPut(client));
    PutServes(s1.loops[m], client);
    Once(s1, m, put.step);
    RunSnoc(s, more, put);
    more := more + [put];
  }

  /** Every exporter has declared its claim, and none has been shut down. */
  ghost predicate Healthy(s: System) {
    && s.world.exporters != map[]
    && (forall o :: o in s.world.exporters ==> s.world.exporters[o].declared)
    && (forall j :: j in s.loops ==> Able(s.loops[j]))
  }

  /** Everybody finishes what it is at; the election then settles underneath. */
  lemma Settles(steps: seq<Step>) returns (more: seq<Step>, m: string)
    requires Healthy(Run(Start(), steps))
    ensures Recovery(more)
    ensures var s, s' := Run(Start(), steps), Run(Start(), steps + more);
            && Inv(s') && AllReady(s') && Scope.Settled(s'.world) && s'.loops.Keys == s.loops.Keys
            && s'.world.exporters.Keys == s.world.exporters.Keys && Election.Elect(s.world.exporters.Keys, m)
            && forall o :: o in s.world.exporters ==> (s'.world.exporters[o].elected <==> o == m)
  {
    hide Inv, Next, Scope.Next, Scope.Run, Scope.Settled, Election.Elect, Run;
    RunKeeps(steps);
    var s := Run(Start(), steps);
    var bus := WorldIsReached(steps);
    var heals, looks;
    heals, looks, m := Scope.PartitionsResolve(bus);
    var events := heals + looks;
    assert forall event :: event in events ==> Calm(event);
    assert (bus + heals) + looks == bus + events;
    Scope.RunConcat(Scope.Start(), bus, events);
    var first := QuiesceAll(s, s.loops.Keys);
    var last := Follow(Run(s, first), events);
    RunConcat(s, first, last);
    RunConcat(Start(), steps, first + last);
    more := first + last;
  }

  lemma EldestIsReady(s: System, m: string)
    requires Inv(s) && AllReady(s) && Scope.Settled(s.world)
    requires forall o :: o in s.world.exporters ==> (s.world.exporters[o].elected <==> o == m)
    requires m in s.world.exporters
    ensures Scope.Declared(s.world, m) && Ready(s, m) && s.demoted == {}
    ensures forall j :: j in s.loops && j != m ==> s.loops[j].phase == ClientMap.Standby
  {
    assert Scope.Sane(s.world, m);
    hide Scope.Inv, Scope.Settled;
    forall j | j in s.loops ensures j !in s.demoted && (j != m ==> s.loops[j].phase == ClientMap.Standby) {
      assert LoopOk(s, j) && Ready(s, j);
    }
  }

  /** Whatever came before, partitions and drains included: from every reachable
      state whose exporters have declared their claims and have not been shut down,
      heals, deliveries, looks and the loops' own steps lead to a settled state in
      which the exporter with the smallest claim serves any client that appears to
      it, every other exporter stands by, and nothing is left to drain. */
  lemma ServiceResumes(steps: seq<Step>, client: string) returns (more: seq<Step>, m: string, t: nat)
    requires Healthy(Run(Start(), steps))
    ensures forall step :: step in more ==> Recovers(step) || step == Local(m, ClientMap.ClientPut(client))
    ensures var s, s' := Run(Start(), steps), Run(Start(), steps + more);
            && Scope.Settled(s'.world) && s'.world.exporters.Keys == s.world.exporters.Keys
            && Election.Elect(s.world.exporters.Keys, m)
            && Serves(s', m, t, client) && NoDrain(s')
            && forall j :: j in s'.loops && j != m ==> s'.loops[j].phase == ClientMap.Standby
  {
    hide Inv, Next, Scope.Settled, Election.Elect, Serves, AllReady, Healthy, Run;
    var first;
    first, m := Settles(steps);
    var s1 := Run(Start(), steps + first);
    assert m in s1.world.exporters by { ElectIsIn(Run(Start(), steps).world.exporters.Keys, m); }
    EldestIsReady(s1, m);
    var start := StartsServing(s1, m);
    var s2 := Run(s1, start);
    var last;
    last, t := TakesOn(s2, m, client);
    RunConcat(s1, start, last);
    RunConcat(Start(), steps + first, start + last);
    more := first + (start + last);
    assert steps + more == (steps + first) + (start + last);
  }

  lemma ElectIsIn(claims: set<string>, m: string)
    requires Election.Elect(claims, m)
    ensures m in claims
  {
  }
}

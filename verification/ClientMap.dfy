/** The export loop and its map of client tasks (src/export/bridge.rs). */
module ClientMap {

  /** A task works, then removes itself from the map, then is gone. */
  datatype Stage = Working | Over | Gone | Aborted

  /** `cancels` counts the sends on the task's own cancel channel. */
  datatype ClientTask = ClientTask(client: string, stage: Stage, cancels: nat)

  datatype Phase = Standby | Starting | Serving | Draining(shutdown: bool) | Stopped

  /** Tasks are named by their index, as each has a channel of its own.  `unsent`
      holds tasks taken out of the map whose cancel is about to be sent, `entries`
      the handles a drain has yet to join. */
  datatype Loop = Loop(
    phase: Phase,
    tracked: map<string, nat>,
    tasks: seq<ClientTask>,
    unsent: seq<nat>,
    entries: seq<nat>)

  datatype Step =
    | Elected                       // stop standing by
    | StartServing
    | StartFails                    // the liveliness subscription or query fails
    | ClientPut(client: string)
    | ClientDelete(client: string)
    | Send
    | TaskEnds(t: nat)
    | SelfRemove(t: nat)
    | Drain(shutdown: bool, order: seq<nat>)
    | Join(deadline: bool)
    | EndDrain
    | StandbyShutdown

  function Start(): Loop {
    Loop(Standby, map[], [], [], [])
  }

  predicate Tracks(l: Loop, t: nat) {
    t < |l.tasks| && l.tasks[t].client in l.tracked && l.tracked[l.tasks[t].client] == t
  }

  predicate Distinct(s: seq<nat>) {
    forall i, j :: 0 <= i < j < |s| ==> s[i] != s[j]
  }

  /** All tracked tasks, in whatever order the hash map yields them. */
  predicate Lists(order: seq<nat>, tracked: map<string, nat>) {
    && Distinct(order)
    && (forall t :: t in order ==> t in tracked.Values)
    && (forall c :: c in tracked ==> tracked[c] in order)
  }

  predicate Finished(task: ClientTask) {
    task.stage == Gone || task.stage == Aborted
  }

  function Next(l: Loop, step: Step): Loop {
    match step
    case Elected => if l.phase == Standby then l.(phase := Starting) else l
    case StartServing => if l.phase == Starting then l.(phase := Serving) else l
    case StartFails => if l.phase == Starting then l.(phase := Stopped) else l
    case StandbyShutdown => if l.phase == Standby then l.(phase := Stopped) else l
    case ClientPut(client) =>
      if l.phase != Serving || l.unsent != [] || client in l.tracked then l
      else l.(tracked := l.tracked[client := |l.tasks|], tasks := l.tasks + [ClientTask(client, Working, 0)])
    case ClientDelete(client) =>
      if l.phase != Serving || l.unsent != [] || client !in l.tracked then l
      else l.(tracked := l.tracked - {client}, unsent := [l.tracked[client]])
    case Send =>
      if l.unsent == [] || l.unsent[0] >= |l.tasks| then l
      else
        var t := l.unsent[0];
        l.(unsent := l.unsent[1..], tasks := l.tasks[t := l.tasks[t].(cancels := l.tasks[t].cancels + 1)])
    case TaskEnds(t) =>
      if t < |l.tasks| && l.tasks[t].stage == Working then l.(tasks := l.tasks[t := l.tasks[t].(stage := Over)]) else l
    case SelfRemove(t) =>
      if t >= |l.tasks| || l.tasks[t].stage != Over then l
      else
        l.(tracked := if Tracks(l, t) then l.tracked - {l.tasks[t].client} else l.tracked,
           tasks := l.tasks[t := l.tasks[t].(stage := Gone)])
    case Drain(shutdown, order) =>
      if l.phase != Serving || l.unsent != [] || !Lists(order, l.tracked) then l
      else l.(phase := Draining(shutdown), tracked := map[], unsent := order, entries := order)
    case Join(deadline) =>
      if !l.phase.Draining? || l.unsent != [] || l.entries == [] || l.entries[0] >= |l.tasks| then l
      else
        var t := l.entries[0];
        if Finished(l.tasks[t]) then l.(entries := l.entries[1..])
        else if deadline then
          l.(entries := l.entries[1..], tasks := l.tasks[t := l.tasks[t].(stage := Aborted)])
        else l
    case EndDrain =>
      if !l.phase.Draining? || l.unsent != [] || l.entries != [] then l
      else l.(phase := if l.phase.shutdown then Stopped else Standby)
  }

  function Run(l: Loop, steps: seq<Step>): Loop {
    if steps == [] then l else Next(Run(l, steps[..|steps| - 1]), steps[|steps| - 1])
  }

  // --- The invariant ---

  /** A task still at work is tracked, or has been or is about to be sent its one
      cancel. */
  ghost predicate TaskOk(l: Loop, t: nat)
    requires t < |l.tasks|
  {
    var task := l.tasks[t];
    && task.cancels <= 1
    && (task.stage == Working ==> Tracks(l, t) || t in l.unsent || task.cancels == 1)
    && (Tracks(l, t) ==> task.cancels == 0 && t !in l.unsent && (task.stage == Working || task.stage == Over))
    && (t in l.unsent ==> task.cancels == 0)
    && (l.phase.Draining? && (t in l.unsent || Tracks(l, t)) ==> t in l.entries)
  }

  ghost predicate Inv(l: Loop) {
    && (forall t :: 0 <= t < |l.tasks| ==> TaskOk(l, t))
    && (forall c :: c in l.tracked ==> l.tracked[c] < |l.tasks| && l.tasks[l.tracked[c]].client == c)
    && (forall t :: t in l.unsent || t in l.entries ==> t < |l.tasks|)
    && Distinct(l.unsent)
    && (l.phase != Serving ==> l.tracked == map[])
    && (l.phase != Serving && !l.phase.Draining? ==> l.unsent == [])
    && (!l.phase.Draining? ==> l.entries == [])
  }

  lemma SendKeeps(l: Loop)
    requires Inv(l)
    ensures Inv(Next(l, Send))
  {
    if l.unsent != [] {
      var l' := Next(l, Send);
      var t := l.unsent[0];
      assert t in l.unsent && forall u :: u in l.unsent[1..] ==> u in l.unsent;
      assert forall u :: u in l.unsent && u != t ==> u in l.unsent[1..];
      forall u | 0 <= u < |l'.tasks| ensures TaskOk(l', u) {
        assert TaskOk(l, u);
        assert Tracks(l', u) <==> Tracks(l, u);
      }
    }
  }

  lemma JoinKeeps(l: Loop, deadline: bool)
    requires Inv(l)
    ensures Inv(Next(l, Join(deadline)))
  {
    var l' := Next(l, Join(deadline));
    if l' != l {
      assert forall u :: u in l.entries[1..] ==> u in l.entries;
      forall u | 0 <= u < |l'.tasks| ensures TaskOk(l', u) {
        assert TaskOk(l, u);
        assert !Tracks(l', u) && !Tracks(l, u);
      }
    }
  }

  lemma TaskStepKeeps(l: Loop, step: Step)
    requires Inv(l) && (step.TaskEnds? || step.SelfRemove?)
    ensures Inv(Next(l, step))
  {
    var l' := Next(l, step);
    forall u | 0 <= u < |l'.tasks| ensures TaskOk(l', u) {
      assert TaskOk(l, u);
      assert Tracks(l', u) ==> Tracks(l, u);
      assert Tracks(l, u) && !Tracks(l', u) ==> u == step.t;
    }
  }

  lemma MapStepKeeps(l: Loop, step: Step)
    requires Inv(l) && (step.ClientPut? || step.ClientDelete? || step.Drain?)
    ensures Inv(Next(l, step))
  {
    var l' := Next(l, step);
    if l' != l {
      forall u | 0 <= u < |l'.tasks| ensures TaskOk(l', u) {
        if u < |l.tasks| {
          assert TaskOk(l, u);
          assert Tracks(l', u) ==> Tracks(l, u);
        }
      }
    }
  }

  lemma NextKeeps(l: Loop, step: Step)
    requires Inv(l)
    ensures Inv(Next(l, step))
  {
    match step
    case Send => SendKeeps(l);
    case Join(deadline) => JoinKeeps(l, deadline);
    case TaskEnds(_) => TaskStepKeeps(l, step);
    case SelfRemove(_) => TaskStepKeeps(l, step);
    case ClientPut(_) => MapStepKeeps(l, step);
    case ClientDelete(_) => MapStepKeeps(l, step);
    case Drain(_, _) => MapStepKeeps(l, step);
    case _ =>
      var l' := Next(l, step);
      forall u | 0 <= u < |l'.tasks| ensures TaskOk(l', u) {
        assert TaskOk(l, u) && (Tracks(l', u) <==> Tracks(l, u));
      }
  }

  lemma {:induction false} RunKeeps(steps: seq<Step>)
    ensures Inv(Run(Start(), steps))
  {
    if steps != [] {
      RunKeeps(steps[..|steps| - 1]);
      NextKeeps(Run(Start(), steps[..|steps| - 1]), steps[|steps| - 1]);
    }
  }

  // --- What every interleaving promises ---

  /** A task of `c` that nobody has cancelled, or is about to. */
  predicate Uncancelled(l: Loop, t: nat, c: string) {
    t < |l.tasks| && l.tasks[t] == ClientTask(c, Working, 0) && t !in l.unsent
  }

  lemma UncancelledIsTracked(l: Loop, t: nat, c: string)
    requires Inv(l) && Uncancelled(l, t, c)
    ensures l.phase == Serving && c in l.tracked && l.tracked[c] == t
  {
    assert TaskOk(l, t);
  }

  /** At most one task serves a client id, and it is the tracked one; a finished
      task is never tracked. */
  lemma OneTaskPerClient(steps: seq<Step>)
    ensures var l := Run(Start(), steps);
            && (forall c, t :: Uncancelled(l, t, c) ==> c in l.tracked && l.tracked[c] == t)
            && (forall c, t, u :: Uncancelled(l, t, c) && Uncancelled(l, u, c) ==> t == u)
            && (forall c :: c in l.tracked ==> l.tracked[c] < |l.tasks| && !Finished(l.tasks[l.tracked[c]]))
  {
    var l := Run(Start(), steps);
    RunKeeps(steps);
    forall c, t | Uncancelled(l, t, c) ensures c in l.tracked && l.tracked[c] == t {
      UncancelledIsTracked(l, t, c);
    }
    forall c | c in l.tracked ensures !Finished(l.tasks[l.tracked[c]]) {
      assert TaskOk(l, l.tracked[c]) && Tracks(l, l.tracked[c]);
    }
  }

  /** A cancel always finds its one-slot channel empty, so no send waits. */
  lemma SendNeverWaits(steps: seq<Step>)
    ensures var l := Run(Start(), steps);
            && (forall t :: t in l.unsent ==> t < |l.tasks| && l.tasks[t].cancels == 0)
            && (forall t :: 0 <= t < |l.tasks| ==> l.tasks[t].cancels <= 1)
  {
    var l := Run(Start(), steps);
    RunKeeps(steps);
    hide Run, Tracks, Distinct;
    assert forall t :: t in l.unsent ==> t < |l.tasks|;
    forall t | 0 <= t < |l.tasks| ensures l.tasks[t].cancels <= 1 && (t in l.unsent ==> l.tasks[t].cancels == 0) {
      assert TaskOk(l, t);
    }
    hide Inv;
  }

  predicate Sent(l: Loop, t: nat) {
    t < |l.tasks| && (l.tasks[t].cancels > 0 || t in l.unsent)
  }

  lemma SentNext(l: Loop, step: Step, t: nat)
    requires Inv(l)
    ensures var l' := Next(l, step);
            Sent(l', t) && !Sent(l, t) ==> step.Drain? || (t < |l.tasks| && step == ClientDelete(l.tasks[t].client))
    ensures t < |l.tasks| ==> t < |Next(l, step).tasks| && Next(l, step).tasks[t].client == l.tasks[t].client
  {
    if step.ClientDelete? && step.client in l.tracked {
      assert l.tasks[l.tracked[step.client]].client == step.client;
    }
    if step == Send && l.unsent != [] {
      assert l.unsent == [l.unsent[0]] + l.unsent[1..];
    }
    hide TaskOk, Distinct, Lists;
  }

  lemma AbortedNext(l: Loop, step: Step, t: nat)
    ensures var l' := Next(l, step);
            t < |l'.tasks| && l'.tasks[t].stage == Aborted ==>
              (t < |l.tasks| && l.tasks[t].stage == Aborted) || step == Join(true)
  {
  }

  /** A task is cancelled only if its client disappeared or the exporter drained,
      and aborted only at a drain's deadline. */
  lemma {:induction false} CancelsHaveCauses(steps: seq<Step>, t: nat)
    ensures var l := Run(Start(), steps);
            && (Sent(l, t) ==> ClientDelete(l.tasks[t].client) in steps || exists step :: step in steps && step.Drain?)
            && (t < |l.tasks| && l.tasks[t].stage == Aborted ==> Join(true) in steps)
  {
    if steps != [] {
      var before, step := steps[..|steps| - 1], steps[|steps| - 1];
      assert step in steps && forall x :: x in before ==> x in steps;
      CancelsHaveCauses(before, t);
      RunKeeps(before);
      SentNext(Run(Start(), before), step, t);
      AbortedNext(Run(Start(), before), step, t);
      hide Inv, Next, Start;
      assert Run(Start(), steps) == Next(Run(Start(), before), step);
      assert Sent(Run(Start(), before), t) ==> t < |Run(Start(), before).tasks|;
      hide Sent;
    }
  }

  /** Outside its serving phase an exporter tracks no client and has no task
      that has not been, and is not about to be, cancelled. */
  lemma IdleOutsideServing(steps: seq<Step>)
    ensures var l := Run(Start(), steps);
            l.phase != Serving ==> l.tracked == map[] && forall c, t: nat :: !Uncancelled(l, t, c)
  {
    var l := Run(Start(), steps);
    RunKeeps(steps);
    forall c, t: nat | Uncancelled(l, t, c) ensures l.phase == Serving {
      UncancelledIsTracked(l, t, c);
    }
  }

  /** A client's entry changes only by its Delete, a drain, or the end of its own
      task: duplicate Puts and the late self-removal of an earlier task of the
      same client leave it, and its task, alone. */
  lemma EntryIsStable(steps: seq<Step>, step: Step, c: string)
    ensures var l := Run(Start(), steps);
            var l' := Next(l, step);
            c in l.tracked && step != ClientDelete(c) && !step.Drain? && step != SelfRemove(l.tracked[c]) ==>
              && c in l'.tracked && l'.tracked[c] == l.tracked[c]
              && l.tracked[c] < |l.tasks| <= |l'.tasks|
              && l'.tasks[l.tracked[c]].cancels == l.tasks[l.tracked[c]].cancels == 0
  {
    var l := Run(Start(), steps);
    RunKeeps(steps);
    if c in l.tracked {
      assert TaskOk(l, l.tracked[c]) && Tracks(l, l.tracked[c]);
    }
  }

  /** A task that is over, tracked, or about to be joined by a drain. */
  predicate Held(l: Loop, t: nat)
    requires t < |l.tasks|
  {
    Finished(l.tasks[t]) || Tracks(l, t) || t in l.entries
  }

  /** Only its client's Delete lets go of a task that is still running. */
  lemma HeldNext(l: Loop, step: Step, t: nat)
    requires Inv(l) && t < |Next(l, step).tasks|
    requires t < |l.tasks| ==> Held(l, t) && step != ClientDelete(l.tasks[t].client)
    ensures Held(Next(l, step), t)
    ensures t < |l.tasks| ==> Next(l, step).tasks[t].client == l.tasks[t].client
  {
    if t < |l.tasks| {
      assert TaskOk(l, t);
    }
    match step
    case Join(_) => assert l.entries != [] ==> l.entries == [l.entries[0]] + l.entries[1..];
    case _ =>
  }

  lemma HeldIsFinished(l: Loop, t: nat)
    requires Inv(l) && t < |l.tasks| && Held(l, t)
    ensures l.phase != Serving && !l.phase.Draining? ==> Finished(l.tasks[t])
    ensures !l.phase.Draining? ==> Finished(l.tasks[t]) || Tracks(l, t)
  {
  }

  /** A drain joins no two tasks of one client. */
  ghost predicate OneEntryEach(l: Loop) {
    forall t, u :: t in l.entries && u in l.entries && t < |l.tasks| && u < |l.tasks| && t != u ==>
      l.tasks[t].client != l.tasks[u].client
  }

  lemma OneEntryNext(l: Loop, step: Step)
    requires Inv(l) && OneEntryEach(l)
    ensures OneEntryEach(Next(l, step))
  {
    hide TaskOk, Distinct, Tracks;
    match step
    case Join(_) => assert l.entries != [] ==> forall t :: t in l.entries[1..] ==> t in l.entries;
    case _ =>
  }

  lemma {:induction false} RunConcat(l: Loop, a: seq<Step>, b: seq<Step>)
    ensures Run(l, a + b) == Run(Run(l, a), b)
  {
    hide Next;
    if b == [] {
      assert a + b == a;
    } else {
      assert (a + b)[..|a + b| - 1] == a + b[..|b| - 1];
      RunConcat(l, a, b[..|b| - 1]);
    }
  }

  lemma RunOne(l: Loop, step: Step)
    ensures Run(l, [step]) == Next(l, step)
  {
    assert Run(l, [step]) == Next(Run(l, [step][..0]), step);
  }

  // --- The loop as an object ---

  /** What client tasks do by themselves while the loop awaits something. */
  datatype TaskStep = Ends(t: nat) | RemovesItself(t: nat)

  function StepOf(ts: TaskStep): Step {
    match ts
    case Ends(t) => TaskEnds(t)
    case RemovesItself(t) => SelfRemove(t)
  }

  function Steps(ts: seq<TaskStep>): seq<Step> {
    seq(|ts|, i requires 0 <= i < |ts| => StepOf(ts[i]))
  }

  /** The same tasks, and those finished stay so. */
  ghost predicate Ages(before: seq<ClientTask>, after: seq<ClientTask>) {
    && |before| == |after|
    && forall t :: 0 <= t < |before| && Finished(before[t]) ==> Finished(after[t])
  }

  /** What a serving exporter reacts to. */
  datatype Arm =
    | Appeared(client: string)
    | Disappeared(client: string, meanwhile: seq<TaskStep>)
    | TasksRun(ts: seq<TaskStep>)
    | StillActive
    | Demoted
    | ShutdownRequested

  datatype ServeEnd = EndDemoted | EndShutdown | KeepsServing

  /** One turn of the role loop: elected or shut down while standing by, then a
      serving phase.  `sending` and `joining` are what tasks do during a drain. */
  datatype Turn = Turn(
    shutdownFirst: bool,
    setupOk: bool,
    existing: seq<string>,
    arms: seq<Arm>,
    sending: nat -> seq<TaskStep>,
    joining: nat -> seq<TaskStep>)

  /** The loop after one event. */
  function AfterArm(l: Loop, arm: Arm): Loop {
    match arm
    case Appeared(client) => Next(l, ClientPut(client))
    case Disappeared(client, meanwhile) =>
      if client !in l.tracked then l else Run(l, [ClientDelete(client)] + Steps(meanwhile) + [Send])
    case TasksRun(ts) => Run(l, Steps(ts))
    case _ => l
  }

  /** The loop after replaying the existing clients and then some events. */
  function Served(l: Loop, existing: seq<string>, arms: seq<Arm>): Loop {
    if arms != [] then AfterArm(Served(l, existing, arms[..|arms| - 1]), arms[|arms| - 1])
    else if existing != [] then
      Next(Served(l, existing[..|existing| - 1], []), ClientPut(existing[|existing| - 1]))
    else l
  }

  predicate EndsDemoted(turn: Turn) {
    !turn.shutdownFirst && turn.setupOk && exists arm :: arm in turn.arms && arm.Demoted?
  }

  predicate MayStop(turn: Turn) {
    turn.shutdownFirst || !turn.setupOk || exists arm :: arm in turn.arms && arm.ShutdownRequested?
  }

  predicate KeepsOn(turn: Turn) {
    !turn.shutdownFirst && turn.setupOk && forall arm :: arm in turn.arms ==> !Leaving(arm)
  }

  predicate Leaving(arm: Arm) {
    arm.Demoted? || arm.ShutdownRequested?
  }

  // --- Every client that is there has its task ---

  /** One of these is the self-removal of a task of `client`; `owners` are the
      clients of the tasks, by task. */
  predicate Removes(ts: seq<TaskStep>, owners: seq<string>, client: string) {
    exists k :: 0 <= k < |ts| && ts[k].RemovesItself? && ts[k].t < |owners| && owners[ts[k].t] == client
  }

  /** The last thing heard of `client` is that it is there. */
  predicate There(existing: seq<string>, arms: seq<Arm>, client: string) {
    if arms == [] then client in existing
    else
      match arms[|arms| - 1]
      case Appeared(c) => c == client || There(existing, arms[..|arms| - 1], client)
      case Disappeared(c, _) => c != client && There(existing, arms[..|arms| - 1], client)
      case _ => There(existing, arms[..|arms| - 1], client)
  }

  /** And since then no task of it has removed itself. */
  predicate Owed(existing: seq<string>, arms: seq<Arm>, owners: seq<string>, client: string) {
    if arms == [] then client in existing
    else
      var before := arms[..|arms| - 1];
      match arms[|arms| - 1]
      case Appeared(c) => c == client || Owed(existing, before, owners, client)
      case Disappeared(c, meanwhile) =>
        c != client && !Removes(meanwhile, owners, client) && Owed(existing, before, owners, client)
      case TasksRun(ts) => !Removes(ts, owners, client) && Owed(existing, before, owners, client)
      case _ => Owed(existing, before, owners, client)
  }

  function Owners(l: Loop): seq<string> {
    seq(|l.tasks|, t requires 0 <= t < |l.tasks| => l.tasks[t].client)
  }

  lemma OwnersGrow(l: Loop, step: Step)
    ensures Owners(l) <= Owners(Next(l, step))
  {
  }

  lemma {:induction false} OwnersGrowOver(l: Loop, steps: seq<Step>)
    ensures Owners(l) <= Owners(Run(l, steps))
  {
    if steps != [] {
      OwnersGrowOver(l, steps[..|steps| - 1]);
      OwnersGrow(Run(l, steps[..|steps| - 1]), steps[|steps| - 1]);
    }
  }

  /** What tasks do by themselves takes no entry but those of tasks that remove
      themselves. */
  lemma {:induction false} TasksLeaveEntries(l: Loop, ts: seq<TaskStep>, owners: seq<string>, client: string)
    requires Owners(l) <= owners && client in l.tracked && !Removes(ts, owners, client)
    ensures var l' := Run(l, Steps(ts));
            && client in l'.tracked && l'.tracked[client] == l.tracked[client]
            && l'.phase == l.phase && l'.unsent == l.unsent && Owners(l') == Owners(l)
  {
    if ts != [] {
      var before, last := ts[..|ts| - 1], ts[|ts| - 1];
      assert Steps(ts)[..|ts| - 1] == Steps(before);
      assert Removes(before, owners, client) ==> Removes(ts, owners, client);
      TasksLeaveEntries(l, before, owners, client);
      var m := Run(l, Steps(before));
      if last.RemovesItself? && last.t < |m.tasks| {
        assert owners[last.t] == Owners(m)[last.t] == m.tasks[last.t].client;
      }
    }
  }

  lemma {:induction false} TasksKeepServing(l: Loop, ts: seq<TaskStep>)
    requires Inv(l)
    ensures var l' := Run(l, Steps(ts));
            && Inv(l') && l'.phase == l.phase && l'.unsent == l.unsent && Owners(l') == Owners(l)
            && l'.tracked.Keys <= l.tracked.Keys
  {
    hide Inv, Next, Owners;
    if ts != [] {
      assert Steps(ts)[..|ts| - 1] == Steps(ts[..|ts| - 1]);
      TasksKeepServing(l, ts[..|ts| - 1]);
      TaskKeepsServing(Run(l, Steps(ts[..|ts| - 1])), ts[|ts| - 1]);
    }
  }

  lemma TaskKeepsServing(l: Loop, ts: TaskStep)
    requires Inv(l)
    ensures var l' := Next(l, StepOf(ts));
            && Inv(l') && l'.phase == l.phase && l'.unsent == l.unsent && Owners(l') == Owners(l)
            && l'.tracked.Keys <= l.tracked.Keys
  {
    NextKeeps(l, StepOf(ts));
    hide Inv;
  }

  ghost predicate Attending(l: Loop) {
    Inv(l) && l.phase == Serving && l.unsent == []
  }

  lemma PutAttends(l: Loop, client: string, other: string)
    requires Attending(l)
    ensures var l' := Next(l, ClientPut(client));
            Attending(l') && (other in l'.tracked <==> other == client || other in l.tracked)
  {
    NextKeeps(l, ClientPut(client));
    hide Inv;
  }

  lemma DeleteAttends(l: Loop, client: string, meanwhile: seq<TaskStep>)
    requires Attending(l) && client in l.tracked
    ensures var l1 := Next(l, ClientDelete(client));
            var l2 := Run(l1, Steps(meanwhile));
            var l3 := AfterArm(l, Disappeared(client, meanwhile));
            && Inv(l1) && l1.tracked == l.tracked - {client} && l1.phase == Serving && Owners(l1) == Owners(l)
            && Attending(l3) && l3.tracked == l2.tracked && Owners(l3) == Owners(l2)
  {
    var l1 := Next(l, ClientDelete(client));
    NextKeeps(l, ClientDelete(client));
    TasksKeepServing(l1, meanwhile);
    var l2 := Run(l1, Steps(meanwhile));
    NextKeeps(l2, Send);
    SendsOne(l2);
    RunOne(l, ClientDelete(client));
    RunConcat(l, [ClientDelete(client)], Steps(meanwhile));
    RunMore(l, [ClientDelete(client)], Steps(meanwhile), Send);
    hide Inv;
  }

  lemma SendsOne(l: Loop)
    requires Inv(l) && |l.unsent| == 1
    ensures var l' := Next(l, Send);
            l'.unsent == [] && l'.tracked == l.tracked && l'.phase == l.phase && Owners(l') == Owners(l)
  {
    assert l.unsent[0] in l.unsent;
  }

  /** A client that is gone is let go of; others only by their own task. */
  lemma GoneIsLetGo(l: Loop, client: string, meanwhile: seq<TaskStep>, owners: seq<string>, other: string)
    requires Attending(l)
    ensures var l' := AfterArm(l, Disappeared(client, meanwhile));
            && Attending(l') && client !in l'.tracked && l'.tracked.Keys <= l.tracked.Keys && Owners(l') == Owners(l)
            && (Owners(l') <= owners && other in l.tracked && other != client && !Removes(meanwhile, owners, other) ==>
                  other in l'.tracked)
  {
    hide Inv, Next;
    if client in l.tracked {
      DeleteAttends(l, client, meanwhile);
      var l1 := Next(l, ClientDelete(client));
      TasksKeepServing(l1, meanwhile);
      if Owners(l) <= owners && other in l.tracked && other != client && !Removes(meanwhile, owners, other) {
        TasksLeaveEntries(l1, meanwhile, owners, other);
      }
    }
  }

  lemma ArmAttends(l: Loop, arm: Arm, owners: seq<string>, client: string)
    requires Attending(l) && !Leaving(arm)
    ensures var l' := AfterArm(l, arm);
            && Attending(l') && Owners(l) <= Owners(l')
            && match arm
               case Appeared(c) => client in l'.tracked <==> client == c || client in l.tracked
               case Disappeared(c, meanwhile) =>
                 && (client in l'.tracked ==> client != c && client in l.tracked)
                 && (Owners(l') <= owners && client in l.tracked && client != c && !Removes(meanwhile, owners, client) ==>
                       client in l'.tracked)
               case TasksRun(ts) =>
                 && (client in l'.tracked ==> client in l.tracked)
                 && (Owners(l') <= owners && client in l.tracked && !Removes(ts, owners, client) ==> client in l'.tracked)
               case _ => l' == l
  {
    hide Inv, Next, Removes;
    match arm
    case Appeared(c) =>
      PutAttends(l, c, client);
      OwnersGrow(l, ClientPut(c));
    case Disappeared(c, meanwhile) => GoneIsLetGo(l, c, meanwhile, owners, client);
    case TasksRun(ts) =>
      TasksKeepServing(l, ts);
      if Owners(l) <= owners && client in l.tracked && !Removes(ts, owners, client) {
        TasksLeaveEntries(l, ts, owners, client);
      }
    case _ =>
  }

  /** After these events: a client that is there is tracked, unless its own task
      has removed itself since it appeared, and no other is. */
  ghost predicate Attended(existing: seq<string>, arms: seq<Arm>, before: Loop, l: Loop) {
    forall client ::
      && (Owed(existing, arms, Owners(l), client) ==> client in l.tracked)
      && (client in l.tracked ==> There(existing, arms, client) || client in before.tracked)
  }

  lemma {:induction false} ServedAttends(l: Loop, existing: seq<string>, arms: seq<Arm>, owners: seq<string>, client: string)
    requires Attending(l) && forall arm :: arm in arms ==> !Leaving(arm)
    ensures var l' := Served(l, existing, arms);
            && Attending(l')
            && (Owners(l') <= owners && Owed(existing, arms, owners, client) ==> client in l'.tracked)
            && (client in l'.tracked ==> There(existing, arms, client) || client in l.tracked)
    decreases |existing| + |arms|
  {
    hide Attending, Removes, Next, AfterArm, Owners;
    if arms != [] {
      var before, arm := arms[..|arms| - 1], arms[|arms| - 1];
      assert arm in arms && forall x :: x in before ==> x in arms;
      ServedAttends(l, existing, before, owners, client);
      ArmAttends(Served(l, existing, before), arm, owners, client);
    } else if existing != [] {
      var before := existing[..|existing| - 1];
      assert existing == before + [existing[|existing| - 1]];
      ServedAttends(l, before, [], owners, client);
      PutAttends(Served(l, before, []), existing[|existing| - 1], client);
      OwnersGrow(Served(l, before, []), ClientPut(existing[|existing| - 1]));
    }
  }

  /** None of the first `n` events ends the serving. */
  predicate StaysOn(arms: seq<Arm>, n: nat) {
    n <= |arms| && forall k :: 0 <= k < n ==> !Leaving(arms[k])
  }

  lemma StaysOnSnoc(arms: seq<Arm>, n: nat)
    requires StaysOn(arms, n) && n < |arms| && !Leaving(arms[n])
    ensures StaysOn(arms, n + 1)
  {
  }

  lemma ServedSnoc(l: Loop, existing: seq<string>, arms: seq<Arm>, n: nat)
    requires n < |arms|
    ensures Served(l, existing, arms[..n + 1]) == AfterArm(Served(l, existing, arms[..n]), arms[n])
  {
    assert arms[..n + 1][..n] == arms[..n];
  }

  /** One turn of the role loop takes `l` to `l'`: it serves what came before the
      first event that ends it, and then a demoted exporter stands by again and
      one that is shut down stops, every task it tracked being over. */
  ghost predicate TurnRan(l: Loop, turn: Turn, l': Loop) {
    if turn.shutdownFirst || !turn.setupOk then l' == l.(phase := Stopped)
    else exists n :: StaysOn(turn.arms, n) && ServedUntil(l.(phase := Serving), turn, n, l')
  }

  ghost predicate ServedUntil(l: Loop, turn: Turn, n: nat, l': Loop)
    requires n <= |turn.arms|
  {
    var last := Served(l, turn.existing, turn.arms[..n]);
    if n == |turn.arms| then l' == last
    else
      && Leaving(turn.arms[n]) && l'.phase == (if turn.arms[n].Demoted? then Standby else Stopped)
      && forall c :: c in last.tracked ==> last.tracked[c] < |l'.tasks| && Finished(l'.tasks[last.tracked[c]])
  }

  /** The states between the turns, from the first to the last that was begun. */
  ghost predicate TurnsRan(states: seq<Loop>, turns: seq<Turn>) {
    && 0 < |states| <= |turns| + 1 && states[0] == Start()
    && forall k :: 0 <= k < |states| - 1 ==> states[k].phase == Standby && TurnRan(states[k], turns[k], states[k + 1])
  }

  lemma TurnsSnoc(states: seq<Loop>, turns: seq<Turn>, l: Loop)
    requires TurnsRan(states, turns) && |states| <= |turns|
    requires states[|states| - 1].phase == Standby && TurnRan(states[|states| - 1], turns[|states| - 1], l)
    ensures TurnsRan(states + [l], turns)
  {
    hide TurnRan, Start;
  }

  lemma AllAttended(l: Loop, existing: seq<string>, arms: seq<Arm>, n: nat)
    requires Attending(l) && StaysOn(arms, n)
    ensures Attended(existing, arms[..n], l, Served(l, existing, arms[..n]))
  {
    hide Attending, Owed, There, Served;
    var l' := Served(l, existing, arms[..n]);
    assert forall arm :: arm in arms[..n] ==> !Leaving(arm);
    forall client
      ensures Owed(existing, arms[..n], Owners(l'), client) ==> client in l'.tracked
      ensures client in l'.tracked ==> There(existing, arms[..n], client) || client in l.tracked
    {
      ServedAttends(l, existing, arms[..n], Owners(l'), client);
    }
  }

  class ExportLoop {
    var phase: Phase
    var tracked: map<string, nat>
    var tasks: seq<ClientTask>
    var unsent: seq<nat>
    var entries: seq<nat>

    ghost function State(): Loop
      reads this
    {
      Loop(phase, tracked, tasks, unsent, entries)
    }

    ghost predicate Valid()
      reads this
    {
      Inv(State())
    }

    constructor ()
      ensures State() == Start() && Valid()
    {
      phase, tracked, tasks, unsent, entries := Standby, map[], [], [], [];
    }

    /** Under the lock: the check and the insert are one step. */
    method DispatchClientConnect(client: string)
      requires Valid() && phase == Serving && unsent == []
      modifies this
      ensures Valid() && State() == Next(old(State()), ClientPut(client))
      ensures client in tracked
      ensures if client in old(tracked) then State() == old(State())
              else State() == old(State()).(tracked := old(tracked)[client := old(|tasks|)],
                                            tasks := old(tasks) + [ClientTask(client, Working, 0)])
    {
      NextKeeps(State(), ClientPut(client));
      if client !in tracked {
        tracked := tracked[client := |tasks|];
        tasks := tasks + [ClientTask(client, Working, 0)];
      }
    }

    /** Under the lock: a task frees its own entry and no other. */
    method RemoveIfCurrent(client: string, own: nat) returns (removed: bool)
      modifies `tracked
      ensures removed <==> client in old(tracked) && old(tracked)[client] == own
      ensures tracked == if removed then old(tracked) - {client} else old(tracked)
    {
      removed := client in tracked && tracked[client] == own;
      if removed {
        tracked := tracked - {client};
      }
    }

    method RunTask(ts: TaskStep)
      requires Valid()
      modifies `tracked, `tasks
      ensures Valid() && State() == Next(old(State()), StepOf(ts))
      ensures Ages(old(tasks), tasks)
    {
      NextKeeps(State(), StepOf(ts));
      hide Inv;
      var t := ts.t;
      if t < |tasks| {
        if ts.Ends? && tasks[t].stage == Working {
          tasks := tasks[t := tasks[t].(stage := Over)];
        } else if ts.RemovesItself? && tasks[t].stage == Over {
          var removed := RemoveIfCurrent(tasks[t].client, t);
          tasks := tasks[t := tasks[t].(stage := Gone)];
        }
      }
    }

    method RunTasks(ts: seq<TaskStep>)
      requires Valid()
      modifies `tracked, `tasks
      ensures Valid() && State() == Run(old(State()), Steps(ts))
      ensures Ages(old(tasks), tasks)
    {
      hide Inv, Next;
      ghost var start, first := State(), tasks;
      for i := 0 to |ts|
        invariant Valid() && State() == Run(start, Steps(ts[..i]))
        invariant Ages(first, tasks)
      {
        RunTask(ts[i]);
        assert Steps(ts[..i + 1])[..i] == Steps(ts[..i]);
      }
      assert ts[..|ts|] == ts;
    }

    method SendCancel()
      requires Valid() && unsent != []
      modifies `unsent, `tasks
      ensures Valid() && State() == Next(old(State()), Send)
      ensures unsent == old(unsent)[1..] && |tasks| == |old(tasks)|
      ensures old(unsent)[0] < |tasks| && tasks[old(unsent)[0]].cancels == old(tasks)[old(unsent)[0]].cancels + 1
    {
      NextKeeps(State(), Send);
      var t := unsent[0];
      assert t in unsent;
      tasks := tasks[t := tasks[t].(cancels := tasks[t].cancels + 1)];
      unsent := unsent[1..];
    }

    /** The entry is taken under the lock; tasks may run before the send. */
    method HandleClientDisconnect(client: string, meanwhile: seq<TaskStep>)
      requires Valid() && phase == Serving && unsent == []
      modifies this
      ensures Valid() && phase == Serving && unsent == []
      ensures State() == if client !in old(tracked) then old(State())
                         else Run(old(State()), [ClientDelete(client)] + Steps(meanwhile) + [Send])
    {
      if client !in tracked {
        return;
      }
      ghost var start := State();
      NextKeeps(start, ClientDelete(client));
      RunOne(start, ClientDelete(client));
      unsent := [tracked[client]];
      tracked := tracked - {client};
      RunTasks(meanwhile);
      RunConcat(start, [ClientDelete(client)], Steps(meanwhile));
      RunOne(State(), Send);
      RunConcat(start, [ClientDelete(client)] + Steps(meanwhile), [Send]);
      SendCancel();
    }
  
    /** All entries leave the map at once, in the hash map's own order. */
    method TakeEntries(shutdown: bool) returns (order: seq<nat>)
      requires Valid() && phase == Serving && unsent == []
      modifies this
      ensures Lists(order, old(tracked)) && Valid() && State() == Next(old(State()), Drain(shutdown, order))
      ensures tracked == map[] && unsent == order && entries == order && phase == Draining(shutdown)
    {
      var rest := tracked;
      order := [];
      while rest != map[]
        invariant Distinct(order) && rest.Keys <= tracked.Keys
        invariant forall c :: c in rest ==> rest[c] == tracked[c] && rest[c] !in order
        invariant forall c :: c in tracked && c !in rest ==> tracked[c] in order
        invariant forall t :: t in order ==> t in tracked.Values
        decreases rest.Keys
      {
        var c :| c in rest;
        assert forall d :: d in rest && rest[d] == rest[c] ==> d == c;
        order := order + [rest[c]];
        rest := rest - {c};
      }
      NextKeeps(State(), Drain(shutdown, order));
      phase, tracked, unsent, entries := Draining(shutdown), map[], order, order;
    }

    /** Joins the first handle, or aborts its task at the shared deadline. */
    method JoinFirst()
      requires Valid() && phase.Draining? && unsent == [] && entries != []
      modifies `entries, `tasks
      ensures Valid() && State() == Next(old(State()), Join(true))
      ensures entries == old(entries)[1..] && Ages(old(tasks), tasks)
      ensures old(entries)[0] < |tasks| && Finished(tasks[old(entries)[0]])
    {
      NextKeeps(State(), Join(true));
      var t := entries[0];
      assert t in entries;
      if !Finished(tasks[t]) {
        tasks := tasks[t := tasks[t].(stage := Aborted)];
      }
      entries := entries[1..];
    }

    /** Cancels every tracked task and waits for all of them; `sending` and
        `joining` are what the tasks do meanwhile.  Afterwards every task that was
        tracked is over. */
    method DrainAllClients(shutdown: bool, sending: nat -> seq<TaskStep>, joining: nat -> seq<TaskStep>)
      returns (ghost steps: seq<Step>)
      requires Valid() && phase == Serving && unsent == []
      modifies this
      ensures Valid() && State() == Run(old(State()), steps)
      ensures phase == (if shutdown then Stopped else Standby) && unsent == []
      ensures forall c :: c in old(tracked) ==>
                var t := old(tracked)[c]; t < |tasks| && Finished(tasks[t])
    {
      hide Inv, Next, Finished;
      ghost var start, taken := State(), tracked;
      var order := TakeEntries(shutdown);
      steps := [Drain(shutdown, order)];
      RunOne(start, Drain(shutdown, order));
      DrainTakes(start, shutdown, order);
      var i := 0;
      while unsent != []
        invariant Valid() && State() == Run(start, steps)
        invariant phase == Draining(shutdown) && entries == order
        decreases |unsent|
      {
        RunTasks(sending(i));
        SendTakes(State());
        SendCancel();
        RunMore(start, steps, Steps(sending(i)), Send);
        steps := steps + Steps(sending(i)) + [Send];
        i := i + 1;
      }
      var n := 0;
      while entries != []
        invariant Valid() && State() == Run(start, steps)
        invariant phase == Draining(shutdown) && unsent == []
        invariant n <= |order| && entries == order[n..]
        invariant forall k :: 0 <= k < n ==> order[k] < |tasks| && Finished(tasks[order[k]])
        decreases |entries|
      {
        RunTasks(joining(n));
        JoinFirst();
        RunMore(start, steps, Steps(joining(n)), Join(true));
        steps := steps + Steps(joining(n)) + [Join(true)];
        n := n + 1;
      }
      EndDrains(State());
      phase := if shutdown then Stopped else Standby;
      RunMore(start, steps, [], EndDrain);
      assert steps + [] + [EndDrain] == steps + [EndDrain];
      steps := steps + [EndDrain];
    }

    /** The clients that were there before serving began. */
    method ReplayExisting(existing: seq<string>) returns (ghost steps: seq<Step>)
      requires Valid() && phase == Serving && unsent == []
      modifies this
      ensures Valid() && phase == Serving && unsent == []
      ensures State() == Run(old(State()), steps) == Served(old(State()), existing, [])
    {
      hide Inv, Next;
      ghost var start := State();
      steps := [];
      assert existing[..0] == [];
      for i := 0 to |existing|
        invariant Valid() && phase == Serving && unsent == []
        invariant State() == Run(start, steps) == Served(start, existing[..i], [])
      {
        DispatchClientConnect(existing[i]);
        PutKeepsServing(State(), Run(start, steps), existing[i]);
        RunMore(start, steps, [], ClientPut(existing[i]));
        assert steps + [] == steps;
        assert existing[..i + 1][..i] == existing[..i];
        steps := steps + [ClientPut(existing[i])];
      }
      assert existing[..|existing|] == existing;
    }

    /** One event of the live stream. */
    method Handle(arm: Arm) returns (ghost steps: seq<Step>)
      requires Valid() && phase == Serving && unsent == [] && !Leaving(arm)
      modifies this
      ensures Valid() && phase == Serving && unsent == []
      ensures State() == Run(old(State()), steps) == AfterArm(old(State()), arm)
    {
      hide Inv, Next;
      steps := [];
      match arm {
        case Appeared(client) =>
          steps := [ClientPut(client)];
          RunOne(State(), ClientPut(client));
          ghost var before := State();
          DispatchClientConnect(client);
          PutKeepsServing(State(), before, client);
        case Disappeared(client, meanwhile) =>
          if client in tracked {
            steps := [ClientDelete(client)] + Steps(meanwhile) + [Send];
          }
          HandleClientDisconnect(client, meanwhile);
        case TasksRun(ts) =>
          steps := Steps(ts);
          RunTasks(ts);
        case StillActive =>
      }
    }

    /** Replays the existing clients, then follows the live stream until demotion
        or shutdown, handling every event before that. */
    method ServeActive(turn: Turn) returns (end: ServeEnd, n: nat, ghost steps: seq<Step>)
      requires Valid() && phase == Serving && unsent == []
      modifies this
      ensures Valid() && State() == Run(old(State()), steps) && StaysOn(turn.arms, n)
      ensures end.KeepsServing? ==> n == |turn.arms|
      ensures end.EndDemoted? ==> n < |turn.arms| && turn.arms[n].Demoted?
      ensures end.EndShutdown? ==> n < |turn.arms| && turn.arms[n].ShutdownRequested?
      ensures !end.EndShutdown? ==>
                phase == Serving && unsent == [] && State() == Served(old(State()), turn.existing, turn.arms[..n])
      ensures Attended(turn.existing, turn.arms[..n], old(State()),
                       Served(old(State()), turn.existing, turn.arms[..n]))
      ensures end.EndShutdown? ==>
                && phase == Stopped
                && var last := Served(old(State()), turn.existing, turn.arms[..n]);
                   forall c :: c in last.tracked ==>
                     last.tracked[c] < |tasks| && Finished(tasks[last.tracked[c]])
    {
      ghost var start := State();
      assert Attending(start);
      hide Inv, Next, Finished, Attended, Attending, Served, AfterArm, Run, StaysOn;
      n := 0;
      steps := ReplayExisting(turn.existing);
      assert turn.arms[..0] == [] && StaysOn(turn.arms, 0);
      end := KeepsServing;
      while n < |turn.arms| && end == KeepsServing
        invariant n <= |turn.arms| && StaysOn(turn.arms, n)
        invariant Valid() && phase == Serving && unsent == []
        invariant State() == Run(start, steps) == Served(start, turn.existing, turn.arms[..n])
        invariant end.EndDemoted? ==> n < |turn.arms| && turn.arms[n].Demoted?
        invariant end.EndShutdown? ==> n < |turn.arms| && turn.arms[n].ShutdownRequested?
        decreases |turn.arms| - n, end == KeepsServing
      {
        match turn.arms[n] {
          case Demoted => end := EndDemoted;
          case ShutdownRequested => end := EndShutdown;
          case _ =>
            ServedSnoc(start, turn.existing, turn.arms, n);
            StaysOnSnoc(turn.arms, n);
            ghost var more := Handle(turn.arms[n]);
            RunConcat(start, steps, more);
            steps := steps + more;
            n := n + 1;
        }
      }
      AllAttended(start, turn.existing, turn.arms, n);
      if end == EndShutdown {
        ghost var more := DrainAllClients(true, turn.sending, turn.joining);
        RunConcat(start, steps, more);
        steps := steps + more;
      }
    }

    /** The role loop: stand by until elected, serve until demoted or shut down,
        turn after turn until a turn does not end in a demotion.  Whatever it does
        is a run of the steps above. */
    method RunExportLoop(turns: seq<Turn>) returns (ghost steps: seq<Step>, ghost states: seq<Loop>)
      requires State() == Start()
      modifies this
      ensures Valid() && State() == Run(Start(), steps)
      ensures TurnsRan(states, turns) && State() == states[|states| - 1]
      ensures phase == Standby ==> |states| == |turns| + 1
      ensures phase == Standby || phase == Stopped || (phase == Serving && unsent == [])
      ensures phase == Standby ==> forall turn :: turn in turns ==> EndsDemoted(turn)
      ensures phase == Stopped ==> exists turn :: turn in turns && MayStop(turn)
      ensures phase == Serving ==> exists turn :: turn in turns && KeepsOn(turn)
    {
      hide Inv, Next, TurnsRan, TurnRan, EndsDemoted, MayStop, KeepsOn;
      StartInv();
      steps, states := [], [State()];
      FirstTurn(turns);
      for i := 0 to |turns|
        invariant Valid() && State() == Run(Start(), steps) && phase == Standby && unsent == []
        invariant forall k :: 0 <= k < i ==> EndsDemoted(turns[k])
        invariant TurnsRan(states, turns) && |states| == i + 1 && State() == states[i]
      {
        assert turns[i] in turns;
        ghost var more;
        more := RunTurn(turns[i]);
        RunConcat(Start(), steps, more);
        TurnsSnoc(states, turns, State());
        steps, states := steps + more, states + [State()];
        if phase != Standby {
          return;
        }
      }
    }

    /** One turn. */
    method RunTurn(turn: Turn) returns (ghost steps: seq<Step>)
      requires Valid() && phase == Standby && unsent == []
      modifies this
      ensures Valid() && State() == Run(old(State()), steps)
      ensures TurnRan(old(State()), turn, State())
      ensures phase == Standby || phase == Stopped || phase == Serving
      ensures phase != Stopped ==> unsent == []
      ensures phase == Standby ==> EndsDemoted(turn)
      ensures phase == Stopped ==> MayStop(turn)
      ensures phase == Serving ==> KeepsOn(turn)
    {
      hide Inv, Next, Attended, Served, Finished;
      ghost var start := State();
      steps := [];
      assert Run(start, []) == start;
      hide Run;
      if turn.shutdownFirst {
        phase := Stopped;
        Leaves(start, [], start, StandbyShutdown);
        return [] + [StandbyShutdown];
      }
      phase := Starting;
      Leaves(start, [], start, Elected);
      steps := [] + [Elected];
      if !turn.setupOk {
        Leaves(start, steps, State(), StartFails);
        phase := Stopped;
        return steps + [StartFails];
      }
      Leaves(start, steps, State(), StartServing);
      phase := Serving;
      steps := steps + [StartServing];
      ghost var serving := State();
      var end, n;
      ghost var more;
      end, n, more := ServeActive(turn);
      RunConcat(start, steps, more);
      steps := steps + more;
      if end.EndDemoted? {
        more := DrainAllClients(false, turn.sending, turn.joining);
        RunConcat(start, steps, more);
        steps := steps + more;
      }
      assert ServedUntil(serving, turn, n, State());
    }
  }

  lemma RunMore(l: Loop, a: seq<Step>, b: seq<Step>, step: Step)
    ensures Run(l, a + b + [step]) == Next(Run(Run(l, a), b), step)
  {
    RunConcat(l, a, b);
    RunConcat(l, a + b, [step]);
    RunOne(Run(l, a + b), step);
  }

  lemma StartInv()
    ensures Inv(Start())
  {
  }

  lemma PutKeepsServing(l': Loop, l: Loop, client: string)
    requires l.phase == Serving && l.unsent == [] && l' == Next(l, ClientPut(client))
    ensures l'.phase == Serving && l'.unsent == []
  {
  }

  /** The role changes outside serving. */
  lemma Leaves(from: Loop, steps: seq<Step>, l: Loop, step: Step)
    requires Inv(l) && l == Run(from, steps) && l.unsent == []
    requires (l.phase == Standby && (step.Elected? || step.StandbyShutdown?)) ||
             (l.phase == Starting && (step.StartServing? || step.StartFails?))
    ensures var phase := if step.Elected? then Starting else if step.StartServing? then Serving else Stopped;
            Run(from, steps + [step]) == l.(phase := phase) && Inv(l.(phase := phase))
  {
    NextKeeps(l, step);
    RunMore(from, steps, [], step);
    assert steps + [] == steps;
  }

  lemma FirstTurn(turns: seq<Turn>)
    ensures TurnsRan([Start()], turns)
  {
  }

  lemma DrainTakes(l: Loop, shutdown: bool, order: seq<nat>)
    requires l.phase == Serving && l.unsent == [] && Lists(order, l.tracked)
    ensures var l' := Next(l, Drain(shutdown, order));
            l'.phase == Draining(shutdown) && l'.unsent == order && l'.entries == order
  {
  }

  lemma SendTakes(l: Loop)
    requires Inv(l) && l.unsent != []
    ensures var l' := Next(l, Send);
            l'.unsent == l.unsent[1..] && l'.phase == l.phase && l'.entries == l.entries
  {
    assert l.unsent[0] in l.unsent;
  }

  lemma EndDrains(l: Loop)
    requires Inv(l) && l.phase.Draining? && l.unsent == [] && l.entries == []
    ensures Next(l, EndDrain) == l.(phase := if l.phase.shutdown then Stopped else Standby)
    ensures Inv(Next(l, EndDrain))
  {
    NextKeeps(l, EndDrain);
  }
}

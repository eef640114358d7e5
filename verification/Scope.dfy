/** All exporters of one scope, and the liveliness samples under way between
    them: whole runs of the election (src/export/election.rs). */
module Scope {
  import opened Streams
  import opened ClaimOrder
  import opened Election

  /** An exporter, known by its claim.  `elected` is what it last concluded. */
  datatype Exporter = Exporter(declared: bool, looked: bool, elected: bool, claims: set<string>, inbox: seq<Event>)

  /** Samples about one claim reach one observer in order; samples about different
      claims may overtake each other.  `cut` pairs are partitioned. */
  datatype World = World(
    exporters: map<string, Exporter>,
    net: (string, string) -> seq<Kind>,
    cut: (string, string) -> bool)

  datatype Step =
    | Subscribe(j: string)
    | Declare(j: string)
    | Leave(j: string)
    | Deliver(o: string, c: string)
    | Look(o: string)
    | Cut(o: string, c: string)
    | Heal(o: string, c: string)

  function Start(): World {
    World(map[], (o, c) => [], (o, c) => false)
  }

  predicate Declared(w: World, c: string) {
    c in w.exporters && w.exporters[c].declared
  }

  /** Whether the bus shows claim `c` to observer `o`; nobody loses sight of its
      own claim. */
  predicate Visible(w: World, o: string, c: string) {
    o in w.exporters && Declared(w, c) && (o == c || !w.cut(o, c))
  }

  /** Queue one sample about `c` for every observer that sees it. */
  function Announce(w: World, c: string, kind: Kind): (string, string) -> seq<Kind> {
    (o: string, d: string) =>
      if d == c && o in w.exporters && (o == c || !w.cut(o, c)) then w.net(o, d) + [kind] else w.net(o, d)
  }

  function Tell(w: World, o: string, c: string, kind: Kind): (string, string) -> seq<Kind> {
    (p: string, d: string) => if p == o && d == c then w.net(p, d) + [kind] else w.net(p, d)
  }

  function SetCut(w: World, o: string, c: string, severed: bool): (string, string) -> bool {
    (p: string, d: string) => if p == o && d == c then severed else w.cut(p, d)
  }

  /** The subscriber replays the claims that predate it. */
  function History(w: World, j: string): (string, string) -> seq<Kind> {
    (o: string, c: string) =>
      if o != j then w.net(o, c) else if c != j && Declared(w, c) && !w.cut(j, c) then [Put] else []
  }

  function LookStep(e: Exporter, own: string): Exporter {
    var claims := ApplyAll(e.claims, e.inbox);
    e.(looked := true, claims := claims, inbox := [], elected := Elect(claims, own))
  }

  function Next(w: World, step: Step): World {
    match step
    case Subscribe(j) =>
      if j in w.exporters then w
      else w.(net := History(w, j), exporters := w.exporters[j := Exporter(false, false, false, {}, [])])
    case Declare(j) =>
      if j !in w.exporters || Declared(w, j) then w
      else
        var e := w.exporters[j];
        w.(net := Announce(w, j, Put), exporters := w.exporters[j := e.(declared := true, claims := {j})])
    case Leave(j) =>
      if j !in w.exporters then w
      else w.(net := if Declared(w, j) then Announce(w, j, Delete) else w.net, exporters := w.exporters - {j})
    case Deliver(o, c) =>
      if o !in w.exporters || w.net(o, c) == [] then w
      else
        var e := w.exporters[o];
        var e' := e.(inbox := e.inbox + [Event(c, w.net(o, c)[0])]);
        w.(net := (p, d) => if p == o && d == c then w.net(p, d)[1..] else w.net(p, d),
           exporters := w.exporters[o := e'])
    case Look(o) =>
      if !Declared(w, o) then w else w.(exporters := w.exporters[o := LookStep(w.exporters[o], o)])
    case Cut(o, c) =>
      if o == c || w.cut(o, c) then w
      else w.(net := if Visible(w, o, c) then Tell(w, o, c, Delete) else w.net, cut := SetCut(w, o, c, true))
    case Heal(o, c) =>
      if o == c || !w.cut(o, c) then w
      else w.(net := if o in w.exporters && Declared(w, c) then Tell(w, o, c, Put) else w.net,
              cut := SetCut(w, o, c, false))
  }

  function Run(w: World, steps: seq<Step>): World {
    if steps == [] then w else Next(Run(w, steps[..|steps| - 1]), steps[|steps| - 1])
  }

  // --- What samples under way add up to ---

  function KindsOf(events: seq<Event>, c: string): seq<Kind> {
    if events == [] then []
    else
      var last := events[|events| - 1];
      KindsOf(events[..|events| - 1], c) + if last.claim == c then [last.kind] else []
  }

  /** Everything about `c` on its way to `o`: waiting at `o`, then on the bus. */
  function Pending(w: World, o: string, c: string): seq<Kind>
    requires o in w.exporters
  {
    KindsOf(w.exporters[o].inbox, c) + w.net(o, c)
  }

  /** Membership after a row of samples: the last one decides. */
  predicate After(member: bool, kinds: seq<Kind>) {
    if kinds == [] then member else kinds[|kinds| - 1] == Put
  }

  lemma {:induction false} ApplyIsAfter(claims: set<string>, events: seq<Event>, c: string)
    ensures c in ApplyAll(claims, events) <==> After(c in claims, KindsOf(events, c))
  {
    if events != [] {
      ApplyIsAfter(claims, events[..|events| - 1], c);
    }
  }

  // --- The invariant ---

  /** View and samples under way together tell `o` the truth about `c`. */
  ghost predicate Tracks(w: World, o: string, c: string)
    requires o in w.exporters
  {
    After(c in w.exporters[o].claims, Pending(w, o, c)) <==> Visible(w, o, c)
  }

  ghost predicate Sane(w: World, o: string)
    requires o in w.exporters
  {
    var e := w.exporters[o];
    && (e.elected ==> e.looked)
    && (e.looked ==> e.declared)
    && (e.looked ==> (e.elected <==> Elect(e.claims, o)))
    && (e.declared ==> o in e.claims && Delete !in Pending(w, o, o))
    && (!e.declared ==> e.claims == {} && Pending(w, o, o) == [])
  }

  ghost predicate Inv(w: World) {
    && (forall o, c :: o in w.exporters ==> Tracks(w, o, c))
    && (forall o :: o in w.exporters ==> Sane(w, o))
  }

  lemma KindsSnoc(events: seq<Event>, e: Event, c: string)
    ensures KindsOf(events + [e], c) == KindsOf(events, c) + if e.claim == c then [e.kind] else []
  {
    assert (events + [e])[..|events|] == events;
  }

  /** One more sample decides alone. */
  lemma AfterSnoc(member: bool, kinds: seq<Kind>, more: seq<Kind>, kind: Kind)
    ensures After(member, kinds + (more + [kind])) <==> kind == Put
  {
    assert (kinds + (more + [kind]))[|kinds| + |more|] == kind;
  }

  lemma TracksAnnounce(w: World, c: string, kind: Kind, w': World, o: string, d: string)
    requires o in w.exporters && o in w'.exporters && Tracks(w, o, d)
    requires w'.net == Announce(w, c, kind) && w'.cut == w.cut
    requires w'.exporters[o].inbox == w.exporters[o].inbox
    requires d != c || o != c ==> (d in w'.exporters[o].claims <==> d in w.exporters[o].claims)
    requires d != c ==> (Declared(w', d) <==> Declared(w, d))
    requires Declared(w', c) <==> kind == Put
    requires Declared(w, c) <==> kind == Delete
    ensures Tracks(w', o, d)
  {
    if d == c && (o == c || !w.cut(o, c)) {
      AfterSnoc(d in w'.exporters[o].claims, KindsOf(w.exporters[o].inbox, d), w.net(o, d), kind);
    }
  }

  lemma Moved(kinds: seq<Kind>, net: seq<Kind>)
    ensures (kinds + []) + net == kinds + net
    ensures net != [] ==> (kinds + [net[0]]) + net[1..] == kinds + net
  {
  }

  lemma DeliverKeepsPending(w: World, o: string, c: string, p: string, d: string)
    requires p in w.exporters && o in w.exporters && w.net(o, c) != []
    ensures Pending(Next(w, Deliver(o, c)), p, d) == Pending(w, p, d)
  {
    hide KindsOf, Elect, ApplyAll;
    if p == o {
      KindsSnoc(w.exporters[o].inbox, Event(c, w.net(o, c)[0]), d);
      Moved(KindsOf(w.exporters[o].inbox, d), w.net(o, d));
    }
  }

  lemma AfterConcat(member: bool, kinds: seq<Kind>, net: seq<Kind>)
    ensures After(After(member, kinds), [] + net) <==> After(member, kinds + net)
  {
    assert kinds + net == if net == [] then kinds else (kinds + net[..|net| - 1]) + [net[|net| - 1]];
    assert [] + net == net;
  }

  lemma LookKeepsTracking(w: World, o: string, d: string)
    requires Declared(w, o) && Tracks(w, o, d)
    ensures Tracks(Next(w, Look(o)), o, d)
  {
    var e := w.exporters[o];
    ApplyIsAfter(e.claims, e.inbox, d);
    AfterConcat(d in e.claims, KindsOf(e.inbox, d), w.net(o, d));
    assert KindsOf([], d) == [];
    hide KindsOf, Elect, ApplyAll, After;
  }

  lemma SubscribeTracks(w: World, j: string, d: string)
    requires j !in w.exporters
    ensures Tracks(Next(w, Subscribe(j)), j, d)
  {
    hide Elect, ApplyAll;
    var w' := Next(w, Subscribe(j));
    assert w'.net(j, d) == History(w, j)(j, d);
    assert Pending(w', j, d) == [] + w'.net(j, d) == w'.net(j, d);
    if d != j && Declared(w, d) && !w.cut(j, d) {
      assert w'.net(j, d) == [Put];
    } else {
      assert w'.net(j, d) == [];
    }
  }

  lemma DeclareTracks(w: World, j: string, o: string, d: string)
    requires j in w.exporters && !Declared(w, j) && Sane(w, j)
    requires o in w.exporters && Tracks(w, o, d)
    ensures Tracks(Next(w, Declare(j)), o, d)
  {
    hide Elect, ApplyAll, KindsOf, After, Announce;
    if d == j && o == j {
      AfterSnoc(true, [], w.net(o, d), Put);
    }
    TracksAnnounce(w, j, Put, Next(w, Declare(j)), o, d);
  }

  lemma TellTracks(w: World, step: Step, o: string, d: string)
    requires step == Cut(o, d) || step == Heal(o, d)
    requires o in w.exporters && Tracks(w, o, d)
    ensures Tracks(Next(w, step), o, d)
  {
    hide KindsOf, Elect, ApplyAll, After;
    var e := w.exporters[o];
    AfterSnoc(d in e.claims, KindsOf(e.inbox, d), w.net(o, d), if step.Cut? then Delete else Put);
  }

  lemma TracksNext(w: World, step: Step, o: string, d: string)
    requires o in w.exporters ==> Tracks(w, o, d)
    requires step.Declare? && step.j in w.exporters ==> Sane(w, step.j)
    requires o in Next(w, step).exporters
    ensures Tracks(Next(w, step), o, d)
  {
    hide After, KindsOf, Elect, ApplyAll, Sane;
    match step
    case Subscribe(j) =>
      if o == j && j !in w.exporters {
        SubscribeTracks(w, j, d);
      }
    case Declare(j) =>
      if j in w.exporters && !Declared(w, j) {
        DeclareTracks(w, j, o, d);
      }
    case Leave(j) =>
      if Declared(w, j) {
        TracksAnnounce(w, j, Delete, Next(w, step), o, d);
      }
    case Deliver(p, c) =>
      if p in w.exporters && w.net(p, c) != [] {
        DeliverKeepsPending(w, p, c, o, d);
      }
    case Look(p) =>
      if Declared(w, p) && o == p {
        LookKeepsTracking(w, o, d);
      }
    case Cut(p, c) =>
      if p == o && c == d {
        TellTracks(w, step, o, d);
      }
    case Heal(p, c) =>
      if p == o && c == d {
        TellTracks(w, step, o, d);
      }
  }

  lemma SubscribeIsSane(w: World, o: string)
    requires o !in w.exporters
    ensures Sane(Next(w, Subscribe(o)), o)
  {
    assert Next(w, Subscribe(o)).net(o, o) == History(w, o)(o, o) == [];
    assert KindsOf([], o) + [] == [];
    hide Elect, ApplyAll;
  }

  lemma DeclareIsSane(w: World, o: string)
    requires o in w.exporters && Sane(w, o)
    ensures Sane(Next(w, Declare(o)), o)
  {
    hide Elect, ApplyAll, KindsOf;
    if !Declared(w, o) {
      var w' := Next(w, Declare(o));
      assert w.net(o, o) == [] && KindsOf(w.exporters[o].inbox, o) == [];
      assert w'.net(o, o) == Announce(w, o, Put)(o, o) == [Put];
      InConcat([], [Put], Delete);
    }
  }

  lemma SaneNext(w: World, step: Step, o: string)
    requires o in w.exporters ==> Sane(w, o)
    requires o in Next(w, step).exporters
    ensures Sane(Next(w, step), o)
  {
    hide Elect, ApplyAll, KindsOf;
    match step
    case Subscribe(j) =>
      if j == o && o !in w.exporters {
        SubscribeIsSane(w, o);
      }
    case Declare(j) =>
      if j == o {
        DeclareIsSane(w, o);
      }
    case Deliver(p, c) =>
      if p in w.exporters && w.net(p, c) != [] {
        DeliverKeepsPending(w, p, c, o, o);
      }
    case Look(p) =>
      if Declared(w, p) && o == p {
        LookKeepsOwn(w, o);
      }
    case _ =>
  }

  lemma InConcat(kinds: seq<Kind>, net: seq<Kind>, kind: Kind)
    ensures kind in kinds + net <==> kind in kinds || kind in net
  {
  }

  lemma LookKeepsOwn(w: World, o: string)
    requires Declared(w, o) && Sane(w, o)
    ensures Sane(Next(w, Look(o)), o)
  {
    var e := w.exporters[o];
    ApplyIsAfter(e.claims, e.inbox, o);
    InConcat(KindsOf(e.inbox, o), w.net(o, o), Delete);
    InConcat([], w.net(o, o), Delete);
    assert KindsOf([], o) == [];
    assert After(true, KindsOf(e.inbox, o));
    hide KindsOf, Elect, ApplyAll, After;
  }

  lemma InvNext(w: World, step: Step)
    requires Inv(w)
    ensures Inv(Next(w, step))
  {
    hide Tracks, Sane, Next;
    var w' := Next(w, step);
    forall o, c | o in w'.exporters ensures Tracks(w', o, c) {
      TracksNext(w, step, o, c);
    }
    forall o | o in w'.exporters ensures Sane(w', o) {
      SaneNext(w, step, o);
    }
  }

  lemma {:induction false} RunKeeps(steps: seq<Step>)
    ensures Inv(Run(Start(), steps))
  {
    if steps != [] {
      RunKeeps(steps[..|steps| - 1]);
      InvNext(Run(Start(), steps[..|steps| - 1]), steps[|steps| - 1]);
    }
  }

  // --- What the election promises, in every reachable world ---

  /** If `j` acts although the smaller claim `i` is live and not partitioned from
      it, then it has not been told: a Put of `i` is still on its way to `j`, and
      is the last thing on its way about `i`. */
  lemma UntoldUntilServed(steps: seq<Step>, i: string, j: string)
    ensures var w := Run(Start(), steps);
            Declared(w, i) && Declared(w, j) && w.exporters[j].elected && Less(i, j) && !w.cut(j, i) ==>
              PutUnderWay(w, j, i)
  {
    RunKeeps(steps);
    Untold(Run(Start(), steps), i, j);
  }

  /** The last thing on its way to `j` about `i` is a Put. */
  ghost predicate PutUnderWay(w: World, j: string, i: string)
    requires j in w.exporters
  {
    var pending := Pending(w, j, i);
    pending != [] && pending[|pending| - 1] == Put
  }

  lemma Untold(w: World, i: string, j: string)
    requires Inv(w)
    ensures Declared(w, i) && Declared(w, j) && w.exporters[j].elected && Less(i, j) && !w.cut(j, i) ==>
              PutUnderWay(w, j, i)
  {
    if Declared(w, i) && Declared(w, j) && w.exporters[j].elected && Less(i, j) && !w.cut(j, i) {
      LessTotal(i, j);
      assert Sane(w, j) && Tracks(w, j, i);
    }
  }

  /** Everything sent was delivered and looked at, and no pair is partitioned. */
  ghost predicate Settled(w: World) {
    forall o :: o in w.exporters ==>
      && w.exporters[o].looked && w.exporters[o].inbox == []
      && forall c :: w.net(o, c) == [] && !w.cut(o, c)
  }

  /** Once settled, every exporter knows exactly the live claims, and exactly
      one, the smallest, is active. */
  lemma SettledElectsOne(steps: seq<Step>) returns (m: string)
    ensures var w := Run(Start(), steps);
            Settled(w) && w.exporters != map[] ==>
              && Elect(w.exporters.Keys, m)
              && forall o :: o in w.exporters ==> (w.exporters[o].elected <==> o == m)
  {
    RunKeeps(steps);
    m := OneElected(Run(Start(), steps));
  }

  lemma OneElected(w: World) returns (m: string)
    requires Inv(w)
    ensures Settled(w) && w.exporters != map[] ==>
              && Elect(w.exporters.Keys, m)
              && forall o :: o in w.exporters ==> (w.exporters[o].elected <==> o == m)
  {
    m := "";
    if Settled(w) && w.exporters != map[] {
      forall o | o in w.exporters ensures w.exporters[o].claims == w.exporters.Keys && Sane(w, o) {
        KnowsAll(w, o);
      }
      m := SomeoneElected(w.exporters.Keys);
      forall o | o in w.exporters ensures w.exporters[o].elected <==> o == m {
        if w.exporters[o].elected {
          AtMostOneElected(w.exporters.Keys, o, m);
        }
      }
    }
  }

  lemma KnowsAll(w: World, o: string)
    requires Inv(w) && Settled(w) && o in w.exporters
    ensures w.exporters[o].claims == w.exporters.Keys
  {
    assert forall c :: c in w.exporters ==> Sane(w, c);
    forall c ensures c in w.exporters[o].claims <==> c in w.exporters {
      assert Tracks(w, o, c);
      assert KindsOf([], c) + [] == [];
    }
  }

  /** A look demotes only on the word of a smaller claim: Puts of larger claims
      and withdrawals never do. */
  lemma DemotionNeedsOlder(w: World, j: string)
    requires Inv(w) && Declared(w, j) && w.exporters[j].elected
    ensures Next(w, Look(j)).exporters[j].elected ||
            exists i :: Less(i, j) && Event(i, Put) in w.exporters[j].inbox
  {
    var e := w.exporters[j];
    assert Sane(w, j) && Sane(Next(w, Look(j)), j) by {
      SaneNext(w, Look(j), j);
    }
    var after := ApplyAll(e.claims, e.inbox);
    if !Elect(after, j) {
      var i :| i in after && i != j && !Less(j, i);
      LessTotal(i, j);
      if i in e.claims {
        LessTotal(j, i);
      } else {
        AppliedWasPut(e.claims, e.inbox, i);
      }
    }
  }

  lemma {:induction false} AppliedWasPut(claims: set<string>, events: seq<Event>, i: string)
    requires i in ApplyAll(claims, events) && i !in claims
    ensures Event(i, Put) in events
  {
    if events != [] {
      var last := events[|events| - 1];
      if last != Event(i, Put) {
        AppliedWasPut(claims, events[..|events| - 1], i);
      }
    }
  }

  /** `j` acts, and nothing smaller is live for it or on its way to it. */
  ghost predicate Secure(w: World, j: string) {
    && Declared(w, j) && w.exporters[j].elected
    && forall i :: Less(i, j) ==> Unheard(w, j, i)
  }

  ghost predicate Unheard(w: World, j: string, i: string)
    requires j in w.exporters
  {
    i !in w.exporters[j].claims && Put !in Pending(w, j, i) && !Visible(w, j, i)
  }

  lemma SettledIsSecure(steps: seq<Step>, j: string)
    ensures var w := Run(Start(), steps);
            Settled(w) && Declared(w, j) && w.exporters[j].elected ==> Secure(w, j)
  {
    var w := Run(Start(), steps);
    RunKeeps(steps);
    if Settled(w) && Declared(w, j) && w.exporters[j].elected {
      KnowsAll(w, j);
      assert Sane(w, j);
      forall i | Less(i, j) ensures Unheard(w, j, i) {
        LessTotal(i, j);
        assert KindsOf([], i) + [] == [];
      }
    }
  }

  /** A step that neither ends `j` nor brings a smaller claim into its sight. */
  predicate NoElder(step: Step, j: string) {
    && step != Leave(j)
    && (step.Declare? ==> !Less(step.j, j))
    && (step.Heal? && step.o == j ==> !Less(step.c, j))
  }

  lemma LookUnheard(w: World, j: string, i: string)
    requires Declared(w, j) && Unheard(w, j, i)
    ensures Unheard(Next(w, Look(j)), j, i)
  {
    var e := w.exporters[j];
    ApplyIsAfter(e.claims, e.inbox, i);
    InConcat(KindsOf(e.inbox, i), w.net(j, i), Put);
    InConcat([], w.net(j, i), Put);
    assert KindsOf([], i) == [];
    assert !After(false, KindsOf(e.inbox, i));
    hide KindsOf, Elect, ApplyAll, After;
  }

  lemma UnheardNext(w: World, step: Step, j: string, i: string)
    requires Declared(w, j) && Less(i, j) && Unheard(w, j, i) && NoElder(step, j)
    ensures Unheard(Next(w, step), j, i)
  {
    LessTotal(i, j);
    hide Elect, KindsOf, ApplyAll, Less;
    match step
    case Deliver(p, c) =>
      if p in w.exporters && w.net(p, c) != [] {
        DeliverKeepsPending(w, p, c, j, i);
      }
    case Look(p) =>
      if p == j {
        LookUnheard(w, j, i);
      }
    case _ =>
  }

  lemma SecureNext(w: World, step: Step, j: string)
    requires Inv(w) && Secure(w, j) && NoElder(step, j)
    ensures Secure(Next(w, step), j)
  {
    var w' := Next(w, step);
    forall i | Less(i, j) ensures Unheard(w', j, i) {
      UnheardNext(w, step, j, i);
    }
    SaneNext(w, step, j);
    forall c | c in w'.exporters[j].claims && c != j ensures Less(j, c) {
      LessTotal(c, j);
    }
  }

  /** Newcomers never preempt: from a state in which `j` acts and nothing smaller
      is known to it or under way, it acts in every continuation that shows it
      no smaller claim, whatever joins, leaves, partitions or overtakes. */
  lemma {:induction false} Sticky(steps: seq<Step>, more: seq<Step>, j: string)
    requires Secure(Run(Start(), steps), j)
    requires forall k :: 0 <= k < |more| ==> NoElder(more[k], j)
    ensures Inv(Run(Run(Start(), steps), more)) && Secure(Run(Run(Start(), steps), more), j)
  {
    if more == [] {
      RunKeeps(steps);
    } else {
      var before := more[..|more| - 1];
      Sticky(steps, before, j);
      InvNext(Run(Run(Start(), steps), before), more[|more| - 1]);
      SecureNext(Run(Run(Start(), steps), before), more[|more| - 1], j);
    }
  }

  lemma RunSnoc(w: World, steps: seq<Step>, step: Step)
    ensures Run(w, steps + [step]) == Next(Run(w, steps), step)
  {
    assert (steps + [step])[..|steps|] == steps;
  }

  /** An exporter that starts before it hears of anybody elects itself. */
  lemma JoinAlone(steps: seq<Step>, j: string)
    requires j !in Run(Start(), steps).exporters
    ensures var w, w' := Run(Start(), steps), Run(Start(), steps + [Subscribe(j)] + [Declare(j)] + [Look(j)]);
            && Declared(w', j) && w'.exporters[j].elected
            && w'.exporters.Keys == w.exporters.Keys + {j}
            && forall o :: o in w.exporters ==> w'.exporters[o] == w.exporters[o]
  {
    RunSnoc(Start(), steps, Subscribe(j));
    RunSnoc(Start(), steps + [Subscribe(j)], Declare(j));
    RunSnoc(Start(), steps + [Subscribe(j)] + [Declare(j)], Look(j));
  }

  /** So the hypothesis on samples under way is needed: any two exporters can
      both be acting until they hear of each other. */
  lemma BothUntilTold(i: string, j: string)
    requires i != j
    ensures exists steps :: var w := Run(Start(), steps);
              Declared(w, i) && Declared(w, j) && w.exporters[i].elected && w.exporters[j].elected
  {
    var one := [] + [Subscribe(j)] + [Declare(j)] + [Look(j)];
    JoinAlone([], j);
    JoinAlone(one, i);
    var w := Run(Start(), one + [Subscribe(i)] + [Declare(i)] + [Look(i)]);
    assert Declared(w, i) && Declared(w, j) && w.exporters[i].elected && w.exporters[j].elected;
  }

  // --- Failover completes ---

  ghost function EverDeclared(steps: seq<Step>): set<string> {
    if steps == [] then {}
    else
      var last := steps[|steps| - 1];
      EverDeclared(steps[..|steps| - 1]) + if last.Declare? then {last.j} else {}
  }

  lemma {:induction false} OnlyAboutDeclared(steps: seq<Step>, o: string, c: string)
    ensures var w := Run(Start(), steps);
            Declared(w, c) || w.net(o, c) != [] ==> c in EverDeclared(steps)
  {
    hide Elect, ApplyAll;
    if steps != [] {
      OnlyAboutDeclared(steps[..|steps| - 1], o, c);
    }
  }

  /** The same exporters and partitions, and nothing new under way. */
  ghost predicate Quieter(w: World, w': World) {
    && w'.exporters.Keys == w.exporters.Keys && w'.cut == w.cut
    && (forall o :: o in w.exporters ==> w'.exporters[o].declared == w.exporters[o].declared)
    && (forall o, c :: w'.net(o, c) == w.net(o, c) || w'.net(o, c) == [])
  }

  lemma {:induction false} RunConcat(w: World, a: seq<Step>, b: seq<Step>)
    ensures Run(w, a + b) == Run(Run(w, a), b)
  {
    hide Next;
    if b == [] {
      assert a + b == a;
    } else {
      assert (a + b)[..|a + b| - 1] == a + b[..|b| - 1];
      RunConcat(w, a, b[..|b| - 1]);
    }
  }

  /** Samples arrive and exporters look: nothing else happens. */
  predicate Settling(steps: seq<Step>) {
    forall step :: step in steps ==> step.Deliver? || step.Look?
  }

  ghost predicate OnlyAt(w: World, w': World, os: set<string>) {
    w'.exporters.Keys == w.exporters.Keys && forall p :: p in w.exporters && p !in os ==> w'.exporters[p] == w.exporters[p]
  }

  lemma {:induction false} DeliverAll(w: World, o: string, c: string) returns (more: seq<Step>)
    requires o in w.exporters
    ensures Settling(more)
    ensures Quieter(w, Run(w, more)) && OnlyAt(w, Run(w, more), {o})
    ensures Run(w, more).net(o, c) == []
    decreases |w.net(o, c)|
  {
    if w.net(o, c) == [] {
      more := [];
    } else {
      var w' := Next(w, Deliver(o, c));
      assert forall p, d :: p != o || d != c ==> w'.net(p, d) == w.net(p, d);
      var rest := DeliverAll(w', o, c);
      more := [Deliver(o, c)] + rest;
      RunSnoc(w, [], Deliver(o, c));
      assert [] + [Deliver(o, c)] == [Deliver(o, c)];
      RunConcat(w, [Deliver(o, c)], rest);
      assert forall p, d :: Run(w, more).net(p, d) == w'.net(p, d) || Run(w, more).net(p, d) == [];
    }
  }

  lemma {:induction false} DeliverTo(w: World, o: string, cs: set<string>) returns (more: seq<Step>)
    requires o in w.exporters
    ensures Settling(more)
    ensures Quieter(w, Run(w, more)) && OnlyAt(w, Run(w, more), {o})
    ensures forall c :: c in cs ==> Run(w, more).net(o, c) == []
    decreases cs
  {
    hide Next;
    if cs == {} {
      more := [];
    } else {
      var c :| c in cs;
      var first := DeliverTo(w, o, cs - {c});
      var w' := Run(w, first);
      var rest := DeliverAll(w', o, c);
      more := first + rest;
      RunConcat(w, first, rest);
      assert forall d :: Run(w, more).net(o, d) == w'.net(o, d) || Run(w, more).net(o, d) == [];
    }
  }

  /** Deliver everything to the observers `os`, each of which then looks. */
  lemma {:induction false} SettleAll(w: World, os: set<string>, cs: set<string>) returns (more: seq<Step>)
    requires os <= w.exporters.Keys && forall o :: o in os ==> w.exporters[o].declared
    ensures Settling(more)
    ensures var w' := Run(w, more);
            && Quieter(w, w') && OnlyAt(w, w', os)
            && forall o :: o in os ==>
                 && w'.exporters[o].looked && w'.exporters[o].inbox == []
                 && forall c :: c in cs ==> w'.net(o, c) == []
    decreases os
  {
    if os == {} {
      more := [];
    } else {
      var o :| o in os;
      var first := DeliverTo(w, o, cs);
      var w1 := Run(w, first);
      var w2 := Next(w1, Look(o));
      RunSnoc(w, first, Look(o));
      var rest := SettleAll(w2, os - {o}, cs);
      more := (first + [Look(o)]) + rest;
      RunConcat(w, first + [Look(o)], rest);
      var w3 := Run(w2, rest);
      assert forall c :: c in cs ==> w2.net(o, c) == [];
    }
  }

  /** From every reachable state without partitions or half-started exporters,
      deliveries and looks alone lead to a settled state: after a failure the
      survivors agree on exactly one active exporter, the smallest left. */
  lemma FailoverCompletes(steps: seq<Step>) returns (more: seq<Step>, m: string)
    requires var w := Run(Start(), steps);
             && w.exporters != map[]
             && (forall o :: o in w.exporters ==> w.exporters[o].declared)
             && (forall o, c :: !w.cut(o, c))
    ensures Settling(more)
    ensures var w, w' := Run(Start(), steps), Run(Start(), steps + more);
            && Settled(w') && w'.exporters.Keys == w.exporters.Keys
            && Elect(w.exporters.Keys, m)
            && forall o :: o in w.exporters ==> (w'.exporters[o].elected <==> o == m)
  {
    hide Next, Elect;
    var w := Run(Start(), steps);
    more := SettleAll(w, w.exporters.Keys, EverDeclared(steps));
    RunConcat(Start(), steps, more);
    var w' := Run(w, more);
    forall o, c | o in w'.exporters ensures w'.net(o, c) == [] && !w'.cut(o, c) {
      OnlyAboutDeclared(steps, o, c);
    }
    m := SettledElectsOne(steps + more);
  }

  // --- Partitions heal ---

  ghost function EverCut(steps: seq<Step>): set<(string, string)> {
    if steps == [] then {}
    else
      var last := steps[|steps| - 1];
      EverCut(steps[..|steps| - 1]) + if last.Cut? && last.o != last.c then {(last.o, last.c)} else {}
  }

  lemma {:induction false} OnlyEverCut(steps: seq<Step>, o: string, c: string)
    ensures Run(Start(), steps).cut(o, c) ==> o != c && (o, c) in EverCut(steps)
  {
    hide Elect, ApplyAll;
    if steps != [] {
      OnlyEverCut(steps[..|steps| - 1], o, c);
    }
  }

  predicate Healing(steps: seq<Step>) {
    forall step :: step in steps ==> step.Heal?
  }

  lemma {:induction false} HealPairs(w: World, pairs: set<(string, string)>) returns (more: seq<Step>)
    requires forall o :: !w.cut(o, o)
    ensures Healing(more)
    ensures Run(w, more).exporters == w.exporters
    ensures forall o, c :: Run(w, more).cut(o, c) <==> w.cut(o, c) && (o, c) !in pairs
    decreases pairs
  {
    if pairs == {} {
      more := [];
    } else {
      var pair :| pair in pairs;
      var first := HealPairs(w, pairs - {pair});
      more := first + [Heal(pair.0, pair.1)];
      RunSnoc(w, first, Heal(pair.0, pair.1));
    }
  }

  /** Whatever was partitioned can heal, and nobody is lost by it. */
  lemma PartitionsHeal(steps: seq<Step>) returns (more: seq<Step>)
    ensures Healing(more)
    ensures var w, w' := Run(Start(), steps), Run(Start(), steps + more);
            w'.exporters == w.exporters && forall o, c :: !w'.cut(o, c)
  {
    var w := Run(Start(), steps);
    forall o ensures !w.cut(o, o) {
      OnlyEverCut(steps, o, o);
    }
    more := HealPairs(w, EverCut(steps));
    RunConcat(Start(), steps, more);
    forall o, c ensures !Run(w, more).cut(o, c) {
      OnlyEverCut(steps, o, c);
    }
  }

  /** So from every reachable state at all whose exporters have declared their
      claims, heals, deliveries and looks lead to one active exporter, the
      smallest: two that acted in two partitions do not both go on. */
  lemma PartitionsResolve(steps: seq<Step>) returns (heals: seq<Step>, more: seq<Step>, m: string)
    requires var w := Run(Start(), steps);
             w.exporters != map[] && forall o :: o in w.exporters ==> w.exporters[o].declared
    ensures Healing(heals) && Settling(more)
    ensures var w, w' := Run(Start(), steps), Run(Start(), steps + heals + more);
            && Settled(w') && w'.exporters.Keys == w.exporters.Keys
            && Elect(w.exporters.Keys, m)
            && forall o :: o in w.exporters ==> (w'.exporters[o].elected <==> o == m)
  {
    hide Settled, Elect, Next;
    heals := PartitionsHeal(steps);
    more, m := FailoverCompletes(steps + heals);
  }
}

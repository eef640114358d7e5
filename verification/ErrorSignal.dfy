/** The recoverable error signal (src/zenoh_util.rs) and the import connection
    that has to see it (src/import/bridge.rs). */
module ErrorSignal {
  import opened Streams

  // --- Waiting for the peer's subscriber ---

  /** What a poll of the matching status comes to, and how long it would take. */
  datatype Poll = Poll(matching: bool, took: nat)

  function Min(a: nat, b: nat): nat {
    if a <= b then a else b
  }

  /** Polls once a millisecond until a subscriber matches or the deadline is there.
      A poll that stays pending is cut off at the deadline, so the wait is never
      longer than `timeout`; it gives up only at the deadline, and only if the last
      poll, begun at `asked`, had no match by then. */
  method AwaitMatchingSubscriber(mode: Mode, start: nat, timeout: nat, polls: nat -> Poll)
    returns (matched: bool, n: nat, now: nat, ghost asked: nat)
    ensures start <= now <= start + timeout
    ensures mode == Telemetry ==> n == 0 && now == start && !matched
    ensures mode == Stream ==> n > 0 && (matched || now == start + timeout)
    ensures matched ==> n > 0 && polls(n - 1).matching
    ensures forall k :: 0 <= k < n - 1 ==> !polls(k).matching
    ensures mode == Stream ==>
              (matched <==> polls(n - 1).matching && asked + polls(n - 1).took <= start + timeout)
  {
    matched, n, now, asked := false, 0, start, start;
    if mode != Stream {
      return;
    }
    var deadline := start + timeout;
    while true
      invariant start <= now <= deadline && !matched
      invariant forall k :: 0 <= k < n ==> !polls(k).matching
      decreases deadline - now
    {
      var remaining := deadline - now;
      var poll := polls(n);
      asked := now;
      n := n + 1;
      now := now + Min(poll.took, remaining);
      if poll.took <= remaining && poll.matching {
        return true, n, now, asked;
      }
      if now >= deadline {
        return;
      }
      now := now + 1;
    }
  }

  // --- Holding the signal: the two bridges as one system ---

  const HOLD_CAP: nat := 60_000

  datatype Why = CannotWatch | ProbeSaysGone | DeleteSeen | WatchClosed | Capped

  /** The signal is cached from its put until its publisher is released. */
  datatype Stage = Unpublished | Subscribing | Probing | Waiting | Released(why: Why)

  /** `subscribed` and `alive` are the import side's error subscriber and client
      token; `watch` is what is under way to the holder's own subscriber, and
      `sawAlive` whether that subscriber was declared while the token lived. */
  datatype System = System(
    subscribed: bool, declared: bool, alive: bool, closing: bool, recovered: bool,
    stage: Stage, since: nat, now: nat, watch: seq<Kind>, sawAlive: bool)

  datatype Step =
    | ImportSubscribes
    | ImportDeclaresToken
    | ImportDropsSubscriber    // its connection has ended
    | TokenWithdrawn           // undeclared after that, or its process died
    | PutSignal
    | WatchDeclared(ok: bool)
    | ProbeAnswers
    | ProbeFails               // dispatch error or timeout
    | HolderReceives
    | WatchCloses
    | CapFires
    | Tick
    | ImportRecovers           // live delivery or the history query

  predicate Cached(s: System) {
    s.stage == Subscribing || s.stage == Probing || s.stage == Waiting
  }

  /** The cap on the hold is up. */
  predicate CapDue(s: System) {
    Cached(s) && s.now >= s.since + HOLD_CAP
  }

  function Start(): System {
    System(false, false, false, false, false, Unpublished, 0, 0, [], false)
  }

  function Next(s: System, step: Step): System {
    match step
    case ImportSubscribes => if s.declared then s else s.(subscribed := true)
    case ImportDeclaresToken =>
      if !s.subscribed || s.declared then s else s.(declared := true, alive := true)
    case ImportDropsSubscriber => if s.declared then s.(subscribed := false, closing := true) else s
    case TokenWithdrawn =>
      if !s.alive then s
      else
        s.(alive := false, subscribed := false, closing := true,
           watch := if s.stage == Probing || s.stage == Waiting then s.watch + [Delete] else s.watch)
    // The export learns of the client by its token, and fails it afterwards.
    case PutSignal => if !s.declared || s.stage != Unpublished then s else s.(stage := Subscribing, since := s.now)
    case WatchDeclared(ok) =>
      if s.stage != Subscribing then s
      else if !ok then s.(stage := Released(CannotWatch))
      else s.(stage := Probing, watch := if s.alive then [Put] else [], sawAlive := s.alive)
    case ProbeAnswers =>
      if s.stage != Probing then s
      else s.(stage := if s.alive then Waiting else Released(ProbeSaysGone))
    case ProbeFails => if s.stage != Probing then s else s.(stage := Waiting)
    case HolderReceives =>
      if s.stage != Waiting || s.watch == [] then s
      else s.(watch := s.watch[1..], stage := if s.watch[0] == Delete then Released(DeleteSeen) else Waiting)
    case WatchCloses => if s.stage != Waiting then s else s.(stage := Released(WatchClosed))
    case CapFires => if CapDue(s) then s.(stage := Released(Capped)) else s
    // A timer that is due fires before time goes on.
    case Tick => if CapDue(s) then s else s.(now := s.now + 1)
    case ImportRecovers => if s.subscribed && Cached(s) then s.(recovered := true) else s
  }

  function Run(s: System, steps: seq<Step>): System {
    if steps == [] then s else Next(Run(s, steps[..|steps| - 1]), steps[|steps| - 1])
  }

  ghost predicate Ordered(s: System) {
    && (s.alive ==> s.declared && (s.subscribed || s.closing))
    && (s.stage != Unpublished ==> s.declared)
    && (s.declared && !s.closing ==> s.alive)
    && s.since <= s.now
    && (Cached(s) ==> s.now <= s.since + HOLD_CAP)
    && (s.stage == Released(Capped) ==> s.now >= s.since + HOLD_CAP)
  }

  ghost predicate Told(s: System) {
    && (Delete in s.watch ==> !s.alive)
    && (s.stage == Released(ProbeSaysGone) || s.stage == Released(DeleteSeen) ==> !s.alive)
    && (s.stage == Probing || s.stage == Waiting ==> (Delete in s.watch <==> s.sawAlive && !s.alive))
    && ((s.stage == Probing || s.stage == Waiting) && s.alive ==> s.sawAlive)
  }

  ghost predicate Unborn(s: System) {
    !s.declared ==> !s.alive && s.watch == [] && s.stage == Unpublished
  }

  ghost predicate Inv(s: System) {
    Ordered(s) && Told(s) && Unborn(s)
  }

  lemma NextTold(s: System, step: Step)
    requires Inv(s)
    ensures Told(Next(s, step))
  {
    hide Ordered, Cached;
    if step.HolderReceives? && s.watch != [] {
      assert s.watch == [s.watch[0]] + s.watch[1..];
    }
  }

  lemma NextUnborn(s: System, step: Step)
    requires Inv(s)
    ensures Unborn(Next(s, step))
  {
    hide Told;
  }

  lemma NextOrdered(s: System, step: Step)
    requires Inv(s)
    ensures Ordered(Next(s, step))
  {
    hide Told;
  }

  lemma {:induction false} RunKeeps(steps: seq<Step>)
    ensures Inv(Run(Start(), steps))
  {
    if steps != [] {
      var s, step := Run(Start(), steps[..|steps| - 1]), steps[|steps| - 1];
      RunKeeps(steps[..|steps| - 1]);
      NextTold(s, step);
      NextOrdered(s, step);
      NextUnborn(s, step);
      hide Ordered, Told, Unborn;
    }
  }

  /** Every release has its own event: no other step lets go of the signal. */
  lemma {:induction false} ReleasesHaveCauses(steps: seq<Step>)
    ensures var stage := Run(Start(), steps).stage;
            && (stage == Released(CannotWatch) ==> WatchDeclared(false) in steps)
            && (stage == Released(ProbeSaysGone) ==> ProbeAnswers in steps)
            && (stage == Released(DeleteSeen) ==> HolderReceives in steps)
            && (stage == Released(WatchClosed) ==> WatchCloses in steps)
            && (stage == Released(Capped) ==> CapFires in steps)
  {
    if steps != [] {
      var before, step := steps[..|steps| - 1], steps[|steps| - 1];
      assert step in steps && forall x :: x in before ==> x in steps;
      ReleasesHaveCauses(before);
      ReleasedBy(Run(Start(), before), step);
      hide Next;
    }
  }

  lemma ReleasedBy(s: System, step: Step)
    ensures var s' := Next(s, step);
            s'.stage.Released? && s'.stage != s.stage ==>
              match s'.stage.why
              case CannotWatch => step == WatchDeclared(false)
              case ProbeSaysGone => step == ProbeAnswers
              case DeleteSeen => step == HolderReceives
              case WatchClosed => step == WatchCloses
              case Capped => step == CapFires
  {
  }

  /** The signal is not lost: as long as the client's token lives and the cap has
      not passed, a published signal is still cached, unless it happened that the
      holder could not watch the token or that its watch was closed; and a client
      that is not itself ending can recover it there and then, as its error
      subscriber predates its token. */
  lemma SignalNotLost(steps: seq<Step>)
    ensures var s := Run(Start(), steps);
            s.stage != Unpublished && s.alive && s.now < s.since + HOLD_CAP ==>
              && (|| Cached(s)
                  || (s.stage == Released(CannotWatch) && WatchDeclared(false) in steps)
                  || (s.stage == Released(WatchClosed) && WatchCloses in steps))
              && (Cached(s) && !s.closing ==> Next(s, ImportRecovers).recovered)
  {
    RunKeeps(steps);
    ReleasesHaveCauses(steps);
    match Run(Start(), steps).stage
    case Released(why) =>
      match why {
        case Capped =>
        case _ =>
      }
    case _ =>
  }

  /** The holder never outlives its cap, and never releases a live client's
      signal of its own accord before it. */
  lemma HoldIsBounded(steps: seq<Step>)
    ensures var s := Run(Start(), steps);
            && (s.stage != Unpublished && s.now > s.since + HOLD_CAP ==> s.stage.Released?)
            && (s.stage == Released(ProbeSaysGone) || s.stage == Released(DeleteSeen) ==> !s.alive)
            && (s.stage == Released(Capped) ==> s.now >= s.since + HOLD_CAP)
  {
    RunKeeps(steps);
  }

  function Ticks(n: nat): seq<Step> {
    seq(n, _ => Tick)
  }

  lemma {:induction false} TimePasses(s: System, n: nat)
    requires Cached(s) && s.now + n <= s.since + HOLD_CAP
    ensures Run(s, Ticks(n)) == s.(now := s.now + n)
  {
    if n > 0 {
      assert Ticks(n)[..n - 1] == Ticks(n - 1);
      TimePasses(s, n - 1);
    }
  }

  lemma RunNothing(s: System)
    ensures Run(s, Ticks(0)) == s
  {
  }

  /** Time never stops at a hold: if nothing else happens for `n` of its
      milliseconds its cap falls due, then releases the publisher, and time goes
      on. */
  lemma CapReleases(steps: seq<Step>) returns (n: nat)
    ensures var s := Run(Start(), steps);
            var due := Run(s, Ticks(n)); var after := Next(due, CapFires);
            && n <= HOLD_CAP
            && (Cached(s) ==> CapDue(due) && due.now == s.since + HOLD_CAP && after.stage == Released(Capped))
            && Next(after, Tick).now == due.now + 1
  {
    var s := Run(Start(), steps);
    RunKeeps(steps);
    hide Told, Unborn, Run;
    n := 0;
    if Cached(s) {
      n := s.since + HOLD_CAP - s.now;
      TimePasses(s, n);
    } else {
      RunNothing(s);
    }
  }

  function Receives(n: nat): seq<Step> {
    seq(n, _ => HolderReceives)
  }

  /** What the holder's subscriber delivers ends the wait exactly when a Delete is
      among it. */
  lemma {:induction false} DrainWatch(s: System)
    requires s.stage == Waiting
    ensures var s' := Run(s, Receives(|s.watch|));
            if Delete in s.watch then s'.stage == Released(DeleteSeen) && s'.now == s.now
            else s'.stage == Waiting
    decreases |s.watch|
  {
    var n := |s.watch|;
    if n > 0 {
      var t := Next(s, HolderReceives);
      FirstStep(s, n - 1);
      if t.stage == Waiting {
        DrainWatch(t);
      } else {
        StaysReleased(t, n - 1);
      }
    }
  }

  lemma {:induction false} FirstStep(s: System, n: nat)
    ensures Run(s, Receives(n + 1)) == Run(Next(s, HolderReceives), Receives(n))
  {
    assert Receives(n + 1)[..n] == Receives(n);
    if n > 0 {
      FirstStep(s, n - 1);
      assert Receives(n)[..n - 1] == Receives(n - 1);
    } else {
      assert Receives(0) == [];
    }
  }

  lemma {:induction false} StaysReleased(s: System, n: nat)
    requires s.stage.Released?
    ensures Run(s, Receives(n)) == s
  {
    if n > 0 {
      assert Receives(n)[..n - 1] == Receives(n - 1);
      StaysReleased(s, n - 1);
    }
  }

  /** Once the client is gone, no time passes before the release: a holder still
      probing is told so by any answer, and a waiting one by its next samples,
      exactly when it had declared its subscriber while the token lived.  The
      other case is a token gone before that and a probe that failed: then only
      the cap, or the end of the subscription, lets go. */
  lemma GoneIsNoticed(steps: seq<Step>)
    ensures var s := Run(Start(), steps);
            && (!s.alive && s.stage == Probing ==> Next(s, ProbeAnswers).stage == Released(ProbeSaysGone))
            && (!s.alive && s.stage == Waiting ==>
                  (Run(s, Receives(|s.watch|)).stage == Released(DeleteSeen) <==> s.sawAlive))
  {
    var s := Run(Start(), steps);
    RunKeeps(steps);
    if s.stage == Waiting {
      DrainWatch(s);
    }
  }

  // --- The holder's own task ---

  datatype Arrival = Sample(kind: Kind, at: nat) | Closed(at: nat)

  /** The answer of the liveliness query, if one came in time. */
  datatype Probe = Alive | Gone | NoAnswer

  /** What the first arrival that ends the wait makes of it; `cap` is the first
      instant too late. */
  function Ending(arrivals: seq<Arrival>, cap: nat): Why {
    if arrivals == [] || arrivals[0].at >= cap then Capped
    else
      match arrivals[0]
      case Sample(kind, _) => if kind == Delete then DeleteSeen else Ending(arrivals[1..], cap)
      case Closed(_) => WatchClosed
  }

  function Verdict(canWatch: bool, probe: Probe, arrivals: seq<Arrival>, cap: nat): Why {
    if !canWatch then CannotWatch else if probe == Gone then ProbeSaysGone else Ending(arrivals, cap)
  }

  /** Declares its subscriber, probes, then waits for the Delete, all within
      `cap`: why it ended, and how many arrivals it looked at. */
  method Watch(canWatch: bool, probe: Probe, arrivals: seq<Arrival>, cap: nat) returns (why: Why, n: nat)
    ensures n <= |arrivals| && why == Verdict(canWatch, probe, arrivals, cap)
    ensures why == CannotWatch <==> !canWatch
    ensures why == ProbeSaysGone <==> canWatch && probe == Gone
    ensures why == DeleteSeen ==> n > 0 && arrivals[n - 1].Sample? && arrivals[n - 1].kind == Delete
    ensures why == WatchClosed ==> n > 0 && arrivals[n - 1].Closed?
    ensures why == DeleteSeen || why == WatchClosed ==> arrivals[n - 1].at < cap
    ensures why == Capped ==> n == |arrivals| || arrivals[n].at >= cap
    ensures forall k :: 0 <= k < n - (if why == Capped then 0 else 1) ==>
              arrivals[k].Sample? && arrivals[k].kind == Put && arrivals[k].at < cap
  {
    n := 0;
    if !canWatch {
      return CannotWatch, 0;
    }
    if probe == Gone {
      return ProbeSaysGone, 0;
    }
    while n < |arrivals| && arrivals[n].at < cap
      invariant n <= |arrivals| && Ending(arrivals, cap) == Ending(arrivals[n..], cap)
      invariant forall k :: 0 <= k < n ==> arrivals[k].Sample? && arrivals[k].kind == Put && arrivals[k].at < cap
    {
      var arrival := arrivals[n];
      assert arrivals[n..][1..] == arrivals[n + 1..];
      n := n + 1;
      match arrival {
        case Sample(kind, _) =>
          if kind == Delete {
            return DeleteSeen, n;
          }
        case Closed(_) => return WatchClosed, n;
      }
    }
    why := Capped;
  }

  // --- The system's holder is that task ---

  /** What the holder saw so far: whether it could watch, what became of its
      probe, and what its subscriber gave it, timed from the put. */
  datatype Script = Script(canWatch: Option<bool>, probe: Option<Probe>, arrivals: seq<Arrival>)
  {
    /** Why its task ends if nothing more comes before the cap. */
    function Ends(): Why {
      Verdict(canWatch != Some(false), if probe.Some? then probe.value else NoAnswer, arrivals, HOLD_CAP + 1)
    }
  }

  function Age(s: System): nat {
    if s.now >= s.since then s.now - s.since else 0
  }

  function Notes(s: System, o: Script, step: Step): Script {
    match step
    case WatchDeclared(ok) => if s.stage == Subscribing then o.(canWatch := Some(ok)) else o
    case ProbeAnswers => if s.stage == Probing then o.(probe := Some(if s.alive then Alive else Gone)) else o
    case ProbeFails => if s.stage == Probing then o.(probe := Some(NoAnswer)) else o
    case HolderReceives =>
      if s.stage == Waiting && s.watch != [] then o.(arrivals := o.arrivals + [Sample(s.watch[0], Age(s))]) else o
    case WatchCloses => if s.stage == Waiting then o.(arrivals := o.arrivals + [Closed(Age(s))]) else o
    case _ => o
  }

  function Observed(steps: seq<Step>): Script {
    if steps == [] then Script(None, None, [])
    else
      var before := steps[..|steps| - 1];
      Notes(Run(Start(), before), Observed(before), steps[|steps| - 1])
  }

  ghost predicate OnlyPuts(arrivals: seq<Arrival>) {
    forall k :: 0 <= k < |arrivals| ==> arrivals[k].Sample? && arrivals[k].kind == Put && arrivals[k].at <= HOLD_CAP
  }

  lemma {:induction false} EndingSnoc(arrivals: seq<Arrival>, more: seq<Arrival>)
    requires OnlyPuts(arrivals)
    ensures Ending(arrivals + more, HOLD_CAP + 1) == Ending(more, HOLD_CAP + 1)
  {
    if arrivals == [] {
      assert arrivals + more == more;
    } else {
      assert (arrivals + more)[1..] == arrivals[1..] + more;
      EndingSnoc(arrivals[1..], more);
    }
  }

  ghost predicate Follows(s: System, o: Script) {
    match s.stage
    case Released(why) => why == o.Ends()
    case Waiting => o.canWatch == Some(true) && o.probe.Some? && o.probe != Some(Gone) && OnlyPuts(o.arrivals)
    case Probing => o == Script(Some(true), None, [])
    case _ => o == Script(None, None, [])
  }

  lemma EndingOne(arrivals: seq<Arrival>, a: Arrival)
    requires OnlyPuts(arrivals)
    ensures Ending(arrivals + [a], HOLD_CAP + 1) ==
            if a.at > HOLD_CAP then Capped
            else if a.Closed? then WatchClosed
            else if a.kind == Delete then DeleteSeen else Capped
    ensures Ending(arrivals, HOLD_CAP + 1) == Capped
    ensures a.Sample? && a.kind == Put && a.at <= HOLD_CAP ==> OnlyPuts(arrivals + [a])
  {
    EndingSnoc(arrivals, [a]);
    EndingSnoc(arrivals, []);
    assert arrivals + [] == arrivals && [a][1..] == [];
  }

  lemma WaitingFollows(s: System, o: Script, step: Step)
    requires Inv(s) && s.stage == Waiting && Follows(s, o)
    ensures Follows(Next(s, step), Notes(s, o, step))
  {
    hide Told, Unborn, OnlyPuts, Ending;
    match step
    case HolderReceives =>
      if s.watch != [] {
        EndingOne(o.arrivals, Sample(s.watch[0], Age(s)));
      }
    case WatchCloses => EndingOne(o.arrivals, Closed(Age(s)));
    case CapFires => EndingOne(o.arrivals, Closed(0));
    case _ =>
  }

  lemma NotesFollow(s: System, o: Script, step: Step)
    requires Inv(s) && Follows(s, o)
    ensures Follows(Next(s, step), Notes(s, o, step))
  {
    if s.stage == Waiting {
      WaitingFollows(s, o, step);
    }
    hide Inv, OnlyPuts;
  }

  /** In every run the holder is as far as what it saw brings its task, and lets go
      for the reason its task would give, and for none before. */
  lemma {:induction false} HolderIsWatch(steps: seq<Step>)
    ensures Follows(Run(Start(), steps), Observed(steps))
  {
    if steps != [] {
      var before, step := steps[..|steps| - 1], steps[|steps| - 1];
      HolderIsWatch(before);
      RunKeeps(before);
      NotesFollow(Run(Start(), before), Observed(before), step);
      hide Next, Notes, Follows, Inv;
    }
  }
}

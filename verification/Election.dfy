/** Active/standby election between the exporters of one scope
    (src/export/election.rs). */
module Election {
  import opened Streams
  import opened ClaimOrder

  /** A liveliness sample about a claim. */
  datatype Event = Event(claim: string, kind: Kind)

  /** Smallest claim wins. */
  predicate Elect(claims: set<string>, own: string) {
    own in claims && forall c :: c in claims && c != own ==> Less(own, c)
  }

  function ApplyOne(claims: set<string>, e: Event): set<string> {
    match e.kind
    case Put => claims + {e.claim}
    case Delete => claims - {e.claim}
  }

  function ApplyAll(claims: set<string>, events: seq<Event>): set<string> {
    if events == [] then claims
    else ApplyOne(ApplyAll(claims, events[..|events| - 1]), events[|events| - 1])
  }

  lemma ApplySnoc(claims: set<string>, events: seq<Event>, e: Event)
    ensures ApplyAll(claims, events + [e]) == ApplyOne(ApplyAll(claims, events), e)
  {
    assert (events + [e])[..|events|] == events;
  }

  lemma {:induction false} ApplyConcat(claims: set<string>, a: seq<Event>, b: seq<Event>)
    ensures ApplyAll(claims, a + b) == ApplyAll(ApplyAll(claims, a), b)
  {
    if b == [] {
      assert a + b == a;
    } else {
      var init, last := b[..|b| - 1], b[|b| - 1];
      assert a + b == (a + init) + [last] && b == init + [last];
      ApplyConcat(claims, a, init);
      ApplySnoc(claims, a + init, last);
    }
  }

  lemma AtMostOneElected(claims: set<string>, a: string, b: string)
    requires Elect(claims, a) && Elect(claims, b)
    ensures a == b
  {
    LessTotal(a, b);
  }

  /** A claim set that is not empty has a smallest claim. */
  lemma {:induction false} SomeoneElected(claims: set<string>) returns (m: string)
    requires claims != {}
    ensures Elect(claims, m)
  {
    var c :| c in claims;
    if claims == {c} {
      m := c;
    } else {
      m := SomeoneElected(claims - {c});
      LessTotal(m, c);
      if Less(c, m) {
        forall d | d in claims && d != c ensures Less(c, d) {
          if d != m {
            LessTransitive(c, m, d);
          }
        }
        m := c;
      }
    }
  }

  // --- One exporter's view, as an object ---

  datatype WaitOutcome = Active | Shutdown | StillWaiting

  /** What ends one wait of `wait_until_active`: a sample, with any that queued up
      behind it, the death of the subscriber, or a shutdown. */
  datatype Wake = Sample(e: Event, more: seq<Event>) | SubscriberDied | ShutdownRequested

  function Samples(wakes: seq<Wake>): seq<Event> {
    if wakes == [] then []
    else
      var last := wakes[|wakes| - 1];
      Samples(wakes[..|wakes| - 1]) + if last.Sample? then [last.e] + last.more else []
  }

  /** The claim view after the samples already waiting and those of `wakes`. */
  function Seen(claims: set<string>, inbox: seq<Event>, wakes: seq<Wake>): set<string> {
    ApplyAll(claims, inbox + Samples(wakes))
  }

  lemma SeenNext(claims: set<string>, inbox: seq<Event>, wakes: seq<Wake>, n: nat)
    requires n < |wakes|
    ensures var next := Seen(claims, inbox, wakes[..n + 1]);
            match wakes[n]
            case Sample(e, more) => next == ApplyAll(ApplyOne(Seen(claims, inbox, wakes[..n]), e), more)
            case _ => next == Seen(claims, inbox, wakes[..n])
  {
    assert wakes[..n + 1][..n] == wakes[..n];
    var seen := inbox + Samples(wakes[..n]);
    match wakes[n]
    case Sample(e, more) =>
      assert inbox + Samples(wakes[..n + 1]) == (seen + [e]) + more;
      ApplySnoc(claims, seen, e);
      ApplyConcat(claims, seen + [e], more);
    case _ => assert inbox + Samples(wakes[..n + 1]) == seen;
  }

  /** This exporter's claim plus the live view of every claim in the scope. */
  class Claim {
    const own: string
    var claims: set<string>
    var inbox: seq<Event>

    /** Established: the subscriber was declared first, so samples may be
        waiting already. */
    constructor (own: string, inbox: seq<Event>)
      ensures this.own == own && this.inbox == inbox && claims == {own}
    {
      this.own, this.inbox, claims := own, inbox, {own};
    }

    method Apply(e: Event)
      modifies `claims
      ensures claims == ApplyOne(old(claims), e)
    {
      match e.kind {
        case Put => claims := claims + {e.claim};
        case Delete => claims := claims - {e.claim};
      }
    }

    method DrainPending()
      modifies `claims, `inbox
      ensures claims == ApplyAll(old(claims), old(inbox)) && inbox == []
    {
      ghost var start, all := claims, inbox;
      ghost var n := 0;
      while inbox != []
        invariant n <= |all| && inbox == all[n..]
        invariant claims == ApplyAll(start, all[..n])
        decreases |inbox|
      {
        assert all[..n + 1] == all[..n] + [inbox[0]];
        ApplySnoc(start, all[..n], inbox[0]);
        Apply(inbox[0]);
        inbox := inbox[1..];
        n := n + 1;
      }
      assert all[..n] == all;
    }

    method IsActive() returns (active: bool)
      modifies `claims, `inbox
      ensures claims == ApplyAll(old(claims), old(inbox)) && inbox == []
      ensures active <==> Elect(claims, own)
    {
      DrainPending();
      active := Elect(claims, own);
    }

    /** Stops at the very first wake after which this exporter is elected, at which
        its subscriber dies, or at which it is shut down. */
    method WaitUntilActive(wakes: seq<Wake>) returns (outcome: WaitOutcome, n: nat)
      modifies `claims, `inbox
      ensures n <= |wakes| && inbox == []
      ensures claims == Seen(old(claims), old(inbox), wakes[..n])
      ensures forall k :: 0 <= k < n ==> !Elect(Seen(old(claims), old(inbox), wakes[..k]), own)
      ensures outcome == Active <==> Elect(claims, own) || (n > 0 && wakes[n - 1].SubscriberDied?)
      ensures outcome == Shutdown <==> n > 0 && wakes[n - 1].ShutdownRequested?
      ensures forall k :: 0 <= k < n - 1 ==> wakes[k].Sample?
      ensures outcome == StillWaiting ==> n == |wakes|
    {
      hide Elect, ApplyAll;
      n := 0;
      ghost var start, first := claims, inbox;
      assert Seen(start, first, wakes[..0]) == ApplyAll(start, first) by {
        assert first + Samples([]) == first;
      }
      var active := IsActive();
      while !active && n < |wakes|
        invariant n <= |wakes| && inbox == []
        invariant claims == Seen(start, first, wakes[..n])
        invariant forall k :: 0 <= k < n ==> !Elect(Seen(start, first, wakes[..k]), own)
        invariant active <==> Elect(claims, own)
        invariant forall k :: 0 <= k < n ==> wakes[k].Sample?
        decreases |wakes| - n
      {
        SeenNext(start, first, wakes, n);
        var wake := wakes[n];
        n := n + 1;
        match wake {
          case Sample(e, more) =>
            Apply(e);
            inbox := more;
            active := IsActive();
          case SubscriberDied => return Active, n;
          case ShutdownRequested => return Shutdown, n;
        }
      }
      outcome := if active then Active else StillWaiting;
    }

    /** The next claim change while serving; a dead subscriber keeps the role. */
    method ChangedStillActive(subscriberDied: bool) returns (active: bool)
      requires !subscriberDied ==> inbox != []
      modifies `claims, `inbox
      ensures subscriberDied ==> active && claims == old(claims) && inbox == old(inbox)
      ensures !subscriberDied ==> claims == ApplyAll(old(claims), old(inbox)) && inbox == []
      ensures !subscriberDied ==> (active <==> Elect(claims, own))
    {
      if subscriberDied {
        return true;
      }
      ghost var start, all := claims, inbox;
      ApplyConcat(start, [inbox[0]], inbox[1..]);
      assert ApplyAll(start, [inbox[0]]) == ApplyOne(start, inbox[0]) by {
        ApplySnoc(start, [], inbox[0]);
        assert [] + [inbox[0]] == [inbox[0]];
      }
      assert all == [inbox[0]] + inbox[1..];
      Apply(inbox[0]);
      inbox := inbox[1..];
      active := IsActive();
    }
  }
}

/** A client's event log cut into requests, and what may be published for each. */
module RequestLog {
  import opened Streams
  import opened HttpParser

  /** The requests of a log: each head opens one, every later event joins it. */
  function Requests(log: seq<Event>): seq<seq<Event>> {
    if log == [] then []
    else
      var groups, e := Requests(log[..|log| - 1]), log[|log| - 1];
      if e.RequestHead? then groups + [[e]]
      else if groups == [] then []
      else groups[..|groups| - 1] + [groups[|groups| - 1] + [e]]
  }

  /** One sample per event that carries wire bytes. */
  function Samples(request: seq<Event>): seq<Bytes> {
    if request == [] then []
    else
      var e := request[|request| - 1];
      Samples(request[..|request| - 1]) + if e.End? then [] else [e.Wire()]
  }

  function Last<T>(s: seq<T>): T
    requires s != []
  {
    s[|s| - 1]
  }

  lemma RequestsSnoc(log: seq<Event>, e: Event)
    ensures Requests(log + [e]) ==
            if e.RequestHead? then Requests(log) + [[e]]
            else if Requests(log) == [] then []
            else Requests(log)[..|Requests(log)| - 1] + [Last(Requests(log)) + [e]]
  {
    assert (log + [e])[..|log|] == log;
  }

  lemma SamplesSnoc(request: seq<Event>, e: Event)
    ensures Samples(request + [e]) == Samples(request) + if e.End? then [] else [e.Wire()]
  {
    assert (request + [e])[..|request|] == request;
  }

  lemma {:induction false} SamplesPrefix(a: seq<Event>, b: seq<Event>)
    requires a <= b
    ensures Samples(a) <= Samples(b)
  {
    if |a| < |b| {
      var init := b[..|b| - 1];
      assert b == init + [Last(b)];
      SamplesPrefix(a, init);
      SamplesSnoc(init, Last(b));
    } else {
      assert a == b;
    }
  }

  lemma {:induction false} SamplesAreWires(request: seq<Event>)
    ensures Flat(Samples(request)) == Wires(request)
  {
    if request != [] {
      var init, e := request[..|request| - 1], Last(request);
      SamplesAreWires(init);
      if e.End? {
        assert Samples(request) == Samples(init);
      } else {
        FlatSnoc(Samples(init), e.Wire());
      }
    }
  }

  /** A longer log has the same requests, the last of them possibly longer. */
  lemma {:induction false} RequestsGrow(a: seq<Event>, b: seq<Event>)
    requires a <= b
    ensures |Requests(a)| <= |Requests(b)|
    ensures forall k :: 0 <= k < |Requests(a)| ==> Requests(a)[k] <= Requests(b)[k]
  {
    if |a| < |b| {
      var init := b[..|b| - 1];
      assert b == init + [Last(b)];
      RequestsGrow(a, init);
      RequestsSnoc(init, Last(b));
    } else {
      assert a == b;
    }
  }

  /** The open request ends with the log's last event. */
  lemma {:induction false} OpenRequestEnd(log: seq<Event>)
    requires log != [] && Requests(log) != []
    ensures Last(Requests(log)) != [] && Last(Last(Requests(log))) == Last(log)
  {
    assert log == log[..|log| - 1] + [Last(log)];
    RequestsSnoc(log[..|log| - 1], Last(log));
    hide Requests;
  }

  /** `history[k]` is what was published for the k-th request: always a prefix
      of that request's own samples, and nothing for any other request. */
  ghost predicate Isolated(history: seq<seq<Bytes>>, log: seq<Event>) {
    && |history| == |Requests(log)|
    && forall k :: 0 <= k < |history| ==> history[k] <= Samples(Requests(log)[k])
  }

  /** Everything taken of the open request has been published. */
  ghost predicate UpToDate(history: seq<seq<Bytes>>, log: seq<Event>) {
    && Isolated(history, log)
    && history != []
    && Last(history) == Samples(Last(Requests(log)))
  }

  /** Isolation against the whole log a parser will ever emit. */
  lemma IsolatedLater(history: seq<seq<Bytes>>, taken: seq<Event>, log: seq<Event>)
    requires Isolated(history, taken) && taken <= log
    ensures |history| <= |Requests(log)|
    ensures forall k :: 0 <= k < |history| ==> history[k] <= Samples(Requests(log)[k])
  {
    RequestsGrow(taken, log);
    forall k | 0 <= k < |history| ensures history[k] <= Samples(Requests(log)[k]) {
      SamplesPrefix(Requests(taken)[k], Requests(log)[k]);
    }
  }

  lemma TakeHead(history: seq<seq<Bytes>>, log: seq<Event>, head: Event)
    requires Isolated(history, log) && head.RequestHead?
    ensures Isolated(history + [[]], log + [head])
    ensures Last(Requests(log + [head])) == [head]
  {
    RequestsSnoc(log, head);
  }

  /** The event, if it is of side `d`. */
  function Only(e: Event, d: Side): seq<Event> {
    if e.SideOf() == Some(d) then [e] else []
  }

  lemma TakeUnsent(history: seq<seq<Bytes>>, log: seq<Event>, e: Event)
    requires Isolated(history, log) && !e.RequestHead?
    ensures Isolated(history, log + Only(e, Initiator))
    ensures UpToDate(history, log) && (e.End? || e.SideOf() != Some(Initiator)) ==>
              UpToDate(history, log + Only(e, Initiator))
  {
    hide Requests, Samples;
    if e.SideOf() == Some(Initiator) {
      RequestsSnoc(log, e);
      if history != [] {
        SamplesSnoc(Last(Requests(log)), e);
      }
    } else {
      assert log + Only(e, Initiator) == log;
    }
  }

  /** One more sample for the open request. */
  function Publish(history: seq<seq<Bytes>>, sample: Bytes): seq<seq<Bytes>>
    requires history != []
  {
    history[..|history| - 1] + [Last(history) + [sample]]
  }

  lemma TakeSent(history: seq<seq<Bytes>>, log: seq<Event>, e: Event)
    requires UpToDate(history, log) && !e.RequestHead? && !e.End?
    ensures UpToDate(Publish(history, e.Wire()), log + [e])
  {
    hide Requests, Samples;
    RequestsSnoc(log, e);
    SamplesSnoc(Last(Requests(log)), e);
  }

  lemma SendHead(history: seq<seq<Bytes>>, log: seq<Event>, head: Event)
    requires Isolated(history, log) && history != [] && Last(history) == []
    requires Last(Requests(log)) == [head] && head.RequestHead?
    ensures UpToDate(Publish(history, head.Wire()), log)
  {
    SamplesSnoc([], head);
    assert [] + [head] == [head];
  }

  /** No sample of a request is empty, so none can pass for the teardown marker. */
  lemma {:induction false} SamplesNonEmpty(request: seq<Event>)
    requires forall e :: e in request ==> e.Framed() && e.SideOf() == Some(Initiator)
    ensures forall s :: s in Samples(request) ==> s != []
  {
    if request != [] {
      SamplesNonEmpty(request[..|request| - 1]);
      assert Last(request) in request;
    }
  }

  /** Events acted on (`up`, `down`) and events queued are all the events
      emitted, in order: none lost, duplicated or moved past another of its side. */
  ghost predicate Accounted(emitted: seq<Event>, events: seq<Event>, up: seq<Event>, down: seq<Event>) {
    && Project(emitted, Initiator) == up + Project(events, Initiator)
    && Project(emitted, Responder) == down + Project(events, Responder)
    && forall e :: e in events ==> e in emitted
  }

  lemma QueueEvent(emitted: seq<Event>, events: seq<Event>, up: seq<Event>, down: seq<Event>, e: Event)
    requires Accounted(emitted, events, up, down)
    ensures Accounted(emitted + [e], events + [e], up, down)
    ensures Project(emitted, Initiator) <= Project(emitted + [e], Initiator)
    ensures Project(emitted, Responder) <= Project(emitted + [e], Responder)
  {
    ProjectSnoc(emitted, e);
    ProjectSnoc(events, e);
  }

  lemma TakeFront(emitted: seq<Event>, events: seq<Event>, up: seq<Event>, down: seq<Event>)
    requires Accounted(emitted, events, up, down) && events != []
    ensures Accounted(emitted, events[1..], up + Only(events[0], Initiator), down + Only(events[0], Responder))
  {
  }

  /** Acting on the front of the queue past deferred client events. */
  lemma TakePast(emitted: seq<Event>, carry: seq<Event>, events: seq<Event>, up: seq<Event>, down: seq<Event>)
    requires Accounted(emitted, carry + events, up, down) && events != []
    requires forall c :: c in carry ==> c.SideOf() == Some(Initiator)
    requires events[0].SideOf() == Some(Initiator) ==> carry == []
    ensures Accounted(emitted, carry + events[1..], up + Only(events[0], Initiator), down + Only(events[0], Responder))
    ensures up + Only(events[0], Initiator) <= Project(emitted, Initiator)
    ensures down + Only(events[0], Responder) <= Project(emitted, Responder)
  {
    var e, rest := events[0], events[1..];
    assert events == [e] + rest;
    ProjectConcat(carry, events, Initiator);
    ProjectConcat(carry, events, Responder);
    ProjectConcat(carry, rest, Initiator);
    ProjectConcat(carry, rest, Responder);
    NoneProjected(carry);
    ProjectCons(e, rest);
    hide Project;
    PastOne(up, Project(carry, Initiator), Only(e, Initiator), Project(rest, Initiator));
    PastOne(down, [], Only(e, Responder), Project(rest, Responder));
    forall c | c in carry + rest ensures c in emitted {
      assert c in carry + events;
    }
  }

  lemma ProjectCons(e: Event, rest: seq<Event>)
    ensures forall d :: Project([e] + rest, d) == Only(e, d) + Project(rest, d)
  {
    assert ([e] + rest)[1..] == rest;
  }

  lemma PastOne(taken: seq<Event>, carry: seq<Event>, one: seq<Event>, rest: seq<Event>)
    requires carry == [] || one == []
    ensures taken + (carry + (one + rest)) == (taken + one) + (carry + rest)
    ensures taken + one <= taken + (carry + (one + rest))
  {
    assert (taken + one) + (carry + rest) == taken + (carry + (one + rest));
  }

  lemma {:induction false} NoneProjected(carry: seq<Event>)
    requires forall c :: c in carry ==> c.SideOf() == Some(Initiator)
    ensures Project(carry, Responder) == []
  {
    if carry != [] {
      NoneProjected(carry[1..]);
    }
  }

  /** Within a request, the next client event belongs to it. */
  lemma NextInRequest(emitted: seq<Event>, events: seq<Event>, up: seq<Event>, down: seq<Event>)
    requires Accounted(emitted, events, up, down) && WellFramed(Project(emitted, Initiator))
    requires up != [] && events != []
    ensures events[0].SideOf() == Some(Initiator) ==> (events[0].RequestHead? <==> Last(up).End?)
  {
    var log := Project(emitted, Initiator);
    if events[0].SideOf() == Some(Initiator) {
      assert log[|up|] == events[0] && log[|up| - 1] == Last(up);
      assert FramedAt(log, |up|);
    }
  }

  /** The open request is the end of the log; this is what comes before it. */
  function Earlier(log: seq<Event>): seq<Event> {
    if log == [] then []
    else if Last(log).RequestHead? then log[..|log| - 1]
    else Earlier(log[..|log| - 1])
  }

  lemma {:induction false} OpenRequestIsSuffix(log: seq<Event>)
    requires Requests(log) != []
    ensures log == Earlier(log) + Last(Requests(log))
  {
    var init := log[..|log| - 1];
    assert log == init + [Last(log)];
    RequestsSnoc(init, Last(log));
    if !Last(log).RequestHead? {
      hide Requests;
      OpenRequestIsSuffix(init);
    }
  }

  lemma {:induction false} RequestMembers(log: seq<Event>, k: nat, e: Event)
    requires k < |Requests(log)| && e in Requests(log)[k]
    ensures e in log
  {
    var init := log[..|log| - 1];
    assert log == init + [Last(log)];
    if k < |Requests(init)| && e in Requests(init)[k] {
      RequestMembers(init, k, e);
    }
  }
}

/** The HTTP/1 proxy parser, seen from outside: a state machine that accepts a
    prefix of what it is offered, emits framed events whose raw bytes are the
    bytes it accepted, and can end poisoned or tunnelled.  The state `S` and
    the framing itself are left open; only the contract the bridge relies on
    is fixed, by `Lawful` and `Progressing`. */
module HttpParser {
  import opened Streams

  datatype Side = Initiator | Responder {
    function Other(): Side {
      if Initiator? then Responder else Initiator
    }
  }

  datatype Framing = Sized | Chunked | UntilClose

  datatype Version = Http10 | Http11

  datatype Event =
    | RequestHead(raw: Bytes, authority: Option<string>)
    | ResponseHead(raw: Bytes, interim: bool, framing: Framing, version: Version,
                   connection: seq<Option<string>>)
    | Body(dir: Side, raw: Bytes)
    | Trailers(dir: Side, raw: Bytes)
    | End(dir: Side)
    | SwitchProtocols
  {
    function SideOf(): Option<Side> {
      match this
      case RequestHead(_, _) => Some(Initiator)
      case ResponseHead(_, _, _, _, _) => Some(Responder)
      case SwitchProtocols => None
      case _ => Some(dir)
    }

    /** The wire bytes of the event; only a message end carries none. */
    function Wire(): Bytes {
      match this
      case End(_) => []
      case SwitchProtocols => []
      case _ => raw
    }

    predicate Framed() {
      SwitchProtocols? || End? || raw != []
    }
  }

  datatype Parser<!S> = Parser(
    push: (S, Side, Bytes) -> (nat, S),
    next: S -> (Option<Event>, S),
    fin: (S, Side) -> S,
    poison: S -> Option<Option<bool>>,
    tunnelled: S -> bool,
    done: S -> bool,
    residue: (S, Side) -> Bytes,
    // What the contract speaks of: everything accepted from a side so far,
    // every event emitted so far, and how many events are ready.
    accepted: (S, Side) -> Bytes,
    emitted: S -> seq<Event>,
    ready: S -> nat
  )

  /** The events of one side, in order. */
  function Project(events: seq<Event>, d: Side): seq<Event> {
    if events == [] then []
    else if events[0].SideOf() == Some(d) then [events[0]] + Project(events[1..], d)
    else Project(events[1..], d)
  }

  lemma {:induction false} ProjectConcat(a: seq<Event>, b: seq<Event>, d: Side)
    ensures Project(a + b, d) == Project(a, d) + Project(b, d)
  {
    if a == [] {
      assert a + b == b;
    } else {
      assert (a + b)[1..] == a[1..] + b;
      ProjectConcat(a[1..], b, d);
    }
  }

  lemma ProjectSnoc(events: seq<Event>, e: Event)
    ensures Project(events + [e], Initiator) ==
            Project(events, Initiator) + if e.SideOf() == Some(Initiator) then [e] else []
    ensures Project(events + [e], Responder) ==
            Project(events, Responder) + if e.SideOf() == Some(Responder) then [e] else []
  {
    ProjectConcat(events, [e], Initiator);
    ProjectConcat(events, [e], Responder);
  }

  lemma {:induction false} ProjectMembers(events: seq<Event>, d: Side, e: Event)
    ensures e in Project(events, d) <==> e in events && e.SideOf() == Some(d)
  {
    if events != [] {
      ProjectMembers(events[1..], d, e);
      assert events == [events[0]] + events[1..];
    }
  }

  function Wires(events: seq<Event>): Bytes {
    if events == [] then [] else Wires(events[..|events| - 1]) + events[|events| - 1].Wire()
  }

  lemma WiresSnoc(events: seq<Event>, e: Event)
    ensures Wires(events + [e]) == Wires(events) + e.Wire()
  {
    assert (events + [e])[..|events|] == events;
  }

  lemma {:induction false} WiresConcat(a: seq<Event>, b: seq<Event>)
    ensures Wires(a + b) == Wires(a) + Wires(b)
  {
    if b == [] {
      assert a + b == a;
    } else {
      var init, last := b[..|b| - 1], b[|b| - 1];
      assert a + b == (a + init) + [last] && b == init + [last];
      WiresConcat(a, init);
      WiresSnoc(a + init, last);
      WiresSnoc(init, last);
    }
  }

  ghost predicate FramedAt(log: seq<Event>, i: nat)
    requires i < |log|
  {
    log[i].RequestHead? <==> i == 0 || log[i - 1].End?
  }

  /** One side's events form messages: a request head opens the log and follows
      exactly the message ends. */
  ghost predicate WellFramed(log: seq<Event>) {
    forall i: nat :: i < |log| ==> FramedAt(log, i)
  }

  // The contract, one instance at a time.

  ghost predicate PushOk<S>(p: Parser<S>, s: S, d: Side, b: Bytes) {
    var (n, t) := p.push(s, d, b);
    && n <= |b|
    && p.accepted(t, d) == p.accepted(s, d) + b[..n]
    && p.accepted(t, d.Other()) == p.accepted(s, d.Other())
    && p.emitted(t) == p.emitted(s)
    && (p.poison(s).Some? ==> p.poison(t).Some?)
    && (p.tunnelled(s) ==> p.tunnelled(t))
  }

  ghost predicate NextOk<S>(p: Parser<S>, s: S) {
    var (e, t) := p.next(s);
    && p.accepted(t, Initiator) == p.accepted(s, Initiator)
    && p.accepted(t, Responder) == p.accepted(s, Responder)
    && (p.poison(s).Some? ==> p.poison(t).Some?)
    && (p.tunnelled(s) ==> p.tunnelled(t))
    && match e
       case None => t == s
       case Some(ev) => p.emitted(t) == p.emitted(s) + [ev] && p.ready(t) < p.ready(s)
  }

  ghost predicate FinOk<S>(p: Parser<S>, s: S, d: Side) {
    var t := p.fin(s, d);
    && p.accepted(t, Initiator) == p.accepted(s, Initiator)
    && p.accepted(t, Responder) == p.accepted(s, Responder)
    && p.emitted(t) == p.emitted(s)
    && (p.poison(s).Some? ==> p.poison(t).Some?)
    && (p.tunnelled(s) ==> p.tunnelled(t))
  }

  /** Client-side events form requests, and every event but an end has bytes. */
  ghost predicate FramingOk<S>(p: Parser<S>, s: S) {
    && WellFramed(Project(p.emitted(s), Initiator))
    && forall e :: e in p.emitted(s) ==> e.Framed()
  }

  /** Raw bytes partition the accepted input: what no event carries yet is
      buffered, and once tunnelled it is the tunnel residue. */
  ghost predicate RawOk<S>(p: Parser<S>, s: S, d: Side) {
    && Wires(Project(p.emitted(s), d)) <= p.accepted(s, d)
    && (p.tunnelled(s) && Drained(p, s) ==>
          Wires(Project(p.emitted(s), d)) + p.residue(s, d) == p.accepted(s, d))
  }

  ghost predicate SwitchOk<S>(p: Parser<S>, s: S) {
    SwitchProtocols in p.emitted(s) ==> p.tunnelled(s)
  }

  /** The contract of a parser in every state. */
  ghost predicate Lawful<S(!new)>(p: Parser<S>) {
    && (forall s: S, d: Side, b: Bytes :: PushOk(p, s, d, b))
    && (forall s: S :: NextOk(p, s))
    && (forall s: S, d: Side :: FinOk(p, s, d))
    && (forall s: S :: FramingOk(p, s))
    && (forall s: S, d: Side :: RawOk(p, s, d))
    && (forall s: S :: SwitchOk(p, s))
  }

  /** A drained parser that is neither poisoned nor tunnelled takes at least one
      client byte.  The re-offer loops terminate because of this. */
  ghost predicate ProgressOk<S>(p: Parser<S>, s: S, b: Bytes) {
    b != [] && Accepting(p, s) ==> p.push(s, Initiator, b).0 > 0
  }

  ghost predicate Progressing<S(!new)>(p: Parser<S>) {
    forall s: S, b: Bytes :: ProgressOk(p, s, b)
  }

  predicate Drained<S>(p: Parser<S>, s: S) {
    p.next(s).0.None?
  }

  predicate Accepting<S>(p: Parser<S>, s: S) {
    Drained(p, s) && p.poison(s).None? && !p.tunnelled(s)
  }

  // --- Offering and draining, as functions ---

  /** Push all of `b`: the parser afterwards, and the tail it refused. */
  function PushAll<S(!new)>(p: Parser<S>, s: S, d: Side, b: Bytes): (S, Bytes)
    requires Lawful(p)
    decreases |b|
  {
    if b == [] then (s, [])
    else
      assert PushOk(p, s, d, b);
      var (n, t) := p.push(s, d, b);
      if n == 0 then (t, b) else PushAll(p, t, d, b[n..])
  }

  /** What pushing keeps. */
  ghost predicate Pushed<S>(p: Parser<S>, s: S, d: Side, b: Bytes, t: S, tail: Bytes) {
    && p.accepted(t, d) + tail == p.accepted(s, d) + b
    && p.accepted(t, d.Other()) == p.accepted(s, d.Other())
    && p.emitted(t) == p.emitted(s)
    && |tail| <= |b|
    && (p.poison(s).Some? ==> p.poison(t).Some?)
    && (p.tunnelled(s) ==> p.tunnelled(t))
  }

  lemma {:induction false} PushAllOk<S(!new)>(p: Parser<S>, s: S, d: Side, b: Bytes)
    requires Lawful(p)
    ensures var (t, tail) := PushAll(p, s, d, b); Pushed(p, s, d, b, t, tail)
    decreases |b|
  {
    if b != [] {
      assert PushOk(p, s, d, b);
      var (n, t) := p.push(s, d, b);
      if n == 0 {
        assert b[..0] == [];
      } else {
        PushAllOk(p, t, d, b[n..]);
        assert b == b[..n] + b[n..];
      }
    }
  }

  /** Bytes are offered until they are gone or refused. */
  lemma {:induction false} PushAllStops<S(!new)>(p: Parser<S>, s: S, d: Side, b: Bytes) returns (u: S)
    requires Lawful(p)
    ensures var (t, tail) := PushAll(p, s, d, b); tail != [] ==> p.push(u, d, tail) == (0, t)
    decreases |b|
  {
    u := s;
    if b != [] {
      assert PushOk(p, s, d, b);
      var (n, t) := p.push(s, d, b);
      if n > 0 {
        u := PushAllStops(p, t, d, b[n..]);
      }
    }
  }

  lemma PushAllProgresses<S(!new)>(p: Parser<S>, s: S, b: Bytes)
    requires Lawful(p) && Progressing(p) && Accepting(p, s) && b != []
    ensures |PushAll(p, s, Initiator, b).1| < |b|
  {
    assert PushOk(p, s, Initiator, b) && ProgressOk(p, s, b);
    var (n, t) := p.push(s, Initiator, b);
    PushAllOk(p, t, Initiator, b[n..]);
  }

  /** Take every event the parser has ready. */
  function DrainAll<S(!new)>(p: Parser<S>, s: S): (S, seq<Event>)
    requires Lawful(p)
    decreases p.ready(s)
  {
    assert NextOk(p, s);
    var (e, t) := p.next(s);
    if e.None? then (s, [])
    else
      var (u, more) := DrainAll(p, t);
      (u, [e.value] + more)
  }

  lemma {:induction false} DrainAllOk<S(!new)>(p: Parser<S>, s: S)
    requires Lawful(p)
    ensures var (t, more) := DrainAll(p, s);
            && Drained(p, t)
            && p.emitted(t) == p.emitted(s) + more
            && p.accepted(t, Initiator) == p.accepted(s, Initiator)
            && p.accepted(t, Responder) == p.accepted(s, Responder)
            && (p.poison(s).Some? ==> p.poison(t).Some?)
            && (p.tunnelled(s) ==> p.tunnelled(t))
    decreases p.ready(s)
  {
    assert NextOk(p, s);
    var (e, t) := p.next(s);
    if e.Some? {
      DrainAllOk(p, t);
    }
  }

  /** Push all of `b`, then drain: the parser, the new events, the refused tail. */
  function FeedAll<S(!new)>(p: Parser<S>, s: S, d: Side, b: Bytes): (S, seq<Event>, Bytes)
    requires Lawful(p)
  {
    var (t, tail) := PushAll(p, s, d, b);
    var (u, more) := DrainAll(p, t);
    (u, more, tail)
  }

  lemma FeedAllOk<S(!new)>(p: Parser<S>, s: S, d: Side, b: Bytes)
    requires Lawful(p)
    ensures var (t, more, tail) := FeedAll(p, s, d, b);
            && Drained(p, t)
            && p.emitted(t) == p.emitted(s) + more
            && p.accepted(t, d) + tail == p.accepted(s, d) + b
            && p.accepted(t, d.Other()) == p.accepted(s, d.Other())
            && |tail| <= |b|
            && (p.poison(s).Some? ==> p.poison(t).Some?)
            && (p.tunnelled(s) ==> p.tunnelled(t))
  {
    PushAllOk(p, s, d, b);
    DrainAllOk(p, PushAll(p, s, d, b).0);
    hide Lawful, PushAll, DrainAll;
  }

  /** A parser that announces a switch by an event before it is tunnelled and
      drained. */
  ghost predicate Announces<S(!new)>(p: Parser<S>) {
    forall s: S :: AnnouncesOk(p, s)
  }

  ghost predicate AnnouncesOk<S>(p: Parser<S>, s: S) {
    p.tunnelled(s) && Drained(p, s) ==> SwitchProtocols in p.emitted(s)
  }

  /** A drained parser that is neither poisoned nor tunnelled takes at least `w`
      of the backend bytes it is offered, and all of fewer, unless they make it
      one or the other. */
  ghost predicate Absorbing<S(!new)>(p: Parser<S>, w: nat)
    requires Lawful(p)
  {
    forall s: S, b: Bytes :: AbsorbsOk(p, w, s, b)
  }

  ghost predicate AbsorbsOk<S(!new)>(p: Parser<S>, w: nat, s: S, b: Bytes)
    requires Lawful(p)
  {
    var (t, tail) := PushAll(p, s, Responder, b);
    Accepting(p, s) && p.poison(t).None? && !p.tunnelled(t) ==> |tail| <= if |b| <= w then 0 else |b| - w
  }
}

/** A small parser that meets the contract of `HttpParser`: one byte frames one
    event.  It shows that the contract can be met, and is the input of the runs
    in which the exchange loop loses or misplaces bytes. */
module BytewiseParser {
  import opened Streams
  import opened HttpParser
  import opened HeadReader

  /** A message is a head byte and body bytes, of which a zero is the last; a
      response head of `SWITCH`, once a request was seen, switches protocols. */
  datatype Raw = Raw(up: Bytes, down: Bytes, log: seq<Event>, queue: seq<Event>,
                     inRequest: bool, inResponse: bool, tunnel: bool)

  const SWITCH: Byte := 255

  function HeadFor(b: Byte): Event {
    RequestHead([b], Some("host"))
  }

  function Frame(r: Raw, d: Side, b: Byte): seq<Event> {
    if d == Initiator then
      if !r.inRequest then [HeadFor(b)]
      else if b == 0 then [Body(d, [b]), End(d)]
      else [Body(d, [b])]
    else
      if !r.inResponse then
        if b == SWITCH && r.up != [] then [ResponseHead([b], true, Sized, Http11, []), SwitchProtocols]
        else [ResponseHead([b], false, Sized, Http11, [])]
      else if b == 0 then [Body(d, [b]), End(d)]
      else [Body(d, [b])]
  }

  function Feed(r: Raw, d: Side, b: Byte): Raw {
    var queue := r.queue + Frame(r, d, b);
    if d == Initiator then r.(up := r.up + [b], queue := queue, inRequest := !r.inRequest || b != 0)
    else if !r.inResponse && b == SWITCH && r.up != [] then r.(down := r.down + [b], queue := queue, inResponse := true, tunnel := true)
    else r.(down := r.down + [b], queue := queue, inResponse := !r.inResponse || b != 0)
  }

  // --- What every state keeps ---

  /** The events of one side carry its bytes, in messages. */
  ghost predicate SideOk(log: seq<Event>, d: Side, bytes: Bytes, inside: bool) {
    && Wires(log) == bytes
    && (inside <==> log != [] && !log[|log| - 1].End?)
    && (d == Initiator ==> WellFramed(log))
  }

  ghost predicate EventsOk(all: seq<Event>, up: Bytes, tunnel: bool) {
    && (forall e :: e in all ==> e.Framed())
    && (SwitchProtocols in all <==> tunnel)
    && (tunnel ==> up != [])
  }

  ghost predicate Ok(r: Raw) {
    var all := r.log + r.queue;
    && SideOk(Project(all, Initiator), Initiator, r.up, r.inRequest)
    && SideOk(Project(all, Responder), Responder, r.down, r.inResponse)
    && EventsOk(all, r.up, r.tunnel)
    && FirstOk(all, r.up)
  }

  ghost predicate FirstOk(all: seq<Event>, up: Bytes) {
    FirstHead(all) == if up == [] then None else Some(HeadFor(up[0]))
  }

  lemma {:induction false} FirstConcat(a: seq<Event>, b: seq<Event>)
    ensures FirstHead(a + b) == if FirstHead(a).Some? then FirstHead(a) else FirstHead(b)
  {
    if b == [] {
      assert a + b == a;
    } else {
      assert (a + b)[..|a + b| - 1] == a + b[..|b| - 1];
      FirstConcat(a, b[..|b| - 1]);
    }
  }

  type State = r: Raw | Ok(r) ghost witness Raw([], [], [], [], false, false, false)

  const START: State := Raw([], [], [], [], false, false, false)

  lemma OneEvent(e: Event, d: Side)
    ensures Project([e], d) == if e.SideOf() == Some(d) then [e] else []
    ensures Wires([e]) == e.Wire()
    ensures FirstHead([e]) == if e.RequestHead? then Some(e) else None
  {
    WiresSnoc([], e);
    FirstHeadSnoc([], e);
    assert [] + [e] == [e];
  }

  lemma TwoEvents(e: Event, f: Event, d: Side)
    ensures Project([e, f], d) == Project([e], d) + Project([f], d)
    ensures Wires([e, f]) == e.Wire() + f.Wire()
    ensures FirstHead([e, f]) == if FirstHead([e]).Some? then FirstHead([e]) else FirstHead([f])
  {
    assert [e, f] == [e] + [f];
    ProjectConcat([e], [f], d);
    WiresSnoc([e], f);
    OneEvent(e, d);
    OneEvent(f, d);
    FirstHeadSnoc([e], f);
  }

  /** On its own side the events of a byte carry it; on the other there are none. */
  ghost predicate Carried(more: seq<Event>, d: Side, b: Byte, head: Option<Event>) {
    && Project(more, d) != [] && Wires(Project(more, d)) == [b] && Project(more, d.Other()) == []
    && (forall e :: e in more ==> e.Framed())
    && FirstHead(more) == head
  }

  lemma CarriedByOne(e: Event, d: Side, b: Byte)
    requires e.SideOf() == Some(d) && e.Wire() == [b]
    ensures Carried([e], d, b, if e.RequestHead? then Some(e) else None)
    ensures Project([e], d) == [e]
  {
    OneEvent(e, d);
    OneEvent(e, d.Other());
  }

  lemma CarriedByTwo(e: Event, f: Event, d: Side, b: Byte)
    requires e.SideOf() == Some(d) && e.Wire() == [b] && (f == End(d) || f == SwitchProtocols)
    ensures Carried([e, f], d, b, if e.RequestHead? then Some(e) else None)
    ensures Project([e, f], d) == if f == End(d) then [e, f] else [e]
  {
    CarriedByOne(e, d, b);
    OneEvent(f, d);
    OneEvent(f, d.Other());
    TwoEvents(e, f, d);
    TwoEvents(e, f, d.Other());
    hide Project, Wires, FirstHead;
    NothingAdded([e]);
    NothingAdded<Event>([]);
    assert [e] + [f] == [e, f];
    if f == End(d) {
      WiresSnoc([e], f);
      assert [b] + [] == [b];
    }
  }

  lemma FrameCarries(r: Raw, d: Side, b: Byte)
    ensures Carried(Frame(r, d, b), d, b, if d == Initiator && !r.inRequest then Some(HeadFor(b)) else None)
    ensures var own := Project(Frame(r, d, b), d);
            && own[|own| - 1].End? == ((if d == Initiator then r.inRequest else r.inResponse) && b == 0)
            && own[0].RequestHead? == (d == Initiator && !r.inRequest)
            && (|own| == 1 || (|own| == 2 && own[1] == End(d) && !own[0].End?)) && !own[0].End?
  {
    var more := Frame(r, d, b);
    hide Carried, Project;
    if |more| == 1 {
      CarriedByOne(more[0], d, b);
      assert more == [more[0]];
    } else {
      CarriedByTwo(more[0], more[1], d, b);
      assert more == [more[0], more[1]];
    }
  }

  // --- Feeding keeps it ---

  lemma FramedAppend(log: seq<Event>, own: seq<Event>)
    requires WellFramed(log)
    requires own != [] && (|own| == 1 || (|own| == 2 && own[1] == End(Initiator))) && !own[0].End?
    requires own[0].RequestHead? <==> log == [] || log[|log| - 1].End?
    ensures WellFramed(log + own)
  {
    forall i: nat | i < |log + own| ensures FramedAt(log + own, i) {
      if i < |log| {
        assert FramedAt(log, i);
      }
    }
  }

  lemma OwnSide(log: seq<Event>, own: seq<Event>, d: Side, bytes: Bytes, b: Byte, inside: bool)
    requires SideOk(log, d, bytes, inside) && own != [] && Wires(own) == [b]
    requires own[|own| - 1].End? == (inside && b == 0) && own[0].RequestHead? == (d == Initiator && !inside)
    requires (|own| == 1 || (|own| == 2 && own[1] == End(d))) && !own[0].End?
    ensures SideOk(log + own, d, bytes + [b], !inside || b != 0)
  {
    hide Wires, WellFramed;
    WiresConcat(log, own);
    if d == Initiator {
      FramedAppend(log, own);
    }
    assert (log + own)[|log + own| - 1] == own[|own| - 1];
  }

  lemma Grows(all: seq<Event>, more: seq<Event>, d: Side)
    requires Project(more, d.Other()) == []
    ensures Project(all + more, d) == Project(all, d) + Project(more, d)
    ensures Project(all + more, d.Other()) == Project(all, d.Other())
  {
    ProjectConcat(all, more, d);
    ProjectConcat(all, more, d.Other());
    NothingAdded(Project(all, d.Other()));
  }

  lemma SidesGrow(all: seq<Event>, more: seq<Event>, d: Side, bytes: Bytes, b: Byte, inside: bool,
                  others: Bytes, otherInside: bool)
    requires SideOk(Project(all, d), d, bytes, inside)
    requires SideOk(Project(all, d.Other()), d.Other(), others, otherInside)
    requires var own := Project(more, d);
             && own != [] && Wires(own) == [b] && Project(more, d.Other()) == []
             && own[|own| - 1].End? == (inside && b == 0) && own[0].RequestHead? == (d == Initiator && !inside)
             && (|own| == 1 || (|own| == 2 && own[1] == End(d))) && !own[0].End?
    ensures SideOk(Project(all + more, d), d, bytes + [b], !inside || b != 0)
    ensures SideOk(Project(all + more, d.Other()), d.Other(), others, otherInside)
  {
    hide SideOk, Project, Wires;
    Grows(all, more, d);
    OwnSide(Project(all, d), Project(more, d), d, bytes, b, inside);
  }

  lemma SideGrows(r: Raw, d: Side, b: Byte)
    requires Ok(r) && !r.tunnel
    ensures var r' := Feed(r, d, b); var all := r.log + r.queue + Frame(r, d, b);
            && SideOk(Project(all, Initiator), Initiator, r'.up, r'.inRequest)
            && SideOk(Project(all, Responder), Responder, r'.down, r'.inResponse)
  {
    FrameCarries(r, d, b);
    hide SideOk, Project, Wires, Frame, FirstOk, EventsOk, FirstHead, Event.Framed;
    if d == Initiator {
      SidesGrow(r.log + r.queue, Frame(r, d, b), d, r.up, b, r.inRequest, r.down, r.inResponse);
    } else {
      SidesGrow(r.log + r.queue, Frame(r, d, b), d, r.down, b, r.inResponse, r.up, r.inRequest);
    }
  }

  lemma FirstGrows(r: Raw, d: Side, b: Byte)
    requires Ok(r)
    ensures FirstOk(r.log + r.queue + Frame(r, d, b), if d == Initiator then r.up + [b] else r.up)
  {
    FrameCarries(r, d, b);
    FirstConcat(r.log + r.queue, Frame(r, d, b));
    UpMeansInside(r);
    hide Frame, Project, Wires, SideOk, FirstHead;
  }

  /** A side that has no bytes yet is between messages. */
  lemma UpMeansInside(r: Raw)
    requires Ok(r)
    ensures r.up == [] ==> !r.inRequest
  {
    var log := Project(r.log + r.queue, Initiator);
    if log != [] {
      var e := log[|log| - 1];
      assert log == log[..|log| - 1] + [e];
      assert Wires(log) == Wires(log[..|log| - 1]) + e.Wire();
      ProjectMembers(r.log + r.queue, Initiator, e);
      assert e in log;
    }
  }

  lemma FrameSwitches(r: Raw, d: Side, b: Byte)
    ensures SwitchProtocols in Frame(r, d, b) <==> Feed(r.(tunnel := false), d, b).tunnel
    ensures forall e :: e in Frame(r, d, b) ==> e.Framed()
  {
  }

  lemma FeedOk(r: Raw, d: Side, b: Byte)
    requires Ok(r) && !r.tunnel
    ensures Ok(Feed(r, d, b))
  {
    SideGrows(r, d, b);
    FirstGrows(r, d, b);
    TunnelGrows(r, d, b);
    QueueGrows(r, d, b);
    hide SideOk, Project, Frame, FirstOk, EventsOk, Feed;
    assert Ok(Feed(r, d, b));
  }

  lemma QueueGrows(r: Raw, d: Side, b: Byte)
    ensures var r' := Feed(r, d, b);
            && r'.log + r'.queue == r.log + r.queue + Frame(r, d, b)
            && r'.up == if d == Initiator then r.up + [b] else r.up
  {
    hide Frame;
  }

  lemma TunnelGrows(r: Raw, d: Side, b: Byte)
    requires Ok(r) && !r.tunnel
    ensures var r' := Feed(r, d, b); var all := r.log + r.queue + Frame(r, d, b);
            EventsOk(all, r'.up, r'.tunnel)
  {
    FrameSwitches(r, d, b);
    InAppended(r.log + r.queue, Frame(r, d, b), SwitchProtocols);
    assert r.(tunnel := false) == r;
    hide SideOk, Project, Frame, FirstOk, Event.Framed;
  }

  lemma InAppended(a: seq<Event>, b: seq<Event>, e: Event)
    ensures e in a + b <==> e in a || e in b
  {
  }

  // --- The parser ---

  /** Feed bytes until they run out or the protocol switches. */
  function FeedMany(s: State, d: Side, bytes: Bytes): (nat, State)
    decreases |bytes|
  {
    if bytes == [] || s.tunnel then (0, s)
    else
      FeedOk(s, d, bytes[0]);
      var (n, t) := FeedMany(Feed(s, d, bytes[0]), d, bytes[1..]);
      (n + 1, t)
  }

  /** At most `window` backend bytes at a time, and none while events wait. */
  function Push(window: nat, s: State, d: Side, bytes: Bytes): (nat, State) {
    if d == Initiator then FeedMany(s, d, bytes)
    else if s.queue != [] then (0, s)
    else FeedMany(s, d, if |bytes| <= window then bytes else bytes[..window])
  }

  function Pop(s: State): (Option<Event>, State) {
    if s.queue == [] then (None, s)
    else
      var t := s.(log := s.log + [s.queue[0]], queue := s.queue[1..]);
      assert t.log + t.queue == s.log + s.queue;
      (Some(s.queue[0]), t)
  }

  function Bytewise(window: nat): Parser<State> {
    Parser((s: State, d: Side, bytes: Bytes) => Push(window, s, d, bytes),
           (s: State) => Pop(s),
           (s: State, d: Side) => s,
           (s: State) => None,
           (s: State) => s.tunnel,
           (s: State) => false,
           (s: State, d: Side) => [],
           (s: State, d: Side) => if d == Initiator then s.up else s.down,
           (s: State) => s.log,
           (s: State) => |s.queue|)
  }

  // --- It meets the contract ---

  /** `n` of the bytes were fed. */
  predicate Fed(s: Raw, d: Side, bytes: Bytes, n: nat, t: Raw) {
    && n <= |bytes|
    && (if d == Initiator then t.up == s.up + bytes[..n] && t.down == s.down
        else t.down == s.down + bytes[..n] && t.up == s.up)
    && t.log == s.log && s.queue <= t.queue && (n > 0 ==> t.queue != [])
    && (s.tunnel ==> t.tunnel) && (n < |bytes| ==> t.tunnel) && (d == Initiator ==> t.tunnel == s.tunnel)
  }

  lemma FedCons(s: Raw, d: Side, bytes: Bytes, n: nat, t: Raw)
    requires bytes != [] && !s.tunnel && Fed(Feed(s, d, bytes[0]), d, bytes[1..], n, t)
    ensures Fed(s, d, bytes, n + 1, t)
  {
    assert Frame(s, d, bytes[0]) != [];
    hide Frame;
    assert bytes[..n + 1] == [bytes[0]] + bytes[1..][..n];
    var own := if d == Initiator then s.up else s.down;
    assert own + bytes[..n + 1] == (own + [bytes[0]]) + bytes[1..][..n];
  }

  lemma FedNothing(s: Raw, d: Side, bytes: Bytes)
    requires bytes == [] || s.tunnel
    ensures Fed(s, d, bytes, 0, s)
  {
    assert bytes[..0] == [];
  }

  lemma {:induction false} FeedManyKeeps(s: State, d: Side, bytes: Bytes)
    ensures var (n, t) := FeedMany(s, d, bytes); Fed(s, d, bytes, n, t)
    decreases |bytes|
  {
    hide Ok, Fed, Feed;
    if bytes == [] || s.tunnel {
      FedNothing(s, d, bytes);
    } else {
      FeedOk(s, d, bytes[0]);
      var r: State := Feed(s, d, bytes[0]);
      FeedManyKeeps(r, d, bytes[1..]);
      var (n, t) := FeedMany(r, d, bytes[1..]);
      FedCons(s, d, bytes, n, t);
    }
  }

  lemma PushMeetsContract(w: nat, s: State, d: Side, bytes: Bytes)
    ensures PushOk(Bytewise(w), s, d, bytes)
  {
    hide Ok, FeedMany, Frame;
    FeedManyKeeps(s, d, bytes);
    if |bytes| > w {
      FeedManyKeeps(s, d, bytes[..w]);
      var n := FeedMany(s, d, bytes[..w]).0;
      assert bytes[..w][..n] == bytes[..n];
    }
    assert bytes[..0] == [];
  }

  lemma LogIsPart(s: State, d: Side)
    ensures WellFramed(Project(s.log, Initiator)) && (forall e :: e in s.log ==> e.Framed())
    ensures Wires(Project(s.log, d)) <= if d == Initiator then s.up else s.down
    ensures s.queue == [] ==> Wires(Project(s.log, d)) == if d == Initiator then s.up else s.down
  {
    ProjectConcat(s.log, s.queue, Initiator);
    ProjectConcat(s.log, s.queue, d);
    WiresConcat(Project(s.log, d), Project(s.queue, d));
    NothingAdded(s.log);
    FramedPrefix(Project(s.log, Initiator), Project(s.queue, Initiator));
  }

  lemma FramedPrefix(a: seq<Event>, b: seq<Event>)
    requires WellFramed(a + b)
    ensures WellFramed(a)
  {
    forall i: nat | i < |a| ensures FramedAt(a, i) {
      assert FramedAt(a + b, i);
    }
  }

  lemma SidesMeetContract(w: nat, s: State, d: Side)
    ensures RawOk(Bytewise(w), s, d) && FramingOk(Bytewise(w), s)
  {
    LogIsPart(s, d);
    hide Ok, Wires, Project, WellFramed;
    assert Wires(Project(s.log, d)) + [] == Wires(Project(s.log, d));
  }

  lemma StepsMeetContract(w: nat, s: State)
    ensures SwitchOk(Bytewise(w), s) && AnnouncesOk(Bytewise(w), s) && NextOk(Bytewise(w), s)
  {
    hide SideOk, FirstOk;
    assert s.queue == [] ==> s.log + s.queue == s.log;
  }

  lemma ProgressMeetsContract(w: nat, s: State, b: Bytes)
    ensures ProgressOk(Bytewise(w), s, b)
  {
    FeedManyKeeps(s, Initiator, b);
    hide Ok;
  }

  /** Bytewise parsers are lawful, make progress and announce their switches. */
  lemma BytewiseIsLawful(w: nat)
    requires w >= 1
    ensures Lawful(Bytewise(w)) && Progressing(Bytewise(w)) && Announces(Bytewise(w))
  {
    hide Ok, PushOk, RawOk, FramingOk, SwitchOk, AnnouncesOk, NextOk, ProgressOk;
    var p := Bytewise(w);
    forall s: State, d: Side, b: Bytes ensures PushOk(p, s, d, b) {
      PushMeetsContract(w, s, d, b);
    }
    forall s: State, d: Side ensures RawOk(p, s, d) {
      SidesMeetContract(w, s, d);
    }
    forall s: State ensures FramingOk(p, s) && SwitchOk(p, s) && AnnouncesOk(p, s) && NextOk(p, s) {
      SidesMeetContract(w, s, Initiator);
      StepsMeetContract(w, s);
    }
    assert forall s: State, d: Side :: FinOk(p, s, d);
    forall s: State, b: Bytes ensures ProgressOk(p, s, b) {
      ProgressMeetsContract(w, s, b);
    }
  }

  /** A drained parser takes one window of backend bytes and refuses the rest. */
  lemma OneWindow(w: nat, s: State, b: Bytes)
    requires w >= 1 && s.queue == [] && Lawful(Bytewise(w)) && b != []
    ensures var (n, t) := Push(w, s, Responder, b);
            && n <= |b| && PushAll(Bytewise(w), s, Responder, b) == (t, b[n..])
            && (!t.tunnel ==> n == if |b| <= w then |b| else w)
  {
    hide Ok, Frame, Lawful, FeedMany;
    var chunk := if |b| <= w then b else b[..w];
    FeedManyKeeps(s, Responder, chunk);
    var p := Bytewise(w);
    var (n, t) := Push(w, s, Responder, b);
    assert p.push(s, Responder, b) == (n, t);
    if n > 0 {
      assert b[n..] != [] ==> p.push(t, Responder, b[n..]) == (0, t);
    }
  }

  lemma BytewiseAbsorbs(w: nat)
    requires w >= 1 && Lawful(Bytewise(w))
    ensures Absorbing(Bytewise(w), w)
  {
    hide Ok, Lawful;
    forall s: State, b: Bytes ensures AbsorbsOk(Bytewise(w), w, s, b) {
      if b != [] && s.queue == [] {
        OneWindow(w, s, b);
      }
    }
  }

  /** A head is framed by its first byte. */
  function FirstByte(bytes: Bytes): Verdict {
    if bytes == [] then Undecided else HeadAt(HeadFor(bytes[0]))
  }

  lemma FirstOfLog(s: State)
    ensures FirstHead(s.log).Some? ==> s.up != [] && FirstHead(s.log) == Some(HeadFor(s.up[0]))
    ensures s.queue == [] ==> FirstHead(s.log) == if s.up == [] then None else Some(HeadFor(s.up[0]))
  {
    FirstConcat(s.log, s.queue);
    assert s.queue == [] ==> s.log + s.queue == s.log;
  }

  /** And their heads depend on nothing but the bytes accepted. */
  lemma BytewiseDecides(w: nat)
    requires w >= 1
    ensures Decides(Bytewise(w), FirstByte)
  {
    forall s: State ensures DecidesOk(Bytewise(w), FirstByte, s) {
      FirstOfLog(s);
      hide SideOk, FirstHead;
      forall b: Bytes | b != [] && s.up == [] ensures Bytewise(w).push(s, Initiator, b).0 > 0 {
        FeedManyKeeps(s, Initiator, b);
      }
    }
    assert forall a: Bytes, b: Bytes :: a <= b && a != [] ==> b != [] && b[0] == a[0];
  }
}

/** Runs in which the exchange loop loses or misplaces bytes, with a small lawful
    parser (src/import/multiroute.rs). */
module ExchangeLosses {
  import opened Streams
  import opened HttpParser
  import opened BytewiseParser
  import opened ExchangePipes
  import ExchangeBook
  import Multiroute

  function Moved(s: Raw): Raw {
    s.(log := s.log + s.queue, queue := [])
  }

  lemma MovedOk(s: State)
    ensures Ok(Moved(s))
  {
    assert (s.log + s.queue) + [] == s.log + s.queue;
    hide SideOk, FirstOk, EventsOk;
  }

  lemma MovedPop(s: State)
    requires s.queue != []
    ensures Moved(Pop(s).1) == Moved(s) && s.queue == [s.queue[0]] + Pop(s).1.queue
    ensures Pop(s).0 == Some(s.queue[0])
  {
    hide Ok;
    assert (s.log + [s.queue[0]]) + s.queue[1..] == s.log + s.queue;
  }

  /** Draining a bytewise parser moves its queue to its log. */
  lemma {:induction false} DrainMoves(w: nat, s: State)
    requires w >= 1 && Lawful(Bytewise(w))
    ensures DrainAll(Bytewise(w), s).0 == Moved(s) && DrainAll(Bytewise(w), s).1 == s.queue
    decreases |s.queue|
  {
    hide Ok, Lawful;
    if s.queue == [] {
      assert s.log + s.queue == s.log;
    } else {
      MovedPop(s);
      DrainMoves(w, Pop(s).1);
    }
  }

  lemma FeedManyOne(s: State, d: Side, b: Byte)
    requires !s.tunnel
    ensures FeedMany(s, d, [b]).0 == 1 && FeedMany(s, d, [b]).1 == Feed(s, d, b)
  {
    FeedOk(s, d, b);
    hide Ok, Feed;
    assert [b][1..] == [];
  }

  /** With a window of one, each offer gets one byte in. */
  lemma OneByteIn(s: State, b: Bytes)
    requires Lawful(Bytewise(1)) && s.queue == [] && !s.tunnel && b != [] && b[0] != SWITCH
    ensures var (t, _, tail) := FeedAll(Bytewise(1), s, Responder, b);
            tail == b[1..] && t.queue == [] && !t.tunnel
  {
    hide Ok, Lawful, PushAll, DrainAll, FeedMany, Push;
    OneWindow(1, s, b);
    PushOne(s, b);
    FeedManyOne(s, Responder, b[0]);
    DrainMoves(1, Push(1, s, Responder, b).1);
  }

  lemma PushOne(s: State, b: Bytes)
    requires s.queue == [] && b != []
    ensures Push(1, s, Responder, b) == FeedMany(s, Responder, [b[0]])
  {
    hide Ok, FeedMany;
    assert (if |b| <= 1 then b else b[..1]) == [b[0]];
  }

  /** Two payloads, the second of which finds a tail still pending. */
  lemma TwoPayloads<S(!new)>(p: Parser<S>, x: Pipes<S>, a: Bytes, b: Bytes)
    requires Lawful(p) && Starts(p, x) && x.clientPending == [] && a != [] && b != []
    requires Accepting(p, x.state)
    requires var z := Reoffer(p, TakeInput(p, x, Sample(a))); Accepting(p, z.state) && z.respPending != []
    ensures var trace := [Some(Sample(a)), Some(Sample(b))];
            Proper(p, x, trace) && !NoOverwrite(p, x, trace)
  {
    hide Lawful, FeedAll, Starts, Accepting, TakeInput;
    var first, trace := [Some(Sample(a))], [Some(Sample(a)), Some(Sample(b))];
    assert trace[..1] == first && first[..0] == [];
    assert x.respPending == [] by {
      StartsEmpty(p, x);
    }
    assert Reoffer(p, x) == x;
    assert PipeRun(p, x, []) == x;
    assert PipeRun(p, x, first) == TakeInput(p, x, Sample(a));
    assert Proper(p, x, []) && Proper(p, x, first);
  }

  lemma StartsEmpty<S(!new)>(p: Parser<S>, x: Pipes<S>)
    requires Starts(p, x)
    ensures x.respPending == []
  {
  }

  lemma SecondByteIn(s: State, read: Bytes)
    requires Lawful(Bytewise(1)) && s.queue == [] && !s.tunnel
    ensures var p := Bytewise(1);
            var x := Pipes(s, [], [], false, read, Received(s.down, [], 0));
            var z := Reoffer(p, TakeInput(p, x, Sample([7, 8, 9])));
            Starts(p, x) && Accepting(p, s) && Accepting(p, z.state) && z.respPending == [9]
  {
    OneByteIn(s, [7, 8, 9]);
    var p := Bytewise(1);
    var x := Pipes(s, [], [], false, read, Received(s.down, [], 0));
    hide Lawful, FeedAll, Ok;
    var y := TakeInput(p, x, Sample([7, 8, 9]));
    assert y.respPending == [8, 9];
    OneByteIn(y.state, [8, 9]);
  }

  /** A response tail is overwritten: with a payload of three bytes and a parser
      that takes one at a time, a byte is still pending when the next payload
      comes.  Nothing ended, poisoned or switched the parser. */
  lemma TailIsOverwritten(s: State, read: Bytes)
    requires s.queue == [] && !s.tunnel
    ensures Lawful(Bytewise(1))
    ensures var p := Bytewise(1);
            var x := Pipes(s, [], [], false, read, Received(s.down, [], 0));
            var trace := [Some(Sample([7, 8, 9])), Some(Sample([4]))];
            var y := PipeRun(p, x, trace);
            && Starts(p, x) && Proper(p, x, trace) && !NoOverwrite(p, x, trace)
            && p.accepted(y.state, Responder) + y.respPending != p.accepted(s, Responder) + PayloadsOf(trace)
  {
    BytewiseIsLawful(1);
    var p := Bytewise(1);
    var x := Pipes(s, [], [], false, read, Received(s.down, [], 0));
    SecondByteIn(s, read);
    TwoPayloads(p, x, [7, 8, 9], [4]);
    ResponseConserved(p, x, [Some(Sample([7, 8, 9])), Some(Sample([4]))]);
    hide Lawful, Ok, Starts, Proper, NoOverwrite, PipeRun, PayloadsOf;
  }

  // --- What a pass over the queue leaves behind ---

  lemma FeedStep(s: State, d: Side, b: Byte, rest: Bytes)
    requires !s.tunnel
    ensures Ok(Feed(s, d, b))
    ensures FeedMany(s, d, [b] + rest).0 == 1 + FeedMany(Feed(s, d, b), d, rest).0
    ensures FeedMany(s, d, [b] + rest).1 == FeedMany(Feed(s, d, b), d, rest).1
  {
    FeedOk(s, d, b);
    hide Ok, Feed;
    assert ([b] + rest)[1..] == rest;
  }

  /** Bytes that all go in at once come out as the queue. */
  lemma AllIn(w: nat, s: State, d: Side, b: Bytes)
    requires w >= 1 && Lawful(Bytewise(w)) && b != [] && Push(w, s, d, b).0 == |b|
    ensures var t := Push(w, s, d, b).1;
            && FeedAll(Bytewise(w), s, d, b).0 == Moved(t)
            && FeedAll(Bytewise(w), s, d, b).1 == t.queue
            && FeedAll(Bytewise(w), s, d, b).2 == []
  {
    var (n, t) := Push(w, s, d, b);
    DrainMoves(w, t);
    hide Ok, Lawful, Feed, FeedMany, DrainAll;
    assert Bytewise(w).push(s, d, b) == (n, t) && b[n..] == [];
    assert PushAll(Bytewise(w), s, d, b) == PushAll(Bytewise(w), t, d, []) == (t, []);
  }

  function Line(d: Side, head: Event): seq<Event> {
    [head, Body(d, [0]), End(d)]
  }

  function Reply(b: Byte): Event {
    ResponseHead([b], false, Sized, Http11, [])
  }

  /** A request of two bytes goes in from between messages. */
  lemma RequestIn(s: State, b: Byte, rest: Bytes)
    requires !s.tunnel && !s.inRequest
    ensures var t := s.(up := s.up + [b] + [0], queue := s.queue + Line(Initiator, HeadFor(b)));
            && Ok(t)
            && FeedMany(s, Initiator, [b, 0] + rest).0 == 2 + FeedMany(t, Initiator, rest).0
            && FeedMany(s, Initiator, [b, 0] + rest).1 == FeedMany(t, Initiator, rest).1
  {
    hide Ok, FeedMany;
    FeedStep(s, Initiator, b, [0] + rest);
    assert [b] + ([0] + rest) == [b, 0] + rest;
    var r: State := Feed(s, Initiator, b);
    FeedStep(r, Initiator, 0, rest);
    assert s.queue + [HeadFor(b)] + [Body(Initiator, [0]), End(Initiator)] == s.queue + Line(Initiator, HeadFor(b));
  }

  lemma ReplyIn(s: State, b: Byte, rest: Bytes)
    requires !s.tunnel && !s.inResponse && b != SWITCH
    ensures var t := s.(down := s.down + [b] + [0], queue := s.queue + Line(Responder, Reply(b)));
            && Ok(t)
            && FeedMany(s, Responder, [b, 0] + rest).0 == 2 + FeedMany(t, Responder, rest).0
            && FeedMany(s, Responder, [b, 0] + rest).1 == FeedMany(t, Responder, rest).1
  {
    hide Ok, FeedMany;
    FeedStep(s, Responder, b, [0] + rest);
    assert [b] + ([0] + rest) == [b, 0] + rest;
    var r: State := Feed(s, Responder, b);
    FeedStep(r, Responder, 0, rest);
    assert s.queue + [Reply(b)] + [Body(Responder, [0]), End(Responder)] == s.queue + Line(Responder, Reply(b));
  }

  /** A pass acts on a whole message of its own side. */
  lemma SweepRequest(b: Byte, rest: seq<Event>)
    ensures Multiroute.Sweep([Body(Initiator, [b]), End(Initiator)] + rest, false) == Multiroute.Sweep(rest, true)
  {
    var events := [Body(Initiator, [b]), End(Initiator)] + rest;
    assert events[1..] == [End(Initiator)] + rest && events[1..][1..] == rest;
  }

  /** One of the next request is left where it is. */
  lemma {:induction false} SweepDefers(own: seq<Event>, rest: seq<Event>)
    requires forall e :: e in own ==> e.SideOf() == Some(Initiator)
    ensures Multiroute.Sweep(own + rest, true) == own + Multiroute.Sweep(rest, true)
  {
    if own == [] {
      assert own + rest == rest;
    } else {
      var e := own[0];
      assert own == [e] + own[1..] && e in own;
      assert (own + rest)[0] == e && (own + rest)[1..] == own[1..] + rest;
      SweepDefers(own[1..], rest);
      assert own + Multiroute.Sweep(rest, true) == [e] + (own[1..] + Multiroute.Sweep(rest, true));
    }
  }

  lemma SweepReply(b: Byte, rest: seq<Event>)
    ensures Multiroute.Sweep(Line(Responder, Reply(b)) + rest, true) == rest
  {
    var events := Line(Responder, Reply(b)) + rest;
    var body, end := [Body(Responder, [0]), End(Responder)] + rest, [End(Responder)] + rest;
    assert events[1..] == body && body[1..] == end && end[1..] == rest;
    assert Multiroute.Sweep(end, true) == rest;
    assert Multiroute.Sweep(body, true) == rest;
  }

  /** A switch with client bytes still queued.  The client sends a request and the
      first byte of another; the backend switches protocols.  When the pass stops
      there, that byte has been framed and sits in the queue, where the splice
      does not look. */
  lemma SwitchLeavesBytes() returns (s: State, up: seq<Event>, t: State, down: seq<Event>, left: seq<Event>)
    ensures Lawful(Bytewise(1))
    ensures FeedAll(Bytewise(1), START, Initiator, [1, 0, 5]) == (s, up, [])
    ensures FeedAll(Bytewise(1), s, Responder, [SWITCH]) == (t, down, [])
    ensures up != [] && up[0] == HeadFor(1) && SwitchProtocols in down && t.tunnel
    ensures left == Multiroute.Sweep(Multiroute.Sweep(up[1..], false) + down, true)
    ensures left == [HeadFor(5)] && Wires(Project(left, Initiator)) == [5]
  {
    hide *;
    BytewiseIsLawful(1);
    RequestAndMore();
    MovedOk(Piped());
    s, up := Moved(Piped()), Piped().queue;
    t := SwitchIn();
    down, left := [SwitchHead(), SwitchProtocols], [HeadFor(5)];
    PipedRest();
    SweepSwitch();
    FiveIsLeft();
  }

  lemma PipedRest()
    ensures var up := Piped().queue;
            up != [] && up[0] == HeadFor(1) && up[1..] == [Body(Initiator, [0]), End(Initiator)] + [HeadFor(5)]
  {
    var up := Piped().queue;
    assert up == Line(Initiator, HeadFor(1)) + [HeadFor(5)];
  }

  lemma FiveIsLeft()
    ensures Wires(Project([HeadFor(5)], Initiator)) == [5]
  {
    OneEvent(HeadFor(5), Initiator);
  }

  lemma SweepSwitch()
    ensures var first := Multiroute.Sweep([Body(Initiator, [0]), End(Initiator)] + [HeadFor(5)], false);
            Multiroute.Sweep(first + [SwitchHead(), SwitchProtocols], true) == [HeadFor(5)]
  {
    SweepRequest(0, [HeadFor(5)]);
    SweepDefers([HeadFor(5)], []);
    assert [HeadFor(5)] + [] == [HeadFor(5)];
    SweepDefers([HeadFor(5)], [SwitchHead(), SwitchProtocols]);
    assert [SwitchHead(), SwitchProtocols][1..] == [SwitchProtocols];
    assert [SwitchProtocols][1..] == [];
  }

  function SwitchHead(): Event {
    ResponseHead([SWITCH], true, Sized, Http11, [])
  }

  function Piped(): Raw {
    Raw([1, 0, 5], [], [], Line(Initiator, HeadFor(1)) + [HeadFor(5)], true, false, false)
  }

  lemma RequestAndMore()
    requires Lawful(Bytewise(1))
    ensures Ok(Piped())
    ensures FeedAll(Bytewise(1), START, Initiator, [1, 0, 5]) == (Moved(Piped()), Piped().queue, [])
  {
    hide Ok, Lawful, FeedMany, FeedAll;
    StartOk();
    RequestIn(START, 1, [5]);
    var r := START.(up := START.up + [1] + [0], queue := START.queue + Line(Initiator, HeadFor(1)));
    FeedManyOne(r, Initiator, 5);
    FeedOk(r, Initiator, 5);
    assert [1 as Byte, 0] + [5] == [1, 0, 5];
    assert Feed(r, Initiator, 5) == Piped() by {
      assert r.up + [5] == [1, 0, 5];
    }
    AllIn(1, START, Initiator, [1, 0, 5]);
  }

  lemma StartOk()
    ensures Ok(START)
  {
  }

  lemma SwitchIn() returns (t: State)
    requires Lawful(Bytewise(1)) && Ok(Piped()) && Ok(Moved(Piped()))
    ensures FeedAll(Bytewise(1), Moved(Piped()), Responder, [SWITCH]) == (t, [SwitchHead(), SwitchProtocols], [])
    ensures t.tunnel
  {
    hide Ok, Lawful, FeedMany, FeedAll;
    var s: State := Moved(Piped());
    FeedManyOne(s, Responder, SWITCH);
    SwitchFed(s);
    assert Push(1, s, Responder, [SWITCH]) == (1, Feed(s, Responder, SWITCH));
    hide Push, Feed, Moved, Piped;
    AllIn(1, s, Responder, [SWITCH]);
    t := FeedAll(Bytewise(1), s, Responder, [SWITCH]).0;
  }

  lemma SwitchFed(s: State)
    requires s.queue == [] && !s.inResponse && s.up != []
    ensures Feed(s, Responder, SWITCH).queue == [SwitchHead(), SwitchProtocols] && Feed(s, Responder, SWITCH).tunnel
  {
    hide Ok;
  }

  // --- A response left for the next request ---

  /** Two pipelined requests, and a backend that answers the first one twice.  The
      second answer is queued behind the next request's head when its exchange
      begins: it is the first thing that exchange shows. */
  lemma StrayReplyIsQueued() returns (s: State, up: seq<Event>, t: State, down: seq<Event>, left: seq<Event>)
    ensures Lawful(Bytewise(4))
    ensures FeedAll(Bytewise(4), START, Initiator, [1, 0, 2, 0]) == (s, up, [])
    ensures FeedAll(Bytewise(4), s, Responder, [9, 0, 8, 0]) == (t, down, [])
    ensures up != [] && up[0] == HeadFor(1)
    ensures left == Multiroute.Sweep(Multiroute.Sweep(up[1..], false) + down, true)
    ensures left == Line(Initiator, HeadFor(2)) + Line(Responder, Reply(8))
  {
    hide *;
    BytewiseIsLawful(4);
    s := TwoRequests();
    up := Line(Initiator, HeadFor(1)) + Line(Initiator, HeadFor(2));
    t := TwoReplies(s);
    down := Line(Responder, Reply(9)) + Line(Responder, Reply(8));
    left := Line(Initiator, HeadFor(2)) + Line(Responder, Reply(8));
    SweepStray();
    FirstLine(Line(Initiator, HeadFor(2)));
  }

  lemma FirstLine(rest: seq<Event>)
    ensures var up := Line(Initiator, HeadFor(1)) + rest;
            up != [] && up[0] == HeadFor(1) && up[1..] == [Body(Initiator, [0]), End(Initiator)] + rest
  {
  }

  lemma SweepStray()
    ensures var next, stray := Line(Initiator, HeadFor(2)), Line(Responder, Reply(8));
            var first := Multiroute.Sweep([Body(Initiator, [0]), End(Initiator)] + next, false);
            Multiroute.Sweep(first + (Line(Responder, Reply(9)) + stray), true) == next + stray
  {
    var next, stray := Line(Initiator, HeadFor(2)), Line(Responder, Reply(8));
    SweepRequest(0, next);
    SweepDefers(next, []);
    assert next + [] == next;
    SweepDefers(next, Line(Responder, Reply(9)) + stray);
    SweepReply(9, stray);
  }

  lemma TwoRequests() returns (s: State)
    requires Lawful(Bytewise(4))
    ensures FeedAll(Bytewise(4), START, Initiator, [1, 0, 2, 0]) ==
            (s, Line(Initiator, HeadFor(1)) + Line(Initiator, HeadFor(2)), [])
    ensures s.queue == [] && !s.tunnel && !s.inResponse
  {
    hide Ok, Lawful, FeedAll;
    RequestIn(START, 1, [2, 0]);
    var r := START.(up := START.up + [1] + [0], queue := START.queue + Line(Initiator, HeadFor(1)));
    RequestIn(r, 2, []);
    assert [1 as Byte, 0] + [2, 0] == [1, 0, 2, 0] && [2 as Byte, 0] + [] == [2, 0];
    assert START.queue + Line(Initiator, HeadFor(1)) == Line(Initiator, HeadFor(1));
    AllIn(4, START, Initiator, [1, 0, 2, 0]);
    s := FeedAll(Bytewise(4), START, Initiator, [1, 0, 2, 0]).0;
  }

  lemma TwoReplies(s: State) returns (t: State)
    requires Lawful(Bytewise(4)) && s.queue == [] && !s.tunnel && !s.inResponse
    ensures FeedAll(Bytewise(4), s, Responder, [9, 0, 8, 0]) ==
            (t, Line(Responder, Reply(9)) + Line(Responder, Reply(8)), [])
  {
    hide Ok, Lawful, FeedAll;
    ReplyIn(s, 9, [8, 0]);
    var r := s.(down := s.down + [9] + [0], queue := s.queue + Line(Responder, Reply(9)));
    ReplyIn(r, 8, []);
    assert [9 as Byte, 0] + [8, 0] == [9, 0, 8, 0] && [8 as Byte, 0] + [] == [8, 0];
    assert s.queue + Line(Responder, Reply(9)) == Line(Responder, Reply(9));
    AllIn(4, s, Responder, [9, 0, 8, 0]);
    t := FeedAll(Bytewise(4), s, Responder, [9, 0, 8, 0]).0;
  }
}

/** The bytes of one exchange: what was read from the client and received from the
    backend, and what the parser has accepted of it, turn by turn
    (src/import/multiroute.rs). */
module ExchangePipes {
  import opened Streams
  import opened HttpParser

  /** What the connection's surroundings do next.  A run is any sequence of
      these; a client input whose select arm is disabled waits. */
  datatype Input =
    | ClientRead(bytes: Bytes)     // an empty read is the client's EOF
    | ClientError                  // a read error, or the idle timeout between requests
    | Sample(payload: Bytes)       // an empty payload is the backend's EOF marker
    | ChannelClosed
    | IdleTimeout
    | Overflow
    | Drain
  {
    predicate FromClient() { ClientRead? || ClientError? }
  }

  /** Backend bytes accepted by the parser before an exchange, the payload bytes
      received in it, and how many of these an overwritten tail cost. */
  datatype Received = Received(base: Bytes, payloads: Bytes, lost: nat) {
    ghost predicate Kept(accepted: Bytes, pending: Bytes) {
      && |base| + |payloads| == |accepted| + |pending| + lost
      && (lost == 0 ==> accepted + pending == base + payloads)
    }

    function Take(payload: Bytes, tail: Bytes): Received {
      this.(payloads := payloads + payload, lost := lost + |tail|)
    }
  }

  lemma KeptStep(r: Received, accepted: Bytes, pending: Bytes, accepted': Bytes, pending': Bytes, payload: Bytes)
    requires r.Kept(accepted, pending)
    requires accepted' + pending' == accepted + payload
    ensures r.Take(payload, pending).Kept(accepted', pending')
  {
    assert |accepted' + pending'| == |accepted + payload|;
    if r.lost + |pending| == 0 {
      assert accepted + pending == accepted;
      assert r.base + (r.payloads + payload) == (r.base + r.payloads) + payload;
    }
  }

  lemma KeptInitially(accepted: Bytes)
    ensures Received(accepted, [], 0).Kept(accepted, [])
  {
    assert accepted + [] == accepted;
  }

  // --- Turns of the exchange loop ---

  datatype Pipes<!S> = Pipes(
    state: S,
    clientPending: Bytes, respPending: Bytes,
    clientEof: bool, clientRead: Bytes,
    received: Received)

  ghost function OfferUp<S(!new)>(p: Parser<S>, x: Pipes<S>): Pipes<S>
    requires Lawful(p)
  {
    if x.clientPending == [] then x
    else
      var (t, _, tail) := FeedAll(p, x.state, Initiator, x.clientPending);
      x.(state := t, clientPending := tail)
  }

  ghost function OfferDown<S(!new)>(p: Parser<S>, x: Pipes<S>): Pipes<S>
    requires Lawful(p)
  {
    if x.respPending == [] then x
    else
      var (t, _, tail) := FeedAll(p, x.state, Responder, x.respPending);
      x.(state := t, respPending := tail)
  }

  /** Both refused tails are re-offered at the top of every turn. */
  ghost function Reoffer<S(!new)>(p: Parser<S>, x: Pipes<S>): Pipes<S>
    requires Lawful(p)
  {
    OfferDown(p, OfferUp(p, x))
  }

  /** What one input does: a payload's refused tail replaces the one before. */
  ghost function TakeInput<S(!new)>(p: Parser<S>, x: Pipes<S>, input: Input): Pipes<S>
    requires Lawful(p)
  {
    match input
    case ClientRead(bytes) =>
      if bytes == [] then x.(clientEof := true, state := DrainAll(p, p.fin(x.state, Initiator)).0)
      else
        var (t, _, tail) := FeedAll(p, x.state, Initiator, bytes);
        x.(state := t, clientPending := tail, clientRead := x.clientRead + bytes)
    case Sample(payload) =>
      if payload == [] then x.(state := DrainAll(p, p.fin(x.state, Responder)).0)
      else
        var (t, _, tail) := FeedAll(p, x.state, Responder, payload);
        x.(state := t, respPending := tail, received := x.received.Take(payload, x.respPending))
    case _ => x
  }

  /** One turn, which may end before it takes an input. */
  ghost function TurnOf<S(!new)>(p: Parser<S>, x: Pipes<S>, taken: Option<Input>): Pipes<S>
    requires Lawful(p)
  {
    var y := Reoffer(p, x);
    if taken.Some? then TakeInput(p, y, taken.value) else y
  }

  ghost function PipeRun<S(!new)>(p: Parser<S>, x: Pipes<S>, trace: seq<Option<Input>>): Pipes<S>
    requires Lawful(p)
  {
    if trace == [] then x
    else TurnOf(p, PipeRun(p, x, trace[..|trace| - 1]), trace[|trace| - 1])
  }

  lemma PipeRunSnoc<S(!new)>(p: Parser<S>, x: Pipes<S>, trace: seq<Option<Input>>, taken: Option<Input>)
    requires Lawful(p)
    ensures PipeRun(p, x, trace + [taken]) == TurnOf(p, PipeRun(p, x, trace), taken)
  {
    assert (trace + [taken])[..|trace|] == trace;
  }

  /** The payload bytes among the inputs taken. */
  function PayloadsOf(trace: seq<Option<Input>>): Bytes {
    if trace == [] then []
    else
      PayloadsOf(trace[..|trace| - 1]) +
      match trace[|trace| - 1]
      case Some(Sample(payload)) => payload
      case _ => []
  }

  /** Every input was taken by a parser that accepts more. */
  ghost predicate Proper<S(!new)>(p: Parser<S>, x: Pipes<S>, trace: seq<Option<Input>>)
    requires Lawful(p)
  {
    trace != [] ==>
      var before := trace[..|trace| - 1];
      && Proper(p, x, before)
      && (trace[|trace| - 1].Some? ==> Accepting(p, Reoffer(p, PipeRun(p, x, before)).state))
  }

  predicate CarriesPayload(taken: Option<Input>) {
    taken.Some? && taken.value.Sample? && taken.value.payload != []
  }

  /** Every payload found the tail of the one before taken care of. */
  ghost predicate NoOverwrite<S(!new)>(p: Parser<S>, x: Pipes<S>, trace: seq<Option<Input>>)
    requires Lawful(p)
  {
    trace != [] ==>
      var before := trace[..|trace| - 1];
      && NoOverwrite(p, x, before)
      && (CarriesPayload(trace[|trace| - 1]) ==> Reoffer(p, PipeRun(p, x, before)).respPending == [])
  }

  /** An exchange begins: nothing received yet, no response tail. */
  ghost predicate Starts<S>(p: Parser<S>, x: Pipes<S>) {
    && Drained(p, x.state) && x.respPending == []
    && x.received == Received(p.accepted(x.state, Responder), [], 0)
  }

  // --- What re-offering and taking keep ---

  /** The books of the response, and the parser drained. */
  ghost predicate Booked<S>(p: Parser<S>, x: Pipes<S>) {
    Drained(p, x.state) && x.received.Kept(p.accepted(x.state, Responder), x.respPending)
  }

  lemma ReofferKeeps<S(!new)>(p: Parser<S>, x: Pipes<S>)
    requires Lawful(p) && Booked(p, x)
    ensures var y := Reoffer(p, x);
            && Booked(p, y) && y.received == x.received && |y.respPending| <= |x.respPending|
  {
    FeedAllOk(p, x.state, Initiator, x.clientPending);
    var up := OfferUp(p, x);
    FeedAllOk(p, up.state, Responder, up.respPending);
    hide Lawful, FeedAll;
  }

  /** While a parser that makes progress still accepts, no turn leaves the client's
      refused tail as it was. */
  lemma ReofferProgresses<S(!new)>(p: Parser<S>, x: Pipes<S>)
    requires Lawful(p) && Progressing(p) && Accepting(p, x.state) && x.clientPending != []
    ensures |Reoffer(p, x).clientPending| < |x.clientPending|
  {
    PushAllProgresses(p, x.state, x.clientPending);
    hide Lawful, Progressing, PushAll, DrainAll;
  }

  lemma TakeKeeps<S(!new)>(p: Parser<S>, x: Pipes<S>, input: Input)
    requires Lawful(p) && Booked(p, x)
    ensures var y := TakeInput(p, x, input);
            && Booked(p, y)
            && y.received ==
               (if CarriesPayload(Some(input)) then x.received.Take(input.payload, x.respPending) else x.received)
            && (!CarriesPayload(Some(input)) ==> y.respPending == x.respPending)
  {
    match input
    case ClientRead(bytes) =>
      assert FinOk(p, x.state, Initiator);
      DrainAllOk(p, p.fin(x.state, Initiator));
      FeedAllOk(p, x.state, Initiator, bytes);
      hide Lawful, FeedAll, DrainAll;
    case Sample(payload) =>
      assert FinOk(p, x.state, Responder);
      DrainAllOk(p, p.fin(x.state, Responder));
      FeedAllOk(p, x.state, Responder, payload);
      hide Lawful, FeedAll, DrainAll, Received.Kept;
      if payload != [] {
        var y := TakeInput(p, x, input);
        KeptStep(x.received, p.accepted(x.state, Responder), x.respPending,
                 p.accepted(y.state, Responder), y.respPending, payload);
      }
    case _ =>
  }

  lemma {:induction false} RunBooks<S(!new)>(p: Parser<S>, x: Pipes<S>, trace: seq<Option<Input>>)
    requires Lawful(p) && Starts(p, x)
    ensures var y := PipeRun(p, x, trace);
            && Booked(p, y)
            && y.received.base == x.received.base && y.received.payloads == PayloadsOf(trace)
            && (y.received.lost == 0 <==> NoOverwrite(p, x, trace))
  {
    if trace == [] {
      KeptInitially(p.accepted(x.state, Responder));
    } else {
      var before, taken := trace[..|trace| - 1], trace[|trace| - 1];
      RunBooks(p, x, before);
      var y := PipeRun(p, x, before);
      ReofferKeeps(p, y);
      if taken.Some? {
        TakeKeeps(p, Reoffer(p, y), taken.value);
      }
      hide Lawful, Reoffer, TakeInput, Received.Kept, Drained;
    }
  }

  // --- Conservation of the response ---

  /** Backend bytes accepted and pending are all that were there before and all
      that were received, in order, exactly when every payload found the refused
      tail of the one before taken care of. */
  lemma ResponseConserved<S(!new)>(p: Parser<S>, x: Pipes<S>, trace: seq<Option<Input>>)
    requires Lawful(p) && Starts(p, x)
    ensures var y := PipeRun(p, x, trace);
            (p.accepted(y.state, Responder) + y.respPending == p.accepted(x.state, Responder) + PayloadsOf(trace))
            <==> NoOverwrite(p, x, trace)
  {
    RunBooks(p, x, trace);
    var y := PipeRun(p, x, trace);
    if p.accepted(y.state, Responder) + y.respPending == y.received.base + y.received.payloads {
      assert |p.accepted(y.state, Responder) + y.respPending| == |y.received.base + y.received.payloads|;
    }
  }

  /** No payload is larger than `n`. */
  predicate PayloadsUpTo(trace: seq<Option<Input>>, n: nat) {
    forall k :: 0 <= k < |trace| && CarriesPayload(trace[k]) ==> |trace[k].value.payload| <= n
  }

  /** The parser neither refuses nor passes over what it is offered. */
  predicate Open<S>(p: Parser<S>, s: S) {
    p.poison(s).None? && !p.tunnelled(s)
  }

  /** A parser that is open was open before. */
  lemma ReofferOpens<S(!new)>(p: Parser<S>, x: Pipes<S>)
    requires Lawful(p) && Booked(p, x)
    ensures var up := OfferUp(p, x);
            && Booked(p, up) && up.respPending == x.respPending && up.received == x.received
            && (Open(p, Reoffer(p, x).state) ==> Open(p, up.state))
            && (Open(p, up.state) ==> Open(p, x.state))
  {
    FeedAllOk(p, x.state, Initiator, x.clientPending);
    var up := OfferUp(p, x);
    FeedAllOk(p, up.state, Responder, up.respPending);
    hide Lawful, FeedAll;
  }

  /** A parser that stays open takes at least `w` bytes of what it is fed. */
  lemma FeedAbsorbs<S(!new)>(p: Parser<S>, s: S, b: Bytes, w: nat)
    requires Lawful(p) && Absorbing(p, w) && Drained(p, s)
    ensures var (t, _, tail) := FeedAll(p, s, Responder, b);
            Open(p, t) ==> |tail| <= if |b| <= w then 0 else |b| - w
  {
    assert AbsorbsOk(p, w, s, b);
    PushAllOk(p, s, Responder, b);
    DrainAllOk(p, PushAll(p, s, Responder, b).0);
  }

  lemma ReofferAbsorbs<S(!new)>(p: Parser<S>, x: Pipes<S>, w: nat)
    requires Lawful(p) && Absorbing(p, w) && Booked(p, x)
    ensures Open(p, Reoffer(p, x).state) && |x.respPending| <= w ==> Reoffer(p, x).respPending == []
  {
    ReofferOpens(p, x);
    FeedAbsorbs(p, OfferUp(p, x).state, x.respPending, w);
    hide Lawful, Absorbing, FeedAll, OfferUp;
  }

  lemma TakeAbsorbs<S(!new)>(p: Parser<S>, x: Pipes<S>, input: Input, w: nat)
    requires Lawful(p) && Absorbing(p, w) && Booked(p, x) && x.respPending == []
    requires CarriesPayload(Some(input)) ==> |input.payload| <= 2 * w
    ensures Open(p, TakeInput(p, x, input).state) ==> |TakeInput(p, x, input).respPending| <= w
  {
    if CarriesPayload(Some(input)) {
      FeedAbsorbs(p, x.state, input.payload, w);
      hide Lawful, Absorbing, FeedAll;
    }
  }

  lemma {:induction false} AbsorbedTails<S(!new)>(p: Parser<S>, x: Pipes<S>, trace: seq<Option<Input>>, w: nat)
    requires Lawful(p) && Absorbing(p, w) && Starts(p, x) && Proper(p, x, trace) && PayloadsUpTo(trace, 2 * w)
    ensures var y := PipeRun(p, x, trace);
            Open(p, y.state) ==> |y.respPending| <= w
    ensures NoOverwrite(p, x, trace)
  {
    if trace != [] {
      var before, taken := trace[..|trace| - 1], trace[|trace| - 1];
      AbsorbedTails(p, x, before, w);
      RunBooks(p, x, before);
      var y := PipeRun(p, x, before);
      ReofferKeeps(p, y);
      ReofferOpens(p, y);
      ReofferAbsorbs(p, y, w);
      if taken.Some? {
        TakeAbsorbs(p, Reoffer(p, y), taken.value, w);
      }
      hide Lawful, Absorbing, Reoffer, OfferUp, TakeInput, Received.Kept;
    }
  }

  /** So nothing is lost to a parser that, whenever it is drained and accepts at
      all, takes at least half of the largest payload: a re-offer then empties
      every refused tail in time. */
  lemma AbsorbingConserves<S(!new)>(p: Parser<S>, x: Pipes<S>, trace: seq<Option<Input>>, w: nat)
    requires Lawful(p) && Absorbing(p, w) && Starts(p, x) && Proper(p, x, trace) && PayloadsUpTo(trace, 2 * w)
    ensures var y := PipeRun(p, x, trace);
            p.accepted(y.state, Responder) + y.respPending == p.accepted(x.state, Responder) + PayloadsOf(trace)
  {
    AbsorbedTails(p, x, trace, w);
    ResponseConserved(p, x, trace);
  }

  ghost predicate SamplesUpTo(inputs: seq<Input>, n: nat) {
    forall payload :: Sample(payload) in inputs ==> |payload| <= n
  }

  ghost predicate TakenFrom(trace: seq<Option<Input>>, inputs: seq<Input>) {
    forall k :: 0 <= k < |trace| && trace[k].Some? ==> trace[k].value in inputs
  }

  lemma RunBegins<S(!new)>(p: Parser<S>, x: Pipes<S>, inputs: seq<Input>)
    requires Lawful(p)
    ensures PipeRun(p, x, []) == x && Proper(p, x, []) && TakenFrom([], inputs)
  {
  }

  lemma TakenSnoc(trace: seq<Option<Input>>, taken: Option<Input>, inputs: seq<Input>)
    requires TakenFrom(trace, inputs) && (taken.Some? ==> taken.value in inputs)
    ensures TakenFrom(trace + [taken], inputs)
  {
  }

  lemma ProperSnoc<S(!new)>(p: Parser<S>, x: Pipes<S>, trace: seq<Option<Input>>, taken: Option<Input>)
    requires Lawful(p)
    ensures Proper(p, x, trace) && (taken.Some? ==> Accepting(p, Reoffer(p, PipeRun(p, x, trace)).state)) ==>
              Proper(p, x, trace + [taken])
  {
    assert (trace + [taken])[..|trace|] == trace;
  }

  /** Both results for one trace. */
  lemma Conservation<S(!new)>(p: Parser<S>, x: Pipes<S>, trace: seq<Option<Input>>, inputs: seq<Input>)
    requires Lawful(p) && Starts(p, x) && TakenFrom(trace, inputs)
    ensures var y := PipeRun(p, x, trace);
            && (y.received.lost == 0 <==> NoOverwrite(p, x, trace))
            && ((p.accepted(y.state, Responder) + y.respPending ==
                   p.accepted(x.state, Responder) + PayloadsOf(trace))
                <==> NoOverwrite(p, x, trace))
    ensures forall w: nat :: Absorbing(p, w) && Proper(p, x, trace) && SamplesUpTo(inputs, 2 * w) ==>
              NoOverwrite(p, x, trace)
  {
    RunBooks(p, x, trace);
    ResponseConserved(p, x, trace);
    forall w: nat | Absorbing(p, w) && Proper(p, x, trace) && SamplesUpTo(inputs, 2 * w)
      ensures NoOverwrite(p, x, trace)
    {
      forall k | 0 <= k < |trace| && CarriesPayload(trace[k]) ensures |trace[k].value.payload| <= 2 * w {
        assert trace[k].value == Sample(trace[k].value.payload);
      }
      AbsorbedTails(p, x, trace, w);
    }
  }

  lemma ReofferEmits<S(!new)>(p: Parser<S>, x: Pipes<S>)
    requires Lawful(p)
    ensures p.emitted(x.state) <= p.emitted(Reoffer(p, x).state)
  {
    FeedAllOk(p, x.state, Initiator, x.clientPending);
    var up := OfferUp(p, x);
    FeedAllOk(p, up.state, Responder, up.respPending);
    hide Lawful, FeedAll;
  }

  lemma TakeEmits<S(!new)>(p: Parser<S>, x: Pipes<S>, input: Input)
    requires Lawful(p)
    ensures p.emitted(x.state) <= p.emitted(TakeInput(p, x, input).state)
  {
    match input
    case ClientRead(bytes) =>
      assert FinOk(p, x.state, Initiator);
      DrainAllOk(p, p.fin(x.state, Initiator));
      FeedAllOk(p, x.state, Initiator, bytes);
      hide Lawful, FeedAll, DrainAll;
    case Sample(payload) =>
      assert FinOk(p, x.state, Responder);
      DrainAllOk(p, p.fin(x.state, Responder));
      FeedAllOk(p, x.state, Responder, payload);
      hide Lawful, FeedAll, DrainAll;
    case _ =>
  }

  /** The parser's log only grows. */
  lemma {:induction false} RunEmits<S(!new)>(p: Parser<S>, x: Pipes<S>, trace: seq<Option<Input>>)
    requires Lawful(p)
    ensures p.emitted(x.state) <= p.emitted(PipeRun(p, x, trace).state)
  {
    if trace != [] {
      var before, taken := trace[..|trace| - 1], trace[|trace| - 1];
      RunEmits(p, x, before);
      var y := PipeRun(p, x, before);
      ReofferEmits(p, y);
      if taken.Some? {
        TakeEmits(p, Reoffer(p, y), taken.value);
      }
      hide Lawful, Reoffer, TakeInput;
    }
  }
}

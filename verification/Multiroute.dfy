/** Per-request HTTP routing on a persistent client connection
    (src/import/multiroute.rs). */
module Multiroute {
  import opened Streams
  import opened HttpParser
  import opened RequestLog
  import opened ExchangeBook
  import opened ExchangePipes
  import opened Selection
  import Dns
  import Text

  datatype Probe = HostAlive | DefaultAlive | NeitherAlive | ProbeFailed

  datatype NextRequest =
    | Head(head: Event)
    | CleanEnd
    | Malformed(clientFault: bool)
    | Waiting                      // the run ends here

  datatype Outcome =
    | Completed(keepAlive: bool, end: ExchangeEnd)
    | Switched
    | Failed                       // an I/O error, propagated
    | Unfinished                   // the run ends here

  /** What acting on the queued events asks of the exchange loop. */
  datatype Step = More | Stop | Broken

  datatype ConnOutcome = ConnCompleted | ConnReset | ConnFailed

  method ResponseWantsClose(head: Event) returns (wants: bool)
    requires head.ResponseHead?
    ensures wants == WantsClose(head)
  {
    hide Names, Listed, Text.Lower, Text.Trim, Text.Split;
    if head.framing == UntilClose {
      return true;
    }
    var close, keep := false, false;
    NobodyNames("close");
    NobodyNames("keep-alive");
    for k := 0 to |head.connection|
      invariant close <==> Names(head.connection[..k], "close")
      invariant keep <==> Names(head.connection[..k], "keep-alive")
    {
      NamesSnoc(head.connection, k, "close");
      NamesSnoc(head.connection, k, "keep-alive");
      if head.connection[k].Some? {
        var tokens := Text.Split(head.connection[k].value, ',');
        ghost var closeBefore, keepBefore := close, keep;
        NothingListed("close");
        NothingListed("keep-alive");
        for j := 0 to |tokens|
          invariant close <==> closeBefore || Listed(tokens[..j], "close")
          invariant keep <==> keepBefore || Listed(tokens[..j], "keep-alive")
        {
          ListedSnoc(tokens, j, "close");
          ListedSnoc(tokens, j, "keep-alive");
          var token := Text.Lower(Text.Trim(tokens[j]));
          close := close || token == "close";
          keep := keep || token == "keep-alive";
        }
        assert tokens[..|tokens|] == tokens;
      }
    }
    assert head.connection[..|head.connection|] == head.connection;
    return close || (head.version == Http10 && !keep);
  }

  lemma NobodyNames(option: string)
    ensures !Names([], option)
  {
  }

  lemma NothingListed(option: string)
    ensures !Listed([], option)
  {
  }

  lemma ListedSnoc(tokens: seq<string>, j: nat, option: string)
    requires j < |tokens|
    ensures Listed(tokens[..j + 1], option) <==> Listed(tokens[..j], option) || Text.Lower(Text.Trim(tokens[j])) == option
  {
    hide Text.Lower, Text.Trim;
    assert tokens[..j + 1] == tokens[..j] + [tokens[j]];
    assert tokens[j] in tokens[..j + 1] && forall t :: t in tokens[..j] ==> t in tokens[..j + 1];
  }

  lemma NamesSnoc(values: seq<Option<string>>, k: nat, option: string)
    requires k < |values|
    ensures Names(values[..k + 1], option) <==>
            Names(values[..k], option) || (values[k].Some? && Lists(values[k].value, option))
  {
    hide Lists;
    var all := values[..k + 1];
    assert all[k] == values[k] && all[..k] == values[..k];
    if Names(values[..k], option) {
      var i :| 0 <= i < k && values[..k][i].Some? && Lists(values[..k][i].value, option);
      assert all[i] == values[..k][i];
    }
    if Names(all, option) {
      var i :| 0 <= i <= k && all[i].Some? && Lists(all[i].value, option);
      assert i < k ==> values[..k][i] == all[i];
    }
  }

  /** Where the bytes of a switched connection went: published, read but not
      published, and written to the client. */
  datatype Tunnel = Tunnel(up: Bytes, lost: Bytes, down: Bytes)

  lemma WithinItself<T>(a: seq<T>)
    ensures Within(a, a)
  {
  }

  lemma WithinLater<T>(a: seq<T>, b: seq<T>, c: seq<T>)
    requires Within(b, a) && Within(c, b)
    ensures Within(c, a) && forall x :: x in b ==> x in a
  {
  }

  /** The input that alone can end an exchange this way. */
  ghost predicate Caused(end: ExchangeEnd, inputs: seq<Input>) {
    && (end == BackendGone ==> ChannelClosed in inputs)
    && (end == Timeout ==> IdleTimeout in inputs)
    && (end == TooSlow ==> Overflow in inputs)
    && (end == DrainDeadline ==> Drain in inputs)
  }

  lemma EndsForCause(trace: seq<Option<Input>>, end: ExchangeEnd, inputs: seq<Input>)
    requires Ends(trace, end) && TakenFrom(trace, inputs)
    ensures Caused(end, inputs)
  {
  }

  /** The head names a host that is a routing key. */
  predicate Routable(head: Event)
    requires head.RequestHead?
  {
    head.authority.Some? && Dns.RoutingKey(head.authority.value).Key?
  }

  predicate RoutableHead(request: seq<Event>) {
    request != [] && request[0].RequestHead? && Routable(request[0])
  }

  /** Request `k` has this head, which can be routed.  If its backend is there
      the head was published first of all, unless the connection failed on it;
      if there is none nothing was published. */
  ghost predicate RoutedAt(b: Book, k: nat, head: Event, probe: Probe, failed: bool) {
    && k < |b.history| && k < |Requests(b.up)|
    && Requests(b.up)[k] != [] && Requests(b.up)[k][0] == head
    && head.RequestHead? && Routable(head)
    && match probe
       case HostAlive => (b.history[k] != [] && b.history[k][0] == head.Wire()) || (failed && b.history[k] == [])
       case DefaultAlive => (b.history[k] != [] && b.history[k][0] == head.Wire()) || (failed && b.history[k] == [])
       case NeitherAlive => b.history[k] == []
       case ProbeFailed => b.history[k] == []
  }

  lemma RoutedAtLater(b: Book, b': Book, k: nat, head: Event, probe: Probe, failed: bool)
    requires RoutedAt(b, k, head, probe, failed) && b.up <= b'.up
    requires k < |b'.history| && b'.history[k] == b.history[k]
    ensures RoutedAt(b', k, head, probe, failed)
  {
    RequestsGrow(b.up, b'.up);
  }

  lemma KeepsBefore(h: seq<seq<Bytes>>, h': seq<seq<Bytes>>)
    requires Longer(h + [[]], h')
    ensures |h'| == |h| + 1 && h'[..|h|] == h
  {
    assert (h + [[]])[..|h|] == h;
  }

  lemma LastRouted(b: Book, b': Book, head: Event, probe: Probe, failed: bool)
    requires b.history != [] && Last(b.history) == [] && Continues(b, b')
    requires |Requests(b.up)| == |b.history| && Last(Requests(b.up)) == [head]
    requires head.RequestHead? && Routable(head)
    requires if probe.NeitherAlive? || probe.ProbeFailed? then b'.history == b.history
             else HeadOut(b', head) || (failed && b' == b)
    ensures RoutedAt(b', |b.history| - 1, head, probe, failed)
  {
    RequestsGrow(b.up, b'.up);
    hide Requests;
  }

  /** The first `|heads|` requests after the first `n` had these heads, and each
      was served or refused as its probe says. */
  ghost predicate Routed(b: Book, n: nat, heads: seq<Event>, probes: seq<Probe>, failed: bool) {
    && |heads| <= |probes| && n + |heads| <= |b.history|
    && forall k: nat :: k < |heads| ==> RoutedAt(b, n + k, heads[k], probes[k], failed && k == |heads| - 1)
  }

  lemma NothingRouted(b: Book, probes: seq<Probe>)
    ensures Routed(b, |b.history|, [], probes, false)
  {
  }

  lemma RoutedLater(b: Book, b': Book, n: nat, heads: seq<Event>, probes: seq<Probe>)
    requires Routed(b, n, heads, probes, false) && n + |heads| == |b.history| <= |b'.history|
    requires b.up <= b'.up && b'.history[..|b.history|] == b.history
    ensures Routed(b', n, heads, probes, false)
  {
    hide RoutedAt;
    forall k: nat | k < |heads| ensures RoutedAt(b', n + k, heads[k], probes[k], false) {
      assert RoutedAt(b, n + k, heads[k], probes[k], false);
      assert b'.history[n + k] == b'.history[..|b.history|][n + k];
      RoutedAtLater(b, b', n + k, heads[k], probes[k], false);
    }
  }

  lemma RoutedSnoc(b: Book, n: nat, heads: seq<Event>, head: Event, probes: seq<Probe>, failed: bool)
    requires Routed(b, n, heads, probes, false) && |heads| < |probes|
    requires RoutedAt(b, n + |heads|, head, probes[|heads|], failed) && n + |heads| < |b.history|
    ensures Routed(b, n, heads + [head], probes, failed)
  {
    hide RoutedAt;
    var more := heads + [head];
    forall k: nat | k < |more| ensures RoutedAt(b, n + k, more[k], probes[k], failed && k == |more| - 1) {
      if k < |heads| {
        assert RoutedAt(b, n + k, heads[k], probes[k], false && k == |heads| - 1);
      }
    }
  }

  /** Between requests: each one so far had its head and its probe. */
  ghost predicate InStep(b: Book, h0: seq<seq<Bytes>>, heads: seq<Event>, probes0: seq<Probe>, probes: seq<Probe>) {
    && Routed(b, |h0|, heads, probes0, false) && probes == probes0[|heads|..]
    && |b.history| == |h0| + |heads| && b.history[..|h0|] == h0
  }

  /** What became of the requests: `heads` are the routable ones that had a probe,
      and the only other there can be is a last one, unroutable or without a
      probe to come. */
  ghost predicate Handled(b: Book, h0: seq<seq<Bytes>>, heads: seq<Event>, probes0: seq<Probe>, probes: seq<Probe>,
                          outcome: Option<ConnOutcome>, ioFailed: bool)
  {
    && Routed(b, |h0|, heads, probes0, outcome == Some(ConnFailed) && ioFailed) && probes == probes0[|heads|..]
    && |h0| <= |b.history| && b.history[..|h0|] == h0
    && (|b.history| > |h0| + |heads| ==>
          && |b.history| == |h0| + |heads| + 1 && Last(b.history) == [] && Requests(b.up) != []
          && ((outcome == Some(ConnReset) && !RoutableHead(Last(Requests(b.up))))
              || (outcome == None && probes == [] && RoutableHead(Last(Requests(b.up))))))
  }

  lemma RoutedAnyway(b: Book, n: nat, heads: seq<Event>, probes: seq<Probe>, failed: bool)
    requires Routed(b, n, heads, probes, false)
    ensures Routed(b, n, heads, probes, failed)
  {
    forall k: nat | k < |heads| ensures RoutedAt(b, n + k, heads[k], probes[k], failed && k == |heads| - 1) {
      assert RoutedAt(b, n + k, heads[k], probes[k], false && k == |heads| - 1);
    }
  }

  /** After looking for the next request, found (`b.history` has one more) or not. */
  lemma StillInStep(b0: Book, b: Book, h0: seq<seq<Bytes>>, heads: seq<Event>, probes0: seq<Probe>, probes: seq<Probe>)
    requires InStep(b0, h0, heads, probes0, probes) && b0.up <= b.up
    requires b.history == b0.history || b.history == b0.history + [[]]
    ensures |heads| <= |probes0|
    ensures b.history == b0.history ==> forall outcome, ioFailed ::
              Handled(b, h0, heads, probes0, probes, outcome, ioFailed)
    ensures b.history != b0.history && Requests(b.up) != [] ==>
              forall ioFailed ::
                && (!RoutableHead(Last(Requests(b.up))) ==>
                      Handled(b, h0, heads, probes0, probes, Some(ConnReset), ioFailed))
                && (probes == [] && RoutableHead(Last(Requests(b.up))) ==>
                      Handled(b, h0, heads, probes0, probes, None, ioFailed))
  {
    RoutedLater(b0, b, |h0|, heads, probes0);
    RoutedAnyway(b, |h0|, heads, probes0, true);
    assert b.history[..|h0|] == b0.history[..|h0|];
    hide Routed, RoutableHead;
  }

  lemma TakesProbe(b: Book, h0: seq<seq<Bytes>>, heads: seq<Event>, probes0: seq<Probe>, probe: Probe, rest: seq<Probe>)
    requires InStep(b, h0, heads, probes0, [probe] + rest)
    ensures |heads| < |probes0| && probes0[|heads|] == probe && rest == probes0[|heads| + 1..]
  {
    assert |heads| <= |probes0|;
    hide Routed;
    assert probes0[|heads|..] == [probe] + rest;
    assert |heads| < |probes0| by {
      assert |probes0[|heads|..]| == 1 + |rest|;
    }
    assert ([probe] + rest)[0] == probe && ([probe] + rest)[1..] == rest;
  }

  /** What one round did: it found no request; or one that had to be the last; or
      one that was served or refused. */
  ghost predicate RoundDone(b0: Book, b1: Book, b2: Book, probes: seq<Probe>, rest: seq<Probe>, head: Option<Event>,
                            outcome: Option<ConnOutcome>, ioFailed: bool)
  {
    && b0.up <= b1.up && Continues(b1, b2)
    && if head.None? then
         && rest == probes && b2 == b1
         && (|| b1.history == b0.history
             || (&& b1.history == b0.history + [[]] && Requests(b1.up) != []
                 && ((outcome == Some(ConnReset) && !RoutableHead(Last(Requests(b1.up))))
                     || (outcome == None && probes == [] && RoutableHead(Last(Requests(b1.up)))))))
       else
         && probes != [] && rest == probes[1..]
         && b1.history == b0.history + [[]]
         && |Requests(b1.up)| == |b1.history| && Last(Requests(b1.up)) == [head.value]
         && head.value.RequestHead? && Routable(head.value)
         && if probes[0].NeitherAlive? || probes[0].ProbeFailed? then outcome == None && b2.history == b1.history
            else HeadOut(b2, head.value) || (outcome == Some(ConnFailed) && ioFailed && b2 == b1)
  }

  lemma FailsLater(before: seq<bool>, now: seq<bool>)
    requires Within(now, before)
    ensures false in now ==> false in before
  {
  }

  lemma RoundKeeps(b0: Book, b1: Book, b2: Book, h0: seq<seq<Bytes>>, heads: seq<Event>, probes0: seq<Probe>,
                   probes: seq<Probe>, rest: seq<Probe>, head: Option<Event>, outcome: Option<ConnOutcome>,
                   failed: bool, ioFailed: bool)
    requires InStep(b0, h0, heads, probes0, probes)
    requires RoundDone(b0, b1, b2, probes, rest, head, outcome, failed) && (failed ==> ioFailed)
    ensures var more := heads + if head.Some? then [head.value] else [];
            && Handled(b2, h0, more, probes0, rest, outcome, ioFailed)
            && (head.Some? && outcome == None ==> InStep(b2, h0, more, probes0, rest) && |rest| < |probes|)
  {
    hide Routed, Continues, HeadOut, Requests, Routable, RoutableHead, Handled, InStep;
    if head.Some? {
      assert probes == [probes[0]] + rest;
      OneMore(b0, b1, b2, h0, heads, head.value, probes0, probes[0], rest, outcome, ioFailed);
    } else {
      StillInStep(b0, b1, h0, heads, probes0, probes);
      assert heads + [] == heads;
    }
  }

  lemma OneMore(b0: Book, b1: Book, b2: Book, h0: seq<seq<Bytes>>, heads: seq<Event>, head: Event, probes0: seq<Probe>,
                probe: Probe, rest: seq<Probe>, outcome: Option<ConnOutcome>, ioFailed: bool)
    requires InStep(b0, h0, heads, probes0, [probe] + rest)
    requires b1.history == b0.history + [[]] && b0.up <= b1.up && Continues(b1, b2)
    requires |Requests(b1.up)| == |b1.history| && Last(Requests(b1.up)) == [head]
    requires head.RequestHead? && Routable(head)
    requires if probe.NeitherAlive? || probe.ProbeFailed? then b2.history == b1.history
             else HeadOut(b2, head) || (outcome == Some(ConnFailed) && ioFailed && b2 == b1)
    ensures Handled(b2, h0, heads + [head], probes0, rest, outcome, ioFailed)
    ensures outcome != Some(ConnFailed) || !ioFailed ==> InStep(b2, h0, heads + [head], probes0, rest)
  {
    hide Routed, Continues, HeadOut, Requests, Routable, RoutableHead;
    TakesProbe(b0, h0, heads, probes0, probe, rest);
    RoutedOne(b0, b1, b2, |h0|, heads, head, probes0, outcome == Some(ConnFailed) && ioFailed);
    assert b2.history[..|h0|] == b0.history[..|h0|];
  }

  /** One more request was opened (`b1`), then served or refused (`b2`). */
  lemma RoutedOne(b0: Book, b1: Book, b2: Book, n: nat, heads: seq<Event>, head: Event, probes: seq<Probe>, failed: bool)
    requires Routed(b0, n, heads, probes, false) && |heads| < |probes| && n + |heads| == |b0.history|
    requires b1.history == b0.history + [[]] && b0.up <= b1.up && Continues(b1, b2)
    requires |Requests(b1.up)| == |b1.history| && Last(Requests(b1.up)) == [head]
    requires head.RequestHead? && Routable(head)
    requires var probe := probes[|heads|];
             if probe.NeitherAlive? || probe.ProbeFailed? then b2.history == b1.history
             else HeadOut(b2, head) || (failed && b2 == b1)
    ensures Routed(b2, n, heads + [head], probes, failed)
    ensures |b2.history| == n + |heads| + 1 && b2.history[..|b0.history|] == b0.history
  {
    hide Routed, RoutedAt, HeadOut, Requests, Routable;
    KeepsBefore(b0.history, b2.history);
    LastRouted(b1, b2, head, probes[|heads|], failed);
    RoutedLater(b0, b2, n, heads, probes);
    RoutedSnoc(b2, n, heads, head, probes, failed);
  }

  /** What the end of an exchange means for the connection. */
  function OutcomeOf(o: Outcome, end: ExchangeEnd): Option<ConnOutcome> {
    match o
    case Failed => Some(ConnFailed)
    case Unfinished => None
    case Switched => Some(ConnCompleted)
    case Completed(_, _) =>
      match end
      case Fine => Some(ConnCompleted)
      case Timeout => Some(ConnFailed)
      case Truncated => Some(ConnFailed)
      case BackendGone => Some(ConnFailed)
      case TooSlow => Some(ConnReset)
      case Poisoned => Some(ConnReset)
      case DrainDeadline => Some(ConnReset)
  }

  /** A splice took its inputs in order, and went on past none that closes it:
      what ended it, if it is over, is the last one taken, the end of the inputs
      or a write that failed. */
  ghost predicate SplicedTo(all: seq<Input>, rest: seq<Input>, open: bool, ioFailed: bool) {
    && |rest| <= |all| && rest == all[|all| - |rest|..]
    && var n := |all| - |rest|;
       && (forall k :: 0 <= k < n - (if open then 0 else 1) ==> !ClosesSplice(all[k]))
       && (!open ==> rest == [] || (n > 0 && ClosesSplice(all[n - 1])) || ioFailed)
  }

  lemma SplicesNothing(all: seq<Input>, open: bool, ioFailed: bool)
    requires !open ==> ioFailed
    ensures SplicedTo(all, all, open, ioFailed)
  {
    assert all[0..] == all;
  }

  lemma SplicesOne(all: seq<Input>, rest: seq<Input>, rest': seq<Input>, open: bool, ioFailed: bool)
    requires SplicedTo(all, rest, true, ioFailed)
    requires if rest == [] then rest' == [] && !open else rest' == rest[1..]
    requires rest != [] ==> if open then !ClosesSplice(rest[0]) else ClosesSplice(rest[0]) || ioFailed
    ensures SplicedTo(all, rest', open, ioFailed)
  {
    hide ClosesSplice;
    if rest != [] {
      var n := |all| - |rest|;
      assert rest[0] == all[n] && rest[1..] == all[n + 1..];
    }
  }

  /** Taking the first input keeps the total. */
  lemma SpliceKeepsCount(read: Bytes, payloads: Bytes, inputs: seq<Input>)
    ensures inputs != [] ==>
              && (read + ReadBytes(Some(inputs[0]))) + ClientBytes(inputs[1..]) == read + ClientBytes(inputs)
              && (payloads + SampleBytes(Some(inputs[0]))) + BackendBytes(inputs[1..]) == payloads + BackendBytes(inputs)
    ensures read + [] == read && payloads + [] == payloads
  {
    if inputs != [] {
      Regroup(read, ReadBytes(Some(inputs[0])), ClientBytes(inputs[1..]));
      Regroup(payloads, SampleBytes(Some(inputs[0])), BackendBytes(inputs[1..]));
    }
  }

  /** Either side of a splice closes, or it is torn down. */
  predicate ClosesSplice(i: Input) {
    || i == ClientRead([]) || i == Sample([]) || i == ClientError || i == ChannelClosed || i == Overflow || i == Drain
  }

  /** An announcing parser cannot switch behind the queue's back. */
  lemma StaysAhead<S(!new)>(p: Parser<S>, s: S, events: seq<Event>, t: S, more: seq<Event>)
    requires Lawful(p) && Drained(p, t) && p.emitted(t) == p.emitted(s) + more
    ensures Announces(p) && (p.tunnelled(s) ==> SwitchProtocols in events) && p.tunnelled(t) ==>
              SwitchProtocols in events + more
  {
    if Announces(p) {
      assert AnnouncesOk(p, t) && SwitchOk(p, s);
    }
  }

  /** The queue after a pass that nothing cut short: what belongs to the exchange
      is gone, up to a response end or a switch, and the rest in order. */
  function Sweep(events: seq<Event>, requestDone: bool): seq<Event> {
    if events == [] then []
    else
      var e, rest := events[0], events[1..];
      if e == SwitchProtocols || e == End(Responder) then rest
      else if e.SideOf() == Some(Responder) then Sweep(rest, requestDone)
      else if requestDone then [e] + Sweep(rest, true)
      else Sweep(rest, e.End?)
  }

  lemma SweepStep(events: seq<Event>, requestDone: bool)
    ensures Sweep([], requestDone) == []
    ensures events != [] ==>
              var e, rest, swept := events[0], events[1..], Sweep(events, requestDone);
              && (e == SwitchProtocols || e == End(Responder) ==> swept == rest)
              && (e.SideOf() == Some(Responder) && !e.End? ==> swept == Sweep(rest, requestDone))
              && (e.SideOf() == Some(Initiator) && requestDone ==> swept == [e] + Sweep(rest, true))
              && (e.SideOf() == Some(Initiator) && !requestDone ==> swept == Sweep(rest, e.End?))
              && (e.SideOf().None? ==> e == SwitchProtocols)
              && (SwitchProtocols in events <==> e == SwitchProtocols || SwitchProtocols in rest)
  {
    if events != [] {
      assert events == [events[0]] + events[1..];
    }
  }

  /** Nothing an exchange can act on: all that is queued belongs to the next
      request. */
  predicate Deferred(events: seq<Event>, requestDone: bool) {
    (events != [] ==> requestDone) && forall e :: e in events ==> e.SideOf() == Some(Initiator)
  }

  lemma NothingDeferred(requestDone: bool)
    ensures Deferred([], requestDone)
  {
  }

  lemma DeferredSnoc(events: seq<Event>, e: Event)
    requires Deferred(events, true) && e.SideOf() == Some(Initiator)
    ensures Deferred(events + [e], true)
  {
  }

  lemma DeferredLater(events: seq<Event>, requestDone: bool)
    requires Deferred(events, requestDone)
    ensures Deferred(events, true)
  {
  }

  /** An input that feeds the exchange lets it go on, an error breaks it, and any
      other ends it. */
  function AfterInput(taken: Option<Input>, over: bool): Step {
    match taken
    case None => if over then More else Stop
    case Some(ClientRead(_)) => More
    case Some(Sample(_)) => More
    case Some(ClientError) => Broken
    case Some(_) => Stop
  }

  class Connection<S(!new)> {
    const parser: Parser<S>
    const maxResponseSize: nat

    // The connection.
    var state: S
    var events: seq<Event>
    var clientPending: Bytes
    var clientEof: bool

    // The exchange in progress.
    var progress: Progress
    var respPending: Bytes

    // The surroundings: inputs to come, outcomes of writes and publishes to
    // come (a missing one succeeds), and liveliness probes to come.
    var inputs: seq<Input>
    var io: seq<bool>
    var probes: seq<Probe>

    // History.
    ghost var clientRead: Bytes    // bytes read from the client's socket
    ghost var spliced: Bytes       // of those, bytes that bypassed the parser
    ghost var book: Book
    ghost var received: Received
    ghost var tunnel: Tunnel

    constructor (parser: Parser<S>, initial: S, maxResponseSize: nat,
                 inputs: seq<Input>, io: seq<bool>, probes: seq<Probe>)
      requires Lawful(parser) && Drained(parser, initial)
      requires parser.emitted(initial) == [] && parser.accepted(initial, Initiator) == []
      ensures Valid() && this.parser == parser && this.maxResponseSize == maxResponseSize
      ensures book.history == [] && clientRead == [] && progress == Fresh()
    {
      this.parser, this.maxResponseSize := parser, maxResponseSize;
      state, events, clientPending, clientEof := initial, [], [], false;
      progress, respPending := Fresh(), [];
      this.inputs, this.io, this.probes := inputs, io, probes;
      clientRead, spliced, book := [], [], Book([], [], [], [], [], []);
      received, tunnel := Received([], [], 0), Tunnel([], [], []);
    }

    /** The bytes in the exchange's hands. */
    ghost function Now(): Pipes<S>
      reads `state, `clientPending, `respPending, `clientEof, `clientRead, `received
    {
      Pipes(state, clientPending, respPending, clientEof, clientRead, received)
    }

    /** The same as an exchange finds them. */
    ghost function Begun(): Pipes<S>
      reads `state, `clientPending, `clientEof, `clientRead
    {
      Pipes(state, clientPending, [], clientEof, clientRead,
            Received(parser.accepted(state, Responder), [], 0))
    }

    /** Bytes of the client that were read or are to come. */
    ghost function Ups(): Bytes
      reads `clientRead, `inputs
    {
      clientRead + ClientBytes(inputs)
    }

    /** A switch that has happened is still to be acted on. */
    ghost predicate SwitchAhead()
      reads `state, `events
    {
      parser.tunnelled(state) ==> SwitchProtocols in events
    }

    ghost function Log(d: Side): seq<Event>
      reads `state
    {
      Project(parser.emitted(state), d)
    }

    /** Every byte read from the client is accepted, pending or spliced. */
    ghost predicate Conserved()
      reads `state, `clientPending, `clientEof, `clientRead, `spliced
    {
      && parser.accepted(state, Initiator) + clientPending + spliced == clientRead
      && (clientEof ==> clientPending == [])
    }

    /** What holds even after an I/O error abandoned the connection. */
    ghost predicate Core()
      reads `state, `clientPending, `clientEof, `clientRead, `spliced, `book
    {
      && Lawful(parser)
      && Drained(parser, state)
      && Conserved()
      && Traced(parser.emitted(state), book)
    }

    ghost predicate Valid()
      reads `state, `events, `clientPending, `clientEof, `clientRead, `spliced, `book
    {
      && Lawful(parser)
      && Drained(parser, state)
      && Conserved()
      && spliced == []
      && Linked(parser.emitted(state), events, book)
    }

    lemma ValidIsCore()
      requires Valid()
      ensures Core()
    {
      LinkedIsTraced(parser.emitted(state), events, book);
    }

    lemma NothingIsPending()
      requires Valid()
      ensures clientEof ==> clientPending == []
    {
    }

    // --- Feeding the parser ---

    /** Push all of `bytes`; what the parser refuses comes back. */
    method PushBytes(d: Side, bytes: Bytes) returns (tail: Bytes)
      requires Lawful(parser)
      modifies `state
      ensures (state, tail) == PushAll(parser, old(state), d, bytes)
      ensures Pushed(parser, old(state), d, bytes, state, tail)
      ensures d == Initiator && bytes != [] && Progressing(parser) && old(Accepting(parser, state)) ==> |tail| < |bytes|
    {
      PushAllOk(parser, state, d, bytes);
      if d == Initiator && bytes != [] && Progressing(parser) && Accepting(parser, state) {
        PushAllProgresses(parser, state, bytes);
      }
      ghost var target := PushAll(parser, state, d, bytes);
      tail := bytes;
      while tail != []
        invariant PushAll(parser, state, d, tail) == target
        decreases |tail|
      {
        assert PushOk(parser, state, d, tail);
        var (accepted, next) := parser.push(state, d, tail);
        state := next;
        if accepted == 0 { break; }
        tail := tail[accepted..];
      }
    }

    /** Move every event the parser can produce to the queue, in order. */
    method DrainEvents()
      requires Lawful(parser) && Linked(parser.emitted(state), events, book)
      modifies `state, `events
      ensures (state, events) ==
              (DrainAll(parser, old(state)).0, old(events) + DrainAll(parser, old(state)).1)
      ensures Linked(parser.emitted(state), events, book)
    {
      hide Linked;
      ghost var start, first := DrainAll(parser, state), events;
      var more := true;
      while more
        invariant Linked(parser.emitted(state), events, book)
        invariant DrainAll(parser, state).0 == start.0 && events + DrainAll(parser, state).1 == first + start.1
        invariant !more ==> parser.next(state).0.None?
        decreases parser.ready(state), more
      {
        assert NextOk(parser, state);
        var (event, next) := parser.next(state);
        if event.None? {
          more := false;
        } else {
          QueueStep(parser.emitted(state), events, book, event.value);
          Regroup(events, [event.value], DrainAll(parser, next).1);
          state := next;
          events := events + [event.value];
        }
      }
      assert DrainAll(parser, state) == (state, []);
      NothingAdded(events);
    }

    /** Push `bytes` and queue what they frame. */
    method Feed(d: Side, bytes: Bytes) returns (tail: Bytes)
      requires Lawful(parser) && Drained(parser, state) && Linked(parser.emitted(state), events, book)
      modifies `state, `events
      ensures (state, events, tail) == (FeedAll(parser, old(state), d, bytes).0,
                                        old(events) + FeedAll(parser, old(state), d, bytes).1,
                                        FeedAll(parser, old(state), d, bytes).2)
      ensures Linked(parser.emitted(state), events, book) && Drained(parser, state)
      ensures parser.accepted(state, d) + tail == old(parser.accepted(state, d)) + bytes
      ensures parser.accepted(state, d.Other()) == old(parser.accepted(state, d.Other()))
      ensures old(parser.poison(state)).Some? ==> parser.poison(state).Some?
      ensures old(parser.tunnelled(state)) ==> parser.tunnelled(state)
      ensures |tail| <= |bytes|
      ensures d == Initiator && bytes != [] && Progressing(parser) && old(Accepting(parser, state)) ==> |tail| < |bytes|
      ensures Announces(parser) && old(SwitchAhead()) ==> SwitchAhead()
    {
      hide Linked;
      FeedAllOk(parser, state, d, bytes);
      StaysAhead(parser, state, events, FeedAll(parser, state, d, bytes).0, FeedAll(parser, state, d, bytes).1);
      tail := PushBytes(d, bytes);
      DrainEvents();
    }

    method Finish(d: Side)
      requires Lawful(parser) && Drained(parser, state) && Linked(parser.emitted(state), events, book)
      modifies `state, `events
      ensures state == DrainAll(parser, parser.fin(old(state), d)).0
      ensures Linked(parser.emitted(state), events, book) && Drained(parser, state)
      ensures parser.accepted(state, Initiator) == old(parser.accepted(state, Initiator))
      ensures parser.accepted(state, Responder) == old(parser.accepted(state, Responder))
      ensures Announces(parser) && old(SwitchAhead()) ==> SwitchAhead()
    {
      hide Linked;
      assert FinOk(parser, state, d);
      DrainAllOk(parser, parser.fin(state, d));
      ghost var drained := DrainAll(parser, parser.fin(state, d));
      StaysAhead(parser, state, events, drained.0, drained.1);
      state := parser.fin(state, d);
      DrainEvents();
    }

    /** Re-offer the client bytes the parser refused. */
    method OfferClient()
      requires Valid() && clientPending != []
      modifies `state, `events, `clientPending
      ensures Valid() && Now() == OfferUp(parser, old(Now()))
      ensures parser.accepted(state, Responder) == old(parser.accepted(state, Responder))
      ensures old(parser.poison(state)).Some? ==> parser.poison(state).Some?
      ensures old(parser.tunnelled(state)) ==> parser.tunnelled(state)
      ensures |clientPending| <= old(|clientPending|)
      ensures Progressing(parser) && old(Accepting(parser, state)) ==> |clientPending| < old(|clientPending|)
      ensures Announces(parser) && old(SwitchAhead()) ==> SwitchAhead()
    {
      hide Linked, Lawful, FeedAll;
      clientPending := Feed(Initiator, clientPending);
    }

    /** Client bytes arrived while no refused tail was pending. */
    method ReceiveClient(bytes: Bytes)
      requires Valid() && clientPending == [] && !clientEof
      modifies `state, `events, `clientPending, `clientEof, `clientRead
      ensures Valid() && Now() == TakeInput(parser, old(Now()), ClientRead(bytes))
      ensures state == if bytes == [] then DrainAll(parser, parser.fin(old(state), Initiator)).0
                       else FeedAll(parser, old(state), Initiator, bytes).0
      ensures clientRead == old(clientRead) + bytes && (clientEof <==> bytes == [])
      ensures parser.accepted(state, Responder) == old(parser.accepted(state, Responder))
      ensures Announces(parser) && old(SwitchAhead()) ==> SwitchAhead()
    {
      hide Linked, Lawful, FeedAll, DrainAll;
      assert parser.accepted(state, Initiator) == clientRead;
      if bytes == [] {
        clientEof := true;
        Finish(Initiator);
      } else {
        clientRead := clientRead + bytes;
        clientPending := Feed(Initiator, bytes);
        assert parser.accepted(state, Initiator) + clientPending == clientRead;
      }
    }

    /** The next input whose arm is enabled. */
    method NextInput(client: bool, backend: bool) returns (input: Option<Input>)
      requires client || backend
      modifies `inputs
      ensures (input, inputs) == TakeNext(old(inputs), client, backend)
      ensures |inputs| <= old(|inputs|) && (input.Some? ==> |inputs| < old(|inputs|))
      ensures input.Some? ==> input.value in old(inputs) && Enabled(input.value, client, backend)
      ensures Within(inputs, old(inputs))
      ensures input.None? ==> (client ==> inputs == []) && forall i :: i in inputs ==> i.FromClient()
      ensures old(ClientBytes(inputs)) == ReadBytes(input) + ClientBytes(inputs)
      ensures backend ==> Advances(input, old(inputs), inputs)
    {
      ghost var all := inputs;
      TakesFirst(inputs, client, backend);
      TakesBytes(inputs, client, backend);
      if backend {
        TakesOne(inputs, client);
      }
      var kept := [];
      NoneBefore(TakeNext(inputs, client, backend).1);
      while inputs != []
        invariant TakeNext(all, client, backend) ==
                  (TakeNext(inputs, client, backend).0, kept + TakeNext(inputs, client, backend).1)
        decreases |inputs|
      {
        hide Advances, ClientBytes, Within;
        var i := inputs[0];
        if Enabled(i, client, backend) {
          inputs := kept + inputs[1..];
          return Some(i);
        }
        Regroup(kept, if i.FromClient() then [i] else [], TakeNext(inputs[1..], client, backend).1);
        inputs, kept := inputs[1..], kept + if i.FromClient() then [i] else [];
      }
      NothingAdded(kept);
      inputs := kept;
      return None;
    }

    // --- Between exchanges ---

    /** Read from the client, unless it fails or the listener drains; no bytes of
        it are dropped. */
    method AwaitClient() returns (input: Option<Input>)
      requires Valid() && clientPending == [] && !clientEof
      modifies `state, `events, `clientPending, `clientEof, `clientRead, `inputs
      ensures Valid() && |inputs| <= old(|inputs|) && Within(inputs, old(inputs))
      ensures input.None? ==> inputs == []
      ensures input.Some? ==>
                && |inputs| < old(|inputs|) && input.value in old(inputs)
                && (input.value.FromClient() || input.value.Drain?)
      ensures (input, inputs) == TakeNext(old(inputs), true, false)
      ensures Ups() == old(Ups())
      ensures if input.Some? && input.value.ClientRead? then clientEof <==> input.value.bytes == []
              else state == old(state) && events == old(events) && !clientEof && clientPending == []
    {
      hide Valid, ClientBytes, BackendBytes, TakeNext, TakeInput, SwitchAhead, Announces;
      ghost var read := clientRead;
      input := NextInput(true, false);
      Regroup(read, ReadBytes(input), ClientBytes(inputs));
      NothingAdded(read);
      if input.Some? && input.value.ClientRead? {
        ReceiveClient(input.value.bytes);
      }
    }

    /** Drop the front event, which opens no request. */
    method Discard()
      requires Valid() && events != [] && !events[0].RequestHead?
      modifies `events, `book
      ensures Valid() && events == old(events)[1..] && book == old(book).Skip(old(events)[0])
    {
      hide Linked, Lawful;
      SkipStep(parser.emitted(state), events, book);
      book := book.Skip(events[0]);
      events := events[1..];
    }

    /** Discard queued events up to the next request head. */
    method SkipToHead()
      requires Valid()
      modifies `events, `book
      ensures Valid() && book.history == old(book.history) && old(book.up) <= book.up
      ensures events != [] ==> events[0].RequestHead?
    {
      hide Valid;
      while events != [] && !events[0].RequestHead?
        invariant Valid() && book.history == old(book.history) && old(book.up) <= book.up
        decreases |events|
      {
        Discard();
      }
    }

    /** Take the request head at the front of the queue. */
    method TakeRequest() returns (head: Event)
      requires Valid() && events != [] && events[0].RequestHead?
      modifies `events, `book
      ensures Valid() && head == old(events)[0] && events == old(events)[1..]
      ensures book.history == old(book.history) + [[]] && Opened(book, head) && old(book.up) <= book.up
    {
      hide Linked, Lawful, Opened;
      head := events[0];
      OpenStep(parser.emitted(state), events, book);
      events, book := events[1..], book.Open(head);
    }

    /** The next request head, reading from the client until one is framed.  A
        head opens a request of its own, and no head is ever skipped. */
    method NextRequestHead(first: bool) returns (r: NextRequest)
      requires Valid() && Progressing(parser)
      modifies `state, `events, `clientPending, `clientEof, `clientRead, `book, `inputs
      ensures Valid()
      ensures r.Head? ==> Opened(book, r.head) && book.history == old(book.history) + [[]]
      ensures !r.Head? ==> book.history == old(book.history)
      ensures old(book.up) <= book.up
      ensures Ups() == old(Ups())
      ensures (r.CleanEnd? || r.Waiting?) && !clientEof ==>
                !parser.tunnelled(state) && (old(parser.poison(state)).None? ==> parser.poison(state).None?)
      ensures r.CleanEnd? ==> clientEof || Drain in old(inputs) || (ClientError in old(inputs) && !first)
      ensures r.Malformed? ==>
                parser.poison(state).Some? || parser.tunnelled(state) || (ClientError in old(inputs) && first)
      ensures r.CleanEnd? || r.Waiting? ==> events == [] && clientPending == []
      ensures r.Waiting? ==> inputs == [] && !clientEof
      ensures Within(inputs, old(inputs))
    {
      hide Linked, Lawful, Opened, Conserved, ClientBytes, TakeNext, TakeInput, OfferUp, Requests;
      while true
        invariant Valid() && Within(inputs, old(inputs))
        invariant book.history == old(book.history) && old(book.up) <= book.up
        invariant Ups() == old(Ups())
        invariant clientEof || old(parser.poison(state)).Some? || parser.poison(state).None?
        decreases |inputs|, |clientPending|, !clientEof
      {
        SkipToHead();
        if events != [] {
          var head := TakeRequest();
          return Head(head);
        }
        if clientEof {
          NothingIsPending();
          return CleanEnd;
        }
        if parser.tunnelled(state) {
          return Malformed(false);
        }
        if clientPending != [] {
          OfferClient();
          if parser.poison(state).Some? {
            return Malformed(parser.poison(state).value != Some(false));
          }
          continue;
        }
        var input := AwaitClient();
        match input {
          case None => return Waiting;
          case Some(ClientRead(bytes)) =>
            if bytes != [] && parser.poison(state).Some? {
              return Malformed(parser.poison(state).value != Some(false));
            }
          case Some(ClientError) =>
            return if first then Malformed(true) else CleanEnd;
          case Some(_) => return CleanEnd;
        }
      }
    }

    /** The current request was taken to its end, or the next one is in front. */
    ghost predicate RequestBehind()
      reads `events, `book
    {
      || (events != [] && events[0].RequestHead?)
      || (book.up != [] && Last(book.up) == End(Initiator))
    }

    /** Discard queued events up to the end of the current request or the next
        request head, whichever comes first. */
    method SkipRequest() returns (finished: bool)
      requires Valid()
      modifies `events, `book
      ensures Valid() && book.history == old(book.history) && old(book.up) <= book.up
      ensures if finished then RequestBehind() else events == []
    {
      hide Valid;
      while events != []
        invariant Valid() && book.history == old(book.history) && old(book.up) <= book.up
        decreases |events|
      {
        if events[0].RequestHead? {
          return true;
        }
        var last := events[0] == End(Initiator);
        Discard();
        if last {
          return true;
        }
      }
      return false;
    }

    /** Discard the rest of a refused request, so that the next one frames from
        the right offset; nothing of it is published.  It stops short only when
        the client is gone (`cut`: a read error, a drain, or the run's end) or the
        parser takes no more. */
    method ConsumeRequestBody() returns (ghost cut: bool)
      requires Valid() && Progressing(parser)
      modifies `state, `events, `clientPending, `clientEof, `clientRead, `book, `inputs
      ensures Valid() && book.history == old(book.history) && old(book.up) <= book.up
      ensures Ups() == old(Ups())
      ensures cut ==> inputs == [] || ClientError in old(inputs) || Drain in old(inputs)
      ensures Within(inputs, old(inputs))
      ensures cut || RequestBehind() || clientEof || parser.poison(state).Some? || parser.tunnelled(state)
    {
      hide Linked, Lawful, Conserved, ClientBytes, TakeNext, TakeInput, OfferUp, Requests;
      cut := false;
      while true
        invariant Valid() && !cut && Within(inputs, old(inputs))
        invariant book.history == old(book.history) && old(book.up) <= book.up
        invariant Ups() == old(Ups())
        decreases |inputs|, |clientPending|, !clientEof
      {
        if clientPending != [] {
          OfferClient();
          if parser.poison(state).Some? || parser.tunnelled(state) {
            return;
          }
        }
        var finished := SkipRequest();
        if finished || clientEof {
          return;
        }
        if clientPending != [] {
          continue;
        }
        var input := AwaitClient();
        match input {
          case Some(ClientRead(bytes)) =>
            if bytes != [] && (parser.poison(state).Some? || parser.tunnelled(state)) {
              return;
            }
          case _ => return true;
        }
      }
    }

    // --- One exchange ---

    /** The next write or publish: whether it succeeds. */
    method Io() returns (ok: bool)
      modifies `io
      ensures Within(io, old(io)) && (!ok ==> false in old(io))
    {
      ok := true;
      if io != [] {
        ok := io[0];
        io := io[1..];
      }
    }

    ghost predicate RespKept()
      reads `state, `respPending, `received
    {
      received.Kept(parser.accepted(state, Responder), respPending)
    }

    ghost predicate InExchange()
      reads `state, `events, `clientPending, `clientEof, `clientRead, `spliced, `book, `progress,
            `respPending, `received
    {
      Valid() && Sound(maxResponseSize, book, progress) && RespKept()
    }

    /** Acting on the queue, with next-request events set aside in `carry`. */
    ghost predicate ActingWith(carry: seq<Event>)
      reads `state, `events, `book, `progress
    {
      Acting(maxResponseSize, parser.emitted(state), carry, events, book, progress)
    }

    /** Forward the raw bytes of the request's next body or trailers event. */
    method Forward(carry: seq<Event>) returns (ok: bool)
      requires ActingWith(carry) && events != [] && !progress.requestDone
      requires events[0].SideOf() == Some(Initiator) && !events[0].End?
      modifies `events, `book, `io
      ensures ok ==> ActingWith(carry) && events == old(events)[1..] && book.before == old(book.before)
      ensures !ok ==> Traced(parser.emitted(state), book)
      ensures Continues(old(book), book)
      ensures Within(io, old(io)) && (!ok ==> false in old(io))
    {
      hide Acting, Traced, Continues;
      SendStep(maxResponseSize, parser.emitted(state), carry, events, book, progress);
      ContinuesBySend(book, events[0]);
      ContinuesBySkip(book, events[0]);
      ok := Io();
      book := if ok then book.Send(events[0]) else book.Skip(events[0]);
      events := events[1..];
    }

    /** Write the front event of the response to the client. */
    method Show(carry: seq<Event>) returns (ok: bool)
      requires ActingWith(carry) && events != [] && progress.end == Fine
      requires events[0].SideOf() == Some(Responder)
      requires events[0].Body? || events[0].Trailers? ==> progress.bytesWritten + |events[0].Wire()| <= maxResponseSize
      modifies `events, `book, `progress, `io
      ensures ok ==> ActingWith(carry) && events == old(events)[1..] && book.before == old(book.before)
      ensures ok ==> progress.end == Fine && progress.switched == old(progress.switched)
      ensures ok ==> progress.requestDone == old(progress.requestDone)
      ensures ok ==> progress.responseDone == old(events)[0].End?
      ensures !ok ==> Traced(parser.emitted(state), book)
      ensures Continues(old(book), book)
      ensures Within(io, old(io)) && (!ok ==> false in old(io))
    {
      hide Acting, Traced;
      var e := events[0];
      ShowStep(maxResponseSize, parser.emitted(state), carry, events, book, progress);
      var closing := false;
      if e.ResponseHead? && !e.interim {
        closing := ResponseWantsClose(e);
      }
      assert closing == FinalClose(e);
      ok := true;
      if !e.End? {
        ok := Io();
      }
      events := events[1..];
      if ok {
        book, progress := book.Show(e), AfterShow(progress, e, closing);
      } else {
        book := book.Skip(e);
      }
    }

    /** Relay the front event of the response, unless it is a body or trailers
        event that would pass the size cap: that one is cut off, unwritten. */
    method Relay(carry: seq<Event>) returns (ok: bool)
      requires ActingWith(carry) && events != [] && progress.end == Fine && !progress.responseDone
      requires events[0].SideOf() == Some(Responder)
      modifies `events, `book, `progress, `io
      ensures ok ==> ActingWith(carry) && events == old(events)[1..] && book.before == old(book.before)
      ensures ok ==> progress.end == Fine || (progress.end == Truncated && !progress.responseDone)
      ensures ok ==> progress.switched == old(progress.switched)
      ensures ok ==> progress.requestDone == old(progress.requestDone)
      ensures ok && progress.end == Fine ==> progress.responseDone == old(events)[0].End?
      ensures !ok ==> Traced(parser.emitted(state), book)
      ensures Continues(old(book), book)
      ensures Within(io, old(io)) && (!ok ==> false in old(io))
    {
      hide Acting, Traced, FinalClose;
      var e := events[0];
      if (e.Body? || e.Trailers?) && progress.bytesWritten + |e.raw| > maxResponseSize {
        CutStep(maxResponseSize, parser.emitted(state), carry, events, book, progress);
        events, book := events[1..], book.Cut(e);
        progress := progress.(keepAlive := false, end := Truncated);
        return true;
      }
      ok := Show(carry);
    }

    /** One pass over the queue: acts on every event that concerns this exchange,
        wherever it sits, and sets events of the next request aside. */
    method Pass() returns (step: Step, carry: seq<Event>)
      requires ActingWith([]) && Lawful(parser)
      requires progress.end == Fine && !progress.responseDone && !progress.switched
      modifies `events, `book, `progress, `io
      ensures step == Broken ==> Traced(parser.emitted(state), book) && false in old(io)
      ensures step != Broken ==> ActingWith(carry) && book.before == old(book.before)
      ensures step == More ==>
                && events == [] && SwitchProtocols !in old(events) && Deferred(carry, progress.requestDone)
                && progress.end == Fine && !progress.responseDone && !progress.switched
      ensures step == Stop ==> progress.switched || progress.responseDone || progress.end == Truncated
      ensures step != Broken ==>
                && (progress.switched ==> SwitchProtocols in parser.emitted(state) && progress.end == Fine)
                && (progress.responseDone ==> progress.end == Fine)
                && (progress.end == Fine || progress.end == Truncated)
                && (progress.end == Fine ==> carry + events == Sweep(old(events), old(progress.requestDone)))
      ensures Continues(old(book), book)
      ensures Within(io, old(io))
    {
      hide Acting, Traced, Lawful, Sweep, Within, Continues, Deferred;
      WithinItself(io);
      ContinuesItself(book);
      NothingDeferred(progress.requestDone);
      ghost var io0, book0 := io, book;
      carry := [];
      ghost var swept := Sweep(events, progress.requestDone);
      step := More;
      while events != [] && step == More
        invariant step == More ==> carry + Sweep(events, progress.requestDone) == swept && Deferred(carry, progress.requestDone)
        invariant step == More && SwitchProtocols in old(events) ==> SwitchProtocols in events
        invariant step == Stop && progress.end == Fine ==> carry + events == swept
        invariant book.before == old(book.before) && Continues(book0, book)
        invariant step != Broken && ActingWith(carry)
        invariant step == More ==> progress.end == Fine && !progress.responseDone && !progress.switched
        invariant progress.switched ==> SwitchProtocols in parser.emitted(state) && progress.end == Fine
        invariant step == Stop ==> progress.switched || progress.responseDone || progress.end == Truncated
        invariant progress.responseDone ==> progress.end == Fine
        invariant progress.end == Fine || progress.end == Truncated
        invariant Within(io, old(io))
        decreases |events|
      {
        var e := events[0];
        ghost var io1, book1 := io, book;
        SweepStep(events, progress.requestDone);
        match e.SideOf() {
          case None =>
            PassSwitch(maxResponseSize, parser.emitted(state), carry, events, book, progress);
            events, progress := events[1..], progress.(switched := true);
            step := Stop;
          case Some(Responder) =>
            var ok := Relay(carry);
            WithinLater(io0, io1, io);
            ContinuesLater(book0, book1, book);
            if !ok {
              return Broken, carry;
            }
            step := if progress.responseDone || progress.end == Truncated then Stop else More;
          case Some(Initiator) =>
            if progress.requestDone {
              DeferStep(maxResponseSize, parser.emitted(state), carry, events, book, progress);
              DeferredSnoc(carry, e);
              Regroup(carry, [e], Sweep(events[1..], true));
              carry, events := carry + [e], events[1..];
            } else if e.End? {
              EndStep(maxResponseSize, parser.emitted(state), carry, events, book, progress);
              DeferredLater(carry, false);
              ContinuesBySkip(book, e);
              ContinuesLater(book0, book, book.Skip(e));
              book, events, progress := book.Skip(e), events[1..], progress.(requestDone := true);
            } else {
              var ok := Forward(carry);
              WithinLater(io0, io1, io);
              ContinuesLater(book0, book1, book);
              if !ok {
                return Broken, carry;
              }
            }
        }
      }
      SweepStep(events, progress.requestDone);
      NothingAdded(carry);
    }

    /** Act on every event that concerns this exchange, wherever it sits in the
        queue; events of the next request are set aside and put back. */
    method ActOnEvents() returns (step: Step)
      requires Valid() && Sound(maxResponseSize, book, progress)
      requires progress.end == Fine && !progress.responseDone && !progress.switched
      modifies `events, `book, `progress, `io
      ensures step != Broken ==> Valid() && Sound(maxResponseSize, book, progress)
      ensures step == Broken ==> Core()
      ensures step == More ==> progress.end == Fine && !progress.responseDone && !progress.switched
      ensures step != Broken && progress.switched ==> parser.tunnelled(state) && progress.end == Fine
      ensures step == Stop ==> progress.switched || progress.responseDone || progress.end == Truncated
      ensures step != Broken && progress.responseDone ==> progress.end == Fine
      ensures step != Broken ==> progress.end == Fine || progress.end == Truncated
      ensures step != Broken && progress.end == Fine ==> events == Sweep(old(events), old(progress.requestDone))
      ensures step == More ==> SwitchProtocols !in old(events) && Deferred(events, progress.requestDone)
      ensures step != Broken ==> book.before == old(book.before)
      ensures Continues(old(book), book)
      ensures Within(io, old(io)) && (step == Broken ==> false in old(io))
    {
      hide Acting, Linked, Traced, Sound, Lawful, Conserved, Drained, Project, Sweep, Within, Continues, Deferred;
      assert WellFramed(Project(parser.emitted(state), Initiator)) by { LawfulFraming(parser, state); }
      ActingFromLinked(maxResponseSize, parser.emitted(state), events, book, progress);
      var carry;
      step, carry := Pass();
      if step == Broken {
        return;
      }
      LinkedFromActing(maxResponseSize, parser.emitted(state), carry, events, book, progress);
      NothingAdded(carry);
      Restore(carry);
      if progress.switched {
        LawfulSwitch(parser, state);
      }
    }

    /** Put the deferred events back at the front, in order. */
    method Restore(deferred: seq<Event>)
      modifies `events
      ensures events == deferred + old(events)
    {
      var carry := deferred;
      while carry != []
        invariant carry + events == deferred + old(events)
        decreases |carry|
      {
        var last := carry[|carry| - 1];
        assert carry == carry[..|carry| - 1] + [last];
        events, carry := [last] + events, carry[..|carry| - 1];
      }
    }

    /** A payload from the backend.  The parser's refused tail is overwritten. */
    method ReceiveSample(payload: Bytes)
      requires Valid() && RespKept()
      modifies `state, `events, `respPending, `received
      ensures state == if payload == [] then DrainAll(parser, parser.fin(old(state), Responder)).0
                       else FeedAll(parser, old(state), Responder, payload).0
      ensures Valid() && RespKept() && Now() == TakeInput(parser, old(Now()), Sample(payload))
      ensures received == if payload == [] then old(received) else old(received.Take(payload, respPending))
      ensures Announces(parser) && old(SwitchAhead()) ==> SwitchAhead()
    {
      hide Linked, Lawful, Received.Kept, FeedAll, DrainAll;
      if payload == [] {
        Finish(Responder);
      } else {
        ghost var before, tail := parser.accepted(state, Responder), respPending;
        respPending := Feed(Responder, payload);
        KeptStep(received, before, tail, parser.accepted(state, Responder), respPending, payload);
        received := received.Take(payload, tail);
      }
    }

    /** Re-offer the backend bytes the parser refused. */
    method OfferResponse()
      requires Valid() && RespKept() && respPending != []
      modifies `state, `events, `respPending
      ensures Valid() && RespKept() && Now() == OfferDown(parser, old(Now()))
      ensures old(parser.poison(state)).Some? ==> parser.poison(state).Some?
      ensures old(parser.tunnelled(state)) ==> parser.tunnelled(state)
      ensures Announces(parser) && old(SwitchAhead()) ==> SwitchAhead()
    {
      hide Linked, Lawful, FeedAll;
      respPending := Feed(Responder, respPending);
    }

    /** After a switch the backend has all the client's bytes but those whose
        publish failed, and the client a prefix of the backend's, in order (if no
        response tail was overwritten). */
    ghost predicate Tunnelling(wholeDown: bool)
      reads `state, `clientPending, `clientRead, `spliced, `received, `tunnel
    {
      && clientPending == []
      && clientRead == parser.accepted(state, Initiator) + spliced
      && clientRead == Wires(Log(Initiator)) + tunnel.up + tunnel.lost
      && (received.lost == 0 ==>
            && Wires(Log(Responder)) + tunnel.down <= received.base + received.payloads
            && (wholeDown ==> Wires(Log(Responder)) + tunnel.down == received.base + received.payloads))
    }

    /** On either side: the events so far, the tunnel residue, then the refused tail. */
    lemma SwitchedBytes()
      requires Valid() && RespKept() && parser.tunnelled(state)
      ensures clientRead == Wires(Log(Initiator)) + (parser.residue(state, Initiator) + clientPending) + []
      ensures clientRead == parser.accepted(state, Initiator) + clientPending ==
              parser.accepted(state, Initiator) + [] + clientPending
      ensures received.lost == 0 ==>
                Wires(Log(Responder)) + (parser.residue(state, Responder) + respPending) ==
                received.base + received.payloads
    {
      hide Linked, Lawful, Wires, Project;
      LawfulRaw(parser, state);
      var up, down := parser.residue(state, Initiator), parser.residue(state, Responder);
      assert clientRead == parser.accepted(state, Initiator) + clientPending;
      Regroup(Wires(Log(Initiator)), up, clientPending);
      Regroup(Wires(Log(Responder)), down, respPending);
      NothingAdded(parser.accepted(state, Initiator));
      NothingAdded(Wires(Log(Initiator)) + (up + clientPending));
    }

    method WriteFirst(up: Bytes, down: Bytes) returns (ok: bool)
      modifies `io
      ensures Within(io, old(io)) && (!ok ==> false in old(io))
    {
      ok := true;
      if up != [] {
        ok := Io();
      }
      if ok && clientPending != [] {
        ok := Io();
      }
      if ok && (down != [] || respPending != []) {
        ok := Io();
      }
    }

    /** The first bytes of the switched-to protocol, the tunnel residue and then
        the refused tail, go out before anything read afterwards. */
    method SpliceFirst() returns (ok: bool)
      requires Valid() && RespKept() && parser.tunnelled(state)
      modifies `clientPending, `spliced, `respPending, `io, `tunnel
      ensures Core()
      ensures ok ==> Tunnelling(true) && tunnel.lost == []
      ensures !ok ==> Now() == old(Now())
      ensures Within(io, old(io)) && (!ok ==> false in old(io))
    {
      ValidIsCore();
      SwitchedBytes();
      hide Linked, Traced, Lawful, Wires, Project, Log, Drained, Received.Kept, Within;
      var up, down := parser.residue(state, Initiator), parser.residue(state, Responder);
      ok := WriteFirst(up, down);
      if ok {
        tunnel := Tunnel(up + clientPending, [], down + respPending);
        spliced, clientPending, respPending := clientPending, [], [];
      }
    }

    /** The splice after a protocol switch, until either side closes. */
    method Splice() returns (ok: bool)
      requires Valid() && RespKept() && parser.tunnelled(state)
      modifies `clientPending, `clientRead, `spliced, `respPending, `received, `inputs, `io, `tunnel
      ensures Core() && Linked(parser.emitted(state), events, book)
      ensures ok ==> Tunnelling(false)
      ensures !ok ==> false in old(io) && Now() == old(Now())
      ensures received.lost == old(received.lost)
      ensures SplicedTo(old(inputs), inputs, false, false in old(io))
      ensures Ups() == old(Ups()) && Downs() == old(Downs()) && (!ok ==> inputs == old(inputs))
      ensures Within(inputs, old(inputs)) && Within(io, old(io))
    {
      assert Linked(parser.emitted(state), events, book);
      WithinItself(inputs);
      hide Valid, Core, Linked, Tunnelling, Now, Received.Kept, RespKept, ClientBytes, BackendBytes, ClosesSplice, Within, SplicedTo;
      ok := SpliceFirst();
      var open := ok;
      ghost var all := inputs;
      SplicesNothing(all, open, false in old(io));
      while open
        invariant Core() && (ok ==> Tunnelling(open))
        invariant open ==> ok && tunnel.lost == []
        invariant !ok ==> false in old(io) && !open && Now() == old(Now())
        invariant received.lost == old(received.lost)
        invariant SplicedTo(all, inputs, open, false in old(io))
        invariant Ups() == old(Ups()) && Downs() == old(Downs()) && (!ok ==> inputs == all)
        invariant Within(inputs, old(inputs)) && Within(io, old(io))
        decreases |inputs|, open
      {
        SpliceKeepsCount(clientRead, received.payloads, inputs);
        ghost var inputs1, io1 := inputs, io;
        open := SpliceStep();
        WithinLater(old(io), io1, io);
        WithinLater(old(inputs), inputs1, inputs);
        FailsLater(old(io), io1);
        SplicesOne(all, inputs1, inputs, open, false in old(io));
      }
    }

    /** The next input of a splice. */
    method SpliceStep() returns (open: bool)
      requires Core() && Tunnelling(true) && tunnel.lost == []
      modifies `clientRead, `spliced, `received, `inputs, `io, `tunnel
      ensures Core() && Tunnelling(open) && (open ==> tunnel.lost == [])
      ensures if old(inputs) == [] then inputs == [] && !open else inputs == old(inputs)[1..]
      ensures old(inputs) != [] ==> (open ==> !ClosesSplice(old(inputs)[0]))
      ensures old(inputs) != [] && !open ==> ClosesSplice(old(inputs)[0]) || false in old(io)
      ensures var input := if old(inputs) == [] then None else Some(old(inputs)[0]);
              clientRead == old(clientRead) + ReadBytes(input)
              && received.payloads == old(received.payloads) + SampleBytes(input)
      ensures received.lost == old(received.lost)
      ensures Within(inputs, old(inputs)) && Within(io, old(io))
    {
      hide Traced, Lawful, Wires, Project, ClientBytes, BackendBytes;
      NothingAdded(clientRead);
      NothingAdded(received.payloads);
      var input := NextInput(true, true);
      match input {
        case Some(ClientRead(bytes)) => open := SpliceUp(bytes);
        case Some(Sample(payload)) => open := SpliceDown(payload);
        case Some(IdleTimeout) => open := true;
        case _ => open := false;
      }
    }

    method SpliceUp(bytes: Bytes) returns (open: bool)
      requires Core() && Tunnelling(true) && tunnel.lost == []
      modifies `clientRead, `spliced, `io, `tunnel
      ensures Core() && Tunnelling(true) && (open ==> tunnel.lost == []) && clientRead == old(clientRead) + bytes
      ensures Within(io, old(io)) && (!open && bytes != [] ==> false in old(io)) && (open ==> bytes != [])
    {
      hide Traced, Lawful, Wires, Project;
      if bytes == [] {
        return false;
      }
      open := Io();
      Regroup(parser.accepted(state, Initiator), spliced, bytes);
      Regroup(Wires(Log(Initiator)), tunnel.up, bytes);
      clientRead, spliced := clientRead + bytes, spliced + bytes;
      tunnel := if open then tunnel.(up := tunnel.up + bytes) else tunnel.(lost := bytes);
    }

    method SpliceDown(payload: Bytes) returns (open: bool)
      requires Tunnelling(true)
      modifies `received, `io, `tunnel
      ensures Tunnelling(open) && tunnel.lost == old(tunnel.lost) && received.lost == old(received.lost)
      ensures received.payloads == old(received.payloads) + payload
      ensures Within(io, old(io)) && (!open && payload != [] ==> false in old(io)) && (open ==> payload != [])
    {
      hide Wires, Project;
      if payload == [] {
        return false;
      }
      open := Io();
      Regroup(received.base, received.payloads, payload);
      Regroup(Wires(Log(Responder)), tunnel.down, payload);
      received := received.Take(payload, []);
      if open {
        tunnel := tunnel.(down := tunnel.down + payload);
      }
    }

    /** End the exchange early; a page explains it if nothing was written yet. */
    method Abort(end: ExchangeEnd, page: bool)
      requires Sound(maxResponseSize, book, progress) && progress.end == Fine && end != Fine && end != Truncated
      requires page == Explicable(end)
      modifies `progress
      ensures Sound(maxResponseSize, book, progress) && progress.end == end
      ensures progress == old(progress).(keepAlive := false, end := end, errorPage := progress.errorPage)
    {
      hide Sound;
      StopStep(maxResponseSize, book, progress, end, page);
      progress := progress.(keepAlive := false, end := end, errorPage := page && progress.bytesWritten == 0);
    }

    /** Set up the per-request channel and publish the request head. */
    method Begin(head: Event) returns (ok: bool)
      requires Valid() && Opened(book, head)
      modifies `book, `progress, `io, `respPending, `received
      ensures Core() && RespKept() && Now() == old(Begun()) && received.payloads == []
      ensures ok ==> InExchange() && progress == Fresh() && book.before == old(book.down)
      ensures Continues(old(book), book) && (if ok then HeadOut(book, head) else book == old(book))
      ensures Within(io, old(io)) && (!ok ==> false in old(io))
    {
      hide Linked, Traced, Lawful, Sound, Opened, Received.Kept, Conserved, Drained, Project, Continues, HeadOut;
      ContinuesItself(book);
      ValidIsCore();
      KeptInitially(parser.accepted(state, Responder));
      respPending, received := [], Received(parser.accepted(state, Responder), [], 0);
      ok := Io();
      if ok {
        ok := Io();
      }
      if ok {
        BeginStep(maxResponseSize, parser.emitted(state), events, book, head);
        book, progress := book.Begin(head), Fresh();
      }
    }

    /** Whether the exchange would read from the client. */
    predicate Reads()
      reads `progress, `clientEof, `clientPending
    {
      !progress.requestDone && !clientEof && clientPending == []
    }

    /** No queued event can be acted on, and no input is left but the client's,
        of which none is read now. */
    ghost predicate AtRest()
      reads `events, `progress, `inputs, `clientEof, `clientPending
    {
      && Deferred(events, progress.requestDone)
      && (forall i :: i in inputs ==> i.FromClient()) && (inputs != [] ==> !Reads())
    }

    /** Wait for the next input; the client is read only while no refused tail of
        its bytes is pending. */
    method Await() returns (step: Step, over: bool, ghost taken: Option<Input>)
      requires InExchange()
      requires progress.end == Fine && !progress.responseDone && !progress.switched
      modifies `state, `events, `clientPending, `clientEof, `clientRead, `progress, `inputs,
               `respPending, `received
      ensures InExchange() && !progress.switched && !progress.responseDone
      ensures Now() == if taken.Some? then TakeInput(parser, old(Now()), taken.value) else old(Now())
      ensures if old(parser.poison(state)).Some? then taken.None? && !over && inputs == old(inputs)
              else (taken, inputs) == TakeNext(old(inputs), old(Reads()), true) && (over <==> taken.None?)
      ensures Announces(parser) && old(SwitchAhead()) ==> SwitchAhead()
      ensures step == AfterInput(taken, over)
      ensures progress.end == if taken.None? then (if over then Fine else Poisoned)
                              else if step == Stop then EndFor(taken.value) else Fine
      ensures progress.end == Poisoned ==> parser.poison(state).Some?
      ensures Advances(taken, old(inputs), inputs)
      ensures clientRead == old(clientRead) + ReadBytes(taken)
      ensures received == if SampleBytes(taken) == [] then old(received)
                          else old(received.Take(SampleBytes(taken), respPending))
      ensures over ==> parser.poison(state).None? && events == old(events) && progress == old(progress)
    {
      hide Valid, Sound, Received.Kept, FeedAll, DrainAll, TakeNext, ClientBytes, BackendBytes, SwitchAhead, Announces,
        Advances, Within;
      step, over, taken := More, false, None;
      NothingAdded(clientRead);
      AdvancesNot(inputs);
      if parser.poison(state).Some? {
        step := Stop;
        Abort(Poisoned, true);
        return;
      }
      var input := NextInput(Reads(), true);
      taken := input;
      if input.None? {
        over := true;
      } else if input.value.ClientRead? {
        ReceiveClient(input.value.bytes);
      } else if input.value.Sample? {
        ReceiveSample(input.value.payload);
      } else if input.value.ClientError? {
        step := Broken;
      } else {
        step := Stop;
        Abort(EndFor(input.value), input.value.ChannelClosed? || input.value.IdleTimeout?);
      }
    }

    /** Both refused tails are offered again before anything else. */
    method ReofferTails()
      requires InExchange()
      modifies `state, `events, `clientPending, `respPending
      ensures InExchange() && Now() == Reoffer(parser, old(Now()))
      ensures Announces(parser) && old(SwitchAhead()) ==> SwitchAhead()
    {
      hide Sound, Received.Kept, FeedAll, Linked, Lawful, Conserved;
      if clientPending != [] {
        OfferClient();
      }
      if respPending != [] {
        OfferResponse();
      }
    }

    /** One turn of the exchange loop: re-offer refused tails, act on the queued
        events, then wait for the next input. */
    method Turn() returns (step: Step, over: bool, ghost taken: Option<Input>)
      requires InExchange()
      requires progress.end == Fine && !progress.responseDone && !progress.switched
      modifies `state, `events, `clientPending, `clientEof, `clientRead, `book, `progress, `inputs, `io,
               `respPending, `received
      ensures Core()
      ensures Now() == TurnOf(parser, old(Now()), taken) && RespKept()
      ensures Advances(taken, old(inputs), inputs)
      ensures Announces(parser) && old(SwitchAhead()) ==>
                && (step == More ==> SwitchAhead())
                && (taken.Some? ==> Accepting(parser, Reoffer(parser, old(Now())).state))
      ensures step != Broken ==> InExchange() && book.before == old(book.before)
      ensures step == More ==> progress.end == Fine && !progress.responseDone && !progress.switched
      ensures step == More && !over ==> Feeds(taken)
      ensures step != Broken ==> EndedBy(taken, progress.end) && (progress.end == Poisoned ==> parser.poison(state).Some?)
      ensures step == Stop ==> progress.switched || progress.responseDone || progress.end != Fine
      ensures step == Broken ==> taken == Some(ClientError) || (taken.None? && false in old(io))
      ensures over ==> taken.None? && AtRest() && parser.poison(state).None?
      ensures Within(io, old(io))
      ensures step == Stop && progress.switched ==> parser.tunnelled(state) && progress.end == Fine
      ensures clientRead == old(clientRead) + ReadBytes(taken)
      ensures received.payloads == old(received.payloads) + SampleBytes(taken)
      ensures Continues(old(book), book)
    {
      hide Core, Sound, Received.Kept, Reoffer, TakeInput, Linked, Lawful, Conserved, Sweep, Continues, Deferred, Advances,
        Within;
      over, taken := false, None;
      ghost var inputs0 := inputs;
      NothingAdded(clientRead);
      NothingAdded(received.payloads);
      AdvancesNot(inputs);
      ReofferTails();
      step := ActOnEvents();
      if step == More {
        step, over, taken := Await();
        TakesFirst(inputs0, Reads(), true);
        ValidIsCore();
      } else if step == Stop {
        ValidIsCore();
      }
    }

    /** Published for the open request: exactly the samples of its events acted
        on, up to its end once it is done. */
    ghost predicate Published()
      reads `book, `progress
    {
      && Requests(book.up) != [] && book.history != [] && Last(Requests(book.up)) != []
      && Last(book.history) == Samples(Last(Requests(book.up)))
      && (progress.requestDone <==> Last(Last(Requests(book.up))).End?)
    }

    /** The response went out complete and whole, no error page replaced it, no
        final head of it asked to close, and the client is still there. */
    ghost predicate WholeResponse()
      reads `book, `progress, `clientEof
    {
      && progress.end == Fine && progress.responseDone && !progress.errorPage && !clientEof
      && book.cut == [] && book.shown != [] && Last(book.shown) == End(Responder)
      && book.down == book.before + book.shown
      && (forall e :: e in book.shown && e.ResponseHead? && !e.interim ==> !WantsClose(e))
      && UnderCap(book.shown, maxResponseSize)
    }

    lemma SoundMeans()
      requires Sound(maxResponseSize, book, progress)
      ensures Published()
      ensures progress.keepAlive && progress.responseDone && !clientEof <==> WholeResponse()
    {
      OpenRequest(maxResponseSize, book, progress);
      if progress.keepAlive && progress.responseDone {
        KeptAlive(maxResponseSize, book, progress);
      }
    }

    /** The exchange ended for something that happened. */
    ghost predicate Reasoned(inputs: seq<Input>)
      reads `state, `progress
    {
      Caused(progress.end, inputs) && (progress.end == Poisoned ==> parser.poison(state).Some?)
    }

    /** It ended as the last input it took says. */
    ghost predicate EndsAs(trace: seq<Option<Input>>)
      reads `state, `progress
    {
      Ends(trace, progress.end) && (progress.end == Poisoned ==> parser.poison(state).Some?)
    }

    /** Bytes of the backend that this exchange received or that are to come. */
    ghost function Downs(): Bytes
      reads `received, `inputs
    {
      received.payloads + BackendBytes(inputs)
    }

    /** The turns of an exchange, until it stops, breaks, or the run ends.  `trace`
        is the inputs taken, turn by turn: they alone decide what became of every
        byte. */
    method Turns() returns (step: Step, over: bool, ghost trace: seq<Option<Input>>)
      requires InExchange() && progress == Fresh()
      modifies `state, `events, `clientPending, `clientEof, `clientRead, `book, `progress, `inputs, `io,
               `respPending, `received
      ensures Core() && (step == More ==> over && AtRest() && parser.poison(state).None?)
      ensures Now() == PipeRun(parser, old(Now()), trace) && RespKept()
      ensures Tracing(trace, old(inputs), inputs) && Ups() == old(Ups()) && Downs() == old(Downs())
      ensures Announces(parser) && old(SwitchAhead()) ==> Proper(parser, old(Now()), trace)
      ensures step != Broken ==> InExchange() && book.before == old(book.before) && EndsAs(trace)
      ensures step == Stop ==> progress.switched || progress.responseDone || progress.end != Fine
      ensures step == Stop && progress.switched ==> parser.tunnelled(state) && progress.end == Fine
      ensures step == Broken ==> ClientError in old(inputs) || false in old(io)
      ensures Within(io, old(io))
      ensures Continues(old(book), book)
    {
      assert Lawful(parser);
      ValidIsCore();
      ContinuesItself(book);
      hide Valid, Core, Sound, Received.Kept, TurnOf, Reoffer, SwitchAhead, Within, Tracing, Proper, Announces,
        Continues, AtRest, Advances, ClientBytes, BackendBytes, AllFeed, Ends, EndedBy;
      ghost var start, first, io0, book0 := Now(), inputs, io, book;
      RunBegins(parser, start, first);
      TracesNothing(first);
      WithinItself(io);
      step, over, trace := More, false, [];
      while step == More && !over
        invariant Core() && step != Broken && InExchange() && book.before == old(book.before)
        invariant Tracing(trace, first, inputs) && Now() == PipeRun(parser, start, trace)
        invariant Ups() == old(Ups()) && Downs() == old(Downs())
        invariant Announces(parser) && old(SwitchAhead()) ==>
                    Proper(parser, start, trace) && (step == More ==> SwitchAhead())
        invariant step == More ==> progress.end == Fine && !progress.responseDone && !progress.switched
        invariant step == Stop && progress.switched ==> parser.tunnelled(state) && progress.end == Fine
        invariant step == Stop ==> progress.switched || progress.responseDone || progress.end != Fine
        invariant EndsAs(trace) && (step == More && !over ==> AllFeed(trace))
        invariant over ==> AtRest() && parser.poison(state).None?
        invariant Within(io, old(io)) && Continues(book0, book)
        decreases |inputs|, step == More && !over
      {
        ghost var inputs1, io1, book1, taken := inputs, io, book, None;
        ghost var read, payloads := clientRead, received.payloads;
        step, over, taken := Turn();
        ContinuesLater(book0, book1, book);
        WithinLater(io0, io1, io);
        PipeRunSnoc(parser, start, trace, taken);
        ProperSnoc(parser, start, trace, taken);
        TracingSnoc(trace, taken, first, inputs1, inputs);
        TotalsStay(read, payloads, taken, inputs1, inputs);
        EndsSnoc(trace, taken, progress.end);
        AdvancesLess(taken, inputs1, inputs);
        trace := trace + [taken];
        if step == Broken {
          return;
        }
      }
    }

    /** The exchange from its channel's set-up to its last turn. */
    method Serve(head: Event) returns (step: Step, over: bool, ghost trace: seq<Option<Input>>)
      requires Valid() && Opened(book, head)
      modifies `state, `events, `clientPending, `clientEof, `clientRead, `book, `progress, `inputs, `io,
               `respPending, `received
      ensures Core() && (step == More ==> over && AtRest() && parser.poison(state).None?)
      ensures Now() == PipeRun(parser, old(Begun()), trace) && RespKept()
      ensures Tracing(trace, old(inputs), inputs) && Ups() == old(Ups()) && Downs() == BackendBytes(old(inputs))
      ensures Announces(parser) && !old(parser.tunnelled(state)) ==> Proper(parser, old(Begun()), trace)
      ensures step != Broken ==> InExchange() && book.before == old(book.down) && EndsAs(trace)
      ensures step == Stop ==> progress.switched || progress.responseDone || progress.end != Fine
      ensures step == Stop && progress.switched ==> parser.tunnelled(state) && progress.end == Fine
      ensures step == Broken ==> ClientError in old(inputs) || false in old(io)
      ensures Within(io, old(io))
      ensures Continues(old(book), book) && (HeadOut(book, head) || (step == Broken && false in old(io) && book == old(book)))
    {
      assert Lawful(parser);
      trace := [];
      assert old(Begun()) == PipeRun(parser, old(Begun()), []) && Proper(parser, old(Begun()), []);
      assert !parser.tunnelled(state) ==> SwitchAhead();
      TracesNothing(inputs);
      NoneBefore(BackendBytes(inputs));
      hide Valid, Core, Opened, RespKept, InExchange, EndsAs, PipeRun, Proper, SwitchAhead, Begun, Now,
        Announces, Tracing, Continues, HeadOut, AtRest, Within, ClientBytes, BackendBytes;
      step, over := Broken, false;
      ghost var book0, io0 := book, io;
      var ok := Begin(head);
      ghost var io1 := io;
      if ok {
        ghost var book1 := book;
        step, over, trace := Turns();
        ContinuesLater(book0, book1, book);
        HeadStaysOut(book1, book, head);
        WithinLater(io0, io1, io);
      }
    }

    /** Every backend byte there was and every payload byte taken is accepted by
        the parser or pending, in order. */
    ghost predicate Whole(x: Pipes<S>, trace: seq<Option<Input>>)
      reads `state, `respPending
    {
      parser.accepted(state, Responder) + respPending == parser.accepted(x.state, Responder) + PayloadsOf(trace)
    }

    /** Where the response shown came from: events queued or bytes accepted but
        not acted on when the exchange began (`x`, `emitted0`, `events0`, `book0`),
        then what it framed and received itself. */
    ghost predicate ShownIs(x: Pipes<S>, emitted0: seq<Event>, events0: seq<Event>, book0: Book,
                            trace: seq<Option<Input>>)
      reads `state, `respPending, `book
    {
      var w, accepted := Wires(book0.down), parser.accepted(x.state, Responder);
      && emitted0 <= parser.emitted(state) && w <= accepted
      && book.shown <= Project(events0, Responder) + Project(parser.emitted(state)[|emitted0|..], Responder)
      && (Whole(x, trace) ==> Wires(book.shown) <= accepted[|w|..] + PayloadsOf(trace))
    }

    lemma ShowsIts(x: Pipes<S>, events0: seq<Event>, book0: Book, trace: seq<Option<Input>>)
      requires InExchange() && Now() == PipeRun(parser, x, trace) && book.before == book0.down
      requires Linked(parser.emitted(x.state), events0, book0)
      ensures ShownIs(x, parser.emitted(x.state), events0, book0, trace)
    {
      RunEmits(parser, x, trace);
      LawfulWires(parser, x.state);
      LawfulWires(parser, state);
      SoundSplits(maxResponseSize, book, progress);
      ActedIsAccepted(parser.emitted(x.state), events0, book0, parser.accepted(x.state, Responder));
      ShownEvents(parser.emitted(x.state), events0, book0, parser.emitted(state), events, book);
      hide Linked, Sound, Wires, Project, PipeRun, Lawful;
      if Whole(x, trace) {
        ShownBytes(book0, parser.accepted(x.state, Responder), parser.emitted(state), events, book,
                   parser.accepted(state, Responder), respPending, PayloadsOf(trace));
      }
    }

    /** An exchange that begins with nothing queued and nothing accepted but not
        acted on shows its own response only, byte for byte a prefix of its own
        payloads if no tail was overwritten; one that begins with a queued event,
        or with bytes not acted on, shows those first. */
    lemma OwnResponse(x: Pipes<S>, events0: seq<Event>, book0: Book, trace: seq<Option<Input>>)
      requires InExchange() && Now() == PipeRun(parser, x, trace) && book.before == book0.down
      requires Linked(parser.emitted(x.state), events0, book0) && Starts(parser, x)
      ensures parser.emitted(x.state) <= parser.emitted(state)
      ensures Wires(book0.down) == parser.accepted(x.state, Responder) && NoOverwrite(parser, x, trace) ==>
                Wires(book.shown) <= PayloadsOf(trace)
      ensures var w, accepted := Wires(book0.down), parser.accepted(x.state, Responder);
              |w| < |accepted| && NoOverwrite(parser, x, trace) && Wires(book.shown) != [] ==>
                Wires(book.shown)[0] == accepted[|w|]
      ensures Project(events0, Responder) == [] ==>
                book.shown <= Project(parser.emitted(state)[|parser.emitted(x.state)|..], Responder)
      ensures Project(events0, Responder) != [] && book.shown != [] ==>
                book.shown[0] == Project(events0, Responder)[0]
    {
      ShowsIts(x, events0, book0, trace);
      ResponseConserved(parser, x, trace);
      hide Project, Wires, PipeRun, NoOverwrite, InExchange, Linked, Starts, PayloadsOf;
      var accepted, emitted0 := parser.accepted(x.state, Responder), parser.emitted(x.state);
      assert Wires(book0.down) == accepted ==>
               accepted[|Wires(book0.down)|..] + PayloadsOf(trace) == PayloadsOf(trace);
      assert |Wires(book0.down)| < |accepted| ==>
               (accepted[|Wires(book0.down)|..] + PayloadsOf(trace))[0] == accepted[|Wires(book0.down)|];
      var queued, framed := Project(events0, Responder), Project(parser.emitted(state)[|emitted0|..], Responder);
      assert [] + framed == framed;
      assert queued != [] ==> (queued + framed)[0] == queued[0];
    }

    /** What an outcome promises: a completed exchange published exactly its
        request, and is kept alive only on a whole response; a switched one has
        become a tunnel. */
    ghost predicate Concluded(o: Outcome)
      reads `state, `events, `clientPending, `clientEof, `clientRead, `spliced, `book, `progress,
            `respPending, `received, `tunnel
    {
      match o
      case Completed(keepAlive, end) =>
        && InExchange() && Published()
        && end == progress.end && (progress.responseDone || end != Fine)
        && (keepAlive <==> WholeResponse())
      case Switched =>
        && Linked(parser.emitted(state), events, book) && Sound(maxResponseSize, book, progress)
        && Tunnelling(false) && progress.end == Fine && progress.switched
      case Failed => true
      case Unfinished => InExchange()
    }

    lemma InExchangeStill(o: Outcome)
      requires Concluded(o) && (o.Completed? || o.Unfinished?)
      ensures InExchange()
    {
    }

    /** What the exchange comes to once its turns are over. */
    method Conclude(step: Step) returns (o: Outcome)
      requires Core() && RespKept() && (step != Broken ==> InExchange())
      requires step == Stop && progress.switched ==> parser.tunnelled(state) && progress.end == Fine
      requires step == Stop ==> progress.switched || progress.responseDone || progress.end != Fine
      modifies `clientPending, `clientRead, `spliced, `respPending, `received, `inputs, `io, `tunnel
      ensures Core()
      ensures o.Unfinished? <==> step == More
      ensures o.Completed? <==> step == Stop && !progress.switched
      ensures step == Broken ==> o.Failed?
      ensures o.Failed? ==> step == Broken || false in old(io)
      ensures !o.Switched? ==> Now() == old(Now())
      ensures received.lost == old(received.lost)
      ensures Within(inputs, old(inputs)) && Within(io, old(io)) && (!o.Switched? ==> inputs == old(inputs))
      ensures Ups() == old(Ups()) && Downs() == old(Downs())
      ensures Concluded(o)
    {
      hide Core, Valid, Sound, Received.Kept, Tunnelling, Published, WholeResponse, Ups, Downs, Within, SplicedTo;
      WithinItself(inputs);
      WithinItself(io);
      match step {
        case Broken => return Failed;
        case More => return Unfinished;
        case Stop =>
      }
      if progress.switched {
        var ok := Splice();
        return if ok then Switched else Failed;
      }
      SoundMeans();
      return Completed(progress.keepAlive && progress.responseDone && !clientEof, progress.end);
    }

    /** An exchange up to its outcome: what became of its bytes is the run of its
        trace. */
    method Exchange(head: Event) returns (o: Outcome, ghost trace: seq<Option<Input>>)
      requires Valid() && Opened(book, head)
      modifies `state, `events, `clientPending, `clientEof, `clientRead, `spliced, `book, `progress, `inputs, `io,
               `respPending, `received, `tunnel
      ensures Core()
      ensures TakenFrom(trace, old(inputs)) && (!o.Switched? ==> Tracing(trace, old(inputs), inputs))
      ensures Ups() == old(Ups()) && Downs() == BackendBytes(old(inputs))
      ensures !o.Switched? ==> Now() == PipeRun(parser, old(Begun()), trace) && RespKept()
      ensures received.lost == PipeRun(parser, old(Begun()), trace).received.lost
      ensures Announces(parser) && !old(parser.tunnelled(state)) ==> Proper(parser, old(Begun()), trace)
      ensures o.Failed? ==> ClientError in old(inputs) || false in old(io)
      ensures o.Unfinished? ==> AtRest() && parser.poison(state).None?
      ensures o.Completed? ==> EndsAs(trace) && Reasoned(old(inputs))
      ensures Within(inputs, old(inputs)) && Within(io, old(io))
      ensures Concluded(o)
      ensures !o.Failed? ==> book.before == old(book.down)
      ensures Continues(old(book), book) && (HeadOut(book, head) || (o.Failed? && false in old(io) && book == old(book)))
    {
      hide Valid, Core, Opened, RespKept, InExchange, Concluded, Ends, PipeRun, Proper, Begun, Announces,
        InOrder, Within, Continues, HeadOut, Ups, Downs, AtRest;
      ghost var io0, inputs0 := io, inputs;
      var step, over;
      step, over, trace := Serve(head);
      ghost var io1, inputs1 := io, inputs;
      o := Conclude(step);
      WithinLater(io0, io1, io);
      WithinLater(inputs0, inputs1, inputs);
      if o.Completed? {
        EndsForCause(trace, progress.end, inputs0);
      }
    }

    /** One request and its response, over a fresh per-request channel.  `trace` is
        the inputs it took, turn by turn: they alone decide what became of every
        byte. */
    method RunExchange(head: Event) returns (o: Outcome, ghost trace: seq<Option<Input>>)
      requires Valid() && Opened(book, head)
      modifies `state, `events, `clientPending, `clientEof, `clientRead, `spliced, `book, `progress, `inputs, `io,
               `respPending, `received, `tunnel
      ensures Core()
      ensures TakenFrom(trace, old(inputs)) && (!o.Switched? ==> Tracing(trace, old(inputs), inputs))
      ensures Ups() == old(Ups()) && Downs() == BackendBytes(old(inputs))
      ensures !o.Switched? ==> Now() == PipeRun(parser, old(Begun()), trace) && RespKept()
      ensures !o.Switched? ==> (Whole(old(Begun()), trace) <==> NoOverwrite(parser, old(Begun()), trace))
      ensures o.Switched? ==> (received.lost == 0 <==> NoOverwrite(parser, old(Begun()), trace))
      ensures Announces(parser) && !old(parser.tunnelled(state)) ==>
                forall w: nat :: Absorbing(parser, w) && SamplesUpTo(old(inputs), 2 * w) ==>
                  NoOverwrite(parser, old(Begun()), trace)
      ensures o.Completed? || o.Unfinished? ==>
                ShownIs(old(Begun()), old(parser.emitted(state)), old(events), old(book), trace)
      ensures Announces(parser) && !old(parser.tunnelled(state)) ==> Proper(parser, old(Begun()), trace)
      ensures o.Failed? ==> ClientError in old(inputs) || false in old(io)
      ensures o.Unfinished? ==> AtRest() && parser.poison(state).None?
      ensures o.Completed? ==> EndsAs(trace) && Reasoned(old(inputs))
      ensures Within(inputs, old(inputs)) && Within(io, old(io))
      ensures Concluded(o)
      ensures !o.Failed? ==> book.before == old(book.down)
      ensures Continues(old(book), book) && (HeadOut(book, head) || (o.Failed? && false in old(io) && book == old(book)))
    {
      assert Lawful(parser) && Starts(parser, Begun()) && Linked(parser.emitted(state), events, book);
      hide Valid, Core, Opened, RespKept, InExchange, Concluded, Reasoned, PipeRun, Proper, Begun, Announces,
        TakenFrom, Within, ShownIs, NoOverwrite, Starts, Linked, SamplesUpTo, Absorbing, Lawful, Continues, HeadOut;
      ghost var inputs0, start, events0, book0 := inputs, Begun(), events, book;
      o, trace := Exchange(head);
      Conservation(parser, start, trace, inputs0);
      if o.Completed? || o.Unfinished? {
        InExchangeStill(o);
        ShowsIts(start, events0, book0, trace);
      }
    }

    /** Each way the connection can end has one of its causes. */
    ghost predicate Explained(outcome: Option<ConnOutcome>, inputs: seq<Input>, io: seq<bool>)
      reads `state, `clientEof, `book, `progress
    {
      match outcome
      case Some(ConnCompleted) =>
        && progress.end == Fine
        && (clientEof || Drain in inputs || ClientError in inputs
            || progress.switched || !NoneCloses(book.shown) || parser.done(state))
      case Some(ConnReset) =>
        || parser.poison(state).Some? || parser.tunnelled(state) || ClientError in inputs
        || Overflow in inputs || Drain in inputs
        || (book.up != [] && Last(book.up).RequestHead? && !Routable(Last(book.up)))
      case Some(ConnFailed) =>
        || ClientError in inputs || false in io || progress.end == Truncated
        || IdleTimeout in inputs || ChannelClosed in inputs
      case None => true
    }

    lemma ExplainedBefore(outcome: Option<ConnOutcome>, inputs: seq<Input>, io: seq<bool>,
                          inputs0: seq<Input>, io0: seq<bool>)
      requires Explained(outcome, inputs, io) && Within(inputs, inputs0) && Within(io, io0)
      ensures Explained(outcome, inputs0, io0)
    {
    }

    /** One routed request: the exchange, and what its end means for the
        connection. */
    method ServeRequest(head: Event) returns (over: bool, outcome: Option<ConnOutcome>, ghost o: Outcome)
      requires Valid() && Opened(book, head)
      modifies `state, `events, `clientPending, `clientEof, `clientRead, `spliced, `book, `progress, `inputs, `io,
               `respPending, `received, `tunnel
      ensures Core()
      ensures if over then Explained(outcome, old(inputs), old(io)) && (outcome.None? ==> AtRest())
              else Valid() && progress.end == Fine
      ensures Ups() == old(Ups())
      ensures Concluded(o)
      ensures !over <==> o.Completed? && WholeResponse() && !parser.done(state)
      ensures outcome == if over then OutcomeOf(o, progress.end) else None
      ensures Within(inputs, old(inputs)) && Within(io, old(io))
      ensures Continues(old(book), book)
      ensures HeadOut(book, head) || (o.Failed? && false in old(io) && book == old(book))
    {
      hide Valid, Core, Opened, Concluded, Proper, PipeRun, NoOverwrite, ShownIs, Whole, Begun, Now, TakenFrom, RespKept,
        InExchange, SamplesUpTo, Absorbing, Continues, HeadOut, NoneCloses, Ups, Downs, Tracing, Ends, AtRest;
      var ended;
      ghost var trace;
      ended, trace := RunExchange(head);
      ConcludedMeans(ended);
      match ended {
        case Failed => return true, Some(ConnFailed), ended;
        case Unfinished => return true, None, ended;
        case Switched => return true, Some(ConnCompleted), ended;
        case Completed(keepAlive, end) =>
          match end {
            case Fine =>
              if !keepAlive || parser.done(state) {
                return true, Some(ConnCompleted), ended;
              }
              return false, None, ended;
            case Timeout => return true, Some(ConnFailed), ended;
            case Truncated => return true, Some(ConnFailed), ended;
            case BackendGone => return true, Some(ConnFailed), ended;
            case _ => return true, Some(ConnReset), ended;
          }
      }
    }

    lemma ConcludedMeans(o: Outcome)
      requires Concluded(o)
      ensures o.Completed? ==>
                && Valid() && o.end == progress.end && (o.keepAlive <==> WholeResponse())
                && (progress.responseDone || o.end != Fine)
                && (o.end == Fine && !o.keepAlive ==> clientEof || !NoneCloses(book.shown))
      ensures o.Switched? ==> progress.end == Fine && progress.switched
    {
    }

    /** A routable request: served if its backend is there, and otherwise refused
        and read past, with nothing published. */
    method Answer(head: Event, probe: Probe) returns (over: bool, outcome: Option<ConnOutcome>)
      requires Valid() && Progressing(parser) && Opened(book, head) && progress.end == Fine
      modifies `state, `events, `clientPending, `clientEof, `clientRead, `spliced, `book, `progress, `inputs, `io,
               `respPending, `received, `tunnel
      ensures Core()
      ensures if over then Explained(outcome, old(inputs), old(io)) && (outcome.None? ==> AtRest())
              else Valid() && progress.end == Fine && outcome.None?
      ensures Ups() == old(Ups())
      ensures Within(inputs, old(inputs)) && Within(io, old(io))
      ensures Continues(old(book), book)
      ensures if probe.NeitherAlive? || probe.ProbeFailed? then !over && book.history == old(book.history)
              else HeadOut(book, head) || (outcome == Some(ConnFailed) && false in old(io) && book == old(book))
    {
      hide Valid, Core, Opened, Continues, HeadOut, Explained, Ups, AtRest;
      over, outcome := false, None;
      if probe.NeitherAlive? || probe.ProbeFailed? {
        ghost var book0 := book;
        ghost var cut := ConsumeRequestBody();
        ValidIsCore();
        ContinuesBySkipping(book0, book);
      } else {
        ghost var o;
        over, outcome, o := ServeRequest(head);
      }
    }

    lemma HistoryIsRequests()
      requires Valid()
      ensures |book.history| == |Requests(book.up)|
    {
    }

    lemma OpenedMeans(head: Event)
      requires Opened(book, head) && Valid()
      ensures head.RequestHead? && book.up != [] && Last(book.up) == head
      ensures |Requests(book.up)| == |book.history| > 0 && Last(book.history) == [] && Last(Requests(book.up)) == [head]
      ensures RoutableHead(Last(Requests(book.up))) <==> Routable(head)
    {
      HistoryIsRequests();
    }

    /** A request was found that has no probe. */
    ghost predicate Unprobed(before: Book, head: Option<Event>)
      reads `book
    {
      head.None? && book.history == before.history + [[]]
    }

    /** One request: found, and if it is routable and has a probe, served or
        refused.  `found` is the book at that point. */
    method Round(first: bool) returns (over: bool, outcome: Option<ConnOutcome>, ghost head: Option<Event>,
                                       ghost found: Book)
      requires Valid() && Progressing(parser) && progress.end == Fine
      modifies this
      ensures Core()
      ensures if over then Explained(outcome, old(inputs), old(io)) && (outcome == None ==> AtRest() || Unprobed(old(book), head))
              else Valid() && progress.end == Fine && outcome == None && head.Some?
      ensures Ups() == old(Ups())
      ensures Within(inputs, old(inputs)) && Within(io, old(io))
      ensures RoundDone(old(book), found, book, old(probes), probes, head, outcome, false in old(io))
    {
      hide Valid, Core, Opened, Continues, HeadOut, Requests, Within, ClientBytes, NoneCloses, RoutableHead, Ups;
      ghost var inputs0, io0 := inputs, io;
      WithinItself(io);
      over, outcome, head := true, None, None;
      var next := NextRequestHead(first);
      ValidIsCore();
      found := book;
      ContinuesItself(book);
      if next.CleanEnd? {
        outcome := Some(ConnCompleted);
        return;
      }
      if next.Malformed? {
        outcome := Some(ConnReset);
        return;
      }
      if next.Waiting? {
        return;
      }
      OpenedMeans(next.head);
      if !Routable(next.head) {
        outcome := Some(ConnReset);
        return;
      }
      if probes == [] {
        return;
      }
      var probe := probes[0];
      probes := probes[1..];
      ghost var inputs1 := inputs;
      over, outcome := Answer(next.head, probe);
      WithinLater(inputs0, inputs1, inputs);
      if over {
        ExplainedBefore(outcome, inputs1, io0, inputs0, io0);
      }
      head := Some(next.head);
    }

    /** The whole connection: every request is routed on its own, until the
        client leaves, an exchange ends the connection, or the run ends (`None`).
        `heads` are the routable requests, one probe each, in order: one whose
        backend is there was published, head first, and of any other nothing was.
        The only other request there can be is a last one, unroutable or without a
        probe to come. */
    method HandleConnection() returns (outcome: Option<ConnOutcome>, ghost heads: seq<Event>)
      requires Valid() && Progressing(parser) && progress == Fresh()
      modifies this
      ensures Core()
      ensures Explained(outcome, old(inputs), old(io))
      ensures outcome == None ==> AtRest() || |book.history| > old(|book.history|) + |heads|
      ensures Ups() == old(Ups())
      ensures Handled(book, old(book.history), heads, old(probes), probes, outcome, false in old(io))
    {
      ghost var h0, probes0 := book.history, probes;
      ValidIsCore();
      WithinItself(inputs);
      WithinItself(io);
      NothingRouted(book, probes);
      hide Valid, Core, Explained, Within, InStep, Handled, RoundDone, Ups, AtRest;
      var first := true;
      heads := [];
      while true
        invariant Valid() && progress.end == Fine
        invariant Within(inputs, old(inputs)) && Within(io, old(io))
        invariant Ups() == old(Ups())
        invariant InStep(book, h0, heads, probes0, probes)
        decreases |probes|
      {
        ghost var book0, probes1, inputs1, io1 := book, probes, inputs, io;
        var over;
        ghost var head, found;
        over, outcome, head, found := Round(first);
        WithinLater(old(inputs), inputs1, inputs);
        WithinLater(old(io), io1, io);
        FailsLater(old(io), io1);
        RoundKeeps(book0, found, book, h0, heads, probes0, probes1, probes, head, outcome, false in io1, false in old(io));
        heads := heads + if head.Some? then [head.value] else [];
        first := false;
        if over {
          ExplainedBefore(outcome, inputs1, io1, old(inputs), old(io));
          return;
        }
      }
    }
  }

  lemma SoundSplits(cap: nat, b: Book, p: Progress)
    requires Sound(cap, b, p)
    ensures b.down == b.before + b.shown + b.cut && b.shown <= b.shown + b.cut
  {
  }

  lemma LawfulWires<S(!new)>(p: Parser<S>, s: S)
    requires Lawful(p)
    ensures Wires(Project(p.emitted(s), Responder)) <= p.accepted(s, Responder)
  {
    assert RawOk(p, s, Responder);
  }

  lemma LawfulRaw<S(!new)>(p: Parser<S>, s: S)
    requires Lawful(p) && p.tunnelled(s) && Drained(p, s)
    ensures Wires(Project(p.emitted(s), Initiator)) + p.residue(s, Initiator) == p.accepted(s, Initiator)
    ensures Wires(Project(p.emitted(s), Responder)) + p.residue(s, Responder) == p.accepted(s, Responder)
  {
    assert RawOk(p, s, Initiator) && RawOk(p, s, Responder);
  }

  lemma LawfulSwitch<S(!new)>(p: Parser<S>, s: S)
    requires Lawful(p) && SwitchProtocols in p.emitted(s)
    ensures p.tunnelled(s)
  {
    assert SwitchOk(p, s);
  }

  lemma LawfulFraming<S(!new)>(p: Parser<S>, s: S)
    requires Lawful(p)
    ensures WellFramed(Project(p.emitted(s), Initiator))
  {
    assert FramingOk(p, s);
  }
}

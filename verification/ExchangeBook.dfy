/** The books of a multiroute connection: which parser events were acted on,
    what was published for each request and what was shown to the client. */
module ExchangeBook {
  import opened Streams
  import opened HttpParser
  import opened RequestLog
  import Text

  datatype ExchangeEnd = Fine | Timeout | TooSlow | Truncated | Poisoned | BackendGone | DrainDeadline

  /** The control state of one exchange. */
  datatype Progress = Progress(
    requestDone: bool, responseDone: bool, switched: bool, keepAlive: bool,
    end: ExchangeEnd, bytesWritten: nat, errorPage: bool)

  function Fresh(): Progress {
    Progress(false, false, false, true, Fine, 0, false)
  }

  /** `up` and `down` are the client-side and backend-side events acted on since
      the connection began; `history` the samples published, request by request;
      `before`, `shown` and `cut` split `down` into what earlier exchanges acted
      on, what this one wrote, and the event a truncation cut off. */
  datatype Book = Book(
    up: seq<Event>, down: seq<Event>, history: seq<seq<Bytes>>,
    before: seq<Event>, shown: seq<Event>, cut: seq<Event>)
  {
    function Skip(e: Event): Book {
      this.(up := up + Only(e, Initiator), down := down + Only(e, Responder))
    }

    function Open(head: Event): Book {
      this.(up := up + [head], history := history + [[]])
    }

    function Begin(head: Event): Book
      requires history != []
    {
      Book(up, down, Publish(history, head.Wire()), down, [], [])
    }

    function Send(e: Event): Book
      requires history != []
    {
      Skip(e).(history := Publish(history, e.Wire()))
    }

    function Show(e: Event): Book {
      Skip(e).(shown := shown + [e])
    }

    function Cut(e: Event): Book {
      Skip(e).(cut := [e])
    }
  }

  /** Some `Connection` header value lists `option`, per section 7.6.1 of RFC 9110. */
  predicate Names(values: seq<Option<string>>, option: string) {
    exists k :: 0 <= k < |values| && values[k].Some? && Lists(values[k].value, option)
  }

  predicate Listed(tokens: seq<string>, option: string) {
    exists token :: token in tokens && Text.Lower(Text.Trim(token)) == option
  }

  predicate Lists(value: string, option: string) {
    Listed(Text.Split(value, ','), option)
  }

  /** The backend announces it will close after this response: sections 9.3 and
      9.6 of RFC 9112, or a body that only the close delimits. */
  predicate WantsClose(head: Event)
    requires head.ResponseHead?
  {
    || head.framing == UntilClose
    || Names(head.connection, "close")
    || (head.version == Http10 && !Names(head.connection, "keep-alive"))
  }

  /** `token` is `option` in any case, with blanks around it or not. */
  ghost predicate Spells(token: string, option: string) {
    exists before, word, after ::
      token == before + word + after && Text.Blank(before) && Text.Blank(after) && Text.Lower(word) == option
  }

  ghost predicate SomeSpells(tokens: seq<string>, option: string) {
    exists k :: 0 <= k < |tokens| && Spells(tokens[k], option)
  }

  lemma SpellsExactly(token: string, option: string)
    requires option != "" && !Text.IsSpace(option[0]) && !Text.IsSpace(option[|option| - 1])
    ensures Spells(token, option) <==> Text.Lower(Text.Trim(token)) == option
  {
    if Spells(token, option) {
      var before, word, after :| token == before + word + after && Text.Blank(before) && Text.Blank(after)
                                 && Text.Lower(word) == option;
      assert option[0] == Text.LowerChar(word[0]) && option[|option| - 1] == Text.LowerChar(word[|word| - 1]);
      Text.TrimPadded(before, word, after);
    }
    if Text.Lower(Text.Trim(token)) == option {
      var before, after := Text.TrimExact(token);
      assert forall c :: c in before ==> c in before + after;
      assert forall c :: c in after ==> c in before + after;
      assert Text.Blank(before) && Text.Blank(after);
    }
  }

  /** A header value lists an option exactly when one of its comma-separated
      tokens spells it. */
  lemma ListsExactly(tokens: seq<string>, option: string)
    requires tokens != [] && forall token :: token in tokens ==> ',' !in token
    requires option != "" && !Text.IsSpace(option[0]) && !Text.IsSpace(option[|option| - 1])
    ensures Lists(Text.Join(tokens, ','), option) <==> SomeSpells(tokens, option)
  {
    Text.SplitJoin(tokens, ',');
    forall token | token in tokens ensures Spells(token, option) <==> Text.Lower(Text.Trim(token)) == option {
      SpellsExactly(token, option);
    }
    hide Spells, Text.Lower, Text.Trim, Text.Join, Text.Split;
    assert forall k :: 0 <= k < |tokens| ==> tokens[k] in tokens;
  }

  /** One value of the `Connection` header, and when its response closes the
      connection: always if only the close delimits its body; if it lists close;
      and under HTTP/1.0 unless it lists keep-alive. */
  lemma ClosesExactly(head: Event, tokens: seq<string>)
    requires head.ResponseHead? && tokens != [] && forall token :: token in tokens ==> ',' !in token
    requires head.connection == [Some(Text.Join(tokens, ','))]
    ensures WantsClose(head) <==>
            || head.framing == UntilClose
            || SomeSpells(tokens, "close")
            || (head.version == Http10 && !SomeSpells(tokens, "keep-alive"))
  {
    hide Lists, SomeSpells, Names, Text.Join, Text.IsSpace;
    OptionEnds();
    ListsExactly(tokens, "close");
    ListsExactly(tokens, "keep-alive");
    OneValue(head.connection, "close");
    OneValue(head.connection, "keep-alive");
  }

  lemma OptionEnds()
    ensures !Text.IsSpace("close"[0]) && !Text.IsSpace("close"[|"close"| - 1])
    ensures !Text.IsSpace("keep-alive"[0]) && !Text.IsSpace("keep-alive"[|"keep-alive"| - 1])
  {
    assert "close"[4] == 'e' && |"close"| == 5 && "keep-alive"[9] == 'e' && |"keep-alive"| == 10;
  }

  lemma OneValue(values: seq<Option<string>>, option: string)
    requires |values| == 1 && values[0].Some?
    ensures Names(values, option) <==> Lists(values[0].value, option)
  {
    hide Lists;
  }

  predicate FinalClose(e: Event) {
    e.ResponseHead? && !e.interim && WantsClose(e)
  }

  ghost predicate NoneCloses(shown: seq<Event>) {
    forall e :: e in shown ==> !FinalClose(e)
  }

  /** Each body or trailers event fits under the cap together with all before it. */
  ghost predicate UnderCap(shown: seq<Event>, cap: nat) {
    shown != [] ==>
      && UnderCap(shown[..|shown| - 1], cap)
      && (Last(shown).Body? || Last(shown).Trailers? ==> |Wires(shown)| <= cap)
  }

  /** Events acted on and events queued account for every event emitted, and
      every published sample belongs to its own request. */
  ghost predicate Linked(emitted: seq<Event>, events: seq<Event>, b: Book) {
    && Accounted(emitted, events, b.up, b.down)
    && Isolated(b.history, b.up)
  }

  /** What is left of that once an I/O error has dropped the queue. */
  ghost predicate Traced(emitted: seq<Event>, b: Book) {
    && b.up <= Project(emitted, Initiator)
    && Isolated(b.history, b.up)
  }

  /** A body or trailers event was cut off: it would have passed the cap. */
  ghost predicate OverCap(cut: seq<Event>, written: nat, cap: nat) {
    |cut| == 1 && (cut[0].Body? || cut[0].Trailers?) && written + |cut[0].Wire()| > cap
  }

  /** An end that a page explains to the client. */
  predicate Explicable(end: ExchangeEnd) {
    end == Poisoned || end == BackendGone || end == Timeout
  }

  /** What one exchange keeps: everything taken of its request is published,
      everything taken of the response is shown, up to the size cap; the
      connection is to be kept exactly while nothing went wrong and no final head
      asked to close. */
  ghost predicate Sound(cap: nat, b: Book, p: Progress) {
    && b.up != []
    && UpToDate(b.history, b.up)
    && p.requestDone == Last(b.up).End?
    && b.down == b.before + b.shown + b.cut
    && (if p.end == Truncated then OverCap(b.cut, p.bytesWritten, cap) else b.cut == [])
    && p.bytesWritten == |Wires(b.shown)|
    && UnderCap(b.shown, cap)
    && (p.keepAlive <==> p.end == Fine && NoneCloses(b.shown))
    && (p.responseDone ==> b.shown != [] && Last(b.shown) == End(Responder))
    && (p.errorPage <==> Explicable(p.end) && p.bytesWritten == 0)
  }

  /** In the middle of acting on events, with next-request events set aside. */
  ghost predicate Acting(cap: nat, emitted: seq<Event>, carry: seq<Event>, events: seq<Event>, b: Book, p: Progress) {
    && Sound(cap, b, p)
    && Accounted(emitted, carry + events, b.up, b.down)
    && (forall c :: c in carry ==> c.SideOf() == Some(Initiator))
    && (!p.requestDone ==> carry == [])
    && WellFramed(Project(emitted, Initiator))
  }

  // --- Transitions between exchanges ---
  lemma SkipStep(emitted: seq<Event>, events: seq<Event>, b: Book)
    requires Linked(emitted, events, b) && events != [] && !events[0].RequestHead?
    ensures Linked(emitted, events[1..], b.Skip(events[0]))
  {
    TakeFront(emitted, events, b.up, b.down);
    TakeUnsent(b.history, b.up, events[0]);
  }

  lemma OpenStep(emitted: seq<Event>, events: seq<Event>, b: Book)
    requires Linked(emitted, events, b) && events != [] && events[0].RequestHead?
    ensures Linked(emitted, events[1..], b.Open(events[0]))
    ensures Opened(b.Open(events[0]), events[0])
  {
    TakeFront(emitted, events, b.up, b.down);
    TakeHead(b.history, b.up, events[0]);
    assert b.down + Only(events[0], Responder) == b.down;
  }

  /** Nothing is forgotten: the client's events acted on, and what was published
      for each request, only grow, and only the last request's samples do. */
  ghost predicate Continues(b: Book, b': Book) {
    b.up <= b'.up && Longer(b.history, b'.history)
  }

  ghost predicate Longer(h: seq<seq<Bytes>>, h': seq<seq<Bytes>>) {
    && |h'| == |h|
    && (h != [] ==> h'[..|h| - 1] == h[..|h| - 1] && Last(h) <= Last(h'))
  }

  lemma ContinuesItself(b: Book)
    ensures Continues(b, b)
  {
  }

  lemma ContinuesLater(a: Book, b: Book, c: Book)
    requires Continues(a, b) && Continues(b, c)
    ensures Continues(a, c)
  {
  }

  lemma ContinuesBySkipping(b: Book, b': Book)
    requires b.up <= b'.up && b'.history == b.history
    ensures Continues(b, b')
  {
  }

  lemma ContinuesBySkip(b: Book, e: Event)
    ensures Continues(b, b.Skip(e))
  {
  }

  lemma ContinuesBySend(b: Book, e: Event)
    requires b.history != []
    ensures Continues(b, b.Send(e))
  {
  }

  /** A request was just opened: nothing has been published for it. */
  ghost predicate Opened(b: Book, head: Event) {
    && head.RequestHead?
    && b.up != [] && Last(b.up) == head
    && b.history != [] && Last(b.history) == []
    && Requests(b.up) != [] && Last(Requests(b.up)) == [head]
  }

  lemma QueueStep(emitted: seq<Event>, events: seq<Event>, b: Book, e: Event)
    requires Linked(emitted, events, b)
    ensures Linked(emitted + [e], events + [e], b)
  {
    QueueEvent(emitted, events, b.up, b.down, e);
  }

  lemma LinkedIsTraced(emitted: seq<Event>, events: seq<Event>, b: Book)
    requires Linked(emitted, events, b)
    ensures Traced(emitted, b)
  {
  }

  /** The head was the first sample published for the last request. */
  ghost predicate HeadOut(b: Book, head: Event) {
    b.history != [] && Last(b.history) != [] && Last(b.history)[0] == head.Wire()
  }

  lemma HeadStaysOut(b: Book, b': Book, head: Event)
    requires Continues(b, b') && HeadOut(b, head)
    ensures HeadOut(b', head)
  {
  }

  /** The exchange begins once its head is published. */
  lemma BeginStep(cap: nat, emitted: seq<Event>, events: seq<Event>, b: Book, head: Event)
    requires Linked(emitted, events, b) && Opened(b, head)
    ensures b.history != []
    ensures Linked(emitted, events, b.Begin(head))
    ensures Traced(emitted, b.Begin(head))
    ensures Sound(cap, b.Begin(head), Fresh())
    ensures Continues(b, b.Begin(head)) && HeadOut(b.Begin(head), head)
  {
    SendHead(b.history, b.up, head);
  }

  // --- Transitions within an exchange ---

  lemma ActingFromLinked(cap: nat, emitted: seq<Event>, events: seq<Event>, b: Book, p: Progress)
    requires Linked(emitted, events, b) && Sound(cap, b, p) && WellFramed(Project(emitted, Initiator))
    ensures Acting(cap, emitted, [], events, b, p)
  {
    hide Sound, WellFramed, Isolated, Project;
    assert [] + events == events;
  }

  lemma LinkedFromActing(cap: nat, emitted: seq<Event>, carry: seq<Event>, events: seq<Event>, b: Book, p: Progress)
    requires Acting(cap, emitted, carry, events, b, p)
    ensures Linked(emitted, carry + events, b) && Sound(cap, b, p)
  {
  }

  /** The front event, taken past the deferred ones. */
  lemma PassStep(cap: nat, emitted: seq<Event>, carry: seq<Event>, events: seq<Event>, b: Book, p: Progress)
    requires Acting(cap, emitted, carry, events, b, p) && events != []
    requires events[0].SideOf() == Some(Initiator) ==> !p.requestDone
    ensures Accounted(emitted, carry + events[1..], b.Skip(events[0]).up, b.Skip(events[0]).down)
    ensures b.Skip(events[0]).up <= Project(emitted, Initiator)
  {
    TakePast(emitted, carry, events, b.up, b.down);
  }

  /** Until the request is done, the client events are the request's own. */
  lemma OwnEvents(cap: nat, emitted: seq<Event>, carry: seq<Event>, events: seq<Event>, b: Book, p: Progress)
    requires Acting(cap, emitted, carry, events, b, p) && events != [] && !p.requestDone
    ensures !events[0].RequestHead?
  {
    assert carry + events == events;
    NextInRequest(emitted, events, b.up, b.down);
  }

  lemma DeferStep(cap: nat, emitted: seq<Event>, carry: seq<Event>, events: seq<Event>, b: Book, p: Progress)
    requires Acting(cap, emitted, carry, events, b, p) && events != []
    requires p.requestDone && events[0].SideOf() == Some(Initiator)
    ensures Acting(cap, emitted, carry + [events[0]], events[1..], b, p)
  {
    hide Sound, Project, WellFramed;
    assert (carry + [events[0]]) + events[1..] == carry + events;
  }

  lemma SendStep(cap: nat, emitted: seq<Event>, carry: seq<Event>, events: seq<Event>, b: Book, p: Progress)
    requires Acting(cap, emitted, carry, events, b, p) && events != [] && !p.requestDone
    requires events[0].SideOf() == Some(Initiator) && !events[0].End?
    ensures b.history != [] && Acting(cap, emitted, carry, events[1..], b.Send(events[0]), p)
    ensures Traced(emitted, b.Skip(events[0]))
  {
    hide Wires, UnderCap, Project, Requests, Samples, FinalClose;
    var e := events[0];
    OwnEvents(cap, emitted, carry, events, b, p);
    PassStep(cap, emitted, carry, events, b, p);
    TakeSent(b.history, b.up, e);
    TakeUnsent(b.history, b.up, e);
    assert b.down + Only(e, Responder) == b.down;
  }

  lemma EndStep(cap: nat, emitted: seq<Event>, carry: seq<Event>, events: seq<Event>, b: Book, p: Progress)
    requires Acting(cap, emitted, carry, events, b, p) && events != [] && !p.requestDone
    requires events[0] == End(Initiator)
    ensures Acting(cap, emitted, carry, events[1..], b.Skip(events[0]), p.(requestDone := true))
  {
    PassStep(cap, emitted, carry, events, b, p);
    TakeUnsent(b.history, b.up, events[0]);
    assert b.down + Only(events[0], Responder) == b.down;
  }

  lemma CutStep(cap: nat, emitted: seq<Event>, carry: seq<Event>, events: seq<Event>, b: Book, p: Progress)
    requires Acting(cap, emitted, carry, events, b, p) && events != [] && p.end == Fine
    requires events[0].SideOf() == Some(Responder) && OverCap([events[0]], p.bytesWritten, cap)
    ensures Acting(cap, emitted, carry, events[1..], b.Cut(events[0]), p.(keepAlive := false, end := Truncated))
  {
    PassStep(cap, emitted, carry, events, b, p);
    assert b.up + Only(events[0], Initiator) == b.up;
    assert b.shown + b.cut == b.shown;
  }

  /** The progress after showing `e`, which may announce a close. */
  function AfterShow(p: Progress, e: Event, closing: bool): Progress {
    p.(bytesWritten := p.bytesWritten + |e.Wire()|,
       keepAlive := p.keepAlive && !closing,
       responseDone := e.End?)
  }

  lemma CloseSnoc(shown: seq<Event>, e: Event)
    ensures NoneCloses(shown + [e]) <==> NoneCloses(shown) && !FinalClose(e)
  {
    hide FinalClose;
    assert forall x :: x in shown + [e] <==> x in shown || x == e;
  }

  lemma ShowSound(cap: nat, b: Book, p: Progress, e: Event)
    requires Sound(cap, b, p) && p.end == Fine && e.SideOf() == Some(Responder)
    requires e.Body? || e.Trailers? ==> p.bytesWritten + |e.Wire()| <= cap
    ensures Sound(cap, b.Show(e), AfterShow(p, e, FinalClose(e)))
  {
    WiresSnoc(b.shown, e);
    hide UpToDate, WantsClose, Wires;
    assert b.up + Only(e, Initiator) == b.up;
    assert (b.shown + [e])[..|b.shown|] == b.shown;
    assert b.before + (b.shown + [e]) + b.cut == b.before + b.shown + b.cut + [e];
    CloseSnoc(b.shown, e);
  }

  lemma ShowStep(cap: nat, emitted: seq<Event>, carry: seq<Event>, events: seq<Event>, b: Book, p: Progress)
    requires Acting(cap, emitted, carry, events, b, p) && events != [] && p.end == Fine
    requires events[0].SideOf() == Some(Responder)
    requires events[0].Body? || events[0].Trailers? ==> p.bytesWritten + |events[0].Wire()| <= cap
    ensures Acting(cap, emitted, carry, events[1..], b.Show(events[0]), AfterShow(p, events[0], FinalClose(events[0])))
    ensures Traced(emitted, b.Skip(events[0]))
  {
    var e := events[0];
    PassStep(cap, emitted, carry, events, b, p);
    ShowSound(cap, b, p, e);
    assert Isolated(b.history, b.up);
    hide Sound, Accounted, Isolated, Project, WellFramed;
    assert b.up + Only(e, Initiator) == b.up;
  }

  lemma PassSwitch(cap: nat, emitted: seq<Event>, carry: seq<Event>, events: seq<Event>, b: Book, p: Progress)
    requires Acting(cap, emitted, carry, events, b, p) && events != [] && events[0] == SwitchProtocols
    ensures Acting(cap, emitted, carry, events[1..], b, p.(switched := true))
    ensures SwitchProtocols in emitted
  {
    PassStep(cap, emitted, carry, events, b, p);
    assert b.up + Only(events[0], Initiator) == b.up && b.down + Only(events[0], Responder) == b.down;
    assert events[0] in carry + events;
  }

  // --- What the books say ---

  /** Published so far for the open request: exactly its events' samples, in
      order; and once the request is done, all of them up to its end. */
  lemma OpenRequest(cap: nat, b: Book, p: Progress)
    requires Sound(cap, b, p)
    ensures Requests(b.up) != [] && b.history != []
    ensures Last(b.history) == Samples(Last(Requests(b.up)))
    ensures Last(Requests(b.up)) != []
    ensures p.requestDone <==> Last(Last(Requests(b.up))).End?
  {
    OpenRequestEnd(b.up);
  }

  /** A connection kept alive: the response is complete and whole, no error page
      went out, and no final head asked to close. */
  lemma KeptAlive(cap: nat, b: Book, p: Progress)
    requires Sound(cap, b, p) && p.keepAlive && p.responseDone
    ensures p.end == Fine && !p.errorPage && b.cut == []
    ensures b.down == b.before + b.shown && b.shown != [] && Last(b.shown) == End(Responder)
    ensures forall e :: e in b.shown && e.ResponseHead? && !e.interim ==> !WantsClose(e)
  {
    forall e | e in b.shown && e.ResponseHead? && !e.interim ensures !WantsClose(e) {
      assert !FinalClose(e);
    }
  }

  /** No response, of any sequence of exchanges, passes the cap with a body or
      trailers event. */
  lemma {:induction false} CapHolds(shown: seq<Event>, cap: nat, k: nat)
    requires UnderCap(shown, cap) && k < |shown| && (shown[k].Body? || shown[k].Trailers?)
    ensures |Wires(shown[..k + 1])| <= cap
  {
    if k == |shown| - 1 {
      assert shown[..k + 1] == shown;
    } else {
      var init := shown[..|shown| - 1];
      CapHolds(init, cap, k);
      assert init[..k + 1] == shown[..k + 1];
    }
  }

  /** Ending an exchange early, for any reason but the size cap. */
  lemma StopStep(cap: nat, b: Book, p: Progress, end: ExchangeEnd, page: bool)
    requires Sound(cap, b, p) && p.end == Fine && end != Fine && end != Truncated && page == Explicable(end)
    ensures Sound(cap, b, p.(keepAlive := false, end := end, errorPage := page && p.bytesWritten == 0))
  {
  }

  /** Request isolation over a whole connection: whatever the parser emits in
      the end, what was published for the k-th request is a prefix of that
      request's own samples, none of them empty. */
  lemma RequestIsolation(emitted: seq<Event>, b: Book, k: nat)
    requires Traced(emitted, b) && k < |b.history|
    requires forall e :: e in emitted ==> e.Framed()
    ensures var requests := Requests(Project(emitted, Initiator));
            && k < |requests|
            && b.history[k] <= Samples(requests[k])
            && forall s :: s in b.history[k] ==> s != []
  {
    var log := Project(emitted, Initiator);
    IsolatedLater(b.history, b.up, log);
    var request := Requests(log)[k];
    forall e | e in request ensures e.Framed() && e.SideOf() == Some(Initiator) {
      RequestMembers(log, k, e);
      ProjectMembers(emitted, Initiator, e);
    }
    SamplesNonEmpty(request);
    forall s | s in b.history[k] ensures s != [] {
      var i :| 0 <= i < |b.history[k]| && b.history[k][i] == s;
      assert s == Samples(request)[i] && Samples(request)[i] in Samples(request);
    }
  }

  /** After a protocol switch: the client's byte stream from the start of the
      open request on is what its exchange published, then the client events
      still queued, then what the splice published (and lost).  So the splice
      forwards exactly the rest of the stream if and only if no queued client
      event carries bytes. */
  lemma SwitchForwardsRest(emitted: seq<Event>, events: seq<Event>, cap: nat, b: Book, p: Progress,
                           clientRead: Bytes, tunnelUp: Bytes, lost: Bytes)
    requires Linked(emitted, events, b) && Sound(cap, b, p)
    requires clientRead == Wires(Project(emitted, Initiator)) + tunnelUp + lost
    ensures var start := |Wires(Earlier(b.up))|;
            var queued := Wires(Project(events, Initiator));
            && start <= |clientRead|
            && clientRead[start..] == Flat(Last(b.history)) + queued + tunnelUp + lost
            && (clientRead[start..] == Flat(Last(b.history)) + tunnelUp + lost <==> queued == [])
  {
    OpenRequest(cap, b, p);
    hide Isolated, UnderCap, FinalClose, Requests, Samples;
    var request := Last(Requests(b.up));
    OpenRequestIsSuffix(b.up);
    SamplesAreWires(request);
    WiresConcat(Earlier(b.up), request);
    WiresConcat(b.up, Project(events, Initiator));
    CutFrom(Wires(Earlier(b.up)), Wires(request), Wires(Project(events, Initiator)), tunnelUp, lost, clientRead);
  }

  lemma CutFrom(start: Bytes, sent: Bytes, queued: Bytes, up: Bytes, lost: Bytes, all: Bytes)
    requires all == start + sent + queued + up + lost
    ensures all[|start|..] == sent + queued + up + lost
    ensures all[|start|..] == sent + up + lost <==> queued == []
  {
    assert all == start + (sent + queued + up + lost);
    if all[|start|..] == sent + up + lost {
      assert |sent + queued + up + lost| == |sent + up + lost|;
    }
    if queued == [] {
      assert sent + queued == sent;
    }
  }

  // --- Where the response shown came from ---

  lemma Regrouped<T>(a: seq<T>, b: seq<T>, c: seq<T>, d: seq<T>)
    ensures a + b + c + d == a + ((b + c) + d)
    ensures a + b + c == a + (b + c)
  {
  }

  /** What an exchange shows is, event by event, what was queued from the backend
      when it began and then what the parser framed since. */
  lemma ShownEvents(emitted: seq<Event>, events: seq<Event>, b: Book,
                    emitted': seq<Event>, events': seq<Event>, b': Book)
    requires Linked(emitted, events, b) && Linked(emitted', events', b')
    requires emitted <= emitted' && b'.before == b.down && b'.down == b'.before + b'.shown + b'.cut
    ensures b'.shown + b'.cut <= Project(events, Responder) + Project(emitted'[|emitted|..], Responder)
  {
    var acted, rest, more := b'.shown + b'.cut, Project(events', Responder), emitted'[|emitted|..];
    hide Isolated, Project;
    assert emitted' == emitted + more;
    ProjectConcat(emitted, more, Responder);
    Regrouped(b.down, b'.shown, b'.cut, rest);
    Regrouped(b.down, Project(events, Responder), Project(more, Responder), []);
    SkipCommon(b.down, acted + rest, Project(events, Responder) + Project(more, Responder));
  }

  /** And byte by byte, if none were lost, it is what had been accepted but not
      acted on when it began and then its own payloads. */
  lemma ShownBytes(b: Book, accepted: Bytes, emitted': seq<Event>, events': seq<Event>, b': Book,
                   accepted': Bytes, pending': Bytes, payloads: Bytes)
    requires Linked(emitted', events', b')
    requires b'.before == b.down && b'.down == b'.before + b'.shown + b'.cut
    requires Wires(b.down) <= accepted && Wires(Project(emitted', Responder)) <= accepted'
    requires accepted' + pending' == accepted + payloads
    ensures Wires(b'.shown) <= accepted[|Wires(b.down)|..] + payloads
  {
    ShownWires(emitted', events', b');
    hide Linked, Wires, Project;
    PrefixPast(Wires(b.down), Wires(b'.shown), accepted, accepted', pending', payloads);
  }

  lemma ShownWires(emitted: seq<Event>, events: seq<Event>, b: Book)
    requires Linked(emitted, events, b) && b.down == b.before + b.shown + b.cut
    ensures Wires(b.before) + Wires(b.shown) <= Wires(Project(emitted, Responder))
  {
    var rest := b.cut + Project(events, Responder);
    hide Isolated, Wires, Project;
    assert Project(emitted, Responder) == (b.before + b.shown) + rest;
    WiresConcat(b.before, b.shown);
    WiresConcat(b.before + b.shown, rest);
  }

  lemma PrefixPast(w: Bytes, shown: Bytes, accepted: Bytes, accepted': Bytes, pending': Bytes, payloads: Bytes)
    requires w <= accepted && w + shown <= accepted' && accepted' + pending' == accepted + payloads
    ensures shown <= accepted[|w|..] + payloads
  {
    assert accepted + payloads == w + (accepted[|w|..] + payloads);
    assert w + shown <= accepted' + pending';
    SkipPrefix(w, shown, accepted[|w|..] + payloads);
  }

  /** The acted-on events of a side carry bytes accepted from it. */
  lemma ActedIsAccepted(emitted: seq<Event>, events: seq<Event>, b: Book, accepted: Bytes)
    requires Linked(emitted, events, b) && Wires(Project(emitted, Responder)) <= accepted
    ensures Wires(b.down) <= accepted
  {
    WiresConcat(b.down, Project(events, Responder));
  }

  lemma SkipCommon<T>(a: seq<T>, b: seq<T>, c: seq<T>)
    requires a + b == a + c
    ensures b == c
  {
    assert b == (a + b)[|a|..] && c == (a + c)[|a|..];
  }

  lemma SkipPrefix<T>(a: seq<T>, b: seq<T>, c: seq<T>)
    requires a + b <= a + c
    ensures b <= c
  {
    assert b == (a + b)[|a|..];
    assert c == (a + c)[|a|..];
  }
}

/** Reading a request head off a socket, with a replay buffer
    (src/import/connection.rs). */
module HeadReader {
  import opened Streams
  import opened HttpParser
  import Dns

  /** How the socket goes on once it has no more bytes. */
  datatype Ending = Stalls | Closes | Fails

  datatype HeadResult =
    | Parsed(key: string, replay: Bytes)
    | TimedOut(consumed: Bytes)
    | Closed
    | ReadFailed
    | TooLarge
    | Unroutable
    | Refused

  /** What a byte prefix amounts to: more is needed, a head, or nothing routable. */
  datatype Verdict = Undecided | HeadAt(head: Event) | Bad

  type Judge = Bytes -> Verdict

  const READ_SIZE: nat := 4096

  ghost predicate ReadsOf(chunks: seq<Bytes>) {
    forall c :: c in chunks ==> 0 < |c| <= READ_SIZE
  }

  /** The cap, but one byte is always read. */
  function Cap(max: nat): nat {
    if max == 0 then 1 else max
  }

  /** What is replayed is below the cap plus one read, and what a timeout hands
      on is below the cap. */
  predicate Bounded(r: HeadResult, max: nat) {
    && (r.Parsed? ==> |r.replay| < Cap(max) + READ_SIZE)
    && (r.TimedOut? ==> |r.consumed| < max || r.consumed == [])
  }

  function FirstHead(events: seq<Event>): Option<Event> {
    if events == [] then None
    else if FirstHead(events[..|events| - 1]).Some? then FirstHead(events[..|events| - 1])
    else if events[|events| - 1].RequestHead? then Some(events[|events| - 1])
    else None
  }

  lemma FirstHeadSnoc(events: seq<Event>, e: Event)
    ensures FirstHead(events + [e]) ==
            if FirstHead(events).Some? then FirstHead(events) else if e.RequestHead? then Some(e) else None
  {
    assert (events + [e])[..|events|] == events;
  }

  /** It is the first request head there is. */
  lemma {:induction false} FirstHeadExact(events: seq<Event>, k: nat)
    requires k < |events|
    ensures FirstHead(events) == Some(events[k]) ==> events[k].RequestHead?
    ensures events[k].RequestHead? && (forall j :: 0 <= j < k ==> !events[j].RequestHead?) ==>
              FirstHead(events) == Some(events[k])
    ensures FirstHead(events).None? ==> !events[k].RequestHead?
  {
    var init := events[..|events| - 1];
    if k < |init| {
      FirstHeadExact(init, k);
    } else {
      NoHeadYet(init);
    }
    IsHead(init);
  }

  lemma {:induction false} NoHeadYet(events: seq<Event>)
    ensures (forall e :: e in events ==> !e.RequestHead?) ==> FirstHead(events).None?
  {
    if events != [] {
      NoHeadYet(events[..|events| - 1]);
    }
  }

  lemma {:induction false} IsHead(events: seq<Event>)
    ensures FirstHead(events).Some? ==> FirstHead(events).value.RequestHead?
  {
    if events != [] {
      IsHead(events[..|events| - 1]);
    }
  }

  function Judged<S>(p: Parser<S>, s: S): Verdict {
    match FirstHead(p.emitted(s))
    case Some(head) => HeadAt(head)
    case None => if p.poison(s).Some? || p.tunnelled(s) then Bad else Undecided
  }

  /** The first head, or the refusal, depends only on the bytes accepted, and an
      undecided parser does not refuse bytes. */
  ghost predicate DecidesOk<S>(p: Parser<S>, judge: Judge, s: S) {
    && (FirstHead(p.emitted(s)).Some? ==> judge(p.accepted(s, Initiator)) == Judged(p, s))
    && (Drained(p, s) ==> judge(p.accepted(s, Initiator)) == Judged(p, s))
    && (judge(p.accepted(s, Initiator)).Undecided? ==>
          forall b: Bytes :: b != [] ==> p.push(s, Initiator, b).0 > 0)
  }

  ghost predicate Stable(judge: Judge) {
    forall a: Bytes, b: Bytes :: a <= b && !judge(a).Undecided? ==> judge(b) == judge(a)
  }

  ghost predicate Decides<S(!new)>(p: Parser<S>, judge: Judge) {
    Stable(judge) && forall s: S :: DecidesOk(p, judge, s)
  }

  function RouteHead(head: Event, replay: Bytes): HeadResult {
    if !head.RequestHead? || head.authority.None? then Unroutable
    else match Dns.RoutingKey(head.authority.value)
      case Key(key) => Parsed(key, replay)
      case _ => Unroutable
  }

  function AtEnd(ending: Ending, consumed: Bytes): HeadResult {
    match ending
    case Stalls => TimedOut(consumed)
    case Closes => Closed
    case Fails => ReadFailed
  }

  /** The reader seen from outside: judge the bytes so far after every read. */
  function Scan(judge: Judge, max: nat, chunks: seq<Bytes>, ending: Ending, buffer: Bytes): HeadResult
    decreases |chunks|
  {
    if chunks == [] then AtEnd(ending, buffer)
    else
      var more := buffer + chunks[0];
      match judge(more)
      case HeadAt(head) => RouteHead(head, more)
      case Bad => Refused
      case Undecided => if |more| >= max then TooLarge else Scan(judge, max, chunks[1..], ending, more)
  }

  /** Prepend the refused tail to freshly read bytes. */
  function ConcatPending(pending: Bytes, chunk: Bytes): (joined: Bytes)
    ensures joined == pending + chunk
  {
    if pending == [] then chunk else pending + chunk
  }

  /** Offer bytes until they are all accepted or the parser refuses. */
  method Offer<S(!new)>(p: Parser<S>, s: S, bytes: Bytes, ghost judge: Judge) returns (t: S, tail: Bytes)
    requires Lawful(p)
    ensures p.accepted(t, Initiator) + tail == p.accepted(s, Initiator) + bytes
    ensures p.emitted(t) == p.emitted(s)
    ensures Decides(p, judge) && tail != [] ==> !judge(p.accepted(t, Initiator)).Undecided?
  {
    t, tail := s, bytes;
    while tail != []
      invariant p.accepted(t, Initiator) + tail == p.accepted(s, Initiator) + bytes
      invariant p.emitted(t) == p.emitted(s)
      decreases |tail|
    {
      assert PushOk(p, t, Initiator, tail);
      assert Decides(p, judge) ==> DecidesOk(p, judge, t);
      var (accepted, next) := p.push(t, Initiator, tail);
      t := next;
      tail := tail[accepted..];
      if accepted == 0 {
        assert Decides(p, judge) ==> !judge(p.accepted(t, Initiator)).Undecided?;
        break;
      }
    }
  }

  /** Drain the parser's events up to the first request head. */
  method DrainToHead<S(!new)>(p: Parser<S>, s: S) returns (t: S, verdict: Verdict)
    requires Lawful(p) && FirstHead(p.emitted(s)).None?
    ensures p.accepted(t, Initiator) == p.accepted(s, Initiator)
    ensures verdict == Judged(p, t)
    ensures verdict.HeadAt? || Drained(p, t)
  {
    t := s;
    while true
      invariant FirstHead(p.emitted(t)).None?
      invariant p.accepted(t, Initiator) == p.accepted(s, Initiator)
      decreases p.ready(t)
    {
      assert NextOk(p, t);
      var (event, next) := p.next(t);
      if event.None? {
        break;
      }
      FirstHeadSnoc(p.emitted(t), event.value);
      t := next;
      if event.value.RequestHead? {
        return t, HeadAt(event.value);
      }
    }
    verdict := if p.poison(t).Some? || p.tunnelled(t) then Bad else Undecided;
  }

  /** One read offered to the parser.  The refused tail survives to the next. */
  method Step<S(!new)>(p: Parser<S>, s: S, pending: Bytes, chunk: Bytes, ghost judge: Judge)
    returns (t: S, tail: Bytes, verdict: Verdict)
    requires Lawful(p)
    requires FirstHead(p.emitted(s)).None?
    ensures p.accepted(t, Initiator) + tail == p.accepted(s, Initiator) + pending + chunk
    ensures verdict == Judged(p, t)
    ensures Decides(p, judge) ==> judge(p.accepted(s, Initiator) + pending + chunk) == verdict
    ensures Decides(p, judge) && verdict.Undecided? ==> tail == []
  {
    ghost var all := p.accepted(s, Initiator) + pending + chunk;
    t, tail := Offer(p, s, ConcatPending(pending, chunk), judge);
    t, verdict := DrainToHead(p, t);
    if Decides(p, judge) {
      assert DecidesOk(p, judge, t);
      assert p.accepted(s, Initiator) + (pending + chunk) == all;
      assert p.accepted(t, Initiator) + tail == all;
      assert p.accepted(t, Initiator) <= all;
      if verdict.Undecided? {
        assert p.accepted(t, Initiator) == all;
      }
    }
  }

  /** What a result says: `head` is the first request head the parser framed,
      `refuses` that it takes no more of this stream, `bytes` what was read, and
      `all` that nothing was left to read. */
  ghost predicate Answers(r: HeadResult, head: Option<Event>, refuses: bool, bytes: Bytes, all: bool, max: nat,
                          ending: Ending)
  {
    match r
    case Parsed(key, replay) =>
      && head.Some? && head.value.RequestHead? && head.value.authority.Some?
      && Dns.RoutingKey(head.value.authority.value) == Dns.Key(key) && replay == bytes
    case Unroutable =>
      && head.Some? && head.value.RequestHead?
      && (head.value.authority.Some? ==> !Dns.RoutingKey(head.value.authority.value).Key?)
    case Refused => head.None? && refuses
    case TooLarge => head.None? && !refuses && |bytes| >= max
    case TimedOut(consumed) => head.None? && all && ending == Stalls && consumed == bytes
    case Closed => head.None? && all && ending == Closes
    case ReadFailed => head.None? && all && ending == Fails
  }

  lemma RouteAnswers(head: Event, bytes: Bytes, refuses: bool, all: bool, max: nat, ending: Ending)
    requires head.RequestHead?
    ensures Answers(RouteHead(head, bytes), Some(head), refuses, bytes, all, max, ending)
  {
  }

  lemma RefusalAnswers(r: HeadResult, refuses: bool, bytes: Bytes, all: bool, max: nat, ending: Ending)
    requires (r == Refused && refuses) || (r == TooLarge && !refuses && |bytes| >= max)
    ensures Answers(r, None, refuses, bytes, all, max, ending)
  {
  }

  lemma EndAnswers(bytes: Bytes, refuses: bool, max: nat, ending: Ending)
    ensures Answers(AtEnd(ending, bytes), None, refuses, bytes, true, max, ending)
  {
  }

  lemma ReadFits(max: nat, chunks: seq<Bytes>, i: nat, buffer: Bytes)
    requires i < |chunks|
    ensures ReadsOf(chunks) && (|buffer| < max || buffer == []) ==> |buffer + chunks[i]| < Cap(max) + READ_SIZE
  {
    assert chunks[i] in chunks;
  }

  /** Read until a head is framed.  The replay buffer is the reads so far,
      verbatim, and bounded, whatever the parser does; and with a parser whose
      verdict depends only on what it accepted, the whole reader is the scan.
      `last` is the parser in the end, after `n` reads. */
  method ReadHttpHead<S(!new)>(p: Parser<S>, initial: S, max: nat, chunks: seq<Bytes>, ending: Ending,
                               ghost judge: Judge)
    returns (r: HeadResult, ghost last: S, ghost n: nat)
    requires Lawful(p)
    requires p.accepted(initial, Initiator) == [] && FirstHead(p.emitted(initial)).None?
    ensures n <= |chunks| && p.accepted(last, Initiator) <= Flat(chunks[..n])
    ensures Answers(r, FirstHead(p.emitted(last)), p.poison(last).Some? || p.tunnelled(last), Flat(chunks[..n]),
                    n == |chunks|, max, ending)
    ensures r.Parsed? ==> exists j :: 0 < j <= |chunks| && r.replay == Flat(chunks[..j])
    ensures r.TimedOut? ==> r.consumed == Flat(chunks)
    ensures ReadsOf(chunks) ==> Bounded(r, max)
    ensures Decides(p, judge) ==> r == Scan(judge, max, chunks, ending, [])
  {
    hide ReadsOf, Lawful, Decides, Stable, FirstHead, Flat, Dns.RoutingKey, RouteHead, AtEnd, Answers;
    var s, pending, buffer := initial, [], [];
    assert Flat(chunks[..0]) == [] by {
      FlatCons(chunks[..0]);
    }
    for i := 0 to |chunks|
      invariant FirstHead(p.emitted(s)).None?
      invariant buffer == Flat(chunks[..i])
      invariant ReadsOf(chunks) ==> |buffer| < max || buffer == []
      invariant p.accepted(s, Initiator) + pending == buffer
      invariant Decides(p, judge) ==>
                  Scan(judge, max, chunks, ending, []) == Scan(judge, max, chunks[i..], ending, buffer)
    {
      var chunk := chunks[i];
      ReadFits(max, chunks, i, buffer);
      assert chunks[i..][1..] == chunks[i + 1..];
      assert chunks[..i + 1] == chunks[..i] + [chunk];
      FlatSnoc(chunks[..i], chunk);
      buffer := buffer + chunk;
      var t, tail, verdict := Step(p, s, pending, chunk, judge);
      s, pending := t, tail;
      ghost var refuses := p.poison(s).Some? || p.tunnelled(s);
      match verdict {
        case HeadAt(head) =>
          IsHead(p.emitted(s));
          RouteAnswers(head, buffer, refuses, i + 1 == |chunks|, max, ending);
          return RouteHead(head, buffer), s, i + 1;
        case Bad =>
          RefusalAnswers(Refused, refuses, buffer, i + 1 == |chunks|, max, ending);
          return Refused, s, i + 1;
        case Undecided =>
      }
      if |buffer| >= max {
        RefusalAnswers(TooLarge, refuses, buffer, i + 1 == |chunks|, max, ending);
        return TooLarge, s, i + 1;
      }
    }
    assert chunks[..|chunks|] == chunks;
    EndAnswers(buffer, p.poison(s).Some? || p.tunnelled(s), max, ending);
    return AtEnd(ending, buffer), s, |chunks|;
  }

  // --- Bounds and independence of segmentation ---

  /** The replay buffer starts with what was there and stays below the cap plus
      one read; a timeout's is below the cap. */
  lemma {:induction false} ReplayBounded(judge: Judge, max: nat, chunks: seq<Bytes>, ending: Ending, buffer: Bytes)
    requires ReadsOf(chunks) && (|buffer| < max || buffer == [])
    ensures var r := Scan(judge, max, chunks, ending, buffer);
            && Bounded(r, max)
            && (r.Parsed? ==> buffer < r.replay) && (r.TimedOut? ==> buffer <= r.consumed)
  {
    if chunks != [] {
      assert chunks[0] in chunks;
      var more := buffer + chunks[0];
      if judge(more).Undecided? && |more| < max {
        ReplayBounded(judge, max, chunks[1..], ending, more);
      }
    }
  }

  /** The bytes in which the verdict falls: it is open before `n` bytes and
      settled by them. */
  ghost predicate DecidedAt(judge: Judge, all: Bytes, n: nat) {
    && 0 < n <= |all|
    && !judge(all[..n]).Undecided?
    && forall i :: 0 <= i < n ==> judge(all[..i]).Undecided?
  }

  /** The result the verdict of `all` calls for, replaying the first `m` bytes. */
  function Settled(judge: Judge, all: Bytes, m: nat): HeadResult
    requires m <= |all|
  {
    match judge(all)
    case HeadAt(head) => RouteHead(head, all[..m])
    case _ => Refused
  }

  /** Some read ends at or past the cap while the verdict is still open. */
  predicate Oversteps(max: nat, n: nat, chunks: seq<Bytes>, start: nat) {
    if chunks == [] || start + |chunks[0]| >= n then false
    else start + |chunks[0]| >= max || Oversteps(max, n, chunks[1..], start + |chunks[0]|)
  }

  /** Exactly what decides: unless a read ends between the cap and the head's
      end, the result is that of the bytes, however they were cut. */
  lemma {:induction false} ScanSettles(judge: Judge, max: nat, chunks: seq<Bytes>, ending: Ending, buffer: Bytes,
                                       all: Bytes, n: nat)
    requires Stable(judge) && ReadsOf(chunks) && DecidedAt(judge, all, n)
    requires all == buffer + Flat(chunks) && |buffer| < n
    ensures var r := Scan(judge, max, chunks, ending, buffer);
            if Oversteps(max, n, chunks, |buffer|) then r == TooLarge
            else exists m :: n <= m <= |all| && r == Settled(judge, all, m)
  {
    FlatCons(chunks);
    var more := buffer + chunks[0];
    assert chunks[0] in chunks;
    assert all == more + Flat(chunks[1..]);
    Verdicts(judge, all, n, more);
    assert ReadsOf(chunks[1..]);
    hide Stable, DecidedAt, Flat, ReadsOf, Dns.RoutingKey;
    if |more| >= n {
      assert Scan(judge, max, chunks, ending, buffer) == Settled(judge, all, |more|);
    } else if |more| < max {
      ScanSettles(judge, max, chunks[1..], ending, more, all, n);
    }
  }

  /** What the judge says of a prefix. */
  lemma Verdicts(judge: Judge, all: Bytes, n: nat, more: Bytes)
    requires Stable(judge) && DecidedAt(judge, all, n) && more <= all
    ensures |more| < n ==> judge(more).Undecided?
    ensures |more| >= n ==> !judge(more).Undecided? && judge(more) == judge(all)
  {
    assert more == all[..|more|];
    if |more| >= n {
      assert all[..n] <= more <= all;
    }
  }

  lemma {:induction false} FlatCons(chunks: seq<Bytes>)
    ensures chunks == [] ==> Flat(chunks) == []
    ensures chunks != [] ==> Flat(chunks) == chunks[0] + Flat(chunks[1..])
  {
    if chunks != [] {
      assert chunks == [chunks[0]] + chunks[1..];
      FlatConcat([chunks[0]], chunks[1..]);
      FlatSnoc([], chunks[0]);
      assert [] + [chunks[0]] == [chunks[0]];
    }
  }

  // --- Independence of segmentation ---

  lemma {:induction false} NoOverstep(max: nat, n: nat, chunks: seq<Bytes>, start: nat)
    requires n <= max || n == 1
    requires ReadsOf(chunks)
    ensures !Oversteps(max, n, chunks, start)
  {
    if chunks != [] {
      assert chunks[0] in chunks;
      NoOverstep(max, n, chunks[1..], start + |chunks[0]|);
    }
  }

  /** The bytes one at a time. */
  function Singles(all: Bytes): (chunks: seq<Bytes>)
    ensures ReadsOf(chunks)
  {
    if all == [] then [] else [[all[0]]] + Singles(all[1..])
  }

  lemma SinglesCons(all: Bytes)
    requires all != []
    ensures Singles(all) != [] && Singles(all)[0] == [all[0]] && Singles(all)[1..] == Singles(all[1..])
  {
  }

  lemma {:induction false} SinglesFlat(all: Bytes)
    ensures Flat(Singles(all)) == all
  {
    if all != [] {
      SinglesFlat(all[1..]);
      FlatCons(Singles(all));
      SinglesCons(all);
    }
  }

  lemma OverstepsFirst(max: nat, n: nat, first: Bytes, rest: seq<Bytes>, start: nat)
    ensures Oversteps(max, n, [first] + rest, start) <==>
            start + |first| < n && (start + |first| >= max || Oversteps(max, n, rest, start + |first|))
  {
    assert ([first] + rest)[1..] == rest;
  }

  lemma {:induction false} SinglesOverstep(max: nat, n: nat, all: Bytes, start: nat)
    requires start + 1 < n && max < n <= start + |all|
    ensures Oversteps(max, n, Singles(all), start)
  {
    hide Singles, ReadsOf, Oversteps;
    SinglesCons(all);
    assert Singles(all) == [[all[0]]] + Singles(all[1..]);
    OverstepsFirst(max, n, [all[0]], Singles(all[1..]), start);
    if start + 1 < max {
      SinglesOverstep(max, n, all[1..], start + 1);
    }
  }

  /** A head of at most the cap gives one result however it is cut into reads:
      the same key, or the same refusal, replaying bytes that hold the head. */
  lemma SegmentationIndependent(judge: Judge, max: nat, all: Bytes, n: nat,
                                chunks: seq<Bytes>, ending: Ending, chunks': seq<Bytes>, ending': Ending)
    requires Stable(judge) && DecidedAt(judge, all, n) && n <= max
    requires ReadsOf(chunks) && Flat(chunks) == all && ReadsOf(chunks') && Flat(chunks') == all
    ensures var r, r' := Scan(judge, max, chunks, ending, []), Scan(judge, max, chunks', ending', []);
            if r.Parsed? then r'.Parsed? && r'.key == r.key && all[..n] <= r.replay <= all && all[..n] <= r'.replay <= all
            else r' == r
  {
    NoOverstep(max, n, chunks, 0);
    NoOverstep(max, n, chunks', 0);
    assert all == [] + Flat(chunks) && all == [] + Flat(chunks');
    ScanSettles(judge, max, chunks, ending, [], all, n);
    ScanSettles(judge, max, chunks', ending', [], all, n);
  }

  /** No way of cutting the bytes gives a size error exactly when the verdict
      falls within the cap, or in the first byte. */
  lemma CapIsExact(judge: Judge, max: nat, all: Bytes, n: nat, ending: Ending)
    requires Stable(judge) && DecidedAt(judge, all, n)
    ensures (forall chunks :: ReadsOf(chunks) && Flat(chunks) == all ==> Scan(judge, max, chunks, ending, []) != TooLarge)
            <==> n <= max || n == 1
  {
    if n <= max || n == 1 {
      forall chunks | ReadsOf(chunks) && Flat(chunks) == all
        ensures Scan(judge, max, chunks, ending, []) != TooLarge
      {
        NoOverstep(max, n, chunks, 0);
        assert all == [] + Flat(chunks);
        ScanSettles(judge, max, chunks, ending, [], all, n);
      }
    } else {
      var chunks := Singles(all);
      SinglesFlat(all);
      SinglesOverstep(max, n, all, 0);
      assert all == [] + Flat(chunks);
      ScanSettles(judge, max, chunks, ending, [], all, n);
    }
  }

  // --- Exactly when cutting does not matter ---

  /** The same key, or the same refusal. */
  predicate Alike(r: HeadResult, r': HeadResult) {
    if r.Parsed? then r'.Parsed? && r'.key == r.key else r' == r
  }

  ghost predicate Cuts(chunks: seq<Bytes>, all: Bytes) {
    ReadsOf(chunks) && Flat(chunks) == all
  }

  /** Past the cap by a whole read, some read ends in between. */
  lemma {:induction false} AlwaysOversteps(max: nat, n: nat, chunks: seq<Bytes>, start: nat)
    requires ReadsOf(chunks) && start < Cap(max) && (max == 0 ==> start == 0)
    requires n >= Cap(max) + READ_SIZE && start + |Flat(chunks)| >= n
    ensures Oversteps(max, n, chunks, start)
  {
    FlatCons(chunks);
    assert chunks[0] in chunks;
    if start + |chunks[0]| < max {
      AlwaysOversteps(max, n, chunks[1..], start + |chunks[0]|);
    }
  }

  /** Byte by byte to just below the cap, then one read past the head's end. */
  function Leap(max: nat, n: nat, all: Bytes): (chunks: seq<Bytes>)
    requires Cap(max) <= n <= |all| && n < Cap(max) + READ_SIZE
    ensures ReadsOf(chunks)
  {
    Singles(all[..Cap(max) - 1]) + ([all[Cap(max) - 1..n]] + Singles(all[n..]))
  }

  lemma LeapFlat(max: nat, n: nat, all: Bytes)
    requires Cap(max) <= n <= |all| && n < Cap(max) + READ_SIZE
    ensures Flat(Leap(max, n, all)) == all
  {
    hide Flat, Singles;
    ThreeFlat(all[..Cap(max) - 1], all[Cap(max) - 1..n], all[n..]);
    assert all == all[..Cap(max) - 1] + (all[Cap(max) - 1..n] + all[n..]);
  }

  lemma ThreeFlat(a: Bytes, b: Bytes, c: Bytes)
    ensures Flat(Singles(a) + ([b] + Singles(c))) == a + (b + c)
  {
    SinglesFlat(a);
    SinglesFlat(c);
    FlatConcat(Singles(a), [b] + Singles(c));
    FlatCons([b] + Singles(c));
    assert ([b] + Singles(c))[1..] == Singles(c);
  }

  lemma {:induction false} LeapFits(max: nat, n: nat, below: Bytes, rest: seq<Bytes>, start: nat)
    requires start + |below| < Cap(max) && start + |below| < n && rest != []
    requires start + |below| + |rest[0]| >= n
    ensures !Oversteps(max, n, Singles(below) + rest, start)
  {
    hide ReadsOf, Singles, Oversteps;
    if below == [] {
      SinglesNone();
      assert [] + rest == rest;
      OverstepsFirst(max, n, rest[0], rest[1..], start);
      assert rest == [rest[0]] + rest[1..];
    } else {
      SinglesCons(below);
      assert Singles(below) == [[below[0]]] + Singles(below[1..]);
      assert Singles(below) + rest == [[below[0]]] + (Singles(below[1..]) + rest);
      OverstepsFirst(max, n, [below[0]], Singles(below[1..]) + rest, start);
      LeapFits(max, n, below[1..], rest, start + 1);
    }
  }

  lemma SinglesNone()
    ensures Singles([]) == []
  {
  }

  lemma Overstepped(judge: Judge, max: nat, chunks: seq<Bytes>, ending: Ending, all: Bytes, n: nat)
    requires Stable(judge) && DecidedAt(judge, all, n) && Cuts(chunks, all)
    ensures Scan(judge, max, chunks, ending, []) == TooLarge <==> Oversteps(max, n, chunks, 0)
  {
    assert all == [] + Flat(chunks);
    ScanSettles(judge, max, chunks, ending, [], all, n);
  }

  lemma BothCuts(judge: Judge, max: nat, all: Bytes, n: nat, chunks: seq<Bytes>, ending: Ending,
                 chunks': seq<Bytes>, ending': Ending)
    requires Stable(judge) && DecidedAt(judge, all, n) && Cuts(chunks, all) && Cuts(chunks', all)
    requires Oversteps(max, n, chunks, 0) <==> Oversteps(max, n, chunks', 0)
    ensures Alike(Scan(judge, max, chunks, ending, []), Scan(judge, max, chunks', ending', []))
  {
    assert all == [] + Flat(chunks) && all == [] + Flat(chunks');
    ScanSettles(judge, max, chunks, ending, [], all, n);
    ScanSettles(judge, max, chunks', ending', [], all, n);
  }

  ghost predicate CutsAlike(judge: Judge, max: nat, all: Bytes) {
    forall chunks, ending: Ending, chunks', ending': Ending :: Cuts(chunks, all) && Cuts(chunks', all) ==>
      Alike(Scan(judge, max, chunks, ending, []), Scan(judge, max, chunks', ending', []))
  }

  /** How the bytes are cut into reads does not matter exactly when the verdict
      falls within the cap, or so far past it that every cut meets the cap first. */
  lemma IndependenceIsExact(judge: Judge, max: nat, all: Bytes, n: nat)
    requires Stable(judge) && DecidedAt(judge, all, n)
    ensures CutsAlike(judge, max, all) <==> n <= Cap(max) || n >= Cap(max) + READ_SIZE
  {
    if n <= Cap(max) || n >= Cap(max) + READ_SIZE {
      forall chunks, ending: Ending, chunks', ending': Ending | Cuts(chunks, all) && Cuts(chunks', all)
        ensures Alike(Scan(judge, max, chunks, ending, []), Scan(judge, max, chunks', ending', []))
      {
        if n <= Cap(max) {
          NoOverstep(max, n, chunks, 0);
          NoOverstep(max, n, chunks', 0);
        } else {
          AlwaysOversteps(max, n, chunks, 0);
          AlwaysOversteps(max, n, chunks', 0);
        }
        BothCuts(judge, max, all, n, chunks, ending, chunks', ending');
      }
    } else {
      var bytes, leap := Singles(all), Leap(max, n, all);
      SinglesFlat(all);
      SinglesOverstep(max, n, all, 0);
      LeapFlat(max, n, all);
      var below := all[..Cap(max) - 1];
      LeapFits(max, n, below, [all[Cap(max) - 1..n]] + Singles(all[n..]), 0);
      Overstepped(judge, max, bytes, Stalls, all, n);
      Overstepped(judge, max, leap, Stalls, all, n);
      assert !Alike(Scan(judge, max, bytes, Stalls, []), Scan(judge, max, leap, Stalls, []));
      assert Cuts(bytes, all) && Cuts(leap, all);
    }
  }

  // --- With a parser that has the cap itself ---

  /** The parser refuses a head that would end past the cap. */
  ghost predicate RefusesPast(judge: Judge, max: nat) {
    forall all: Bytes, n: nat :: DecidedAt(judge, all, n) && n > max ==> judge(all) == Bad
  }

  /** With such a parser what is routed, and where, never depends on cutting; only
      which refusal a head past the cap gets does. */
  lemma RoutingIsIndependent(judge: Judge, max: nat, all: Bytes, n: nat,
                             chunks: seq<Bytes>, ending: Ending, chunks': seq<Bytes>, ending': Ending)
    requires Stable(judge) && RefusesPast(judge, max) && DecidedAt(judge, all, n)
    requires Cuts(chunks, all) && Cuts(chunks', all)
    ensures var r, r' := Scan(judge, max, chunks, ending, []), Scan(judge, max, chunks', ending', []);
            && (n <= max ==> Alike(r, r') && r != TooLarge)
            && (n > max ==> (r == TooLarge || r == Refused) && (r' == TooLarge || r' == Refused))
  {
    assert all == [] + Flat(chunks) && all == [] + Flat(chunks');
    ScanSettles(judge, max, chunks, ending, [], all, n);
    ScanSettles(judge, max, chunks', ending', [], all, n);
    if n <= max {
      NoOverstep(max, n, chunks, 0);
      NoOverstep(max, n, chunks', 0);
    }
  }
}

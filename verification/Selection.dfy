/** Which input an exchange takes next, and what the order of inputs comes to
    (src/import/multiroute.rs). */
module Selection {
  import opened Streams
  import opened ExchangeBook
  import opened ExchangePipes

  /** The arm of the input is enabled. */
  predicate Enabled(i: Input, client: bool, backend: bool) {
    i.Drain? || (if i.FromClient() then client else backend)
  }

  /** The first enabled input, and what is left: the client's inputs wait while
      their arm is disabled; a backend's are lost while there is no channel. */
  function TakeNext(inputs: seq<Input>, client: bool, backend: bool): (Option<Input>, seq<Input>) {
    if inputs == [] then (None, [])
    else if Enabled(inputs[0], client, backend) then (Some(inputs[0]), inputs[1..])
    else
      var (next, rest) := TakeNext(inputs[1..], client, backend);
      (next, (if inputs[0].FromClient() then [inputs[0]] else []) + rest)
  }

  function ClientBytes(inputs: seq<Input>): Bytes {
    if inputs == [] then [] else ReadBytes(Some(inputs[0])) + ClientBytes(inputs[1..])
  }

  function BackendBytes(inputs: seq<Input>): Bytes {
    if inputs == [] then [] else SampleBytes(Some(inputs[0])) + BackendBytes(inputs[1..])
  }

  function ReadBytes(input: Option<Input>): Bytes {
    match input
    case Some(ClientRead(bytes)) => bytes
    case _ => []
  }

  function SampleBytes(input: Option<Input>): Bytes {
    match input
    case Some(Sample(payload)) => payload
    case _ => []
  }

  /** The inputs of one side. */
  function Of(inputs: seq<Input>, client: bool): seq<Input> {
    if inputs == [] then [] else One(Some(inputs[0]), client) + Of(inputs[1..], client)
  }

  function One(input: Option<Input>, client: bool): seq<Input> {
    if input.Some? && input.value.FromClient() == client then [input.value] else []
  }

  /** What is still to come was to come before. */
  ghost predicate Within<T>(now: seq<T>, before: seq<T>) {
    forall x :: x in now ==> x in before
  }

  lemma {:induction false} TakesFirst(inputs: seq<Input>, client: bool, backend: bool)
    ensures var (next, rest) := TakeNext(inputs, client, backend);
            && |rest| <= |inputs| && Within(rest, inputs)
            && (next.Some? ==> |rest| < |inputs| && next.value in inputs && Enabled(next.value, client, backend))
            && (next.None? ==> (client ==> rest == []) && forall i :: i in rest ==> i.FromClient())
  {
    if inputs != [] {
      TakesFirst(inputs[1..], client, backend);
    }
  }

  lemma NoneBefore<T>(a: seq<T>)
    ensures [] + a == a
  {
  }

  /** Nothing the client sent is lost or overtaken; nor is anything the backend
      sent, while its arm is enabled. */
  lemma {:induction false} TakesInOrder(inputs: seq<Input>, client: bool, backend: bool)
    requires client || backend
    ensures var (next, rest) := TakeNext(inputs, client, backend);
            && Of(inputs, true) == One(next, true) + Of(rest, true)
            && (backend ==> Of(inputs, false) == One(next, false) + Of(rest, false))
  {
    if inputs != [] && !Enabled(inputs[0], client, backend) {
      TakesInOrder(inputs[1..], client, backend);
      TakesFirst(inputs[1..], client, backend);
      var (next, rest) := TakeNext(inputs[1..], client, backend);
      Prepend(inputs[0], rest);
      NoneBefore(Of(rest, true));
      NoneBefore(rest);
      NoneBefore(Of(inputs[1..], true));
      NoneBefore([inputs[0]] + Of(rest, true));
    }
  }

  lemma Prepend(i: Input, rest: seq<Input>)
    ensures Of([i] + rest, true) == One(Some(i), true) + Of(rest, true)
    ensures Of([i] + rest, false) == One(Some(i), false) + Of(rest, false)
  {
    assert ([i] + rest)[1..] == rest;
  }

  /** Only the client's inputs carry its bytes, and only the backend's its. */
  lemma {:induction false} BytesOf(inputs: seq<Input>)
    ensures ClientBytes(inputs) == ClientBytes(Of(inputs, true))
    ensures BackendBytes(inputs) == BackendBytes(Of(inputs, false))
  {
    if inputs != [] {
      BytesOf(inputs[1..]);
      NoneBefore(ClientBytes(inputs[1..]));
      NoneBefore(BackendBytes(inputs[1..]));
      NoneBefore(Of(inputs[1..], true));
      NoneBefore(Of(inputs[1..], false));
      OneBytes(Some(inputs[0]), Of(inputs[1..], true), Of(inputs[1..], false));
    }
  }

  lemma OneBytes(input: Option<Input>, ups: seq<Input>, downs: seq<Input>)
    ensures ClientBytes(One(input, true) + ups) == ReadBytes(input) + ClientBytes(ups)
    ensures BackendBytes(One(input, false) + downs) == SampleBytes(input) + BackendBytes(downs)
  {
    NoneBefore(ClientBytes(ups));
    NoneBefore(BackendBytes(downs));
    NoneBefore(ups);
    NoneBefore(downs);
    if input.Some? {
      assert ([input.value] + ups)[1..] == ups;
      assert ([input.value] + downs)[1..] == downs;
    }
  }

  /** And so neither are their bytes. */
  lemma TakesBytes(inputs: seq<Input>, client: bool, backend: bool)
    requires client || backend
    ensures var (next, rest) := TakeNext(inputs, client, backend);
            && ClientBytes(inputs) == ReadBytes(next) + ClientBytes(rest)
            && (backend ==> BackendBytes(inputs) == SampleBytes(next) + BackendBytes(rest))
  {
    hide TakeNext, Of, ClientBytes, BackendBytes, One;
    var (next, rest) := TakeNext(inputs, client, backend);
    TakesInOrder(inputs, client, backend);
    BytesOf(inputs);
    BytesOf(rest);
    OneBytes(next, Of(rest, true), Of(rest, false));
  }

  /** One input was taken, or none. */
  ghost predicate Follows(taken: Option<Input>, before: seq<Input>, now: seq<Input>) {
    && Of(before, true) == One(taken, true) + Of(now, true)
    && Of(before, false) == One(taken, false) + Of(now, false)
  }

  /** The same, with what follows for the bytes. */
  ghost predicate Advances(taken: Option<Input>, before: seq<Input>, now: seq<Input>) {
    && Follows(taken, before, now) && Within(now, before)
    && |now| <= |before| && (taken.Some? ==> |now| < |before| && taken.value in before)
    && ClientBytes(before) == ReadBytes(taken) + ClientBytes(now)
    && BackendBytes(before) == SampleBytes(taken) + BackendBytes(now)
  }

  lemma TakesOne(inputs: seq<Input>, client: bool)
    ensures var (next, rest) := TakeNext(inputs, client, true); Advances(next, inputs, rest)
  {
    TakesFirst(inputs, client, true);
    TakesInOrder(inputs, client, true);
    TakesBytes(inputs, client, true);
  }

  lemma AdvancesLess(taken: Option<Input>, before: seq<Input>, now: seq<Input>)
    requires Advances(taken, before, now)
    ensures |now| <= |before| && (taken.Some? ==> |now| < |before|)
  {
  }

  lemma AdvancesNot(inputs: seq<Input>)
    ensures Advances(None, inputs, inputs)
  {
    NothingTaken(inputs);
    NoneBefore(ClientBytes(inputs));
    NoneBefore(BackendBytes(inputs));
  }

  function Taken(trace: seq<Option<Input>>, client: bool): seq<Input> {
    if trace == [] then [] else Taken(trace[..|trace| - 1], client) + One(trace[|trace| - 1], client)
  }

  /** The inputs taken and those left are, on either side, the inputs there were. */
  ghost predicate InOrder(trace: seq<Option<Input>>, before: seq<Input>, now: seq<Input>) {
    && Of(before, true) == Taken(trace, true) + Of(now, true)
    && Of(before, false) == Taken(trace, false) + Of(now, false)
  }

  lemma NothingTaken(inputs: seq<Input>)
    ensures Follows(None, inputs, inputs) && InOrder([], inputs, inputs)
  {
  }

  lemma InOrderSnoc(trace: seq<Option<Input>>, taken: Option<Input>, first: seq<Input>, before: seq<Input>, now: seq<Input>)
    requires InOrder(trace, first, before) && Advances(taken, before, now)
    ensures InOrder(trace + [taken], first, now)
  {
    assert (trace + [taken])[..|trace|] == trace;
    assert forall client :: Taken(trace + [taken], client) == Taken(trace, client) + One(taken, client);
    hide Of, One, Taken, Within, ClientBytes, BackendBytes;
    Regroup(Taken(trace, true), One(taken, true), Of(now, true));
    Regroup(Taken(trace, false), One(taken, false), Of(now, false));
  }

  // --- What ends an exchange ---

  /** The input only feeds the exchange. */
  predicate Feeds(input: Option<Input>) {
    input.Some? && (input.value.ClientRead? || input.value.Sample?)
  }

  /** Why an input that is neither bytes nor an error ends the exchange. */
  function EndFor(input: Input): ExchangeEnd {
    match input
    case ChannelClosed => BackendGone
    case IdleTimeout => Timeout
    case Overflow => TooSlow
    case _ => DrainDeadline
  }

  /** The end an exchange came to, having taken this input last. */
  predicate EndedBy(last: Option<Input>, end: ExchangeEnd) {
    if last.Some? && !Feeds(last) && !last.value.ClientError? then end == EndFor(last.value)
    else end == Fine || end == Truncated || end == Poisoned
  }

  predicate AllFeed(trace: seq<Option<Input>>) {
    forall k :: 0 <= k < |trace| ==> Feeds(trace[k])
  }

  /** Every input but the last fed the exchange, and the last one decides. */
  predicate Ends(trace: seq<Option<Input>>, end: ExchangeEnd) {
    if trace == [] then EndedBy(None, end) else AllFeed(trace[..|trace| - 1]) && EndedBy(trace[|trace| - 1], end)
  }

  lemma EndsSnoc(trace: seq<Option<Input>>, taken: Option<Input>, end: ExchangeEnd)
    requires AllFeed(trace)
    ensures EndedBy(taken, end) ==> Ends(trace + [taken], end)
    ensures Feeds(taken) ==> AllFeed(trace + [taken])
  {
    assert (trace + [taken])[..|trace|] == trace;
  }

  /** The inputs an exchange took, and those it left. */
  ghost predicate Tracing(trace: seq<Option<Input>>, first: seq<Input>, now: seq<Input>) {
    TakenFrom(trace, first) && InOrder(trace, first, now) && Within(now, first)
  }

  lemma TracesNothing(inputs: seq<Input>)
    ensures Tracing([], inputs, inputs) && AllFeed([]) && Ends([], Fine)
  {
    NothingTaken(inputs);
  }

  lemma TracingSnoc(trace: seq<Option<Input>>, taken: Option<Input>, first: seq<Input>, before: seq<Input>, now: seq<Input>)
    requires Tracing(trace, first, before) && Advances(taken, before, now)
    ensures Tracing(trace + [taken], first, now)
    ensures taken.Some? ==> taken.value in first
  {
    hide InOrder, Follows;
    InOrderSnoc(trace, taken, first, before, now);
    TakenSnoc(trace, taken, first);
  }

  /** Bytes taken are bytes no longer to come. */
  lemma TotalsStay(read: Bytes, payloads: Bytes, taken: Option<Input>, before: seq<Input>, now: seq<Input>)
    requires Advances(taken, before, now)
    ensures (read + ReadBytes(taken)) + ClientBytes(now) == read + ClientBytes(before)
    ensures (payloads + SampleBytes(taken)) + BackendBytes(now) == payloads + BackendBytes(before)
  {
    hide ReadBytes, SampleBytes, ClientBytes, BackendBytes, Follows, Within;
    Regroup(read, ReadBytes(taken), ClientBytes(now));
    Regroup(payloads, SampleBytes(taken), BackendBytes(now));
  }
}

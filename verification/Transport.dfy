/** The transport readers the relay rests on: data is never empty, and an empty
    read is the end of the stream (src/transport.rs). */
module Transport {
  import opened Streams

  datatype Message = Binary(data: Bytes) | Text(utf8: Bytes) | Close | Ping | Pong | Frame

  /** What the WebSocket stream yields: a message, or an error. */
  datatype Item = Msg(m: Message) | Fault

  predicate Carries(item: Item) {
    item.Msg? && ((item.m.Binary? && item.m.data != []) || (item.m.Text? && item.m.utf8 != []))
  }

  function Payload(item: Item): Bytes {
    if !item.Msg? then [] else match item.m
      case Binary(data) => data
      case Text(utf8) => utf8
      case _ => []
  }

  predicate Ends(item: Item) {
    item == Fault || item == Msg(Close)
  }

  /** How a stream ends: the first error or Close, or its own end. */
  datatype Ending = CleanEnd | FaultyEnd

  function EndOf(items: seq<Item>): Ending {
    if items == [] then CleanEnd
    else if items[0] == Fault then FaultyEnd
    else if items[0] == Msg(Close) then CleanEnd
    else EndOf(items[1..])
  }

  /** The payloads before that, empty frames and control frames left out. */
  function DataOf(items: seq<Item>): seq<Bytes> {
    if items == [] || Ends(items[0]) then []
    else (if Carries(items[0]) then [Payload(items[0])] else []) + DataOf(items[1..])
  }

  datatype ReadResult = Read(data: Bytes) | ReadError

  class WsReader {
    var inner: seq<Item>

    constructor (inner: seq<Item>)
      ensures this.inner == inner
    {
      this.inner := inner;
    }

    /** The next data frame; empty only at the end.  Skipped frames are consumed. */
    method ReadData() returns (r: ReadResult)
      modifies this
      ensures match r
              case ReadError => DataOf(old(inner)) == [] && EndOf(old(inner)) == FaultyEnd
              case Read(data) =>
                if data == [] then DataOf(old(inner)) == [] && EndOf(old(inner)) == CleanEnd
                else DataOf(old(inner)) == [data] + DataOf(inner) && EndOf(old(inner)) == EndOf(inner)
                     && |inner| < |old(inner)|
    {
      while inner != []
        invariant DataOf(inner) == DataOf(old(inner)) && EndOf(inner) == EndOf(old(inner))
        invariant |inner| <= |old(inner)|
        decreases |inner|
      {
        var item := inner[0];
        inner := inner[1..];
        match item {
          case Fault => return ReadError;
          case Msg(m) =>
            match m {
              case Binary(data) => if data != [] { return Read(data); }
              case Text(utf8) => if utf8 != [] { return Read(utf8); }
              case Close => return Read([]);
              case _ =>
            }
        }
      }
      r := Read([]);
    }

    /** Reading until the first empty read or error, as the relay does. */
    method ReadAll() returns (chunks: seq<Bytes>, ending: Ending)
      modifies this
      ensures chunks == DataOf(old(inner)) && ending == EndOf(old(inner))
      ensures forall chunk :: chunk in chunks ==> chunk != []
    {
      chunks := [];
      while true
        invariant chunks + DataOf(inner) == DataOf(old(inner)) && EndOf(inner) == EndOf(old(inner))
        invariant forall chunk :: chunk in chunks ==> chunk != []
        decreases |inner|
      {
        ghost var before := DataOf(inner);
        var r := ReadData();
        if r == ReadError {
          return chunks, FaultyEnd;
        }
        if r.data == [] {
          return chunks, CleanEnd;
        }
        assert chunks + before == (chunks + [r.data]) + DataOf(inner);
        chunks := chunks + [r.data];
      }
    }
  }

  /** A TCP reader: a buffer filled in place and handed off whole. */
  class TcpReader {
    const cap: nat
    var inner: Bytes
    var buffer: Bytes

    constructor (inner: Bytes, cap: nat)
      requires cap > 0
      ensures this.inner == inner && this.cap == cap && buffer == []
    {
      this.inner, this.cap, buffer := inner, cap, [];
    }

    /** `arrives` is how much the socket would yield, and `spare` the room the
        reservation left: nothing is read only at the end of the stream.  A read
        that fails takes nothing. */
    method ReadData(arrives: nat, spare: nat, fails: bool) returns (r: ReadResult)
      requires 0 < cap <= spare && arrives > 0 && buffer == []
      modifies this
      ensures buffer == []
      ensures fails ==> r == ReadError && inner == old(inner)
      ensures !fails ==> r.Read? && old(inner) == r.data + inner && (r.data == [] <==> old(inner) == [])
    {
      if fails {
        return ReadError;
      }
      var n := if arrives <= spare then arrives else spare;
      if n > |inner| {
        n := |inner|;
      }
      buffer, inner := buffer + inner[..n], inner[n..];
      if n == 0 {
        return Read([]);
      }
      r, buffer := Read(buffer), [];
    }
  }

  /** Control frames, raw frames and empty data frames. */
  predicate Skipped(item: Item) {
    || item == Msg(Ping) || item == Msg(Pong) || item == Msg(Frame)
    || item == Msg(Binary([])) || item == Msg(Text([]))
  }

  /** Wherever they are, they never show. */
  lemma {:induction false} SkipsAreInvisible(a: seq<Item>, skip: Item, b: seq<Item>)
    requires Skipped(skip)
    ensures DataOf(a + [skip] + b) == DataOf(a + b) && EndOf(a + [skip] + b) == EndOf(a + b)
  {
    if a == [] {
      assert [] + [skip] + b == [skip] + b && [] + b == b;
      assert ([skip] + b)[1..] == b;
    } else {
      assert (a + [skip] + b)[1..] == a[1..] + [skip] + b;
      assert (a + b)[1..] == a[1..] + b;
      SkipsAreInvisible(a[1..], skip, b);
    }
  }

  /** A data frame: its bytes, sent as text or not. */
  datatype DataFrame = DataFrame(text: bool, bytes: Bytes)

  function Items(frames: seq<DataFrame>): (items: seq<Item>)
    ensures |items| == |frames|
  {
    seq(|frames|, i requires 0 <= i < |frames| =>
          Msg(if frames[i].text then Text(frames[i].bytes) else Binary(frames[i].bytes)))
  }

  function BytesOf(frames: seq<DataFrame>): (chunks: seq<Bytes>)
    ensures |chunks| == |frames|
  {
    seq(|frames|, i requires 0 <= i < |frames| => frames[i].bytes)
  }

  /** What is read of data frames is their bytes, binary and text alike, up to
      whatever ends the stream. */
  lemma {:induction false} AllDataIsRead(frames: seq<DataFrame>, rest: seq<Item>)
    requires rest == [] || rest[0] == Fault || rest[0] == Msg(Close)
    ensures Flat(DataOf(Items(frames) + rest)) == Flat(BytesOf(frames))
    ensures EndOf(Items(frames) + rest) == if rest != [] && rest[0] == Fault then FaultyEnd else CleanEnd
  {
    if frames == [] {
      assert Items(frames) + rest == rest;
    } else {
      assert frames == [frames[0]] + frames[1..];
      DataFirst(frames[0], frames[1..], rest);
      AllDataIsRead(frames[1..], rest);
      assert BytesOf(frames) == [frames[0].bytes] + BytesOf(frames[1..]);
      hide Flat, DataOf, EndOf, BytesOf, Items;
      FlatFirst(frames[0].bytes, BytesOf(frames[1..]));
    }
  }

  lemma DataFirst(frame: DataFrame, frames: seq<DataFrame>, rest: seq<Item>)
    ensures Flat(DataOf(Items([frame] + frames) + rest)) == frame.bytes + Flat(DataOf(Items(frames) + rest))
    ensures EndOf(Items([frame] + frames) + rest) == EndOf(Items(frames) + rest)
  {
    var items, more := Items([frame] + frames) + rest, DataOf(Items(frames) + rest);
    assert items[1..] == Items(frames) + rest;
    if frame.bytes == [] {
      assert DataOf(items) == [] + more == more && [] + Flat(more) == Flat(more);
    } else {
      assert DataOf(items) == [frame.bytes] + more;
      FlatFirst(frame.bytes, more);
    }
  }

  lemma FlatFirst(first: Bytes, rest: seq<Bytes>)
    ensures Flat([first] + rest) == first + Flat(rest)
  {
    FlatConcat([first], rest);
    FlatSnoc([], first);
    assert [] + [first] == [first] && [] + first == first;
  }
}

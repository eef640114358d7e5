/** Byte streams and the small vocabulary every component shares. */
module Streams {
  newtype Byte = x: int | 0 <= x < 256

  type Bytes = seq<Byte>

  datatype Option<+T> = None | Some(value: T)

  /** What a connection's samples are for: a byte stream, of which none may be
      missing, or telemetry, of which the surplus is shed. */
  datatype Mode = Stream | Telemetry

  /** A liveliness sample: a token appeared, or is gone. */
  datatype Kind = Put | Delete

  lemma NothingAdded<T>(a: seq<T>)
    ensures a + [] == a
  {
  }

  lemma Regroup<T>(a: seq<T>, b: seq<T>, c: seq<T>)
    ensures a + (b + c) == (a + b) + c
  {
  }

  /** The bytes carried by a sequence of samples, in order. */
  function Flat(samples: seq<Bytes>): Bytes {
    if samples == [] then [] else Flat(samples[..|samples| - 1]) + samples[|samples| - 1]
  }

  lemma FlatSnoc(samples: seq<Bytes>, s: Bytes)
    ensures Flat(samples + [s]) == Flat(samples) + s
  {
    assert (samples + [s])[..|samples|] == samples;
  }

  lemma {:induction false} FlatConcat(a: seq<Bytes>, b: seq<Bytes>)
    ensures Flat(a + b) == Flat(a) + Flat(b)
  {
    if b == [] {
      assert a + b == a;
    } else {
      var init, last := b[..|b| - 1], b[|b| - 1];
      assert a + b == (a + init) + [last] && b == init + [last];
      FlatConcat(a, init);
      FlatSnoc(a + init, last);
      FlatSnoc(init, last);
    }
  }

  lemma FlatPrefix(a: seq<Bytes>, b: seq<Bytes>)
    requires a <= b
    ensures Flat(a) <= Flat(b)
  {
    assert b == a + b[|a|..];
    FlatConcat(a, b[|a|..]);
  }
}

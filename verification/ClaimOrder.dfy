/** The order of exporter claims `{ts:020}-{zid}-{uuid}`: string order against
    age (src/export/election.rs). */
module ClaimOrder {
  import opened Text

  /** Lexicographic order of strings, by character. */
  predicate Less(a: string, b: string) {
    if b == [] then false
    else if a == [] then true
    else if a[0] != b[0] then a[0] < b[0]
    else Less(a[1..], b[1..])
  }

  lemma {:induction false} LessTotal(a: string, b: string)
    ensures !(Less(a, b) && Less(b, a))
    ensures Less(a, b) || Less(b, a) <==> a != b
  {
    if a != [] && b != [] && a[0] == b[0] {
      LessTotal(a[1..], b[1..]);
      assert a == [a[0]] + a[1..] && b == [b[0]] + b[1..];
    }
  }

  lemma {:induction false} LessTransitive(a: string, b: string, c: string)
    requires Less(a, b) && Less(b, c)
    ensures Less(a, c)
  {
    if a != [] && a[0] == b[0] == c[0] {
      LessTransitive(a[1..], b[1..], c[1..]);
    }
  }

  // --- The text of a claim ---

  function Pow10(n: nat): (p: nat)
    ensures p >= 1
  {
    if n == 0 then 1 else 10 * Pow10(n - 1)
  }

  /** Rust's `{n:0width}`. */
  function ZeroPadded(n: nat, width: nat): string {
    var digits := Decimal(n);
    if |digits| < width then Zeros(width - |digits|) + digits else digits
  }

  const WIDTH: nat := 20

  datatype Claimant = Claimant(ts: nat, zid: string, uuid: string)

  function Padded(c: Claimant, width: nat): string {
    ZeroPadded(c.ts, width) + "-" + c.zid + "-" + c.uuid
  }

  function Segment(c: Claimant): string {
    Padded(c, WIDTH)
  }

  /** Session ids and UUIDs are written in characters above the separator; ids
      may differ in length. */
  predicate IsId(s: string) {
    forall i :: 0 <= i < |s| ==> s[i] > '-'
  }

  predicate Named(c: Claimant) {
    IsId(c.zid) && IsId(c.uuid)
  }

  /** Oldest first, then by session id, then by UUID. */
  predicate Older(a: Claimant, b: Claimant) {
    || a.ts < b.ts
    || (a.ts == b.ts && (Less(a.zid, b.zid) || (a.zid == b.zid && Less(a.uuid, b.uuid))))
  }

  // --- Zero padding ---

  /** The last `w` digits of `n`. */
  function Fixed(n: nat, w: nat): (s: string)
    ensures |s| == w
  {
    if w == 0 then "" else Fixed(n / 10, w - 1) + [DigitChar(n % 10)]
  }

  lemma {:induction false} FixedZero(w: nat)
    ensures Fixed(0, w) == Zeros(w)
  {
    if w > 0 {
      FixedZero(w - 1);
    }
  }

  lemma {:induction false} DecimalIsFixed(n: nat, w: nat)
    requires w >= 1 && n < Pow10(w)
    ensures |Decimal(n)| <= w && Zeros(w - |Decimal(n)|) + Decimal(n) == Fixed(n, w)
  {
    if n < 10 {
      FixedZero(w - 1);
    } else {
      DecimalIsFixed(n / 10, w - 1);
    }
  }

  lemma PaddedIsFixed(n: nat, w: nat)
    requires w >= 1 && n < Pow10(w)
    ensures ZeroPadded(n, w) == Fixed(n, w)
  {
    DecimalIsFixed(n, w);
    assert Zeros(0) + Decimal(n) == Decimal(n);
  }

  lemma {:induction false} FixedOrder(a: nat, b: nat, w: nat, x: string, y: string)
    requires a < Pow10(w) && b < Pow10(w)
    ensures Less(Fixed(a, w) + x, Fixed(b, w) + y) <==> a < b || (a == b && Less(x, y))
  {
    if w == 0 {
      assert "" + x == x && "" + y == y;
    } else {
      var c, d := [DigitChar(a % 10)], [DigitChar(b % 10)];
      FixedOrder(a / 10, b / 10, w - 1, c + x, d + y);
      assert Fixed(a, w) + x == Fixed(a / 10, w - 1) + (c + x);
      assert Fixed(b, w) + y == Fixed(b / 10, w - 1) + (d + y);
      assert (c + x)[1..] == x && (d + y)[1..] == y;
    }
  }

  /** The separator sorts below every id character, so a shorter id sorts first. */
  lemma {:induction false} IdOrder(a: string, b: string, x: string, y: string)
    requires IsId(a) && IsId(b)
    ensures Less(a + "-" + x, b + "-" + y) <==> Less(a, b) || (a == b && Less(x, y))
  {
    if a == [] || b == [] {
      assert a == [] ==> (a + "-" + x)[0] == '-' && (a + "-" + x)[1..] == x;
      assert b == [] ==> (b + "-" + y)[0] == '-' && (b + "-" + y)[1..] == y;
    } else if a[0] == b[0] {
      IdOrder(a[1..], b[1..], x, y);
      assert (a + "-" + x)[1..] == a[1..] + "-" + x;
      assert (b + "-" + y)[1..] == b[1..] + "-" + y;
      assert a == [a[0]] + a[1..] && b == [b[0]] + b[1..];
    }
  }

  lemma SeparatorOrder(x: string, y: string)
    ensures Less("-" + x, "-" + y) <==> Less(x, y)
  {
    assert ("-" + x)[1..] == x && ("-" + y)[1..] == y;
  }

  // --- Oldest wins ---

  lemma PaddedOrder(a: Claimant, b: Claimant, width: nat)
    requires Named(a) && Named(b) && width >= 1 && a.ts < Pow10(width) && b.ts < Pow10(width)
    ensures Less(Padded(a, width), Padded(b, width)) <==> Older(a, b)
  {
    PaddedIsFixed(a.ts, width);
    PaddedIsFixed(b.ts, width);
    hide Less, Fixed, ZeroPadded, Pow10;
    var x, y := a.zid + "-" + a.uuid, b.zid + "-" + b.uuid;
    assert Padded(a, width) == Fixed(a.ts, width) + ("-" + x);
    assert Padded(b, width) == Fixed(b.ts, width) + ("-" + y);
    FixedOrder(a.ts, b.ts, width, "-" + x, "-" + y);
    SeparatorOrder(x, y);
    IdOrder(a.zid, b.zid, a.uuid, b.uuid);
  }

  /** The string order of claims is age order, for every timestamp of at most
      twenty digits and session ids of any length. */
  lemma OrderIsAge(a: Claimant, b: Claimant)
    requires Named(a) && Named(b) && a.ts < Pow10(WIDTH) && b.ts < Pow10(WIDTH)
    ensures Less(Segment(a), Segment(b)) <==> Older(a, b)
  {
    hide Less, Padded, Older;
    PaddedOrder(a, b, WIDTH);
  }

  /** So claims are distinct unless time, session and UUID all agree, and of two
      distinct claims exactly one is the older. */
  lemma AgeIsTotal(a: Claimant, b: Claimant)
    requires Named(a) && Named(b) && a.ts < Pow10(WIDTH) && b.ts < Pow10(WIDTH)
    ensures Segment(a) == Segment(b) <==> a == b
    ensures !(Older(a, b) && Older(b, a))
    ensures Older(a, b) || Older(b, a) <==> a != b
  {
    OrderIsAge(a, b);
    OrderIsAge(b, a);
    LessTotal(Segment(a), Segment(b));
    LessTotal(a.zid, b.zid);
    LessTotal(a.uuid, b.uuid);
  }

  // --- Where it stops ---

  ghost predicate OldestWinsBelow(bound: nat) {
    forall a: Claimant, b: Claimant ::
      Named(a) && Named(b) && a.ts < b.ts < bound ==> Less(Segment(a), Segment(b))
  }

  lemma {:induction false} Nines(w: nat)
    requires w >= 1
    ensures Pow10(w) >= 10 && Fixed(Pow10(w) - 1, w)[0] == '9'
  {
    if w > 1 {
      Nines(w - 1);
      assert (Pow10(w) - 1) / 10 == Pow10(w - 1) - 1;
    }
  }

  lemma {:induction false} OneAndZeros(w: nat)
    ensures |Decimal(Pow10(w))| == w + 1 && Decimal(Pow10(w))[0] == '1'
  {
    if w > 0 {
      OneAndZeros(w - 1);
      assert Pow10(w) / 10 == Pow10(w - 1);
    }
  }

  /** The first claim past the padding sorts before the last one within it. */
  lemma TooLong(width: nat) returns (a: Claimant, b: Claimant)
    requires width >= 1
    ensures a == Claimant(Pow10(width) - 1, "", "") && b == Claimant(Pow10(width), "", "")
    ensures Named(a) && Named(b) && !Less(Padded(a, width), Padded(b, width))
  {
    a, b := Claimant(Pow10(width) - 1, "", ""), Claimant(Pow10(width), "", "");
    Nines(width);
    OneAndZeros(width);
    PaddedIsFixed(a.ts, width);
    assert Padded(a, width)[0] == '9' && Padded(b, width)[0] == '1';
  }

  /** Oldest wins for all timestamps below a bound exactly when the bound is at
      most 10^20 milliseconds: past it the padding no longer aligns the digits. */
  lemma OldestWinsExactly(bound: nat)
    ensures OldestWinsBelow(bound) <==> bound <= Pow10(WIDTH)
  {
    hide Less, Padded, Pow10;
    if bound <= Pow10(WIDTH) {
      forall a: Claimant, b: Claimant | Named(a) && Named(b) && a.ts < b.ts < bound
        ensures Less(Segment(a), Segment(b))
      {
        OrderIsAge(a, b);
      }
    } else {
      var a, b := TooLong(WIDTH);
      assert !Less(Segment(a), Segment(b));
    }
  }
}

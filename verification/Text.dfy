/** String operations of the host and spec grammars, over ASCII text. */
module Text {
  import opened Streams

  /** Split at the first occurrence of `c`. */
  function SplitOnce(s: string, c: char): (r: Option<(string, string)>)
    ensures r.None? <==> c !in s
    ensures r.Some? ==> s == r.value.0 + [c] + r.value.1 && c !in r.value.0
  {
    if s == [] then None
    else if s[0] == c then Some(([], s[1..]))
    else match SplitOnce(s[1..], c)
      case None => None
      case Some((a, b)) =>
        assert s == [s[0]] + s[1..];
        Some(([s[0]] + a, b))
  }

  lemma {:induction false} SplitOnceAt(a: string, c: char, b: string)
    requires c !in a
    ensures SplitOnce(a + [c] + b, c) == Some((a, b))
  {
    if a == [] {
      assert ([] + [c] + b)[1..] == b;
    } else {
      assert (a + [c] + b)[1..] == a[1..] + [c] + b;
      SplitOnceAt(a[1..], c, b);
      assert a == [a[0]] + a[1..];
    }
  }

  /** Split at every occurrence of `c`; the empty string is one empty part. */
  function Split(s: string, c: char): (parts: seq<string>)
    ensures |parts| >= 1
    ensures forall part :: part in parts ==> c !in part
    decreases |s|
  {
    match SplitOnce(s, c)
    case None => [s]
    case Some((a, b)) => [a] + Split(b, c)
  }

  function Join(parts: seq<string>, c: char): string
    requires |parts| >= 1
  {
    if |parts| == 1 then parts[0] else parts[0] + [c] + Join(parts[1..], c)
  }

  lemma {:induction false} SplitJoin(parts: seq<string>, c: char)
    requires |parts| >= 1
    requires forall part :: part in parts ==> c !in part
    ensures Split(Join(parts, c), c) == parts
  {
    if |parts| > 1 {
      SplitOnceAt(parts[0], c, Join(parts[1..], c));
      SplitJoin(parts[1..], c);
    }
  }

  /** And every string is such a join. */
  lemma {:induction false} JoinSplit(s: string, c: char)
    ensures Join(Split(s, c), c) == s
    decreases |s|
  {
    match SplitOnce(s, c)
    case None =>
    case Some((a, b)) =>
      JoinSplit(b, c);
      assert Split(s, c)[1..] == Split(b, c);
  }

  function Count(s: string, c: char): nat {
    if s == [] then 0 else (if s[0] == c then 1 else 0) + Count(s[1..], c)
  }

  lemma {:induction false} CountConcat(a: string, b: string, c: char)
    ensures Count(a + b, c) == Count(a, c) + Count(b, c)
  {
    if a == [] {
      assert a + b == b;
    } else {
      assert (a + b)[1..] == a[1..] + b;
      CountConcat(a[1..], b, c);
    }
  }

  lemma {:induction false} CountZero(s: string, c: char)
    ensures Count(s, c) == 0 <==> c !in s
  {
    if s != [] {
      CountZero(s[1..], c);
      assert s == [s[0]] + s[1..];
    }
  }

  function LowerChar(c: char): char {
    if 'A' <= c <= 'Z' then c + 32 as char else c
  }

  function Lower(s: string): (t: string)
    ensures |t| == |s|
    ensures forall i :: 0 <= i < |s| ==> t[i] == LowerChar(s[i])
  {
    seq(|s|, i requires 0 <= i < |s| => LowerChar(s[i]))
  }

  lemma LowerFixed(s: string)
    ensures Lower(s) == s <==> forall c :: c in s ==> LowerChar(c) == c
  {
    if forall c :: c in s ==> LowerChar(c) == c {
      assert forall i :: 0 <= i < |s| ==> s[i] in s;
      assert Lower(s) == s;
    } else {
      var c :| c in s && LowerChar(c) != c;
      var i :| 0 <= i < |s| && s[i] == c;
      assert Lower(s)[i] != s[i];
    }
  }

  predicate IsDigit(c: char) { '0' <= c <= '9' }

  predicate IsAlphanumeric(c: char) {
    IsDigit(c) || 'a' <= c <= 'z' || 'A' <= c <= 'Z'
  }

  function DecimalValue(s: string): nat
    requires forall c :: c in s ==> IsDigit(c)
  {
    if s == [] then 0
    else
      var last := s[|s| - 1];
      assert last in s && IsDigit(last);
      10 * DecimalValue(s[..|s| - 1]) + (last as int - '0' as int)
  }

  /** Rust's `u16` parser: an optional leading '+', then decimal digits. */
  predicate IsU16(s: string) {
    var digits := if s != [] && s[0] == '+' then s[1..] else s;
    && digits != []
    && (forall c :: c in digits ==> IsDigit(c))
    && DecimalValue(digits) < 65536
  }

  function DigitChar(d: nat): char
    requires d < 10
  {
    '0' + d as char
  }

  /** The decimal digits of `n`. */
  function Decimal(n: nat): string {
    if n < 10 then [DigitChar(n)] else Decimal(n / 10) + [DigitChar(n % 10)]
  }

  function Zeros(n: nat): string {
    seq(n, _ => '0')
  }

  lemma {:induction false} DecimalHasValue(k: nat, n: nat)
    ensures forall c :: c in Zeros(k) + Decimal(n) ==> IsDigit(c)
    ensures DecimalValue(Zeros(k) + Decimal(n)) == n
  {
    var s := Zeros(k) + Decimal(n);
    if n < 10 {
      ZerosAreNothing(k);
      assert s[..|s| - 1] == Zeros(k);
    } else {
      DecimalHasValue(k, n / 10);
      assert s[..|s| - 1] == Zeros(k) + Decimal(n / 10);
    }
  }

  lemma {:induction false} ZerosAreNothing(k: nat)
    ensures DecimalValue(Zeros(k)) == 0
  {
    if k > 0 {
      assert Zeros(k)[..k - 1] == Zeros(k - 1);
      ZerosAreNothing(k - 1);
    }
  }

  /** A number is a `u16` exactly below 65536, however many zeros it is padded with
      and with a plus sign or without. */
  lemma U16Exactly(k: nat, n: nat)
    ensures IsU16(Zeros(k) + Decimal(n)) <==> n < 65536
    ensures IsU16("+" + (Zeros(k) + Decimal(n))) <==> n < 65536
  {
    var digits := Zeros(k) + Decimal(n);
    DecimalHasValue(k, n);
    assert digits != [];
    assert digits[0] in digits && IsDigit(digits[0]);
    assert ("+" + digits)[1..] == digits;
  }

  /** And nothing else is one. */
  lemma {:induction false} DigitsAreDecimal(s: string) returns (k: nat, n: nat)
    requires s != [] && forall c :: c in s ==> IsDigit(c)
    ensures s == Zeros(k) + Decimal(n) && n == DecimalValue(s)
  {
    var init, last := s[..|s| - 1], s[|s| - 1];
    assert last in s;
    var d := last as int - '0' as int;
    n := DecimalValue(s);
    if init == [] {
      k := 0;
      assert DecimalValue(init) == 0;
      assert s == Zeros(0) + [last];
    } else {
      var j, m := DigitsAreDecimal(init);
      assert s == init + [last];
      if m == 0 {
        k := j + 1;
        assert init == Zeros(j + 1) by {
          assert Decimal(0) == ['0'];
        }
      } else {
        k := j;
        assert n / 10 == m && n % 10 == d;
        assert Decimal(n) == Decimal(m) + [last];
      }
    }
  }

  lemma U16IsDecimal(s: string) returns (sign: string, k: nat, n: nat)
    requires IsU16(s)
    ensures s == sign + (Zeros(k) + Decimal(n)) && (sign == "" || sign == "+") && n < 65536
  {
    if s[0] == '+' {
      sign := "+";
      k, n := DigitsAreDecimal(s[1..]);
      assert s == "+" + s[1..];
    } else {
      sign := "";
      k, n := DigitsAreDecimal(s);
      assert s == "" + s;
    }
  }

  predicate StartsWith(s: string, prefix: string) {
    prefix <= s
  }

  predicate IsSpace(c: char) {
    c == ' ' || '\t' <= c <= '\r'
  }

  function TrimLeft(s: string): string {
    if s != [] && IsSpace(s[0]) then TrimLeft(s[1..]) else s
  }

  function TrimRight(s: string): string {
    if s != [] && IsSpace(s[|s| - 1]) then TrimRight(s[..|s| - 1]) else s
  }

  function Trim(s: string): string {
    TrimRight(TrimLeft(s))
  }

  lemma {:induction false} TrimLeftExact(s: string) returns (before: string)
    ensures s == before + TrimLeft(s) && forall c :: c in before ==> IsSpace(c)
    ensures TrimLeft(s) == [] || !IsSpace(TrimLeft(s)[0])
  {
    before := [];
    if s != [] && IsSpace(s[0]) {
      var rest := TrimLeftExact(s[1..]);
      before := [s[0]] + rest;
      assert s == [s[0]] + s[1..];
    }
  }

  lemma {:induction false} TrimRightExact(s: string) returns (after: string)
    ensures s == TrimRight(s) + after && forall c :: c in after ==> IsSpace(c)
    ensures TrimRight(s) == [] || !IsSpace(TrimRight(s)[|TrimRight(s)| - 1])
  {
    after := [];
    if s != [] && IsSpace(s[|s| - 1]) {
      var rest := TrimRightExact(s[..|s| - 1]);
      after := rest + [s[|s| - 1]];
      assert s == s[..|s| - 1] + [s[|s| - 1]];
    }
  }

  /** Trimming takes the white space off both ends, all of it and nothing else. */
  lemma TrimExact(s: string) returns (before: string, after: string)
    ensures s == before + Trim(s) + after
    ensures forall c :: c in before + after ==> IsSpace(c)
    ensures Trim(s) != [] ==> !IsSpace(Trim(s)[0]) && !IsSpace(Trim(s)[|Trim(s)| - 1])
  {
    before := TrimLeftExact(s);
    after := TrimRightExact(TrimLeft(s));
    if Trim(s) != [] {
      assert TrimLeft(s)[0] == Trim(s)[0];
    }
  }

  predicate Blank(s: string) {
    forall c :: c in s ==> IsSpace(c)
  }

  /** Blanks around a text that has none at its own ends do not count. */
  lemma {:induction false} TrimPadded(before: string, word: string, after: string)
    requires Blank(before) && Blank(after) && word != "" && !IsSpace(word[0]) && !IsSpace(word[|word| - 1])
    ensures Trim(before + word + after) == word
  {
    var s := before + word + after;
    if before != [] {
      assert IsSpace(s[0]) && s[1..] == before[1..] + word + after;
      TrimPadded(before[1..], word, after);
    } else {
      assert s == word + after && TrimLeft(s) == s;
      TrimPaddedRight(word, after);
    }
  }

  lemma {:induction false} TrimPaddedRight(word: string, after: string)
    requires Blank(after) && word != "" && !IsSpace(word[|word| - 1])
    ensures TrimRight(word + after) == word
  {
    var s := word + after;
    if after != [] {
      assert after[|after| - 1] in after && s[|s| - 1] == after[|after| - 1];
      assert s[..|s| - 1] == word + after[..|after| - 1];
      TrimPaddedRight(word, after[..|after| - 1]);
    } else {
      assert s == word;
    }
  }
}

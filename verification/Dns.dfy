/** Host names as routing keys (src/dns.rs), over ASCII text. */
module Dns {
  import opened Streams
  import opened Text

  datatype KeyResult =
    | Key(key: string)
    | EmptyHost
    | StrayColon
    | InvalidChar(c: char)
    | CarriesPort

  /** A tail that is absent or a parseable `:port`. */
  predicate PortTail(tail: string) {
    tail == [] || (tail[0] == ':' && IsU16(tail[1..]))
  }

  /** The inner literal of a well-formed `[v6]` or `[v6]:port`. */
  function Unbracket(host: string): Option<string> {
    if host == [] || host[0] != '[' then None
    else match SplitOnce(host[1..], ']')
      case None => None
      case Some((inner, tail)) => if ':' in inner && PortTail(tail) then Some(inner) else None
  }

  function NormalizeDns(text: string): string {
    var host := Lower(text);
    match Unbracket(host)
    case Some(inner) => inner
    case None =>
      if Count(host, ':') > 1 then host
      else match SplitOnce(host, ':')
        case Some((name, port)) => if IsU16(port) then name else host
        case None => host
  }

  predicate HasExplicitPort(host: string) {
    if host != [] && host[0] == '[' then
      match SplitOnce(host[1..], ']')
      case None => false
      case Some((_, tail)) => tail != [] && tail[0] == ':' && IsU16(tail[1..])
    else
      && Count(host, ':') == 1
      && match SplitOnce(host, ':')
         case None => false
         case Some((_, port)) => IsU16(port)
  }

  predicate IsValidKeyChar(c: char) {
    IsAlphanumeric(c) || c == '-' || c == '_' || c == '.' || c == ':'
  }

  function FirstInvalid(s: string): (r: Option<char>)
    ensures r.None? <==> forall c :: c in s ==> IsValidKeyChar(c)
  {
    if s == [] then None
    else if !IsValidKeyChar(s[0]) then Some(s[0])
    else
      assert s == [s[0]] + s[1..];
      FirstInvalid(s[1..])
  }

  /** A client's host: any `:port` is stripped. */
  function RoutingKey(host: string): KeyResult {
    var dns := NormalizeDns(host);
    if dns == [] then EmptyHost
    else if Count(dns, ':') == 1 then StrayColon
    else match FirstInvalid(dns)
      case Some(c) => InvalidChar(c)
      case None => Key(dns)
  }

  /** An operator's host: a `:port` is refused. */
  function SpecHostKey(host: string): KeyResult {
    if HasExplicitPort(host) then CarriesPort else RoutingKey(host)
  }

  /** What can ever be a key: a non-empty lower-case literal with no colon, or
      with the two or more colons of an IPv6 address. */
  ghost predicate IsKey(k: string) {
    && k != []
    && Count(k, ':') != 1
    && forall c :: c in k ==> IsValidKeyChar(c) && LowerChar(c) == c
  }

  ghost predicate PortSpelling(t: string, bare: string) {
    exists p: string :: IsU16(p) && t == bare + ":" + p
  }

  /** The spellings of key `k` that carry no port. */
  ghost predicate PortlessSpelling(t: string, k: string) {
    t == k || (Count(k, ':') >= 2 && t == "[" + k + "]")
  }

  /** Every spelling of key `k`, ports included. */
  ghost predicate Spelling(t: string, k: string) {
    || PortlessSpelling(t, k)
    || (Count(k, ':') == 0 && PortSpelling(t, k))
    || (Count(k, ':') >= 2 && PortSpelling(t, "[" + k + "]"))
  }

  // --- Proof: what normalization does to each spelling ---

  lemma U16Chars(p: string)
    requires IsU16(p)
    ensures forall c :: c in p ==> c == '+' || IsDigit(c)
  {
    forall c | c in p ensures c == '+' || IsDigit(c) {
      var i :| 0 <= i < |p| && p[i] == c;
      if p[0] == '+' && i > 0 {
        assert c == p[1..][i - 1];
      }
    }
  }

  lemma KeyChars(k: string)
    requires IsKey(k)
    ensures ']' !in k && '[' !in k && '/' !in k && '@' !in k && ',' !in k && '*' !in k && '$' !in k
    ensures Lower(k) == k
  {
    LowerFixed(k);
  }

  lemma NormalizeBare(s: string, k: string)
    requires IsKey(k) && Lower(s) == k
    ensures NormalizeDns(s) == k
  {
    KeyChars(k);
    CountZero(k, ':');
  }

  lemma NormalizePort(s: string, k: string, p: string)
    requires IsKey(k) && Count(k, ':') == 0 && IsU16(p) && Lower(s) == k + ":" + p
    ensures NormalizeDns(s) == k
  {
    KeyChars(k);
    U16Chars(p);
    CountZero(k, ':');
    CountZero(p, ':');
    CountConcat(k + ":", p, ':');
    CountConcat(k, ":", ':');
    SplitOnceAt(k, ':', p);
    assert (k + ":" + p)[0] == k[0] && k[0] in k;
  }

  lemma NormalizeBracketed(s: string, k: string, tail: string)
    requires IsKey(k) && Count(k, ':') >= 2 && PortTail(tail) && Lower(s) == "[" + k + "]" + tail
    ensures NormalizeDns(s) == k
  {
    KeyChars(k);
    CountZero(k, ':');
    assert Lower(s)[1..] == k + [']'] + tail;
    SplitOnceAt(k, ']', tail);
    hide SplitOnce, Count, IsKey, IsU16;
  }

  /** Normalization of any host: unchanged, or stripped of what a spelling adds. */
  lemma NormalizeCases(s: string)
    ensures var t, n := Lower(s), NormalizeDns(s);
            || n == t
            || (Count(n, ':') == 0 && PortSpelling(t, n))
            || (Count(n, ':') >= 1 && (t == "[" + n + "]" || PortSpelling(t, "[" + n + "]")))
  {
    var t := Lower(s);
    match Unbracket(t)
    case Some(inner) => UnbracketCases(t, inner);
    case None =>
      if Count(t, ':') <= 1 && ':' in t {
        var (name, port) := SplitOnce(t, ':').value;
        CountZero(name, ':');
        hide Count, SplitOnce, Lower, IsU16;
        if IsU16(port) {
          assert t == name + ":" + port;
        }
      }
  }

  lemma UnbracketCases(t: string, inner: string)
    requires Unbracket(t) == Some(inner)
    ensures Count(inner, ':') >= 1 && (t == "[" + inner + "]" || PortSpelling(t, "[" + inner + "]"))
  {
    CountZero(inner, ':');
    var tail := SplitOnce(t[1..], ']').value.1;
    hide Count, SplitOnce, IsU16;
    assert t == "[" + inner + "]" + tail;
    if tail != [] {
      assert t == ("[" + inner + "]") + ":" + tail[1..];
    }
  }

  lemma LowerIsLower(s: string, before: string, n: string, after: string)
    requires Lower(s) == before + n + after
    ensures forall c :: c in n ==> LowerChar(c) == c
  {
    forall c | c in n ensures LowerChar(c) == c {
      var i :| 0 <= i < |n| && n[i] == c;
      assert Lower(s)[|before| + i] == c;
    }
  }

  lemma NormalizedIsLower(s: string)
    ensures forall c :: c in NormalizeDns(s) ==> LowerChar(c) == c
  {
    var t, n := Lower(s), NormalizeDns(s);
    NormalizeCases(s);
    hide NormalizeDns, Lower, LowerChar, IsU16, Count;
    if n == t {
      assert t == "" + n + "";
      LowerIsLower(s, "", n, "");
    } else if PortSpelling(t, n) {
      var p: string :| IsU16(p) && t == n + ":" + p;
      assert t == "" + n + (":" + p);
      LowerIsLower(s, "", n, ":" + p);
    } else if t == "[" + n + "]" {
      LowerIsLower(s, "[", n, "]");
    } else {
      var p: string :| IsU16(p) && t == ("[" + n + "]") + ":" + p;
      assert t == "[" + n + ("]:" + p);
      LowerIsLower(s, "[", n, "]:" + p);
    }
  }

  lemma SpellingRoutes(s: string, k: string)
    requires IsKey(k) && Spelling(Lower(s), k)
    ensures RoutingKey(s) == Key(k)
  {
    var t := Lower(s);
    if t == k {
      NormalizeBare(s, k);
    } else if Count(k, ':') == 0 {
      var p: string :| IsU16(p) && t == k + ":" + p;
      NormalizePort(s, k, p);
    } else if t == "[" + k + "]" {
      assert t == "[" + k + "]" + "";
      NormalizeBracketed(s, k, "");
    } else {
      var p: string :| IsU16(p) && t == ("[" + k + "]") + ":" + p;
      assert t == "[" + k + "]" + (":" + p);
      assert (":" + p)[1..] == p;
      NormalizeBracketed(s, k, ":" + p);
    }
  }

  lemma RouteIsSpelled(s: string, k: string)
    requires RoutingKey(s) == Key(k)
    ensures IsKey(k) && Spelling(Lower(s), k)
  {
    NormalizedIsLower(s);
    NormalizeCases(s);
  }

  /** Matching: a client host routes by key `k` exactly when it is one of the
      spellings of `k`, in any case, with or without a port. */
  lemma RoutingKeyExact(s: string, k: string)
    ensures RoutingKey(s) == Key(k) <==> IsKey(k) && Spelling(Lower(s), k)
  {
    if RoutingKey(s) == Key(k) {
      RouteIsSpelled(s, k);
    }
    if IsKey(k) && Spelling(Lower(s), k) {
      SpellingRoutes(s, k);
    }
  }

  lemma LowerKeepsPorts(p: string)
    ensures IsU16(Lower(p)) <==> IsU16(p)
  {
    var q := Lower(p);
    if IsU16(q) {
      U16Chars(q);
      assert forall i :: 0 <= i < |q| ==> q[i] in q;
      assert p == q;
    }
    if IsU16(p) {
      U16Chars(p);
      assert forall i :: 0 <= i < |p| ==> p[i] in p;
      assert p == q;
    }
  }

  lemma {:induction false} LowerCount(s: string, c: char)
    requires !IsAlphanumeric(c)
    ensures Count(Lower(s), c) == Count(s, c)
  {
    if s != [] {
      assert Lower(s)[1..] == Lower(s[1..]);
      LowerCount(s[1..], c);
    }
  }

  lemma LowerSplit(s: string, c: char)
    requires !IsAlphanumeric(c)
    ensures match SplitOnce(s, c)
            case None => SplitOnce(Lower(s), c) == None
            case Some((a, b)) => SplitOnce(Lower(s), c) == Some((Lower(a), Lower(b)))
  {
    match SplitOnce(s, c)
    case None =>
      CountZero(s, c);
      CountZero(Lower(s), c);
      LowerCount(s, c);
    case Some((a, b)) =>
      CountZero(a, c);
      CountZero(Lower(a), c);
      LowerCount(a, c);
      assert Lower(s) == Lower(a) + [c] + Lower(b);
      SplitOnceAt(Lower(a), c, Lower(b));
  }

  lemma PortCheckIgnoresCase(s: string)
    ensures HasExplicitPort(s) <==> HasExplicitPort(Lower(s))
  {
    hide SplitOnce, Count, IsU16;
    if s != [] && s[0] == '[' {
      assert Lower(s)[1..] == Lower(s[1..]);
      LowerSplit(s[1..], ']');
      if SplitOnce(s[1..], ']').Some? {
        var tail := SplitOnce(s[1..], ']').value.1;
        if tail != [] {
          assert Lower(tail)[1..] == Lower(tail[1..]);
          LowerKeepsPorts(tail[1..]);
        }
      }
    } else {
      assert s != [] ==> Lower(s)[0] != '[';
      LowerCount(s, ':');
      LowerSplit(s, ':');
      if SplitOnce(s, ':').Some? {
        LowerKeepsPorts(SplitOnce(s, ':').value.1);
      }
    }
  }

  lemma PortlessHasNoPort(t: string, k: string)
    requires IsKey(k) && PortlessSpelling(t, k)
    ensures !HasExplicitPort(t)
  {
    KeyChars(k);
    if t != k {
      assert t[1..] == k + [']'] + "";
      SplitOnceAt(k, ']', "");
    } else {
      assert k[0] in k;
    }
  }

  lemma PortIsSeen(t: string, k: string)
    requires IsKey(k) && Spelling(t, k) && !PortlessSpelling(t, k)
    ensures HasExplicitPort(t)
  {
    KeyChars(k);
    if Count(k, ':') == 0 {
      var p: string :| IsU16(p) && t == k + ":" + p;
      U16Chars(p);
      CountZero(k, ':');
      CountZero(p, ':');
      CountConcat(k + ":", p, ':');
      CountConcat(k, ":", ':');
      SplitOnceAt(k, ':', p);
      assert t[0] == k[0] && k[0] in k;
    } else {
      var p: string :| IsU16(p) && t == ("[" + k + "]") + ":" + p;
      assert t[1..] == k + [']'] + (":" + p);
      SplitOnceAt(k, ']', ":" + p);
    }
  }

  /** Registration: an operator's host registers key `k` exactly when it is a
      portless spelling of `k`, in any case. */
  lemma SpecHostKeyExact(s: string, k: string)
    ensures SpecHostKey(s) == Key(k) <==> IsKey(k) && PortlessSpelling(Lower(s), k)
  {
    RoutingKeyExact(s, k);
    PortCheckIgnoresCase(s);
    if IsKey(k) && Spelling(Lower(s), k) {
      if PortlessSpelling(Lower(s), k) {
        PortlessHasNoPort(Lower(s), k);
      } else {
        PortIsSeen(Lower(s), k);
      }
    }
  }

  /** Registration and matching agree: a registered key is a fixed point of
      both sides, and clients reach it by every spelling of it and no other. */
  lemma RegistrationMatches(host: string, k: string)
    ensures SpecHostKey(host) == Key(k) ==>
              && RoutingKey(k) == Key(k) && SpecHostKey(k) == Key(k)
              && forall client: string :: RoutingKey(client) == Key(k) <==> Spelling(Lower(client), k)
  {
    hide SpecHostKey, RoutingKey, Spelling;
    if SpecHostKey(host) == Key(k) {
      SpecHostKeyExact(host, k);
      KeyChars(k);
      SpecHostKeyExact(k, k);
      KeySpellsItself(k);
      RoutingKeyExact(k, k);
      forall client: string
        ensures RoutingKey(client) == Key(k) <==> Spelling(Lower(client), k)
      {
        RoutingKeyExact(client, k);
      }
    }
  }

  lemma KeySpellsItself(k: string)
    ensures PortlessSpelling(k, k) && Spelling(k, k)
  {
  }
}

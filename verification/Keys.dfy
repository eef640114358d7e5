/** The key space on the bus (src/import/bridge.rs, src/export/bridge.rs,
    src/export/election.rs, src/config.rs). */
module Keys {
  import opened Streams
  import opened Text
  import Dns
  import ClaimOrder
  import Election

  /** A service, or one host of a service. */
  datatype KeyScope = KeyScope(service: string, host: Option<string>)

  datatype Role = Tx | Rx | Error | Clients

  predicate IsServiceChar(c: char) {
    IsAlphanumeric(c) || c == '-' || c == '_' || c == '.'
  }

  predicate ValidService(name: string) {
    name != [] && forall c :: c in name ==> IsServiceChar(c)
  }

  ghost predicate ValidScope(s: KeyScope) {
    ValidService(s.service) && (s.host.Some? ==> Dns.IsKey(s.host.value))
  }

  /** A literal key segment, as generated client ids and claims are. */
  predicate IsLiteral(id: string) {
    id != [] && '/' !in id && id != "*"
  }

  function RoleName(role: Role): string {
    match role
    case Tx => "tx"
    case Rx => "rx"
    case Error => "error"
    case Clients => "clients"
  }

  // --- Import side ---

  function ScopedKey(service: string, dns: Option<string>, tail: string): string {
    match dns
    case Some(d) => service + "/" + d + "/" + tail
    case None => service + "/" + tail
  }

  function ImportKey(s: KeyScope, role: Role, id: string): string {
    ScopedKey(s.service, s.host, RoleName(role) + "/" + id)
  }

  // --- Export side ---

  function ExportKey(s: KeyScope, role: Role, id: string): string {
    var dnsPart := if s.host.Some? then "/" + s.host.value else "";
    s.service + dnsPart + "/" + RoleName(role) + "/" + id
  }

  function ScopeText(s: KeyScope): string {
    if s.host.Some? then s.service + "/" + s.host.value else s.service
  }

  function Under(scope: string, name: string, id: string): string {
    scope + "/" + name + "/" + id
  }

  function AvailableKey(s: KeyScope): string {
    ScopeText(s) + "/" + "available"
  }

  function ClientsPattern(s: KeyScope): string {
    Under(ScopeText(s), "clients", "*")
  }

  function ClaimKey(s: KeyScope, claim: string): string {
    Under(ScopeText(s), "exporter-claim", claim)
  }

  function ClaimsPattern(s: KeyScope): string {
    Under(ScopeText(s), "exporter-claim", "*")
  }

  // --- Matching ---

  /** A `*` segment stands for any one segment. */
  predicate Covers(pattern: seq<string>, key: seq<string>) {
    && |pattern| == |key|
    && forall i :: 0 <= i < |key| ==> pattern[i] == "*" || pattern[i] == key[i]
  }

  predicate Matches(pattern: string, key: string) {
    Covers(Split(pattern, '/'), Split(key, '/'))
  }

  /** Rust's `key.rsplit('/').next()`. */
  function LastSegment(key: string): string {
    var parts := Split(key, '/');
    parts[|parts| - 1]
  }

  // --- Segments ---

  function ScopeSegments(s: KeyScope): seq<string> {
    [s.service] + if s.host.Some? then [s.host.value] else []
  }

  lemma ScopeIsLiteral(s: KeyScope)
    requires ValidScope(s)
    ensures IsLiteral(s.service) && (s.host.Some? ==> IsLiteral(s.host.value))
  {
    assert "*"[0] == '*' && !IsServiceChar('*');
    if s.host.Some? {
      Dns.KeyChars(s.host.value);
    }
  }

  lemma SplitCons(a: string, rest: string)
    requires '/' !in a
    ensures Split(a + "/" + rest, '/') == [a] + Split(rest, '/')
  {
    SplitOnceAt(a, '/', rest);
  }

  lemma SplitTwo(a: string, b: string)
    requires '/' !in a && '/' !in b
    ensures Split(a + "/" + b, '/') == [a, b]
  {
    SplitCons(a, b);
  }

  lemma SplitThree(a: string, b: string, c: string)
    requires '/' !in a && '/' !in b && '/' !in c
    ensures Split(a + "/" + b + "/" + c, '/') == [a, b, c]
  {
    hide Split;
    SplitCons(a, b + "/" + c);
    SplitTwo(b, c);
    assert a + "/" + (b + "/" + c) == a + "/" + b + "/" + c;
  }

  lemma SplitFour(a: string, b: string, c: string, d: string)
    requires '/' !in a && '/' !in b && '/' !in c && '/' !in d
    ensures Split(a + "/" + b + "/" + c + "/" + d, '/') == [a, b, c, d]
  {
    hide Split;
    SplitCons(a, b + "/" + c + "/" + d);
    SplitThree(b, c, d);
    assert a + "/" + (b + "/" + c + "/" + d) == a + "/" + b + "/" + c + "/" + d;
  }

  lemma SplitScoped(s: KeyScope, name: string, id: string)
    requires ValidScope(s) && '/' !in name && '/' !in id
    ensures Split(Under(ScopeText(s), name, id), '/') == ScopeSegments(s) + [name, id]
  {
    ScopeIsLiteral(s);
    hide Split, ValidScope;
    if s.host.Some? {
      SplitFour(s.service, s.host.value, name, id);
    } else {
      SplitThree(s.service, name, id);
    }
  }

  lemma SplitAvailable(s: KeyScope)
    requires ValidScope(s)
    ensures Split(AvailableKey(s), '/') == ScopeSegments(s) + ["available"]
  {
    ScopeIsLiteral(s);
    hide Split, ValidScope;
    if s.host.Some? {
      SplitThree(s.service, s.host.value, "available");
    } else {
      SplitTwo(s.service, "available");
    }
  }

  lemma RoleKeyText(s: KeyScope, role: Role, id: string)
    ensures ImportKey(s, role, id) == Under(ScopeText(s), RoleName(role), id)
    ensures ExportKey(s, role, id) == Under(ScopeText(s), RoleName(role), id)
  {
    hide RoleName;
    if s.host.Some? {
      assert ImportKey(s, role, id) == s.service + "/" + s.host.value + "/" + (RoleName(role) + "/" + id);
      assert ExportKey(s, role, id) == s.service + ("/" + s.host.value) + "/" + RoleName(role) + "/" + id;
    } else {
      assert s.service + "" == s.service;
      assert ImportKey(s, role, id) == s.service + "/" + (RoleName(role) + "/" + id);
    }
  }

  lemma RoleNames(role: Role, role': Role)
    ensures '/' !in RoleName(role)
    ensures RoleName(role) == RoleName(role') <==> role == role'
  {
    assert RoleName(role) == RoleName(role') ==> RoleName(role)[0] == RoleName(role')[0];
  }

  lemma SegmentsAreInjective(s: KeyScope, name: string, id: string, s': KeyScope, name': string, id': string)
    ensures ScopeSegments(s) + [name, id] == ScopeSegments(s') + [name', id'] <==>
            s == s' && name == name' && id == id'
  {
    var k, k' := ScopeSegments(s) + [name, id], ScopeSegments(s') + [name', id'];
    if k == k' {
      assert k[|k| - 1] == id && k[|k| - 2] == name && k[0] == s.service;
      assert |k| == 4 ==> k[1] == s.host.value && k'[1] == s'.host.value;
    }
  }

  /** Both bridges meet on the same key, distinct (scope, role, id) have distinct
      keys, and a client's id is read back off its key. */
  lemma KeysAreInjective(s: KeyScope, role: Role, id: string, s': KeyScope, role': Role, id': string)
    requires ValidScope(s) && ValidScope(s') && IsLiteral(id) && IsLiteral(id')
    ensures ImportKey(s, role, id) == ExportKey(s', role', id') <==> s == s' && role == role' && id == id'
    ensures LastSegment(ImportKey(s, role, id)) == id
  {
    RoleKeyText(s, role, id);
    RoleKeyText(s', role', id');
    RoleNames(role, role');
    RoleNames(role', role);
    SplitScoped(s, RoleName(role), id);
    SplitScoped(s', RoleName(role'), id');
    SegmentsAreInjective(s, RoleName(role), id, s', RoleName(role'), id');
    hide Split, RoleName, ValidScope, ImportKey, ExportKey, ScopeText, Under;
  }

  // --- What a subscription sees ---

  /** Every kind of liveliness token in the system. */
  datatype Token =
    | ClientToken(scope: KeyScope, id: string)
    | AvailableToken(scope: KeyScope)
    | ClaimToken(scope: KeyScope, claim: string)

  ghost predicate ValidToken(t: Token) {
    && ValidScope(t.scope)
    && (t.ClientToken? ==> IsLiteral(t.id))
    && (t.ClaimToken? ==> IsLiteral(t.claim))
  }

  function TokenKey(t: Token): string {
    match t
    case ClientToken(scope, id) => ImportKey(scope, Clients, id)
    case AvailableToken(scope) => AvailableKey(scope)
    case ClaimToken(scope, claim) => ClaimKey(scope, claim)
  }

  function TokenSegments(t: Token): seq<string> {
    match t
    case ClientToken(scope, id) => ScopeSegments(scope) + ["clients", id]
    case AvailableToken(scope) => ScopeSegments(scope) + ["available"]
    case ClaimToken(scope, claim) => ScopeSegments(scope) + ["exporter-claim", claim]
  }

  lemma SplitToken(t: Token)
    requires ValidToken(t)
    ensures Split(TokenKey(t), '/') == TokenSegments(t)
  {
    match t
    case ClientToken(scope, id) =>
      RoleKeyText(scope, Clients, id);
      SplitScoped(scope, "clients", id);
      hide Split, ImportKey, ScopeText, Under, ScopeSegments, ValidScope;
    case AvailableToken(scope) => SplitAvailable(scope);
    case ClaimToken(scope, claim) => SplitScoped(scope, "exporter-claim", claim);
  }

  lemma SplitPatterns(s: KeyScope)
    requires ValidScope(s)
    ensures Split(ClientsPattern(s), '/') == ScopeSegments(s) + ["clients", "*"]
    ensures Split(ClaimsPattern(s), '/') == ScopeSegments(s) + ["exporter-claim", "*"]
  {
    SplitScoped(s, "clients", "*");
    SplitScoped(s, "exporter-claim", "*");
    hide Split, ScopeText, Under, ScopeSegments, ValidScope;
  }

  lemma CoversScoped(s: KeyScope, name: string, s': KeyScope, name': string, id: string)
    requires IsLiteral(s.service) && (s.host.Some? ==> IsLiteral(s.host.value)) && name != "*"
    ensures Covers(ScopeSegments(s) + [name, "*"], ScopeSegments(s') + [name', id]) <==> s' == s && name' == name
  {
    var p, k := ScopeSegments(s) + [name, "*"], ScopeSegments(s') + [name', id];
    assert p[0] == s.service && k[0] == s'.service;
    if |p| == |k| == 4 {
      assert p[1] == s.host.value && k[1] == s'.host.value && p[2] == name && k[2] == name' && p[3] == "*";
    } else if |p| == |k| {
      assert p[1] == name && k[1] == name' && p[2] == "*";
    }
  }

  lemma CoversAvailable(s: KeyScope, name: string, s': KeyScope)
    requires IsLiteral(s.service) && name != "*"
    ensures Covers(ScopeSegments(s) + [name, "*"], ScopeSegments(s') + ["available"]) <==>
            s.host == None && s' == KeyScope(s.service, Some(name))
  {
    var p, k := ScopeSegments(s) + [name, "*"], ScopeSegments(s') + ["available"];
    assert p[0] == s.service && k[0] == s'.service;
    if |p| == |k| {
      assert p[1] == name && k[1] == s'.host.value && p[2] == "*";
    }
  }

  /** The wildcard under `{scope}/{name}` covers a token of the same scope and name, or the
      availability of a host that is called `name`. */
  lemma CoversExactly(s: KeyScope, name: string, t: Token)
    requires ValidScope(s) && ValidToken(t) && name in {"clients", "exporter-claim"}
    ensures Covers(ScopeSegments(s) + [name, "*"], TokenSegments(t)) <==>
            || (t.scope == s && t.ClientToken? && name == "clients")
            || (t.scope == s && t.ClaimToken? && name == "exporter-claim")
            || (s.host == None && t == AvailableToken(KeyScope(s.service, Some(name))))
  {
    ScopeIsLiteral(s);
    assert "clients" != "exporter-claim" by {
      assert "clients"[0] == 'c' && "exporter-claim"[0] == 'e';
    }
    hide ValidScope, ValidToken, Covers, ScopeSegments;
    match t
    case ClientToken(scope, id) => CoversScoped(s, name, scope, "clients", id);
    case ClaimToken(scope, claim) => CoversScoped(s, name, scope, "exporter-claim", claim);
    case AvailableToken(scope) => CoversAvailable(s, name, scope);
  }

  /** A scope's client watch sees that scope's clients, and one thing more: the
      availability of a host called "clients". */
  lemma ClientsMatch(s: KeyScope, t: Token)
    requires ValidScope(s) && ValidToken(t)
    ensures Matches(ClientsPattern(s), TokenKey(t)) <==>
            || (t.ClientToken? && t.scope == s)
            || (s.host == None && t == AvailableToken(KeyScope(s.service, Some("clients"))))
  {
    SplitPatterns(s);
    SplitToken(t);
    CoversExactly(s, "clients", t);
  }

  lemma ClaimsMatch(s: KeyScope, t: Token)
    requires ValidScope(s) && ValidToken(t)
    ensures Matches(ClaimsPattern(s), TokenKey(t)) <==>
            || (t.ClaimToken? && t.scope == s)
            || (s.host == None && t == AvailableToken(KeyScope(s.service, Some("exporter-claim"))))
  {
    SplitPatterns(s);
    SplitToken(t);
    CoversExactly(s, "exporter-claim", t);
  }

  ghost predicate SeenExactly(s: KeyScope, t: Token) {
    && (Matches(ClientsPattern(s), TokenKey(t)) <==> t.ClientToken? && t.scope == s)
    && (Matches(ClaimsPattern(s), TokenKey(t)) <==> t.ClaimToken? && t.scope == s)
  }

  predicate Collides(s: KeyScope, t: Token) {
    && s.host == None && t.AvailableToken?
    && (t.scope == KeyScope(s.service, Some("clients")) || t.scope == KeyScope(s.service, Some("exporter-claim")))
  }

  lemma SeenExactlyWhen(s: KeyScope, t: Token)
    requires ValidScope(s) && ValidToken(t)
    ensures SeenExactly(s, t) <==> !Collides(s, t)
  {
    ClientsMatch(s, t);
    ClaimsMatch(s, t);
    hide Matches, ClientsPattern, ClaimsPattern, TokenKey, ValidScope, ValidToken;
  }

  /** Among the scopes in use, every watch sees exactly its own scope's tokens. */
  ghost predicate WatchesAreExact(scopes: set<KeyScope>) {
    forall s: KeyScope, t: Token :: s in scopes && t.scope in scopes && ValidToken(t) ==> SeenExactly(s, t)
  }

  /** Watches are exact exactly when no service that is watched as a whole has a
      host called "clients" or "exporter-claim". */
  lemma WatchesAreExactWhen(scopes: set<KeyScope>)
    requires forall s :: s in scopes ==> ValidScope(s)
    ensures WatchesAreExact(scopes) <==>
            forall s :: s in scopes && s.host == None ==>
              KeyScope(s.service, Some("clients")) !in scopes && KeyScope(s.service, Some("exporter-claim")) !in scopes
  {
    hide SeenExactly, ValidScope;
    forall s, t: Token | s in scopes && t.scope in scopes && ValidToken(t)
      ensures SeenExactly(s, t) <==> !Collides(s, t)
    {
      SeenExactlyWhen(s, t);
    }
    forall s, host | s in scopes && s.host == None && host in {"clients", "exporter-claim"} && WatchesAreExact(scopes)
      ensures KeyScope(s.service, Some(host)) !in scopes
    {
      var t := AvailableToken(KeyScope(s.service, Some(host)));
      assert Collides(s, t);
      assert t.scope in scopes ==> ValidToken(t);
    }
  }

  // --- The phantom claim ---

  lemma {:induction false} StartsWithDigit(n: nat)
    ensures Decimal(n) != [] && IsDigit(Decimal(n)[0])
  {
    if n >= 10 {
      StartsWithDigit(n / 10);
    }
  }

  /** A host called "exporter-claim" shows up in its service's election as the
      claim "available".  It sorts after every claim there is, so it changes
      nobody's role. */
  lemma PhantomClaimIsHarmless(service: string, claims: set<string>, own: ClaimOrder.Claimant)
    requires ValidService(service)
    ensures var mine := ClaimOrder.Segment(own);
            && Election.Elect(claims + {"available"}, mine) == Election.Elect(claims, mine)
            && LastSegment(AvailableKey(KeyScope(service, Some("exporter-claim")))) == "available"
  {
    StartsWithDigit(own.ts);
    var mine := ClaimOrder.Segment(own);
    assert IsDigit(mine[0]);
    assert ClaimOrder.Less(mine, "available");
    SplitThree(service, "exporter-claim", "available");
  }
}

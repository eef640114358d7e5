/** The `--listen` and `--backend` grammars (src/spec.rs). */
module Spec {
  import opened Streams
  import opened Text
  import opened Keys
  import Dns

  datatype Proto = Auto | Raw

  datatype Tls = Passthrough | Terminate(cert: string, key: string)

  datatype Route = Connection | Request

  datatype ListenSpec<A> = ListenSpec(service: string, addr: A, proto: Proto, tls: Tls, route: Route)

  datatype Target<A> = Tcp(addr: A) | Ws(url: string)

  datatype BackendSpec<A> = BackendSpec(service: string, host: Option<string>, target: Target<A>)

  datatype SpecError =
    | NoSlash | BadService | BadAddress
    | EmptyOption | NotKeyValue | EmptyValue | Duplicate(name: string) | UnknownOption(name: string)
    | BadProto | BadRoute | LoneCert | LoneKey
    | RawRequest | RawTerminate | RequestTerminate
    | EmptyHost | BadHost(why: Dns.KeyResult)

  datatype Parsed<+T> = Good(value: T) | Bad(error: SpecError)

  /** The socket address type of the standard library, printed and parsed. */
  datatype Codec<!A> = Codec(parse: string -> Option<A>, print_: A -> string)

  predicate IsUrl(text: string) {
    StartsWith(text, "ws://") || StartsWith(text, "wss://")
  }

  /** What is assumed of it: parsing undoes printing, and no address is printed
      with a comma or as a URL. */
  ghost predicate Inverse<A(!new)>(codec: Codec<A>) {
    forall a: A ::
      codec.parse(codec.print_(a)) == Some(a) && ',' !in codec.print_(a) && !IsUrl(codec.print_(a))
  }

  // --- Parsing a listen spec ---

  datatype Options = Options(proto: Option<Proto>, route: Option<Route>, cert: Option<string>, key: Option<string>)

  const NO_OPTIONS := Options(None, None, None, None)

  function TakeOption(o: Options, opt: string): Parsed<Options> {
    if opt == "" then Bad(EmptyOption)
    else match SplitOnce(opt, '=')
      case None => Bad(NotKeyValue)
      case Some((name, value)) =>
        if value == "" then Bad(EmptyValue)
        else if name == "proto" then
          if o.proto.Some? then Bad(Duplicate(name))
          else if value == "auto" then Good(o.(proto := Some(Auto)))
          else if value == "raw" then Good(o.(proto := Some(Raw)))
          else Bad(BadProto)
        else if name == "route" then
          if o.route.Some? then Bad(Duplicate(name))
          else if value == "connection" then Good(o.(route := Some(Connection)))
          else if value == "request" then Good(o.(route := Some(Request)))
          else Bad(BadRoute)
        else if name == "cert" then
          if o.cert.Some? then Bad(Duplicate(name)) else Good(o.(cert := Some(value)))
        else if name == "key" then
          if o.key.Some? then Bad(Duplicate(name)) else Good(o.(key := Some(value)))
        else Bad(UnknownOption(name))
  }

  function TakeOptions(o: Options, opts: seq<string>): Parsed<Options>
    decreases |opts|
  {
    if opts == [] then Good(o)
    else match TakeOption(o, opts[0])
      case Bad(e) => Bad(e)
      case Good(o') => TakeOptions(o', opts[1..])
  }

  function Combine<A>(service: string, addr: A, o: Options): Parsed<ListenSpec<A>> {
    if o.cert.Some? && o.key.None? then Bad(LoneCert)
    else if o.cert.None? && o.key.Some? then Bad(LoneKey)
    else
      var tls := if o.cert.Some? && o.key.Some? then Terminate(o.cert.value, o.key.value) else Passthrough;
      var proto := if o.proto.Some? then o.proto.value else Auto;
      var route := if o.route.Some? then o.route.value else Connection;
      if proto == Raw && route == Request then Bad(RawRequest)
      else if proto == Raw && tls.Terminate? then Bad(RawTerminate)
      else if route == Request && tls.Terminate? then Bad(RequestTerminate)
      else Good(ListenSpec(service, addr, proto, tls, route))
  }

  function ParseListen<A>(codec: Codec<A>, text: string): Parsed<ListenSpec<A>> {
    match SplitOnce(text, '/')
    case None => Bad(NoSlash)
    case Some((service, rest)) =>
      if !ValidService(service) then Bad(BadService)
      else
        var parts := Split(rest, ',');
        match codec.parse(parts[0])
        case None => Bad(BadAddress)
        case Some(addr) =>
          match TakeOptions(NO_OPTIONS, parts[1..])
          case Bad(e) => Bad(e)
          case Good(o) => Combine(service, addr, o)
  }

  /** The parser as the source runs it: one pass over the options. */
  method ParseListenSpec<A>(codec: Codec<A>, text: string) returns (r: Parsed<ListenSpec<A>>)
    ensures r == ParseListen(codec, text)
  {
    var head := SplitOnce(text, '/');
    if head.None? {
      return Bad(NoSlash);
    }
    var (service, rest) := head.value;
    if !ValidService(service) {
      return Bad(BadService);
    }
    var parts := Split(rest, ',');
    var addr := codec.parse(parts[0]);
    if addr.None? {
      return Bad(BadAddress);
    }
    var o, i := NO_OPTIONS, 1;
    while i < |parts|
      invariant 1 <= i <= |parts|
      invariant TakeOptions(NO_OPTIONS, parts[1..]) == TakeOptions(o, parts[i..])
    {
      assert parts[i..][1..] == parts[i + 1..];
      match TakeOption(o, parts[i]) {
        case Bad(e) => return Bad(e);
        case Good(next) => o := next;
      }
      i := i + 1;
    }
    r := Combine(service, addr.value, o);
  }

  // --- What the options mean ---

  datatype Name = ProtoName | RouteName | CertName | KeyName

  function NameOf(opt: string): Option<Name> {
    if StartsWith(opt, "proto=") then Some(ProtoName)
    else if StartsWith(opt, "route=") then Some(RouteName)
    else if StartsWith(opt, "cert=") then Some(CertName)
    else if StartsWith(opt, "key=") then Some(KeyName)
    else None
  }

  predicate Known(opt: string) {
    || opt == "proto=auto" || opt == "proto=raw" || opt == "route=connection" || opt == "route=request"
    || (StartsWith(opt, "cert=") && opt != "cert=") || (StartsWith(opt, "key=") && opt != "key=")
  }

  predicate Gives(opts: seq<string>, name: Name) {
    exists opt :: opt in opts && NameOf(opt) == Some(name)
  }

  /** Options that are known, of which no two have the same name. */
  predicate Distinct(opts: seq<string>) {
    && (forall opt :: opt in opts ==> Known(opt))
    && (forall i, j :: 0 <= i < j < |opts| ==> NameOf(opts[i]) != NameOf(opts[j]))
  }

  /** What is collected from `opts`, in whatever order they come. */
  predicate Collects(o: Options, opts: seq<string>) {
    && (o.proto.Some? <==> Gives(opts, ProtoName)) && (o.proto == Some(Raw) <==> "proto=raw" in opts)
    && (o.route.Some? <==> Gives(opts, RouteName)) && (o.route == Some(Request) <==> "route=request" in opts)
    && (o.cert.Some? <==> Gives(opts, CertName)) && (o.cert.Some? ==> "cert=" + o.cert.value in opts)
    && (o.key.Some? <==> Gives(opts, KeyName)) && (o.key.Some? ==> "key=" + o.key.value in opts)
  }

  lemma SplitsAs(opt: string, name: string)
    requires '=' !in name
    ensures StartsWith(opt, name + "=") <==> SplitOnce(opt, '=').Some? && SplitOnce(opt, '=').value.0 == name
    ensures StartsWith(opt, name + "=") ==> SplitOnce(opt, '=').value.1 == opt[|name| + 1..]
  {
    if StartsWith(opt, name + "=") {
      assert opt == name + ['='] + opt[|name| + 1..];
      SplitOnceAt(name, '=', opt[|name| + 1..]);
    }
    if SplitOnce(opt, '=').Some? && SplitOnce(opt, '=').value.0 == name {
      assert opt == name + "=" + SplitOnce(opt, '=').value.1;
    }
  }

  predicate Already(o: Options, name: Name) {
    match name
    case ProtoName => o.proto.Some?
    case RouteName => o.route.Some?
    case CertName => o.cert.Some?
    case KeyName => o.key.Some?
  }

  /** What one more option does. */
  function With(o: Options, opt: string): Options {
    match NameOf(opt)
    case Some(ProtoName) => o.(proto := Some(if opt == "proto=raw" then Raw else Auto))
    case Some(RouteName) => o.(route := Some(if opt == "route=request" then Request else Connection))
    case Some(CertName) => o.(cert := Some(opt[5..]))
    case Some(KeyName) => o.(key := Some(opt[4..]))
    case None => o
  }

  lemma OneName(opt: string)
    ensures StartsWith(opt, "proto=") ==> opt[0] == 'p' && opt != ""
    ensures StartsWith(opt, "route=") ==> opt[0] == 'r' && opt != ""
    ensures StartsWith(opt, "cert=") ==> opt[0] == 'c' && opt != ""
    ensures StartsWith(opt, "key=") ==> opt[0] == 'k' && opt != ""
  {
    assert "proto="[0] == 'p' && "route="[0] == 'r' && "cert="[0] == 'c' && "key="[0] == 'k';
  }

  lemma TakesProto(o: Options, opt: string)
    requires StartsWith(opt, "proto=")
    ensures TakeOption(o, opt).Good? <==> (opt == "proto=auto" || opt == "proto=raw") && o.proto.None?
    ensures TakeOption(o, opt).Good? ==>
              TakeOption(o, opt).value == o.(proto := Some(if opt == "proto=raw" then Raw else Auto))
  {
    SplitsAs(opt, "proto");
    ValueIs(opt, "proto=", "auto");
    ValueIs(opt, "proto=", "raw");
    hide SplitOnce;
    assert "proto" + "=" == "proto=" && "proto=" + "auto" == "proto=auto" && "proto=" + "raw" == "proto=raw";
    assert "auto" != "" && "raw" != "" && "auto"[0] != "raw"[0];
  }

  lemma TakesRoute(o: Options, opt: string)
    requires StartsWith(opt, "route=")
    ensures TakeOption(o, opt).Good? <==> (opt == "route=connection" || opt == "route=request") && o.route.None?
    ensures TakeOption(o, opt).Good? ==>
              TakeOption(o, opt).value == o.(route := Some(if opt == "route=request" then Request else Connection))
  {
    SplitsAs(opt, "route");
    ValueIs(opt, "route=", "connection");
    ValueIs(opt, "route=", "request");
    hide SplitOnce;
    assert "route" + "=" == "route=" && "route"[0] != "proto"[0];
    assert "route=" + "connection" == "route=connection" && "route=" + "request" == "route=request";
    assert "connection" != "" && "request" != "" && "connection"[0] != "request"[0];
  }

  lemma TakesPath(o: Options, opt: string)
    ensures StartsWith(opt, "cert=") ==>
              && (TakeOption(o, opt).Good? <==> opt != "cert=" && o.cert.None?)
              && (TakeOption(o, opt).Good? ==> TakeOption(o, opt).value == o.(cert := Some(opt[5..])))
    ensures StartsWith(opt, "key=") ==>
              && (TakeOption(o, opt).Good? <==> opt != "key=" && o.key.None?)
              && (TakeOption(o, opt).Good? ==> TakeOption(o, opt).value == o.(key := Some(opt[4..])))
  {
    SplitsAs(opt, "cert");
    SplitsAs(opt, "key");
    ValueIs(opt, "cert=", "");
    ValueIs(opt, "key=", "");
    hide SplitOnce;
    assert "cert" + "=" == "cert=" == "cert=" + "" && "key" + "=" == "key=" == "key=" + "";
    assert |"key"| == 3 && |"cert"| == 4 && |"proto"| == 5 && |"route"| == 5;
  }

  lemma TakesNothing(o: Options, opt: string)
    requires NameOf(opt).None?
    ensures TakeOption(o, opt).Bad?
  {
    SplitsAs(opt, "proto");
    SplitsAs(opt, "route");
    SplitsAs(opt, "cert");
    SplitsAs(opt, "key");
    hide SplitOnce;
    assert "proto" + "=" == "proto=" && "route" + "=" == "route=" && "cert" + "=" == "cert=" && "key" + "=" == "key=";
  }

  lemma TakesKnown(o: Options, opt: string)
    ensures TakeOption(o, opt).Good? <==> Known(opt) && NameOf(opt).Some? && !Already(o, NameOf(opt).value)
    ensures TakeOption(o, opt).Good? ==> TakeOption(o, opt).value == With(o, opt)
  {
    OneName(opt);
    TakesPath(o, opt);
    hide TakeOption;
    if StartsWith(opt, "proto=") {
      TakesProto(o, opt);
    } else if StartsWith(opt, "route=") {
      TakesRoute(o, opt);
    } else if NameOf(opt).None? {
      TakesNothing(o, opt);
    }
  }

  lemma KnownIsNamed(opt: string)
    requires Known(opt)
    ensures NameOf(opt).Some?
  {
    assert "proto=" <= "proto=auto" && "proto=" <= "proto=raw";
    assert "route=" <= "route=connection" && "route=" <= "route=request";
  }

  lemma NamesOfValues()
    ensures NameOf("proto=raw") == Some(ProtoName) && NameOf("route=request") == Some(RouteName)
  {
    OneName("proto=raw");
    OneName("route=request");
    assert "proto=" <= "proto=raw" && "route=" <= "route=request";
  }

  lemma GivesSnoc(opts: seq<string>, opt: string, name: Name)
    ensures Gives(opts + [opt], name) <==> Gives(opts, name) || NameOf(opt) == Some(name)
  {
    hide NameOf;
    assert forall x :: x in opts + [opt] <==> x in opts || x == opt;
  }

  lemma PathAfter(opt: string)
    ensures StartsWith(opt, "cert=") ==> opt == "cert=" + opt[5..]
    ensures StartsWith(opt, "key=") ==> opt == "key=" + opt[4..]
  {
    assert |"cert="| == 5 && |"key="| == 4;
  }

  lemma CollectsOne(o: Options, done: seq<string>, opt: string)
    requires Collects(o, done) && NameOf(opt).Some? && !Already(o, NameOf(opt).value)
    ensures Collects(With(o, opt), done + [opt])
  {
    GivesSnoc(done, opt, ProtoName);
    GivesSnoc(done, opt, RouteName);
    GivesSnoc(done, opt, CertName);
    GivesSnoc(done, opt, KeyName);
    NamesOfValues();
    PathAfter(opt);
    assert forall x :: x in done + [opt] <==> x in done || x == opt;
    assert "proto=raw" in done ==> Gives(done, ProtoName);
    assert "route=request" in done ==> Gives(done, RouteName);
    CertMeans(opt);
    hide Gives, StartsWith;
  }

  lemma CertMeans(opt: string)
    ensures NameOf(opt) == Some(CertName) ==> StartsWith(opt, "cert=")
    ensures NameOf(opt) == Some(KeyName) ==> StartsWith(opt, "key=")
    ensures NameOf(opt) == Some(ProtoName) ==> StartsWith(opt, "proto=")
    ensures NameOf(opt) == Some(RouteName) ==> StartsWith(opt, "route=")
  {
  }

  lemma ValueIs(opt: string, prefix: string, value: string)
    ensures opt == prefix + value <==> StartsWith(opt, prefix) && opt[|prefix|..] == value
  {
    if StartsWith(opt, prefix) {
      assert opt == prefix + opt[|prefix|..];
    }
  }

  lemma DistinctSnoc(done: seq<string>, opt: string)
    ensures Distinct(done + [opt]) <==> Distinct(done) && Known(opt) && (NameOf(opt).Some? ==> !Gives(done, NameOf(opt).value))
  {
    hide Known, StartsWith;
    var all := done + [opt];
    assert forall i :: 0 <= i < |done| ==> all[i] == done[i] && done[i] in done;
    assert all[|done|] == opt && opt in all && forall x :: x in done ==> x in all;
    if Known(opt) {
      KnownIsNamed(opt);
      hide NameOf;
      if Distinct(done) && !Gives(done, NameOf(opt).value) {
        assert forall i :: 0 <= i < |done| ==> NameOf(done[i]) != NameOf(opt);
      }
      if Gives(done, NameOf(opt).value) {
        var x :| x in done && NameOf(x) == Some(NameOf(opt).value);
        var k :| 0 <= k < |done| && done[k] == x;
        assert NameOf(all[k]) == NameOf(all[|done|]);
      }
    }
  }

  lemma DistinctPrefix(a: seq<string>, b: seq<string>)
    requires Distinct(a + b)
    ensures Distinct(a)
  {
    hide Known, NameOf;
    assert forall i :: 0 <= i < |a| ==> (a + b)[i] == a[i];
    assert forall x :: x in a ==> x in a + b;
  }

  lemma AlreadyGiven(o: Options, done: seq<string>, name: Name)
    requires Collects(o, done)
    ensures Already(o, name) <==> Gives(done, name)
  {
    hide Gives;
  }

  lemma {:induction false} TakesAll(o: Options, done: seq<string>, opts: seq<string>)
    requires Collects(o, done) && Distinct(done)
    ensures TakeOptions(o, opts).Good? <==> Distinct(done + opts)
    ensures TakeOptions(o, opts).Good? ==> Collects(TakeOptions(o, opts).value, done + opts)
    decreases |opts|
  {
    hide TakeOption, Collects, Distinct, Known, NameOf, Gives, Already;
    if opts == [] {
      assert done + opts == done;
    } else {
      var opt := opts[0];
      assert done + opts == (done + [opt]) + opts[1..];
      TakesKnown(o, opt);
      if Known(opt) {
        KnownIsNamed(opt);
        DistinctSnoc(done, opt);
        AlreadyGiven(o, done, NameOf(opt).value);
      } else {
        UnknownSpoils(done, opt);
      }
      if TakeOption(o, opt).Good? {
        CollectsOne(o, done, opt);
        TakesAll(With(o, opt), done + [opt], opts[1..]);
      } else if Distinct(done + opts) {
        DistinctPrefix(done + [opt], opts[1..]);
      }
    }
  }

  lemma UnknownSpoils(done: seq<string>, opt: string)
    requires !Known(opt)
    ensures !Distinct(done + [opt])
  {
    assert opt in done + [opt];
  }

  /** Settings that do not contradict each other. */
  predicate Compatible(opts: seq<string>) {
    && (Gives(opts, CertName) <==> Gives(opts, KeyName))
    && !("proto=raw" in opts && "route=request" in opts)
    && !("proto=raw" in opts && Gives(opts, CertName))
    && !("route=request" in opts && Gives(opts, CertName))
  }

  lemma CombinesExactly<A>(service: string, addr: A, o: Options, opts: seq<string>)
    requires Collects(o, opts)
    ensures Combine(service, addr, o).Good? <==> Compatible(opts)
    ensures Combine(service, addr, o).Good? ==> Means(Combine(service, addr, o).value, service, addr, opts)
  {
    hide Gives;
  }

  ghost predicate Means<A>(s: ListenSpec<A>, service: string, addr: A, opts: seq<string>) {
    && s.service == service && s.addr == addr
    && (s.proto == Raw <==> "proto=raw" in opts)
    && (s.route == Request <==> "route=request" in opts)
    && (s.tls.Terminate? <==> Gives(opts, CertName))
    && (s.tls.Terminate? ==> "cert=" + s.tls.cert in opts && "key=" + s.tls.key in opts)
  }

  /** A text of these parts is a listen spec exactly when the service name is
      valid, the address parses, and the options are known, of different names and
      compatible; in whatever order they come, the spec is raw if they say so, per
      request if they say so, terminates with the paths they give, and has the
      defaults otherwise. */
  lemma ListenMeans<A>(codec: Codec<A>, service: string, address: string, opts: seq<string>)
    requires '/' !in service && ',' !in address && forall opt :: opt in opts ==> ',' !in opt
    ensures var r := ParseListen(codec, service + "/" + Join([address] + opts, ','));
            && (r.Good? <==>
                ValidService(service) && codec.parse(address).Some? && Distinct(opts) && Compatible(opts))
            && (r.Good? ==> Means(r.value, service, codec.parse(address).value, opts))
  {
    var parts := [address] + opts;
    SplitOnceAt(service, '/', Join(parts, ','));
    SplitJoin(parts, ',');
    TakesAll(NO_OPTIONS, [], opts);
    assert [] + opts == opts && parts[1..] == opts;
    hide Distinct, Compatible, Collects, Means, TakeOptions, Combine, ValidService, Gives, Split, SplitOnce, Join;
    if codec.parse(address).Some? && TakeOptions(NO_OPTIONS, opts).Good? {
      CombinesExactly(service, codec.parse(address).value, TakeOptions(NO_OPTIONS, opts).value, opts);
    }
  }

  /** And every text with a slash is such a text. */
  lemma EveryListenText(text: string) returns (service: string, address: string, opts: seq<string>)
    requires '/' in text
    ensures '/' !in service && ',' !in address && forall opt :: opt in opts ==> ',' !in opt
    ensures text == service + "/" + Join([address] + opts, ',')
  {
    service := SplitOnce(text, '/').value.0;
    var rest := SplitOnce(text, '/').value.1;
    var parts := Split(rest, ',');
    address, opts := parts[0], parts[1..];
    assert parts == [address] + opts;
    JoinSplit(rest, ',');
  }

  // --- Printing it ---

  function Setting(name: string, value: string): string {
    name + "=" + value
  }

  function PrintListen<A>(codec: Codec<A>, s: ListenSpec<A>): string {
    s.service + "/" + codec.print_(s.addr)
    + (if s.proto == Raw then "," + Setting("proto", "raw") else "")
    + (if s.tls.Terminate? then "," + Setting("cert", s.tls.cert) + "," + Setting("key", s.tls.key) else "")
    + (if s.route == Request then "," + Setting("route", "request") else "")
  }

  predicate IsPath(path: string) {
    path != "" && ',' !in path
  }

  /** The specs the parser can produce. */
  predicate Accepted<A>(s: ListenSpec<A>) {
    && ValidService(s.service)
    && !(s.proto == Raw && s.route == Request)
    && !(s.proto == Raw && s.tls.Terminate?)
    && !(s.route == Request && s.tls.Terminate?)
    && (s.tls.Terminate? ==> IsPath(s.tls.cert) && IsPath(s.tls.key))
  }

  predicate PathsOk(o: Options) {
    (o.cert.Some? ==> IsPath(o.cert.value)) && (o.key.Some? ==> IsPath(o.key.value))
  }

  lemma {:induction false} OptionPathsOk(o: Options, opts: seq<string>)
    requires PathsOk(o) && forall opt :: opt in opts ==> ',' !in opt
    ensures TakeOptions(o, opts).Good? ==> PathsOk(TakeOptions(o, opts).value)
    decreases |opts|
  {
    if opts != [] && TakeOption(o, opts[0]).Good? {
      assert ',' !in opts[0];
      OptionPathsOk(TakeOption(o, opts[0]).value, opts[1..]);
    }
  }

  lemma ParsedIsAccepted<A>(codec: Codec<A>, text: string)
    ensures ParseListen(codec, text).Good? ==> Accepted(ParseListen(codec, text).value)
  {
    if ParseListen(codec, text).Good? {
      var (service, rest) := SplitOnce(text, '/').value;
      OptionPathsOk(NO_OPTIONS, Split(rest, ',')[1..]);
    }
  }

  function OptionTexts<A>(s: ListenSpec<A>): seq<string> {
    if s.proto == Raw then [Setting("proto", "raw")]
    else if s.tls.Terminate? then [Setting("cert", s.tls.cert), Setting("key", s.tls.key)]
    else if s.route == Request then [Setting("route", "request")]
    else []
  }

  lemma SettingSplits(name: string, value: string)
    requires '=' !in name
    ensures Setting(name, value) != "" && SplitOnce(Setting(name, value), '=') == Some((name, value))
  {
    SplitOnceAt(name, '=', value);
  }

  lemma TakeProto(o: Options)
    requires o.proto.None?
    ensures TakeOption(o, Setting("proto", "raw")) == Good(o.(proto := Some(Raw)))
  {
    SettingSplits("proto", "raw");
    hide Setting, SplitOnce;
    assert "raw" != "auto" && "raw" != "";
  }

  lemma TakeRoute(o: Options)
    requires o.route.None?
    ensures TakeOption(o, Setting("route", "request")) == Good(o.(route := Some(Request)))
  {
    SettingSplits("route", "request");
    hide Setting, SplitOnce;
    assert "route"[0] != "proto"[0] && "request" != "connection" && "request" != "";
  }

  lemma TakeCert(o: Options, path: string)
    requires o.cert.None? && path != ""
    ensures TakeOption(o, Setting("cert", path)) == Good(o.(cert := Some(path)))
  {
    SettingSplits("cert", path);
    hide Setting, SplitOnce;
    assert |"cert"| == 4 && |"proto"| == 5 && |"route"| == 5;
  }

  lemma TakeKey(o: Options, path: string)
    requires o.key.None? && path != ""
    ensures TakeOption(o, Setting("key", path)) == Good(o.(key := Some(path)))
  {
    SettingSplits("key", path);
    hide Setting, SplitOnce;
    assert |"key"| == 3 && |"cert"| == 4 && |"proto"| == 5 && |"route"| == 5;
  }

  lemma OptionsComeBack<A>(s: ListenSpec<A>)
    requires Accepted(s)
    ensures match TakeOptions(NO_OPTIONS, OptionTexts(s))
            case Bad(_) => false
            case Good(o) => Combine(s.service, s.addr, o) == Good(s)
  {
    hide TakeOption, Setting, ValidService;
    if s.proto == Raw {
      TakeProto(NO_OPTIONS);
      var o := NO_OPTIONS.(proto := Some(Raw));
      assert OptionTexts(s)[1..] == [];
      assert TakeOptions(o, []) == Good(o);
    } else if s.tls.Terminate? {
      TakeCert(NO_OPTIONS, s.tls.cert);
      var o := NO_OPTIONS.(cert := Some(s.tls.cert));
      TakeKey(o, s.tls.key);
      var opts := OptionTexts(s);
      assert opts[1..] == [Setting("key", s.tls.key)];
      assert TakeOptions(o, opts[1..]) == Good(o.(key := Some(s.tls.key)));
    } else if s.route == Request {
      TakeRoute(NO_OPTIONS);
      var o := NO_OPTIONS.(route := Some(Request));
      assert OptionTexts(s)[1..] == [];
      assert TakeOptions(o, []) == Good(o);
    }
  }

  lemma SettingsHaveNoComma<A>(s: ListenSpec<A>)
    requires Accepted(s)
    ensures forall part :: part in OptionTexts(s) ==> ',' !in part
  {
    if s.tls.Terminate? {
      assert ',' !in "cert=" && ',' !in "key=";
    }
  }

  lemma PrintedText<A>(codec: Codec<A>, s: ListenSpec<A>)
    requires Accepted(s)
    ensures PrintListen(codec, s) == s.service + "/" + Join([codec.print_(s.addr)] + OptionTexts(s), ',')
  {
    hide Setting, ValidService;
    var parts := [codec.print_(s.addr)] + OptionTexts(s);
    if |parts| == 2 {
      assert Join(parts, ',') == parts[0] + "," + parts[1];
    } else if |parts| == 3 {
      assert Join(parts[1..], ',') == parts[1] + "," + parts[2];
      assert Join(parts, ',') == parts[0] + "," + (parts[1] + "," + parts[2]);
    }
  }

  /** Printing and parsing again gives the spec back exactly when it is one the
      parser accepts. */
  lemma ListenPrintsBack<A(!new)>(codec: Codec<A>, s: ListenSpec<A>)
    requires Inverse(codec)
    ensures ParseListen(codec, PrintListen(codec, s)) == Good(s) <==> Accepted(s)
  {
    ParsedIsAccepted(codec, PrintListen(codec, s));
    if Accepted(s) {
      var parts := [codec.print_(s.addr)] + OptionTexts(s);
      PrintedText(codec, s);
      SettingsHaveNoComma(s);
      assert '/' !in s.service;
      SplitOnceAt(s.service, '/', Join(parts, ','));
      SplitJoin(parts, ',');
      OptionsComeBack(s);
    }
  }

  /** Every accepted listen spec round-trips. */
  lemma ListenRoundTrip<A(!new)>(codec: Codec<A>, text: string)
    requires Inverse(codec)
    ensures match ParseListen(codec, text)
            case Bad(_) => true
            case Good(s) => ParseListen(codec, PrintListen(codec, s)) == Good(s)
  {
    ParsedIsAccepted(codec, text);
    if ParseListen(codec, text).Good? {
      ListenPrintsBack(codec, ParseListen(codec, text).value);
    }
  }

  // --- Backend specs ---

  function ParseHead(head: string): Parsed<(string, Option<string>)> {
    match SplitOnce(head, '@')
    case None => Good((head, None))
    case Some((service, host)) =>
      if host == "" then Bad(EmptyHost)
      else match Dns.SpecHostKey(host)
        case Key(k) => Good((service, Some(k)))
        case why => Bad(BadHost(why))
  }

  function ParseBackend<A>(codec: Codec<A>, text: string): Parsed<BackendSpec<A>> {
    match SplitOnce(text, '/')
    case None => Bad(NoSlash)
    case Some((head, target)) =>
      match ParseHead(head)
      case Bad(e) => Bad(e)
      case Good((service, host)) =>
        if !ValidService(service) then Bad(BadService)
        else if host == Some("") then Bad(EmptyHost)
        else if IsUrl(target) then Good(BackendSpec(service, host, Ws(target)))
        else match codec.parse(target)
          case None => Bad(BadAddress)
          case Some(addr) => Good(BackendSpec(service, host, Tcp(addr)))
  }

  /** A text of these parts is a backend spec exactly when the service name is
      valid, the host, if there is one, names a routing key, and the target is a
      WebSocket URL or parses as an address; it means just these. */
  lemma BackendMeans<A>(codec: Codec<A>, service: string, host: Option<string>, target: string)
    requires '/' !in service && '@' !in service && (host.Some? ==> '/' !in host.value)
    ensures var r := ParseBackend(codec, (if host.Some? then service + "@" + host.value else service) + "/" + target);
            var url := StartsWith(target, "ws://") || StartsWith(target, "wss://");
            && (r.Good? <==>
                && ValidService(service) && (host.Some? ==> Dns.SpecHostKey(host.value).Key?)
                && (url || codec.parse(target).Some?))
            && (r.Good? ==>
                && r.value.service == service && (r.value.host.Some? <==> host.Some?)
                && (host.Some? ==> Dns.SpecHostKey(host.value) == Dns.Key(r.value.host.value))
                && r.value.target == if url then Ws(target) else Tcp(codec.parse(target).value))
  {
    var head := if host.Some? then service + "@" + host.value else service;
    SplitOnceAt(head, '/', target);
    if host.Some? {
      SplitOnceAt(service, '@', host.value);
      EmptyIsNoKey();
      NoKeyIsEmpty(host.value);
    }
    hide SplitOnce, Dns.SpecHostKey, ValidService, Dns.IsKey;
  }

  lemma EmptyIsNoKey()
    ensures !Dns.SpecHostKey("").Key?
  {
    if Dns.SpecHostKey("").Key? {
      Dns.SpecHostKeyExact("", Dns.SpecHostKey("").key);
      assert false;
    }
  }

  lemma NoKeyIsEmpty(host: string)
    ensures Dns.SpecHostKey(host).Key? ==> Dns.SpecHostKey(host).key != ""
  {
    if Dns.SpecHostKey(host).Key? {
      Dns.SpecHostKeyExact(host, Dns.SpecHostKey(host).key);
    }
  }

  function PrintBackend<A>(codec: Codec<A>, s: BackendSpec<A>): string {
    (if s.host.Some? then s.service + "@" + s.host.value else s.service)
    + "/" + (if s.target.Tcp? then codec.print_(s.target.addr) else s.target.url)
  }

  ghost predicate AcceptedBackend<A>(s: BackendSpec<A>) {
    && ValidService(s.service)
    && (s.host.Some? ==> Dns.IsKey(s.host.value))
    && (s.target.Ws? ==> IsUrl(s.target.url))
  }

  lemma ParsedHost(head: string)
    ensures ParseHead(head).Good? && ParseHead(head).value.1.Some? ==> Dns.IsKey(ParseHead(head).value.1.value)
  {
    if '@' in head {
      var host := SplitOnce(head, '@').value.1;
      match Dns.SpecHostKey(host)
      case Key(k) => Dns.SpecHostKeyExact(host, k);
      case _ =>
    }
  }

  lemma ParsedBackendIsAccepted<A>(codec: Codec<A>, text: string)
    ensures ParseBackend(codec, text).Good? ==> AcceptedBackend(ParseBackend(codec, text).value)
  {
    hide ParseHead, Dns.IsKey, SplitOnce, IsUrl, ValidService;
    if ParseBackend(codec, text).Good? {
      ParsedHost(SplitOnce(text, '/').value.0);
    }
  }

  lemma HeadComesBack(service: string, host: Option<string>)
    requires ValidService(service) && (host.Some? ==> Dns.IsKey(host.value))
    ensures var head := if host.Some? then service + "@" + host.value else service;
            '/' !in head && ParseHead(head) == Good((service, host))
  {
    if host.Some? {
      Dns.KeyChars(host.value);
      SplitOnceAt(service, '@', host.value);
      Dns.SpecHostKeyExact(host.value, host.value);
    }
  }

  /** The same for backends: the printed host is a routing key, which the parser
      takes as it is. */
  lemma BackendPrintsBack<A(!new)>(codec: Codec<A>, s: BackendSpec<A>)
    requires Inverse(codec)
    ensures ParseBackend(codec, PrintBackend(codec, s)) == Good(s) <==> AcceptedBackend(s)
  {
    ParsedBackendIsAccepted(codec, PrintBackend(codec, s));
    if AcceptedBackend(s) {
      HeadComesBack(s.service, s.host);
      var head := if s.host.Some? then s.service + "@" + s.host.value else s.service;
      SplitOnceAt(head, '/', if s.target.Tcp? then codec.print_(s.target.addr) else s.target.url);
    }
  }

  lemma BackendRoundTrip<A(!new)>(codec: Codec<A>, text: string)
    requires Inverse(codec)
    ensures match ParseBackend(codec, text)
            case Bad(_) => true
            case Good(s) => ParseBackend(codec, PrintBackend(codec, s)) == Good(s)
  {
    ParsedBackendIsAccepted(codec, text);
    if ParseBackend(codec, text).Good? {
      BackendPrintsBack(codec, ParseBackend(codec, text).value);
    }
  }
}

/**
  Registering and discovering services: rpc_server.py writes one node name per exported method, and
  registry.py builds its table of remotes from the names it finds.
 */
module Registry {
  import opened Wrappers
  import opened PyText
  import opened UrlText
  import opened UrlParse

  // ---- What a server registers -------------------------------------------------------

  datatype Service = Service(
    transport: string,
    host: string,
    port: nat,
    className: string,
    methodName: string,
    serializer: string,
    maxBufferSize: nat)

  const SERIALIZER: string := "serializer"
  const MAX_BUFFER_SIZE: string := "max_buffer_size"

  function Path(className: string, methodName: string): string {
    "/" + className + "/" + methodName
  }

  function ServiceArguments(s: Service): Arguments {
    map[SERIALIZER := [s.serializer], MAX_BUFFER_SIZE := [Decimal(s.maxBufferSize)]]
  }

  function ServiceUrl(s: Service): Url {
    Url(Some(s.transport), Some(s.host), Some(s.port), Path(s.className, s.methodName), ServiceArguments(s), None)
  }

  /** Names and addresses without the characters that separate the parts of a URL. */
  ghost predicate Plain(s: Service) {
    && IsScheme(s.transport)
    && (forall c :: c in s.host ==> !EndsNetloc(c) && c != '[' && c != ']' && c != ':')
    && PlainName(s.className, s.transport) && PlainName(s.methodName, s.transport)
    && '&' !in s.serializer && '#' !in s.serializer
    && IsBytes(s.transport) && IsBytes(s.host) && IsBytes(s.className) && IsBytes(s.methodName) && IsBytes(s.serializer)
  }

  ghost predicate PlainName(name: string, transport: string) {
    '/' !in name && '?' !in name && '#' !in name && (Lower(transport) in USES_PARAMS ==> ';' !in name)
  }

  /** The two orders in which the dictionary may give its two keys. */
  function Order(serializerFirst: bool): seq<string> {
    if serializerFirst then [SERIALIZER, MAX_BUFFER_SIZE] else [MAX_BUFFER_SIZE, SERIALIZER]
  }

  lemma KeysDiffer()
    ensures SERIALIZER != MAX_BUFFER_SIZE
    ensures '&' !in SERIALIZER && '=' !in SERIALIZER && '#' !in SERIALIZER
    ensures '&' !in MAX_BUFFER_SIZE && '=' !in MAX_BUFFER_SIZE && '#' !in MAX_BUFFER_SIZE
    ensures IsBytes(SERIALIZER) && IsBytes(MAX_BUFFER_SIZE)
  {
    assert SERIALIZER[0] == 's' && MAX_BUFFER_SIZE[0] == 'm';
  }

  lemma OrderIsOrder(s: Service, serializerFirst: bool)
    ensures IsOrder(ServiceArguments(s), Order(serializerFirst))
  {
    KeysDiffer();
  }

  lemma ServiceArgumentsArePlain(s: Service)
    requires '&' !in s.serializer && '#' !in s.serializer
    ensures PlainArguments(ServiceArguments(s))
  {
    KeysDiffer();
    DecimalIsPlain(s.maxBufferSize);
  }

  lemma PathHasNone(className: string, methodName: string, c: char)
    requires c != '/' && c !in className && c !in methodName
    ensures c !in Path(className, methodName) && Path(className, methodName)[0] == '/'
  {
  }

  lemma ServiceIsPlain(s: Service)
    requires Plain(s)
    ensures PlainUrl(ServiceUrl(s))
  {
    ServiceArgumentsArePlain(s);
    PathHasNone(s.className, s.methodName, '?');
    PathHasNone(s.className, s.methodName, '#');
    if Lower(s.transport) in USES_PARAMS {
      PathHasNone(s.className, s.methodName, ';');
    }
  }

  /** The node name of a service, before it is put below the base node. */
  ghost function NodeName(s: Service, serializerFirst: bool): string
    requires Plain(s)
  {
    OrderIsOrder(s, serializerFirst);
    ServiceIsBytes(s, serializerFirst);
    Quote(Build(ServiceUrl(s), Order(serializerFirst)))
  }

  lemma BytesAppend(a: string, b: string)
    requires IsBytes(a) && IsBytes(b)
    ensures IsBytes(a + b)
  {
  }

  lemma NetlocIsBytes(s: Service)
    requires Plain(s)
    ensures IsBytes(Netloc(ServiceUrl(s)))
  {
    DecimalIsPlain(s.port);
    BytesAppend(":", Decimal(s.port));
    BytesAppend(s.host, ":" + Decimal(s.port));
  }

  lemma PathIsBytes(s: Service)
    requires Plain(s)
    ensures IsBytes(Path(s.className, s.methodName))
  {
    BytesAppend("/", s.className);
    BytesAppend("/" + s.className, "/");
    BytesAppend("/" + s.className + "/", s.methodName);
  }

  lemma ServiceIsBytes(s: Service, serializerFirst: bool)
    requires Plain(s) && IsOrder(ServiceArguments(s), Order(serializerFirst))
    ensures IsBytes(Build(ServiceUrl(s), Order(serializerFirst)))
  {
    NetlocIsBytes(s);
    PathIsBytes(s);
    QueryIsBytes(s, serializerFirst);
    var start, netloc, path := s.transport + "://", Netloc(ServiceUrl(s)), Path(s.className, s.methodName);
    var query := QueryPart(ServiceUrl(s), Order(serializerFirst));
    BytesAppend(s.transport, "://");
    BytesAppend(start, netloc);
    BytesAppend(start + netloc, path);
    BytesAppend(start + netloc + path, query);
    BytesAppend(start + netloc + path + query, "");
  }

  lemma TwoArguments(arguments: Arguments, k: string, v: string, k': string, v': string)
    requires k in arguments && k' in arguments && arguments[k] == [v] && arguments[k'] == [v']
    ensures Join(Pairs(arguments, [k, k'])) == k + "=" + v + "&" + (k' + "=" + v')
  {
    assert [k, k'][1..] == [k'] && [k'][1..] == [];
    assert PairsOf(k, [v]) == [k + "=" + v] && PairsOf(k', [v']) == [k' + "=" + v'];
    assert Pairs(arguments, [k']) == [k' + "=" + v'];
    assert Pairs(arguments, [k, k']) == [k + "=" + v, k' + "=" + v'];
  }

  lemma TwoArgumentsAreBytes(k: string, v: string, k': string, v': string)
    requires IsBytes(k) && IsBytes(v) && IsBytes(k') && IsBytes(v')
    ensures IsBytes("?" + (k + "=" + v + "&" + (k' + "=" + v')))
  {
    BytesAppend(k, "=");
    BytesAppend(k + "=", v);
    BytesAppend(k', "=");
    BytesAppend(k' + "=", v');
    BytesAppend(k + "=" + v, "&");
    BytesAppend(k + "=" + v + "&", k' + "=" + v');
  }

  lemma QueryIsBytes(s: Service, serializerFirst: bool)
    requires Plain(s) && IsOrder(ServiceArguments(s), Order(serializerFirst))
    ensures IsBytes(QueryPart(ServiceUrl(s), Order(serializerFirst)))
  {
    KeysDiffer();
    DecimalIsPlain(s.maxBufferSize);
    var arguments, n := ServiceArguments(s), Decimal(s.maxBufferSize);
    if serializerFirst {
      TwoArguments(arguments, SERIALIZER, s.serializer, MAX_BUFFER_SIZE, n);
      TwoArgumentsAreBytes(SERIALIZER, s.serializer, MAX_BUFFER_SIZE, n);
    } else {
      TwoArguments(arguments, MAX_BUFFER_SIZE, n, SERIALIZER, s.serializer);
      TwoArgumentsAreBytes(MAX_BUFFER_SIZE, n, SERIALIZER, s.serializer);
    }
  }

  // ---- What a client discovers -------------------------------------------------------

  datatype ServiceKey = ServiceKey(transport: string, path: string, serializer: string)

  type Remote = (string, int)

  type Table = map<ServiceKey, seq<Remote>>

  /** What the loop body makes of one node name. */
  datatype Child = Entry(key: ServiceKey, remote: Remote) | Skipped | ValueError

  lemma {:induction false} ListsAreNotEmpty(query: Arguments, items: seq<string>)
    requires forall k :: k in query ==> query[k] != []
    ensures forall k :: k in AddItems(query, items) ==> AddItems(query, items)[k] != []
    decreases |items|
  {
    if items != [] {
      ListsAreNotEmpty(AddItem(query, items[0]), items[1..]);
    }
  }

  function ReadChild(child: string): Child {
    match UrlParsed(Unquote(child))
    case None => ValueError
    case Some(url) =>
      var query := ParsedQuery(url.query);
      if SERIALIZER !in query then Skipped
      else
        ListsAreNotEmpty(map[], SplitAll(url.query, '&'));
        var serializer := query[SERIALIZER][0];
        match SplitFirst(url.netloc, ':')
        case None => Skipped
        case Some((host, port)) =>
          match ParseInt(port)
          case None => ValueError
          case Some(n) => Entry(ServiceKey(url.scheme, url.path, serializer), (host, n))
  }

  /** temp_cache.setdefault(k, []).append(v) */
  function AddRemote(table: Table, key: ServiceKey, remote: Remote): Table {
    table[key := (if key in table then table[key] else []) + [remote]]
  }

  /** The table made of the children, or None when one of them raises ValueError. */
  function Discovered(table: Table, children: seq<string>): Option<Table>
    decreases |children|
  {
    if children == [] then Some(table)
    else match ReadChild(children[0])
      case Skipped => Discovered(table, children[1..])
      case ValueError => None
      case Entry(key, remote) => Discovered(AddRemote(table, key, remote), children[1..])
  }

  lemma DiscoverStep(table: Table, children: seq<string>)
    requires children != []
    ensures Discovered(table, children) ==
      match ReadChild(children[0])
      case Skipped => Discovered(table, children[1..])
      case ValueError => None
      case Entry(key, remote) => Discovered(AddRemote(table, key, remote), children[1..])
  {
  }

  function Remotes(table: Table, className: string, methodName: string, transport: string, serializer: string)
    : seq<Remote>
  {
    var key := ServiceKey(transport, Path(className, methodName), serializer);
    if key in table then table[key] else []
  }

  class ZookeeperRegistry {
    var localCache: Table

    constructor ()
      ensures localCache == map[]
    {
      localCache := map[];
    }

    /** _real_discovery with the children of the base node; the cache is swapped when all are read. */
    method RealDiscovery(children: seq<string>) returns (ok: bool)
      modifies this
      ensures match Discovered(map[], children)
        case Some(table) => ok && localCache == table
        case None => !ok && localCache == old(localCache)
    {
      var tempCache: Table := map[];
      var i := 0;
      while i < |children|
        invariant i <= |children|
        invariant Discovered(tempCache, children[i..]) == Discovered(map[], children)
        invariant localCache == old(localCache)
      {
        DiscoverStep(tempCache, children[i..]);
        assert children[i..][1..] == children[i + 1..];
        var child := ReadChild(children[i]);
        match child {
          case Skipped =>
          case ValueError =>
            return false;
          case Entry(key, remote) =>
            tempCache := tempCache[key := (if key in tempCache then tempCache[key] else []) + [remote]];
        }
        i := i + 1;
      }
      localCache := tempCache;
      return true;
    }

    method GetRemotes(className: string, methodName: string, transport: string, serializer: string)
      returns (remotes: seq<Remote>)
      ensures remotes == Remotes(localCache, className, methodName, transport, serializer)
    {
      var key := ServiceKey(transport, Path(className, methodName), serializer);
      remotes := if key in localCache then localCache[key] else [];
    }
  }

  /** The node name _register_if_necessary builds for one exported method. */
  method RegisterUrl(s: Service, serializerFirst: bool) returns (name: string)
    requires Plain(s)
    ensures name == NodeName(s, serializerFirst)
  {
    var builder := new URLBuilder();
    builder.scheme, builder.host, builder.port := Some(s.transport), Some(s.host), Some(s.port);
    builder.path := "/" + s.className + "/" + s.methodName;
    KeysDiffer();
    builder.WithArgument(SERIALIZER, s.serializer);
    builder.WithArgument(MAX_BUFFER_SIZE, Decimal(s.maxBufferSize));
    assert [] + [s.serializer] == [s.serializer] && [] + [Decimal(s.maxBufferSize)] == [Decimal(s.maxBufferSize)];
    assert builder.arguments == ServiceArguments(s);
    OrderIsOrder(s, serializerFirst);
    ServiceIsBytes(s, serializerFirst);
    assert builder.Value() == ServiceUrl(s);
    name := builder.BuildUrl(Order(serializerFirst), true);
  }

  // ---- Registered services are discovered --------------------------------------------

  lemma PortSplits(host: string, port: string)
    requires ':' !in host
    ensures SplitFirst(host + (":" + port), ':') == Some((host, port))
  {
    SplitFirstAt(host, ':', port);
    assert host + (":" + port) == host + [':'] + port;
  }

  lemma NetlocComesBack(s: Service)
    requires Plain(s)
    ensures SplitFirst(Netloc(ServiceUrl(s)), ':') == Some((s.host, Decimal(s.port)))
    ensures ParseInt(Decimal(s.port)) == Some(s.port)
  {
    PortSplits(s.host, Decimal(s.port));
    DecimalIsPlain(s.port);
  }

  function Address(s: Service): Remote {
    (s.host, s.port)
  }

  function KeyOf(s: Service): ServiceKey {
    ServiceKey(Lower(s.transport), Path(s.className, s.methodName), s.serializer)
  }

  /** One node name is read back as the service it was made for, whichever argument came first. */
  lemma ServiceComesBack(s: Service, serializerFirst: bool)
    requires Plain(s)
    ensures ReadChild(NodeName(s, serializerFirst)) == Entry(KeyOf(s), Address(s))
  {
    var order, url := Order(serializerFirst), ServiceUrl(s);
    OrderIsOrder(s, serializerFirst);
    ServiceIsBytes(s, serializerFirst);
    ServiceIsPlain(s);
    UrlsAreReadExactly(url, order);
    ServiceSerializer(s);
    NetlocComesBack(s);
  }

  lemma ServiceSerializer(s: Service)
    ensures SERIALIZER in ServiceArguments(s) && ServiceArguments(s)[SERIALIZER] == [s.serializer]
  {
    KeysDiffer();
  }

  /** A registered service and the argument order of its URL. */
  type Registration = (Service, bool)

  ghost function NodeNames(registered: seq<Registration>): seq<string>
    requires forall r :: r in registered ==> Plain(r.0)
  {
    if registered == [] then []
    else [NodeName(registered[0].0, registered[0].1)] + NodeNames(registered[1..])
  }

  /** The addresses of the services with the given key, in the order of the node names. */
  function Matching(registered: seq<Registration>, key: ServiceKey): seq<Remote> {
    if registered == [] then []
    else (if KeyOf(registered[0].0) == key then [Address(registered[0].0)] else []) + Matching(registered[1..], key)
  }

  function At(table: Table, key: ServiceKey): seq<Remote> {
    if key in table then table[key] else []
  }

  /** Node names that are read as the given services. */
  ghost predicate ReadAs(children: seq<string>, registered: seq<Registration>) {
    && |children| == |registered|
    && forall i :: 0 <= i < |children| ==>
      ReadChild(children[i]) == Entry(KeyOf(registered[i].0), Address(registered[i].0))
  }

  lemma {:induction false} TableOf(table: Table, children: seq<string>, registered: seq<Registration>, key: ServiceKey)
    requires ReadAs(children, registered)
    ensures var t := Discovered(table, children);
      t.Some? && At(t.value, key) == At(table, key) + Matching(registered, key)
    decreases |registered|
  {
    if registered == [] {
      assert At(table, key) + [] == At(table, key);
    } else {
      var s := registered[0].0;
      var next := AddRemote(table, KeyOf(s), Address(s));
      assert ReadAs(children[1..], registered[1..]);
      TableOf(next, children[1..], registered[1..], key);
      assert Discovered(table, children) == Discovered(next, children[1..]);
      OneMore(table, s, key, Matching(registered[1..], key));
    }
  }

  lemma OneMore(table: Table, s: Service, key: ServiceKey, rest: seq<Remote>)
    ensures At(AddRemote(table, KeyOf(s), Address(s)), key) + rest
      == At(table, key) + ((if KeyOf(s) == key then [Address(s)] else []) + rest)
  {
  }

  lemma {:induction false} NamesAreRead(registered: seq<Registration>)
    requires forall r :: r in registered ==> Plain(r.0)
    ensures ReadAs(NodeNames(registered), registered)
  {
    if registered != [] {
      NamesAreRead(registered[1..]);
      ServiceComesBack(registered[0].0, registered[0].1);
    }
  }

  /** The table a client builds has, under every key, the addresses registered with it, in order. */
  lemma TableIsExact(registered: seq<Registration>, key: ServiceKey)
    requires forall r :: r in registered ==> Plain(r.0)
    ensures var t := Discovered(map[], NodeNames(registered)); t.Some? && At(t.value, key) == Matching(registered, key)
  {
    NamesAreRead(registered);
    TableOf(map[], NodeNames(registered), registered, key);
    assert [] + Matching(registered, key) == Matching(registered, key);
  }

  // ---- Names nobody registered -------------------------------------------------------

  /** The addresses that some node names give under a key, in order. */
  function Addresses(children: seq<string>, key: ServiceKey): seq<Remote> {
    if children == [] then []
    else match ReadChild(children[0])
      case Entry(k, remote) => (if k == key then [remote] else []) + Addresses(children[1..], key)
      case _ => Addresses(children[1..], key)
  }

  lemma RemoteAdded(table: Table, k: ServiceKey, remote: Remote, key: ServiceKey, rest: seq<Remote>)
    ensures At(AddRemote(table, k, remote), key) + rest == At(table, key) + ((if k == key then [remote] else []) + rest)
  {
  }

  ghost predicate NoneRaises(children: seq<string>) {
    forall i :: 0 <= i < |children| ==> ReadChild(children[i]) != ValueError
  }

  lemma NoneRaisesStep(children: seq<string>)
    requires children != []
    ensures NoneRaises(children) <==> ReadChild(children[0]) != ValueError && NoneRaises(children[1..])
  {
    assert forall i :: 1 <= i < |children| ==> children[i] == children[1..][i - 1];
  }

  /** Discovery fails if and only if some name raises. */
  lemma {:induction false} DiscoveryFailsExactly(table: Table, children: seq<string>)
    ensures Discovered(table, children).Some? <==> NoneRaises(children)
    decreases |children|
  {
    if children != [] {
      DiscoverStep(table, children);
      NoneRaisesStep(children);
      match ReadChild(children[0])
      case Skipped => DiscoveryFailsExactly(table, children[1..]);
      case ValueError =>
      case Entry(k, remote) => DiscoveryFailsExactly(AddRemote(table, k, remote), children[1..]);
    }
  }

  /** When it does not, every name counts that gives an address, and no other. */
  lemma {:induction false} DiscoveryExactly(table: Table, children: seq<string>, key: ServiceKey)
    requires Discovered(table, children).Some?
    ensures At(Discovered(table, children).value, key) == At(table, key) + Addresses(children, key)
    decreases |children|
  {
    if children == [] {
      assert At(table, key) + [] == At(table, key);
    } else {
      DiscoverStep(table, children);
      match ReadChild(children[0])
      case Skipped => DiscoveryExactly(table, children[1..], key);
      case Entry(k, remote) =>
        DiscoveryExactly(AddRemote(table, k, remote), children[1..], key);
        RemoteAdded(table, k, remote, key, Addresses(children[1..], key));
    }
  }

  /** What a discovery should make of a network location. */
  function ReadNetloc(url: Url, serializer: string): Child
    requires url.scheme.Some?
  {
    match SplitFirst(Netloc(url), ':')
    case None => Skipped
    case Some((host, port)) =>
      match ParseInt(port)
      case None => ValueError
      case Some(n) => Entry(ServiceKey(Lower(url.scheme.value), url.path, serializer), (host, n))
  }

  /**
    Any URL whose parts can be told apart: without a serializer among its arguments or a port its name gives
    no address, with a port that is no number it raises, and else it gives the address under its key.
   */
  lemma UrlsAreReadExactly(url: Url, order: seq<string>)
    requires PlainUrl(url) && IsOrder(url.arguments, order) && IsBytes(Build(url, order))
    ensures ReadChild(Quote(Build(url, order))) ==
      if SERIALIZER !in url.arguments then Skipped else ReadNetloc(url, url.arguments[SERIALIZER][0])
  {
    var text := Build(url, order);
    QuoteRoundTrip(text);
    UrlRoundTrip(url, order);
    QueryRoundTrip(url.arguments, order);
    ReadUrl(Quote(text), url, Parsed(Lower(url.scheme.value), Netloc(url), url.path, QueryText(url, order), FragmentText(url)));
  }

  lemma ReadUrl(child: string, url: Url, parsed: Parsed)
    requires url.scheme.Some? && UrlParsed(Unquote(child)) == Some(parsed) && ParsedQuery(parsed.query) == url.arguments
    requires parsed.scheme == Lower(url.scheme.value) && parsed.netloc == Netloc(url) && parsed.path == url.path
    requires forall k :: k in url.arguments ==> url.arguments[k] != []
    ensures ReadChild(child) ==
      if SERIALIZER !in url.arguments then Skipped else ReadNetloc(url, url.arguments[SERIALIZER][0])
  {
  }

  /** A location with a port that is not a number raises, one without a port is passed over. */
  lemma PortsExactly(url: Url, serializer: string, host: string, port: string)
    requires url.scheme.Some? && ':' !in host
    ensures Netloc(url) == host + (":" + port) ==>
      (ReadNetloc(url, serializer) == ValueError <==> ParseInt(port).None?) && ReadNetloc(url, serializer) != Skipped
    ensures Netloc(url) == host ==> ReadNetloc(url, serializer) == Skipped
  {
    PortSplits(host, port);
    SplitFirstNone(host, ':');
  }

  /** A name that is no URL raises. */
  lemma BrokenNamesRaise(scheme: string, netloc: string, tail: string)
    requires Splits(scheme, netloc, tail) && IsBytes(scheme + ":" + ("//" + netloc + tail))
    requires '[' in netloc <==> ']' !in netloc
    ensures ReadChild(Quote(scheme + ":" + ("//" + netloc + tail))) == ValueError
  {
    QuoteRoundTrip(scheme + ":" + ("//" + netloc + tail));
    BracketsExactly(scheme, netloc, tail);
  }

  /** Two pairs of names without slashes make the same path only when they are the same. */
  lemma PathIsExact(c: string, m: string, c': string, m': string)
    requires '/' !in c && '/' !in c' && Path(c, m) == Path(c', m')
    ensures c == c' && m == m'
  {
    assert Path(c, m)[1..] == c + ['/'] + m;
    assert Path(c', m')[1..] == c' + ['/'] + m';
    SplitFirstAt(c, '/', m);
    SplitFirstAt(c', '/', m');
  }

  lemma {:induction false} MatchingMeans(registered: seq<Registration>, key: ServiceKey)
    ensures forall a :: a in Matching(registered, key) <==>
      exists i :: 0 <= i < |registered| && KeyOf(registered[i].0) == key && Address(registered[i].0) == a
  {
    if registered != [] {
      MatchingMeans(registered[1..], key);
      forall a ensures a in Matching(registered, key) <==>
        exists i :: 0 <= i < |registered| && KeyOf(registered[i].0) == key && Address(registered[i].0) == a
      {
        if i :| 0 <= i < |registered| && KeyOf(registered[i].0) == key && Address(registered[i].0) == a {
          assert i > 0 ==> registered[1..][i - 1] == registered[i];
        }
      }
    }
  }

  /** The service at position i of the list, asked for by its names. */
  ghost predicate IsAnswer(registered: seq<Registration>, i: int, c: string, m: string, transport: string,
      serializer: string, a: Remote)
  {
    && 0 <= i < |registered|
    && var s := registered[i].0;
       s.className == c && s.methodName == m && s.transport == transport && s.serializer == serializer && Address(s) == a
  }

  lemma MatchIsAnswer(registered: seq<Registration>, i: nat, c: string, m: string, transport: string,
      serializer: string, a: Remote)
    requires i < |registered| && '/' !in registered[i].0.className && '/' !in c
    requires Lower(registered[i].0.transport) == registered[i].0.transport
    ensures IsAnswer(registered, i, c, m, transport, serializer, a) <==>
      KeyOf(registered[i].0) == ServiceKey(transport, Path(c, m), serializer) && Address(registered[i].0) == a
  {
    var s := registered[i].0;
    if Path(s.className, s.methodName) == Path(c, m) {
      PathIsExact(s.className, s.methodName, c, m);
    }
  }

  /**
    Main result: with any services registered under lower-case transports, asking for a class, method,
    transport and serializer gives exactly the addresses of the services registered with them.
   */
  lemma RemotesAreThoseRegistered(registered: seq<Registration>, c: string, m: string, transport: string,
      serializer: string, a: Remote)
    requires forall r :: r in registered ==> Plain(r.0) && Lower(r.0.transport) == r.0.transport
    requires '/' !in c
    ensures Discovered(map[], NodeNames(registered)).Some?
    ensures a in Remotes(Discovered(map[], NodeNames(registered)).value, c, m, transport, serializer) <==>
      exists i :: IsAnswer(registered, i, c, m, transport, serializer, a)
  {
    var key := ServiceKey(transport, Path(c, m), serializer);
    TableIsExact(registered, key);
    MatchingMeans(registered, key);
    forall i: nat | i < |registered|
      ensures IsAnswer(registered, i, c, m, transport, serializer, a)
        <==> KeyOf(registered[i].0) == key && Address(registered[i].0) == a
    {
      assert registered[i] in registered;
      MatchIsAnswer(registered, i, c, m, transport, serializer, a);
    }
  }

  lemma LowerTwice(s: string)
    ensures Lower(Lower(s)) == Lower(s)
  {
  }

  /** A service is found under the transport it was registered with only if that is in lower case. */
  lemma FoundOnlyInLowerCase(registered: seq<Registration>, s: Service, serializerFirst: bool)
    requires forall r :: r in registered ==> Plain(r.0)
    requires (s, serializerFirst) in registered
    ensures Discovered(map[], NodeNames(registered)).Some?
    ensures Address(s) in Remotes(Discovered(map[], NodeNames(registered)).value,
        s.className, s.methodName, s.transport, s.serializer)
      <==> Lower(s.transport) == s.transport
  {
    var key := ServiceKey(s.transport, Path(s.className, s.methodName), s.serializer);
    TableIsExact(registered, key);
    MatchingMeans(registered, key);
    forall r | r in registered ensures Lower(Lower(r.0.transport)) == Lower(r.0.transport) {
      LowerTwice(r.0.transport);
    }
  }

  /** Different methods never get the same node name, so no registration replaces another. */
  lemma NamesDoNotCollide(s: Service, s': Service, f: bool, f': bool)
    requires Plain(s) && Plain(s') && NodeName(s, f) == NodeName(s', f')
    ensures s.className == s'.className && s.methodName == s'.methodName
    ensures s.host == s'.host && s.port == s'.port && s.serializer == s'.serializer
  {
    ServiceComesBack(s, f);
    ServiceComesBack(s', f');
    PathIsExact(s.className, s.methodName, s'.className, s'.methodName);
  }
}

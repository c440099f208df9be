/**
  urlparse.urlparse of Python 2 as the registry uses it, and what it makes of a URL that helper/url.py
  has built.
 */
module UrlParse {
  import opened Wrappers
  import opened PyText
  import opened UrlText

  datatype Parsed = Parsed(scheme: string, netloc: string, path: string, query: string, fragment: string)

  /** The schemes whose last path segment may carry parameters behind a semicolon. */
  const USES_PARAMS: set<string> :=
    {"ftp", "hdl", "prospero", "http", "https", "shttp", "rtsp", "rtspu", "sip", "sips", "mms", "", "sftp", "tel"}

  predicate IsSchemeChar(c: char) {
    IsAlnumChar(c) || c == '+' || c == '-' || c == '.'
  }

  predicate IsScheme(s: string) {
    s != "" && forall i :: 0 <= i < |s| ==> IsSchemeChar(s[i])
  }

  predicate EndsNetloc(c: char) {
    c == '/' || c == '?' || c == '#'
  }

  /** Where the network location at the front of s ends. */
  function NetlocEnd(s: string): (n: nat)
    ensures n <= |s|
  {
    if s == "" || EndsNetloc(s[0]) then 0 else 1 + NetlocEnd(s[1..])
  }

  /** The scheme in lower case and what is behind its colon; no scheme if a port number is behind it. */
  function SplitScheme(url: string): (string, string) {
    var i := IndexOf(url, ':');
    if 0 < i < |url| && (url[..i] == "http" || (IsScheme(url[..i]) && !IsDigit(url[i + 1..])))
    then (Lower(url[..i]), url[i + 1..]) else ("", url)
  }

  function SplitNetloc(url: string): (string, string) {
    if |url| >= 2 && url[..2] == "//" then
      var n := NetlocEnd(url[2..]);
      (url[2..][..n], url[2..][n..])
    else ("", url)
  }

  /** str.split(c, 1), with nothing behind when c does not occur. */
  function CutAt(s: string, c: char): (string, string) {
    match SplitFirst(s, c) case None => (s, "") case Some(pair) => pair
  }

  /** The path without the parameters of its last segment. */
  function WithoutParams(path: string): string {
    if ';' !in path then path
    else
      var slash := LastIndexOf(path, '/');
      var i := if slash < |path| then slash + IndexOf(path[slash..], ';') else IndexOf(path, ';');
      path[..i]
  }

  /** Position of the last c, or the length. */
  function LastIndexOf(s: string, c: char): (i: nat)
    ensures i <= |s|
  {
    if c !in s then |s|
    else if s[|s| - 1] == c then |s| - 1
    else LastIndexOf(s[..|s| - 1], c)
  }

  /** None stands for ValueError: an IPv6 bracket without its partner. */
  function UrlParsed(url: string): Option<Parsed> {
    var (scheme, rest) := SplitScheme(url);
    var (netloc, rest') := SplitNetloc(rest);
    if ('[' in netloc) != (']' in netloc) then None
    else
      var (beforeFragment, fragment) := CutAt(rest', '#');
      var (path, query) := CutAt(beforeFragment, '?');
      Some(Parsed(scheme, netloc, if scheme in USES_PARAMS then WithoutParams(path) else path, query, fragment))
  }

  // ---- Queries come back -------------------------------------------------------------

  lemma {:induction false} SplitJoined(parts: seq<string>)
    requires parts != [] && forall i :: 0 <= i < |parts| ==> '&' !in parts[i]
    ensures SplitAll(Join(parts), '&') == parts
    decreases |parts|
  {
    if |parts| == 1 {
      SplitFirstNone(parts[0], '&');
    } else {
      SplitJoined(parts[1..]);
      var rest := Join(parts[1..]);
      assert Join(parts) == parts[0] + ['&'] + rest;
      SplitFirstAt(parts[0], '&', rest);
    }
  }

  lemma {:induction false} AddItemsAppend(query: Arguments, a: seq<string>, b: seq<string>)
    ensures AddItems(query, a + b) == AddItems(AddItems(query, a), b)
    decreases |a|
  {
    if a == [] {
      assert a + b == b;
    } else {
      AddItemsAppend(AddItem(query, a[0]), a[1..], b);
      assert (a + b)[1..] == a[1..] + b;
    }
  }

  lemma ItemComesBack(query: Arguments, k: string, v: string)
    requires '=' !in k
    ensures AddItem(query, k + "=" + v) == AddArgument(query, k, v)
  {
    SplitFirstAt(k, '=', v);
    assert k + "=" + v == k + ['='] + v;
  }

  /** The values k has, if any. */
  function ValuesOf(query: Arguments, k: string): seq<string> {
    if k in query then query[k] else []
  }

  /** The values of one key are put behind those it has, in order. */
  lemma {:induction false} AddValues(query: Arguments, k: string, values: seq<string>)
    requires '=' !in k && values != []
    ensures AddItems(query, PairsOf(k, values)) == query[k := ValuesOf(query, k) + values]
    decreases |values|
  {
    var items := PairsOf(k, values);
    ItemComesBack(query, k, values[0]);
    var next := AddArgument(query, k, values[0]);
    assert items[1..] == PairsOf(k, values[1..]);
    if |values| == 1 {
      assert items[1..] == [] && values == [values[0]];
    } else {
      AddValues(next, k, values[1..]);
      ValuesAdd(query, k, values);
    }
  }

  lemma ValuesAdd(query: Arguments, k: string, values: seq<string>)
    requires values != []
    ensures var next := AddArgument(query, k, values[0]);
      next[k := ValuesOf(next, k) + values[1..]] == query[k := ValuesOf(query, k) + values]
  {
    assert ValuesOf(query, k) + [values[0]] + values[1..] == ValuesOf(query, k) + values;
  }

  /** No value list is empty: with_argument() makes a list with its first value in it. */
  ghost predicate PlainArguments(arguments: Arguments) {
    forall k :: k in arguments ==>
      && arguments[k] != []
      && '&' !in k && '=' !in k && '#' !in k
      && forall i :: 0 <= i < |arguments[k]| ==> '&' !in arguments[k][i] && '#' !in arguments[k][i]
  }

  function Restricted(arguments: Arguments, order: seq<string>): Arguments
    requires forall k :: k in order ==> k in arguments
  {
    map k | k in order :: arguments[k]
  }

  lemma {:induction false} AddAll(query: Arguments, arguments: Arguments, order: seq<string>)
    requires PlainArguments(arguments)
    requires forall i, j :: 0 <= i < j < |order| ==> order[i] != order[j]
    requires forall k :: k in order ==> k in arguments && k !in query
    ensures AddItems(query, Pairs(arguments, order)) == query + Restricted(arguments, order)
    decreases |order|
  {
    if order == [] {
      assert query + Restricted(arguments, order) == query;
    } else {
      AddKey(query, arguments, order);
      AddAll(query[order[0] := arguments[order[0]]], arguments, order[1..]);
      SameUnion(query, arguments, order);
    }
  }

  /** The values of the first key, and then the others. */
  lemma AddKey(query: Arguments, arguments: Arguments, order: seq<string>)
    requires order != [] && (forall k :: k in order ==> k in arguments) && order[0] !in query
    requires '=' !in order[0] && arguments[order[0]] != []
    ensures AddItems(query, Pairs(arguments, order))
      == AddItems(query[order[0] := arguments[order[0]]], Pairs(arguments, order[1..]))
  {
    var k, values := order[0], arguments[order[0]];
    AddItemsAppend(query, PairsOf(k, values), Pairs(arguments, order[1..]));
    AddValues(query, k, values);
    assert [] + values == values;
  }

  lemma SameUnion(query: Arguments, arguments: Arguments, order: seq<string>)
    requires order != [] && forall k :: k in order ==> k in arguments
    requires order[0] !in order[1..]
    ensures query[order[0] := arguments[order[0]]] + Restricted(arguments, order[1..])
      == query + Restricted(arguments, order)
  {
    assert order == [order[0]] + order[1..];
  }

  lemma {:induction false} ItemsArePlain(arguments: Arguments, order: seq<string>)
    requires PlainArguments(arguments) && forall k :: k in order ==> k in arguments
    ensures forall i :: 0 <= i < |Pairs(arguments, order)| ==>
      '&' !in Pairs(arguments, order)[i] && '#' !in Pairs(arguments, order)[i]
    ensures order != [] ==> Pairs(arguments, order) != []
    decreases |order|
  {
    if order != [] {
      ItemsArePlain(arguments, order[1..]);
      var k := order[0];
      assert forall i :: 0 <= i < |arguments[k]| ==> PairsOf(k, arguments[k])[i] == k + "=" + arguments[k][i];
    }
  }

  lemma RestrictedIsAll(arguments: Arguments, order: seq<string>)
    requires IsOrder(arguments, order)
    ensures map[] + Restricted(arguments, order) == arguments
  {
  }

  /**
    Every dictionary of arguments comes back from the query made of it, whatever the order in which its
    keys were written, each key with all its values in order.
   */
  lemma QueryRoundTrip(arguments: Arguments, order: seq<string>)
    requires PlainArguments(arguments) && IsOrder(arguments, order)
    ensures ParsedQuery(Join(Pairs(arguments, order))) == arguments
  {
    if order == [] {
      assert SplitAll("", '&') == [""];
      SplitFirstNone("", '=');
      EmptyOrder(arguments, order);
    } else {
      ItemsArePlain(arguments, order);
      SplitJoined(Pairs(arguments, order));
      AddAll(map[], arguments, order);
      RestrictedIsAll(arguments, order);
    }
  }

  // ---- URLs come back ----------------------------------------------------------------

  lemma {:induction false} NetlocAtFront(netloc: string, tail: string)
    requires forall i :: 0 <= i < |netloc| ==> !EndsNetloc(netloc[i])
    requires tail == "" || EndsNetloc(tail[0])
    ensures NetlocEnd(netloc + tail) == |netloc|
    decreases |netloc|
  {
    if netloc == "" {
      assert netloc + tail == tail;
    } else {
      NetlocAtFront(netloc[1..], tail);
      assert (netloc + tail)[1..] == netloc[1..] + tail;
    }
  }

  lemma SchemeAtFront(scheme: string, rest: string)
    requires IsScheme(scheme) && |rest| >= 1 && rest[0] == '/'
    ensures SplitScheme(scheme + ":" + rest) == (Lower(scheme), rest)
  {
    assert ':' !in scheme;
    IndexOfFirst(scheme, ':', rest);
    var url := scheme + ":" + rest;
    assert url == scheme + [':'] + rest;
    assert url[..|scheme|] == scheme && url[|scheme| + 1..] == rest;
    assert !IsDigit(rest);
  }

  lemma NetlocSplits(netloc: string, tail: string)
    requires forall i :: 0 <= i < |netloc| ==> !EndsNetloc(netloc[i])
    requires tail == "" || EndsNetloc(tail[0])
    ensures SplitNetloc("//" + netloc + tail) == (netloc, tail)
  {
    var url := "//" + netloc + tail;
    assert url[2..] == netloc + tail;
    NetlocAtFront(netloc, tail);
  }

  lemma CutAtMark(a: string, c: char, b: string)
    requires c !in a
    ensures CutAt(a + [c] + b, c) == (a, b)
    ensures CutAt(a, c) == (a, "")
  {
    SplitFirstAt(a, c, b);
    SplitFirstNone(a, c);
  }

  /** A URL whose parts hold none of the characters that separate them. */
  ghost predicate PlainUrl(u: Url) {
    && u.scheme.Some? && IsScheme(u.scheme.value)
    && u.host.Some?
    && (forall c :: c in u.host.value ==> !EndsNetloc(c) && c != '[' && c != ']')
    && (u.path == "" || u.path[0] == '/') && '?' !in u.path && '#' !in u.path
    && (Lower(u.scheme.value) in USES_PARAMS ==> ';' !in u.path)
    && PlainArguments(u.arguments)
  }

  function QueryText(u: Url, order: seq<string>): string
    requires forall k :: k in order ==> k in u.arguments
  {
    Join(Pairs(u.arguments, order))
  }

  function FragmentText(u: Url): string {
    if u.fragment.Some? then u.fragment.value else ""
  }

  lemma {:induction false} JoinIsFree(parts: seq<string>, c: char)
    requires c != '&' && forall i :: 0 <= i < |parts| ==> c !in parts[i]
    ensures c !in Join(parts)
    decreases |parts|
  {
    if |parts| > 1 {
      JoinIsFree(parts[1..], c);
    }
  }

  predicate InNetloc(c: char) {
    !EndsNetloc(c) && c != '[' && c != ']'
  }

  lemma PortIsPlain(port: nat)
    ensures forall i :: 0 <= i < |":" + Decimal(port)| ==> InNetloc((":" + Decimal(port))[i])
  {
    DecimalIsPlain(port);
    var s := ":" + Decimal(port);
    forall i | 0 <= i < |s| ensures InNetloc(s[i]) {
      assert i > 0 ==> s[i] == Decimal(port)[i - 1];
    }
  }

  lemma NetlocIsPlain(u: Url)
    requires PlainUrl(u)
    ensures forall i :: 0 <= i < |Netloc(u)| ==> !EndsNetloc(Netloc(u)[i])
    ensures '[' !in Netloc(u) && ']' !in Netloc(u)
  {
    var host := u.host.value;
    if u.port.Some? {
      PortIsPlain(u.port.value);
    }
    var rest := if u.port.Some? then ":" + Decimal(u.port.value) else "";
    assert Netloc(u) == host + rest;
    forall i | 0 <= i < |host + rest| ensures InNetloc((host + rest)[i]) {
      assert (host + rest)[i] == if i < |host| then host[i] else rest[i - |host|];
    }
  }

  lemma QueryIsFree(u: Url, order: seq<string>)
    requires PlainUrl(u) && IsOrder(u.arguments, order)
    ensures '#' !in QueryText(u, order) && '#' !in u.path + QueryPart(u, order)
  {
    ItemsArePlain(u.arguments, order);
    JoinIsFree(Pairs(u.arguments, order), '#');
  }

  lemma FragmentSplits(u: Url, front: string)
    requires '#' !in front
    ensures CutAt(front + FragmentPart(u), '#') == (front, FragmentText(u))
  {
    CutAtMark(front, '#', FragmentText(u));
    assert front + "" == front;
    assert FragmentText(u) != "" ==> front + FragmentPart(u) == front + ['#'] + FragmentText(u);
  }

  lemma QuerySplits(u: Url, order: seq<string>)
    requires PlainUrl(u) && IsOrder(u.arguments, order)
    ensures CutAt(u.path + QueryPart(u, order), '?') == (u.path, QueryText(u, order))
  {
    CutAtMark(u.path, '?', QueryText(u, order));
    assert order != [] ==> u.path + QueryPart(u, order) == u.path + ['?'] + QueryText(u, order);
    assert u.path + "" == u.path;
  }

  /** The part behind the network location. */
  lemma TailSplits(u: Url, order: seq<string>)
    requires PlainUrl(u) && IsOrder(u.arguments, order)
    ensures var tail := u.path + QueryPart(u, order) + FragmentPart(u);
      var (front, fragment) := CutAt(tail, '#');
      && (tail == "" || EndsNetloc(tail[0]))
      && fragment == FragmentText(u) && CutAt(front, '?') == (u.path, QueryText(u, order))
  {
    QueryIsFree(u, order);
    FragmentSplits(u, u.path + QueryPart(u, order));
    QuerySplits(u, order);
  }

  /** Main result: parsing a URL that was built gives its parts back, the scheme in lower case. */
  lemma UrlRoundTrip(u: Url, order: seq<string>)
    requires PlainUrl(u) && IsOrder(u.arguments, order)
    ensures UrlParsed(Build(u, order))
      == Some(Parsed(Lower(u.scheme.value), Netloc(u), u.path, QueryText(u, order), FragmentText(u)))
  {
    var tail := u.path + QueryPart(u, order) + FragmentPart(u);
    var rest := "//" + Netloc(u) + tail;
    BuildIs(u, order);
    SchemeAtFront(u.scheme.value, rest);
    NetlocIsPlain(u);
    TailSplits(u, order);
    NetlocSplits(Netloc(u), tail);
  }

  lemma BuildIs(u: Url, order: seq<string>)
    requires u.scheme.Some? && IsOrder(u.arguments, order)
    ensures Build(u, order)
      == u.scheme.value + ":" + ("//" + Netloc(u) + (u.path + QueryPart(u, order) + FragmentPart(u)))
  {
  }

  // ---- URLs from elsewhere -----------------------------------------------------------

  /** A URL with a scheme, whatever the network location holds. */
  ghost predicate Splits(scheme: string, netloc: string, tail: string) {
    && IsScheme(scheme) && (forall i :: 0 <= i < |netloc| ==> !EndsNetloc(netloc[i]))
    && (tail == "" || EndsNetloc(tail[0]))
  }

  /** Parsing raises ValueError exactly when one bracket of an IPv6 address is there without the other. */
  lemma BracketsExactly(scheme: string, netloc: string, tail: string)
    requires Splits(scheme, netloc, tail)
    ensures UrlParsed(scheme + ":" + ("//" + netloc + tail)).None? <==> ('[' in netloc <==> ']' !in netloc)
  {
    SchemeAtFront(scheme, "//" + netloc + tail);
    NetlocSplits(netloc, tail);
  }

  lemma {:induction false} LastAt(s: string, c: char, i: nat)
    requires i < |s| && s[i] == c && forall j :: i < j < |s| ==> s[j] != c
    ensures LastIndexOf(s, c) == i
    decreases |s|
  {
    if i < |s| - 1 {
      LastAt(s[..|s| - 1], c, i);
      assert s[..|s| - 1][i] == c;
    }
  }

  lemma PathAlone(scheme: string, netloc: string, path: string)
    requires Splits(scheme, netloc, path) && path != "" && '[' !in netloc && ']' !in netloc && '#' !in path && '?' !in path
    ensures UrlParsed(scheme + ":" + ("//" + netloc + path))
      == Some(Parsed(Lower(scheme), netloc, if Lower(scheme) in USES_PARAMS then WithoutParams(path) else path, "", ""))
  {
    SchemeAtFront(scheme, "//" + netloc + path);
    NetlocSplits(netloc, path);
    CutAtMark(path, '#', "");
    CutAtMark(path, '?', "");
  }

  lemma ParamsAreCut(path: string, dir: string, segment: string, params: string)
    requires '/' !in segment && ';' !in segment && '/' !in params
    requires path == dir + ("/" + segment + [';'] + params)
    ensures WithoutParams(path) == dir + ("/" + segment)
  {
    LastAt(path, '/', |dir|);
    assert path[|dir|..] == "/" + segment + [';'] + params;
    IndexOfFirst("/" + segment, ';', params);
    assert path[|dir| + 1 + |segment|] == ';';
    assert path[..|dir| + 1 + |segment|] == dir + ("/" + segment);
  }

  /** Parameters of the last segment are cut off for the schemes that have them, and belong to the path for others. */
  lemma ParamsExactly(scheme: string, netloc: string, path: string, dir: string, segment: string, params: string)
    requires Splits(scheme, netloc, path) && '[' !in netloc && ']' !in netloc && '#' !in path && '?' !in path
    requires '/' !in segment && ';' !in segment && '/' !in params
    requires path == dir + ("/" + segment + [';'] + params)
    ensures UrlParsed(scheme + ":" + ("//" + netloc + path))
      == Some(Parsed(Lower(scheme), netloc, if Lower(scheme) in USES_PARAMS then dir + ("/" + segment) else path, "", ""))
  {
    PathAlone(scheme, netloc, path);
    ParamsAreCut(path, dir, segment, params);
  }
}

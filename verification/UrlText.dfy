/**
  helper/url.py and the functions of urllib and urlparse it and the registry rely on: percent-encoding
  as in section 2.1 of RFC 3986, building a URL, and taking one apart.
 */
module UrlText {
  import opened Wrappers
  import opened PyText
  import opened Sequences

  // ---- urllib.quote(s, safe="") and urllib.unquote -----------------------------------

  predicate IsByte(c: char) {
    c as int < 256
  }

  /** A str of Python 2 holds bytes. */
  predicate IsBytes(s: string) {
    forall i :: 0 <= i < |s| ==> IsByte(s[i])
  }

  predicate IsSafe(c: char) {
    IsAlnumChar(c) || c == '_' || c == '.' || c == '-'
  }

  function HexDigit(d: nat): (c: char)
    requires d < 16
    ensures HexValue(c) == Some(d)
  {
    if d < 10 then ('0' as int + d) as char else ('A' as int + d - 10) as char
  }

  function HexValue(c: char): (d: Option<nat>)
    ensures d.Some? ==> d.value < 16
  {
    if '0' <= c <= '9' then Some(c as int - '0' as int)
    else if 'A' <= c <= 'F' then Some(c as int - 'A' as int + 10)
    else if 'a' <= c <= 'f' then Some(c as int - 'a' as int + 10)
    else None
  }

  function QuoteChar(c: char): string
    requires IsByte(c)
  {
    if IsSafe(c) then [c] else ['%', HexDigit(c as int / 16), HexDigit(c as int % 16)]
  }

  function Quote(s: string): string
    requires IsBytes(s)
  {
    if s == "" then "" else QuoteChar(s[0]) + Quote(s[1..])
  }

  predicate IsEscape(s: string) {
    |s| >= 3 && s[0] == '%' && HexValue(s[1]).Some? && HexValue(s[2]).Some?
  }

  /** A percent sign without two hexadecimal digits behind it stands for itself. */
  function Unquote(s: string): string
    decreases |s|
  {
    if s == "" then ""
    else if IsEscape(s) then
      [(HexValue(s[1]).value * 16 + HexValue(s[2]).value) as char] + Unquote(s[3..])
    else [s[0]] + Unquote(s[1..])
  }

  lemma UnquoteFirst(c: char, rest: string)
    requires IsByte(c)
    ensures Unquote(QuoteChar(c) + rest) == [c] + Unquote(rest)
  {
    var s := QuoteChar(c) + rest;
    if IsSafe(c) {
      assert s[1..] == rest;
    } else {
      assert s[3..] == rest;
    }
  }

  /** Whatever bytes a URL is made of, it survives quoting. */
  lemma {:induction false} QuoteRoundTrip(s: string)
    requires IsBytes(s)
    ensures Unquote(Quote(s)) == s
  {
    if s != "" {
      UnquoteFirst(s[0], Quote(s[1..]));
      QuoteRoundTrip(s[1..]);
    }
  }

  function LowerHexDigit(d: nat): char
    requires d < 16
  {
    if d < 10 then ('0' as int + d) as char else ('a' as int + d - 10) as char
  }

  /** Percent-encoding as other programs write it, with digits in lower case. */
  function LowerQuote(s: string): string
    requires IsBytes(s)
  {
    if s == "" then ""
    else (if IsSafe(s[0]) then [s[0]] else ['%', LowerHexDigit(s[0] as int / 16), LowerHexDigit(s[0] as int % 16)])
           + LowerQuote(s[1..])
  }

  lemma LowerUnquoteFirst(c: char, rest: string)
    requires IsByte(c) && !IsSafe(c)
    ensures Unquote(['%', LowerHexDigit(c as int / 16), LowerHexDigit(c as int % 16)] + rest) == [c] + Unquote(rest)
  {
    var s := ['%', LowerHexDigit(c as int / 16), LowerHexDigit(c as int % 16)] + rest;
    assert s[3..] == rest;
  }

  /** It is read alike. */
  lemma {:induction false} LowerQuoteRoundTrip(s: string)
    requires IsBytes(s)
    ensures Unquote(LowerQuote(s)) == s
  {
    if s != "" {
      if IsSafe(s[0]) {
        assert ([s[0]] + LowerQuote(s[1..]))[1..] == LowerQuote(s[1..]);
      } else {
        LowerUnquoteFirst(s[0], LowerQuote(s[1..]));
      }
      LowerQuoteRoundTrip(s[1..]);
    }
  }

  /** A quoted URL has no slash in it, so it can name a node below the base node of the registry. */
  lemma {:induction false} QuotedIsOneName(s: string)
    requires IsBytes(s)
    ensures forall c :: c in Quote(s) ==> IsSafe(c) || c == '%'
    ensures '/' !in Quote(s)
  {
    if s != "" {
      QuotedIsOneName(s[1..]);
    }
  }

  // ---- Building ----------------------------------------------------------------------

  type Arguments = map<string, seq<string>>

  datatype Url = Url(
    scheme: Option<string>,
    host: Option<string>,
    port: Option<nat>,
    path: string,
    arguments: Arguments,
    fragment: Option<string>)

  /** "%s=%s" for the values of one key. */
  function PairsOf(k: string, values: seq<string>): (r: seq<string>)
    ensures |r| == |values| && forall i :: 0 <= i < |r| ==> r[i] == k + "=" + values[i]
  {
    seq(|values|, i requires 0 <= i < |values| => k + "=" + values[i])
  }

  /** The order in which a dictionary gives its keys. */
  ghost predicate IsOrder(arguments: Arguments, order: seq<string>) {
    && (forall i, j :: 0 <= i < j < |order| ==> order[i] != order[j])
    && (forall k :: k in order <==> k in arguments)
  }

  function Pairs(arguments: Arguments, order: seq<string>): seq<string>
    requires forall k :: k in order ==> k in arguments
  {
    if order == [] then [] else PairsOf(order[0], arguments[order[0]]) + Pairs(arguments, order[1..])
  }

  /** "&".join(parts) */
  function Join(parts: seq<string>): string {
    if parts == [] then "" else if |parts| == 1 then parts[0] else parts[0] + "&" + Join(parts[1..])
  }

  function Netloc(u: Url): string {
    match u.host
    case None => ""
    case Some(host) => host + (match u.port case None => "" case Some(port) => ":" + Decimal(port))
  }

  function QueryPart(u: Url, order: seq<string>): string
    requires IsOrder(u.arguments, order)
  {
    if order == [] then "" else "?" + Join(Pairs(u.arguments, order))
  }

  function FragmentPart(u: Url): string {
    if u.fragment.Some? && u.fragment.value != "" then "#" + u.fragment.value else ""
  }

  /** URLBuilder.build() */
  function Build(u: Url, order: seq<string>): string
    requires IsOrder(u.arguments, order)
  {
    (match u.scheme case None => "//" case Some(scheme) => scheme + "://")
      + Netloc(u) + u.path + QueryPart(u, order) + FragmentPart(u)
  }

  // ---- parse_query -------------------------------------------------------------------

  /** query.setdefault(k, []).append(v) */
  function AddArgument(query: Arguments, k: string, v: string): Arguments {
    query[k := (if k in query then query[k] else []) + [v]]
  }

  function AddItem(query: Arguments, item: string): Arguments {
    match SplitFirst(item, '=')
    case None => query
    case Some(pair) => AddArgument(query, pair.0, pair.1)
  }

  function AddItems(query: Arguments, items: seq<string>): Arguments
    decreases |items|
  {
    if items == [] then query else AddItems(AddItem(query, items[0]), items[1..])
  }

  /** parse_query(qr), without unquoting, as the registry calls it. */
  function ParsedQuery(qr: string): Arguments {
    AddItems(map[], SplitAll(qr, '&'))
  }

  method ParseQuery(qr: string) returns (query: Arguments)
    ensures query == ParsedQuery(qr)
  {
    query := map[];
    var items := SplitAll(qr, '&');
    var i := 0;
    while i < |items|
      invariant i <= |items|
      invariant AddItems(query, items[i..]) == ParsedQuery(qr)
    {
      assert items[i..][1..] == items[i + 1..];
      var pair := SplitFirst(items[i], '=');
      if pair.Some? {
        var (k, v) := pair.value;
        query := query[k := (if k in query then query[k] else []) + [v]];
      }
      i := i + 1;
    }
  }

  // ---- The builder -------------------------------------------------------------------

  class URLBuilder {
    var scheme: Option<string>
    var host: Option<string>
    var port: Option<nat>
    var path: string
    var arguments: Arguments
    var fragment: Option<string>

    constructor ()
      ensures Value() == Url(None, None, None, "", map[], None)
    {
      scheme, host, port, path, arguments, fragment := None, None, None, "", map[], None;
    }

    function Value(): Url
      reads this
    {
      Url(scheme, host, port, path, arguments, fragment)
    }

    method WithArgument(k: string, v: string)
      modifies this`arguments
      ensures Value() == old(Value()).(arguments := AddArgument(old(arguments), k, v))
    {
      arguments := arguments[k := (if k in arguments then arguments[k] else []) + [v]];
    }

    /** The "k=v" items of the query. */
    method QueryItems(order: seq<string>) returns (pairs: seq<string>)
      requires IsOrder(arguments, order)
      ensures pairs == Pairs(arguments, order)
    {
      pairs := [];
      var i := 0;
      while i < |order|
        invariant i <= |order|
        invariant pairs + Pairs(arguments, order[i..]) == Pairs(arguments, order)
      {
        var k := order[i];
        assert order[i..][1..] == order[i + 1..];
        var values := arguments[k];
        ghost var before := pairs;
        var j := 0;
        while j < |values|
          invariant j <= |values|
          invariant pairs == before + PairsOf(k, values)[..j]
        {
          pairs := pairs + [k + "=" + values[j]];
          j := j + 1;
        }
        assert PairsOf(k, values)[..j] == PairsOf(k, values);
        Regroup(before, PairsOf(k, values), Pairs(arguments, order[i + 1..]));
        i := i + 1;
      }
    }

    /** build(quote_url): order is the one in which the dictionary happens to give its keys. */
    method BuildUrl(order: seq<string>, quoteUrl: bool) returns (url: string)
      requires IsOrder(arguments, order)
      requires IsBytes(Build(Value(), order))
      ensures url == if quoteUrl then Quote(Build(Value(), order)) else Build(Value(), order)
    {
      url := if scheme.None? then "//" else scheme.value + "://";
      ghost var start := url;
      if host.Some? {
        url := url + host.value;
        if port.Some? {
          url := url + (":" + Decimal(port.value));
          Regroup(start, host.value, ":" + Decimal(port.value));
        }
      }
      assert url == start + Netloc(Value()) by {
        assert host.None? ==> start + "" == start;
        assert host.Some? && port.None? ==> host.value + "" == host.value;
      }
      url := url + path;
      EmptyOrder(arguments, order);
      ghost var beforeQuery := url;
      if |arguments| > 0 {
        var pairs := QueryItems(order);
        url := url + ("?" + Join(pairs));
      }
      ghost var beforeFragment := url;
      assert url == beforeQuery + QueryPart(Value(), order);
      if fragment.Some? && fragment.value != "" {
        url := url + ("#" + fragment.value);
      }
      assert url == beforeFragment + FragmentPart(Value());
      if quoteUrl {
        url := Quote(url);
      }
    }
  }

  lemma EmptyOrder(arguments: Arguments, order: seq<string>)
    requires IsOrder(arguments, order)
    ensures order == [] <==> |arguments| == 0
  {
    if order != [] {
      assert order[0] in arguments;
    } else {
      assert forall k :: k !in arguments;
      assert arguments == map[];
    }
  }
}

/** Hop-by-hop header stripping. Names are stored in lower case, as the header map does, and each
    name maps to its values in order; values are byte strings. */
module ReservedHeaders {
  import opened Strings

  const HOP_BY_HOP: seq<string> :=
    ["connection", "keep-alive", "proxy-authenticate", "proxy-authorization", "te", "trailer", "transfer-encoding", "upgrade"]

  const RESPONSE_HOP_BY_HOP: seq<string> :=
    ["connection", "keep-alive", "proxy-authenticate", "te", "trailer", "transfer-encoding", "upgrade"]

  const RESERVED_PREFIXES: seq<string> := ["x-praxis-", "x-ext-protocol-", "x-ext-agent-"]

  function LowerChar(c: char): char {
    if 'A' <= c <= 'Z' then (c as int + 32) as char else c
  }

  function Lower(s: string): (r: string)
    ensures |r| == |s|
  {
    seq(|s|, i requires 0 <= i < |s| => LowerChar(s[i]))
  }

  predicate HasPrefix(name: string, prefix: string) {
    |prefix| <= |name| && Lower(name[..|prefix|]) == prefix
  }

  predicate IsReserved(name: string) {
    exists i :: 0 <= i < |RESERVED_PREFIXES| && HasPrefix(name, RESERVED_PREFIXES[i])
  }

  predicate IsProtected(name: string) {
    HasPrefix(name, "x-forwarded-") || Lower(name) == "forwarded" || Lower(name) == "host"
    || Lower(name) == "content-length" || IsReserved(name)
  }

  predicate IsAsciiWhitespace(c: char) {
    c == ' ' || c == '\t' || c == '\n' || c == '\r' || c as int == 12
  }

  /** A token that can name a header. One holding a byte outside ASCII names none. */
  predicate IsToken(s: string) {
    s != "" && forall i :: 0 <= i < |s| ==> s[i] as int < 128
  }

  function Tokens(parts: seq<string>): seq<string> {
    if parts == [] then []
    else
      var token := Trim(parts[0], IsAsciiWhitespace);
      (if IsToken(token) then [token] else []) + Tokens(parts[1..])
  }

  /** What a single `Connection` value nominates. */
  function ConnectionTokens(value: string): seq<string> {
    Tokens(Split(value))
  }
}

module NextHopModel {
  import opened Strings
  import opened ReservedHeaders

  type Headers = map<string, seq<string>>

  datatype UpgradePreserve = Never | IfUpgradeRequest(isUpgradeRequest: bool) | If101(is101: bool)

  datatype Options = Options(
    staticHeaders: seq<string>,
    upgrade: UpgradePreserve,
    restoreChunkedFraming: bool,
    suppressChunkedRestoreOnWebsocket: bool)

  function GetAll(h: Headers, name: string): seq<string> {
    if name in h then h[name] else []
  }

  predicate IsVisible(s: string) {
    forall i :: 0 <= i < |s| ==> 32 <= s[i] as int < 127 || s[i] == '\t'
  }

  predicate HasWebsocketUpgrade(h: Headers) {
    var values := GetAll(h, "upgrade");
    |values| == 1 && IsVisible(values[0]) && Lower(Trim(values[0], IsAsciiWhitespace)) == "websocket"
  }

  predicate PreserveActive(h: Headers, upgrade: UpgradePreserve) {
    match upgrade
    case Never => false
    case IfUpgradeRequest(yes) => yes && HasWebsocketUpgrade(h)
    case If101(yes) => yes && HasWebsocketUpgrade(h)
  }

  predicate PreservedName(name: string, ws: bool) {
    ws && (name == "upgrade" || name == "connection")
  }

  predicate EndsInChunked(value: string) {
    var parts := Split(value);
    Lower(Trim(parts[|parts| - 1], IsAsciiWhitespace)) == "chunked"
  }

  predicate DeclaresChunked(h: Headers) {
    var values := GetAll(h, "transfer-encoding");
    values != [] && EndsInChunked(values[|values| - 1])
  }

  function Remove(h: Headers, name: string): Headers {
    h - {Lower(name)}
  }

  function StripStatic(h: Headers, names: seq<string>, ws: bool): Headers {
    if names == [] then h
    else StripStatic(if PreservedName(names[0], ws) then h else Remove(h, names[0]), names[1..], ws)
  }

  predicate InStatic(token: string, names: seq<string>) {
    exists i :: 0 <= i < |names| && Lower(token) == Lower(names[i])
  }

  function StripTokens(h: Headers, tokens: seq<string>, names: seq<string>): Headers
    decreases |tokens|
  {
    if tokens == [] then h
    else StripTokens(if InStatic(tokens[0], names) || IsProtected(tokens[0]) then h else Remove(h, tokens[0]),
                     tokens[1..], names)
  }

  function Nominations(values: seq<string>): seq<string> {
    if values == [] then [] else ConnectionTokens(values[0]) + Nominations(values[1..])
  }

  function StripHopByHop(h: Headers, o: Options): Headers {
    var ws := PreserveActive(h, o.upgrade);
    var wasChunked := o.restoreChunkedFraming && DeclaresChunked(h);
    var h1 := StripStatic(h, o.staticHeaders, ws);
    var h2 := StripTokens(h1, Nominations(GetAll(h, "connection")), o.staticHeaders);
    if o.restoreChunkedFraming && !(o.suppressChunkedRestoreOnWebsocket && ws) && wasChunked && "content-length" !in h2
    then h2["transfer-encoding" := ["chunked"]] else h2
  }
}

/** What stripping removes, keeps and restores, field by field. */
module NextHopSpec {
  import opened Strings
  import opened ReservedHeaders
  import opened NextHopModel

  predicate LowerNames(names: seq<string>) {
    forall i :: 0 <= i < |names| ==> Lower(names[i]) == names[i]
  }

  /** Named by a `Connection` value, in any case. */
  predicate Nominated(h: Headers, name: string) {
    exists t :: t in Nominations(GetAll(h, "connection")) && Lower(t) == name
  }

  /** A static hop-by-hop field, unless it is half of a kept WebSocket upgrade; or a field the
      sender nominated, unless the proxy owns it. */
  predicate Dropped(h: Headers, o: Options, name: string) {
    || (name in o.staticHeaders && !PreservedName(name, PreserveActive(h, o.upgrade)))
    || (Nominated(h, name) && name !in o.staticHeaders && !IsProtected(name))
  }

  /** Chunked framing is put back when it was there, is wanted, and no length is given. */
  predicate Restored(h: Headers, o: Options) {
    && o.restoreChunkedFraming && DeclaresChunked(h)
    && !(o.suppressChunkedRestoreOnWebsocket && PreserveActive(h, o.upgrade))
    && !("content-length" in h && !Dropped(h, o, "content-length"))
  }

  lemma LowerTwice(s: string)
    ensures Lower(Lower(s)) == Lower(s)
  {
  }

  lemma LowerPrefix(name: string, n: nat)
    requires n <= |name|
    ensures Lower(Lower(name)[..n]) == Lower(name[..n])
  {
    assert Lower(name)[..n] == Lower(name[..n]);
    LowerTwice(name[..n]);
  }

  lemma ProtectedIgnoresCase(name: string)
    ensures IsProtected(Lower(name)) <==> IsProtected(name)
  {
    LowerTwice(name);
    if |name| >= 12 {
      LowerPrefix(name, 12);
    }
    forall i | 0 <= i < |RESERVED_PREFIXES| && |RESERVED_PREFIXES[i]| <= |name|
      ensures HasPrefix(Lower(name), RESERVED_PREFIXES[i]) <==> HasPrefix(name, RESERVED_PREFIXES[i])
    {
      LowerPrefix(name, |RESERVED_PREFIXES[i]|);
    }
  }

  /** A map with some of the fields of `h`, unchanged. */
  ghost predicate Keeps(h: Headers, h': Headers, kept: string -> bool) {
    && (forall n :: n in h' <==> n in h && kept(n))
    && (forall n :: n in h' ==> h'[n] == h[n])
  }

  lemma {:induction false} StaticKeeps(h: Headers, names: seq<string>, ws: bool)
    requires LowerNames(names)
    ensures Keeps(h, StripStatic(h, names, ws), n => n !in names || PreservedName(n, ws))
  {
    if names == [] {
    } else {
      assert LowerNames(names[1..]) by {
        assert forall i :: 0 <= i < |names[1..]| ==> names[1..][i] == names[i + 1];
      }
      assert Lower(names[0]) == names[0];
      StaticKeeps(if PreservedName(names[0], ws) then h else Remove(h, names[0]), names[1..], ws);
      assert forall n :: n in names <==> n == names[0] || n in names[1..];
    }
  }

  predicate Strips(token: string, names: seq<string>) {
    !InStatic(token, names) && !IsProtected(token)
  }

  predicate StrippedBy(tokens: seq<string>, names: seq<string>, n: string) {
    exists t :: t in tokens && Lower(t) == n && Strips(t, names)
  }

  lemma {:induction false} TokensKeep(h: Headers, tokens: seq<string>, names: seq<string>)
    ensures Keeps(h, StripTokens(h, tokens, names), n => !StrippedBy(tokens, names, n))
    decreases |tokens|
  {
    if tokens == [] {
    } else {
      var next := if Strips(tokens[0], names) then Remove(h, tokens[0]) else h;
      TokensKeep(next, tokens[1..], names);
      assert forall t :: t in tokens <==> t == tokens[0] || t in tokens[1..];
    }
  }

  lemma StrippedByIsNominated(tokens: seq<string>, names: seq<string>, n: string)
    requires LowerNames(names)
    ensures StrippedBy(tokens, names, n)
            <==> (exists t :: t in tokens && Lower(t) == n) && n !in names && !IsProtected(n)
  {
    forall t | t in tokens && Lower(t) == n
      ensures Strips(t, names) <==> n !in names && !IsProtected(n)
    {
      ProtectedIgnoresCase(t);
      assert InStatic(t, names) <==> n in names;
    }
  }

  lemma StripsPointwise(h: Headers, o: Options, n: string)
    requires LowerNames(o.staticHeaders)
    ensures var ws := PreserveActive(h, o.upgrade);
            var h2 := StripTokens(StripStatic(h, o.staticHeaders, ws), Nominations(GetAll(h, "connection")), o.staticHeaders);
            (n in h2 <==> n in h && !Dropped(h, o, n)) && (n in h2 ==> h2[n] == h[n])
  {
    var ws := PreserveActive(h, o.upgrade);
    var tokens := Nominations(GetAll(h, "connection"));
    var h1 := StripStatic(h, o.staticHeaders, ws);
    StaticKeeps(h, o.staticHeaders, ws);
    TokensKeep(h1, tokens, o.staticHeaders);
    StrippedByIsNominated(tokens, o.staticHeaders, n);
  }

  lemma {:induction false} StripsField(h: Headers, o: Options, n: string)
    requires LowerNames(o.staticHeaders)
    ensures var r := StripHopByHop(h, o);
            && (n in r <==> (n in h && !Dropped(h, o, n)) || (n == "transfer-encoding" && Restored(h, o)))
            && (n in r ==> r[n] == if n == "transfer-encoding" && Restored(h, o) then ["chunked"] else h[n])
  {
    StripsPointwise(h, o, "content-length");
    StripsPointwise(h, o, n);
  }

  /** Stripping is its declarative specification: every field is absent, unchanged, or the restored
      framing field. */
  lemma {:induction false} StripsExactlyTheSpecifiedFields(h: Headers, o: Options)
    requires LowerNames(o.staticHeaders)
    ensures var r := StripHopByHop(h, o);
            forall n :: && (n in r <==> (n in h && !Dropped(h, o, n)) || (n == "transfer-encoding" && Restored(h, o)))
                        && (n in r ==> r[n] == if n == "transfer-encoding" && Restored(h, o) then ["chunked"] else h[n])
  {
    forall n: string
      ensures var r := StripHopByHop(h, o);
              && (n in r <==> (n in h && !Dropped(h, o, n)) || (n == "transfer-encoding" && Restored(h, o)))
              && (n in r ==> r[n] == if n == "transfer-encoding" && Restored(h, o) then ["chunked"] else h[n])
    {
      StripsField(h, o, n);
    }
  }

  lemma {:induction false} TokensAre(parts: seq<string>, token: string)
    ensures token in Tokens(parts)
            <==> IsToken(token) && exists i :: 0 <= i < |parts| && Trim(parts[i], IsAsciiWhitespace) == token
  {
    if parts == [] {
    } else {
      TokensAre(parts[1..], token);
      assert forall i :: 1 <= i < |parts| ==> parts[1..][i - 1] == parts[i];
    }
  }

  /** The names one value nominates are the trimmed list elements that can be names, whatever
      stands beside them: an unusable element hides no other. */
  lemma {:induction false} NominationsAreIndependent(parts: seq<string>, token: string)
    requires parts != [] && forall i :: 0 <= i < |parts| ==> ',' !in parts[i]
    ensures token in ConnectionTokens(Join(parts))
            <==> IsToken(token) && exists i :: 0 <= i < |parts| && Trim(parts[i], IsAsciiWhitespace) == token
  {
    SplitJoin(parts);
    TokensAre(parts, token);
  }

  /** The two lists the proxy uses. */
  predicate ProxyList(names: seq<string>) {
    names == HOP_BY_HOP || names == RESPONSE_HOP_BY_HOP
  }

  predicate NoUpper(s: string) {
    forall i :: 0 <= i < |s| ==> !('A' <= s[i] <= 'Z')
  }

  lemma LowerAlready(s: string)
    requires NoUpper(s)
    ensures Lower(s) == s
  {
  }

  lemma ProxyNamesAreLower()
    ensures Lower("proxy-authenticate") == "proxy-authenticate" && Lower("proxy-authorization") == "proxy-authorization"
  {
    LowerAlready("proxy-authenticate");
    LowerAlready("proxy-authorization");
  }

  lemma HopByHopIsLower()
    ensures LowerNames(HOP_BY_HOP)
  {
    ProxyNamesAreLower();
    LowerAlready("connection");
    LowerAlready("keep-alive");
    LowerAlready("te");
    LowerAlready("trailer");
    LowerAlready("transfer-encoding");
    LowerAlready("upgrade");
  }

  /** The response list is the request list without `proxy-authorization`. */
  lemma ResponseListDropsOneName()
    ensures RESPONSE_HOP_BY_HOP == HOP_BY_HOP[..3] + HOP_BY_HOP[4..] && HOP_BY_HOP[3] == "proxy-authorization"
  {
  }

  lemma NamesInBothLists(names: seq<string>)
    requires ProxyList(names)
    ensures "transfer-encoding" in names && "connection" in names && "upgrade" in names
    ensures "content-length" !in names
  {
    ResponseListDropsOneName();
    assert HOP_BY_HOP[0] == "connection" && HOP_BY_HOP[6] == "transfer-encoding" && HOP_BY_HOP[7] == "upgrade";
    assert names[0] == "connection" && names[|names| - 2] == "transfer-encoding" && names[|names| - 1] == "upgrade";
    forall i | 0 <= i < |names|
      ensures |names[i]| != |"content-length"|
    {
    }
  }

  lemma ProxyListsAreLower(names: seq<string>)
    requires ProxyList(names)
    ensures LowerNames(names) && "transfer-encoding" in names && "connection" in names && "upgrade" in names
    ensures "content-length" !in names
  {
    HopByHopIsLower();
    ResponseListDropsOneName();
    NamesInBothLists(names);
    forall i | 0 <= i < |names|
      ensures Lower(names[i]) == names[i]
    {
      assert names == HOP_BY_HOP || names[i] == HOP_BY_HOP[if i < 3 then i else i + 1];
    }
  }

  lemma LengthIsProtected()
    ensures IsProtected("content-length")
  {
    assert Lower("content-length") == "content-length";
  }

  /** A stripped message never carries both framings, its length is never removed, and its chunked
      framing is exactly the restored one. */
  lemma {:induction false} NeverBothFramings(h: Headers, o: Options)
    requires ProxyList(o.staticHeaders)
    ensures var r := StripHopByHop(h, o);
            && !("transfer-encoding" in r && "content-length" in r)
            && ("content-length" in r <==> "content-length" in h)
            && ("transfer-encoding" in r <==> Restored(h, o))
            && ("transfer-encoding" in r ==> r["transfer-encoding"] == ["chunked"])
  {
    ProxyListsAreLower(o.staticHeaders);
    LengthIsProtected();
    StripsExactlyTheSpecifiedFields(h, o);
  }

  lemma ChunkedDeclaresItself(h: Headers)
    requires GetAll(h, "transfer-encoding") == ["chunked"]
    ensures DeclaresChunked(h)
  {
    assert Split("chunked") == ["chunked"];
    assert TrimStart("chunked", IsAsciiWhitespace) == "chunked" && TrimEnd("chunked", IsAsciiWhitespace) == "chunked";
    assert Lower("chunked") == "chunked";
  }

  lemma UpgradePairSurvives(h: Headers, o: Options, n: string)
    requires ProxyList(o.staticHeaders) && (n == "upgrade" || n == "connection")
    ensures GetAll(StripHopByHop(h, o), n) == if PreserveActive(h, o.upgrade) then GetAll(h, n) else []
  {
    ProxyListsAreLower(o.staticHeaders);
    StripsExactlyTheSpecifiedFields(h, o);
  }

  lemma SameUpgradeValues(h: Headers, r: Headers, upgrade: UpgradePreserve)
    requires GetAll(r, "upgrade") == if PreserveActive(h, upgrade) then GetAll(h, "upgrade") else []
    ensures PreserveActive(r, upgrade) == PreserveActive(h, upgrade)
  {
  }

  lemma UpgradeSurvives(h: Headers, o: Options)
    requires ProxyList(o.staticHeaders)
    ensures var r, ws := StripHopByHop(h, o), PreserveActive(h, o.upgrade);
            && PreserveActive(r, o.upgrade) == ws
            && GetAll(r, "connection") == if ws then GetAll(h, "connection") else []
  {
    UpgradePairSurvives(h, o, "upgrade");
    UpgradePairSurvives(h, o, "connection");
    SameUpgradeValues(h, StripHopByHop(h, o), o.upgrade);
  }

  lemma NothingNominated(h: Headers, n: string)
    requires GetAll(h, "connection") == []
    ensures !Nominated(h, n)
  {
  }

  lemma RestoredAgain(h: Headers, o: Options)
    requires ProxyList(o.staticHeaders)
    ensures Restored(StripHopByHop(h, o), o) <==> Restored(h, o)
  {
    var r := StripHopByHop(h, o);
    NeverBothFramings(h, o);
    UpgradeSurvives(h, o);
    if Restored(h, o) {
      ChunkedDeclaresItself(r);
    }
  }

  lemma KeptStaysKept(h: Headers, o: Options, n: string)
    requires ProxyList(o.staticHeaders) && n in StripHopByHop(h, o) && n != "transfer-encoding"
    ensures !Dropped(StripHopByHop(h, o), o, n)
  {
    ProxyListsAreLower(o.staticHeaders);
    StripsExactlyTheSpecifiedFields(h, o);
    UpgradeSurvives(h, o);
    if !PreserveActive(h, o.upgrade) {
      NothingNominated(StripHopByHop(h, o), n);
    }
  }

  /** Stripping a second time changes nothing. */
  lemma {:induction false} StrippingIsIdempotent(h: Headers, o: Options)
    requires ProxyList(o.staticHeaders)
    ensures StripHopByHop(StripHopByHop(h, o), o) == StripHopByHop(h, o)
  {
    var r := StripHopByHop(h, o);
    var rr := StripHopByHop(r, o);
    ProxyListsAreLower(o.staticHeaders);
    StripsExactlyTheSpecifiedFields(r, o);
    NeverBothFramings(h, o);
    NeverBothFramings(r, o);
    RestoredAgain(h, o);
    forall n: string
      ensures n in rr <==> n in r
      ensures n in r ==> n in rr && rr[n] == r[n]
    {
      if n in r && n != "transfer-encoding" {
        KeptStaysKept(h, o, n);
      }
    }
  }

  /** The upgrade pair crosses the hop only on a clean WebSocket upgrade, and then unchanged; no
      other static hop-by-hop field ever does, apart from the restored framing. */
  lemma {:induction false} OnlyWebsocketUpgradesCross(h: Headers, o: Options, n: string)
    requires ProxyList(o.staticHeaders) && n in o.staticHeaders && n in StripHopByHop(h, o)
    ensures || (n == "transfer-encoding" && Restored(h, o))
            || ((n == "upgrade" || n == "connection") && PreserveActive(h, o.upgrade) && n in h
                && StripHopByHop(h, o)[n] == h[n])
  {
    ProxyListsAreLower(o.staticHeaders);
    StripsExactlyTheSpecifiedFields(h, o);
  }
}

/** Stripping again, in the words of the header fields themselves. */
module NextHopByName {
  import opened Strings
  import opened ReservedHeaders
  import opened NextHopModel
  import opened NextHopSpec

  /** The same letters, except that `a` may have capitals where `b` has none. */
  predicate Spells(a: string, b: string) {
    |a| == |b| && forall i :: 0 <= i < |a| ==> a[i] == b[i] || ('A' <= a[i] <= 'Z' && b[i] as int == a[i] as int + 32)
  }

  lemma LowerSpells(a: string, b: string)
    requires NoUpper(b)
    ensures Lower(a) == b <==> Spells(a, b)
  {
    if Spells(a, b) {
      forall i | 0 <= i < |a|
        ensures Lower(a)[i] == b[i]
      {
      }
    }
    if Lower(a) == b {
      forall i | 0 <= i < |a|
        ensures a[i] == b[i] || ('A' <= a[i] <= 'Z' && b[i] as int == a[i] as int + 32)
      {
        assert b[i] == LowerChar(a[i]);
      }
    }
  }

  predicate Starts(name: string, prefix: string) {
    |prefix| <= |name| && name[..|prefix|] == prefix
  }

  /** The fields a sender can never have removed: what the proxy asserts about the client, what it keeps
      for itself, and what routing and framing rest on. */
  predicate Untouchable(name: string) {
    || name == "host" || name == "forwarded" || name == "content-length" || Starts(name, "x-forwarded-")
    || Starts(name, "x-praxis-") || Starts(name, "x-ext-protocol-") || Starts(name, "x-ext-agent-")
  }

  lemma PrefixIs(name: string, prefix: string)
    requires NoUpper(name)
    ensures HasPrefix(name, prefix) <==> Starts(name, prefix)
  {
    if |prefix| <= |name| {
      LowerAlready(name[..|prefix|]);
    }
  }

  lemma ReservedIs(name: string)
    requires NoUpper(name)
    ensures IsReserved(name) <==> Starts(name, "x-praxis-") || Starts(name, "x-ext-protocol-") || Starts(name, "x-ext-agent-")
  {
    PrefixIs(name, "x-praxis-");
    PrefixIs(name, "x-ext-protocol-");
    PrefixIs(name, "x-ext-agent-");
    assert RESERVED_PREFIXES[0] == "x-praxis-" && RESERVED_PREFIXES[1] == "x-ext-protocol-" && RESERVED_PREFIXES[2] == "x-ext-agent-";
  }

  lemma ProtectedIs(name: string)
    requires NoUpper(name)
    ensures IsProtected(name) <==> Untouchable(name)
  {
    LowerAlready(name);
    PrefixIs(name, "x-forwarded-");
    ReservedIs(name);
  }

  /** The names the request list and the response list hold. */
  predicate ListedName(name: string, request: bool) {
    || name == "connection" || name == "keep-alive" || name == "proxy-authenticate" || name == "te" || name == "trailer"
    || name == "transfer-encoding" || name == "upgrade" || (request && name == "proxy-authorization")
  }

  lemma RequestListIs(name: string)
    ensures name in HOP_BY_HOP <==> ListedName(name, true)
  {
    var l := HOP_BY_HOP;
    assert l[0] == "connection" && l[1] == "keep-alive" && l[2] == "proxy-authenticate" && l[3] == "proxy-authorization";
    assert l[4] == "te" && l[5] == "trailer" && l[6] == "transfer-encoding" && l[7] == "upgrade" && |l| == 8;
  }

  lemma ResponseListIs(name: string)
    ensures name in RESPONSE_HOP_BY_HOP <==> ListedName(name, false)
  {
    var l := RESPONSE_HOP_BY_HOP;
    assert l[0] == "connection" && l[1] == "keep-alive" && l[2] == "proxy-authenticate";
    assert l[3] == "te" && l[4] == "trailer" && l[5] == "transfer-encoding" && l[6] == "upgrade" && |l| == 7;
  }

  lemma ListIs(names: seq<string>, name: string)
    requires ProxyList(names)
    ensures name in names <==> ListedName(name, names == HOP_BY_HOP)
  {
    RequestListIs(name);
    ResponseListIs(name);
  }

  lemma ListedIsNotUntouchable(name: string, request: bool)
    requires ListedName(name, request)
    ensures !Untouchable(name)
  {
    assert name[0] != 'x';
  }

  /** An untouchable field crosses the hop with its values, whatever `Connection` nominates. */
  lemma {:induction false} UntouchableFieldsCross(h: Headers, o: Options, n: string)
    requires ProxyList(o.staticHeaders) && NoUpper(n) && Untouchable(n) && n in h
    ensures n in StripHopByHop(h, o) && StripHopByHop(h, o)[n] == h[n]
  {
    ProxyListsAreLower(o.staticHeaders);
    ListIs(o.staticHeaders, n);
    if n in o.staticHeaders {
      ListedIsNotUntouchable(n, o.staticHeaders == HOP_BY_HOP);
    }
    ProtectedIs(n);
    StripsField(h, o, n);
  }

  /** The hop's own fields; credentials for a proxy are one in a request only. */
  predicate HopField(n: string, request: bool) {
    n == "keep-alive" || n == "te" || n == "trailer" || n == "proxy-authenticate" || (request && n == "proxy-authorization")
  }

  lemma HopFieldIsListed(n: string, request: bool)
    requires HopField(n, request)
    ensures ListedName(n, request) && n != "upgrade" && n != "connection" && n != "transfer-encoding"
  {
  }

  /** The hop's own fields never cross. */
  lemma {:induction false} HopFieldsNeverCross(h: Headers, o: Options, n: string)
    requires ProxyList(o.staticHeaders) && HopField(n, o.staticHeaders == HOP_BY_HOP)
    ensures n !in StripHopByHop(h, o)
  {
    ProxyListsAreLower(o.staticHeaders);
    HopFieldIsListed(n, o.staticHeaders == HOP_BY_HOP);
    ListIs(o.staticHeaders, n);
    StripsField(h, o, n);
  }

  // ---------------------------------------------------------------------------------------
  // Nominations
  // ---------------------------------------------------------------------------------------

  lemma {:induction false} NominationsCover(values: seq<string>, token: string)
    ensures token in Nominations(values) <==> exists j :: 0 <= j < |values| && token in ConnectionTokens(values[j])
  {
    if values == [] {
    } else {
      var rest := values[1..];
      NominationsCover(rest, token);
      assert token in Nominations(values) <==> token in ConnectionTokens(values[0]) || token in Nominations(rest);
      if j :| 0 <= j < |rest| && token in ConnectionTokens(rest[j]) {
        assert values[j + 1] == rest[j];
      }
      if j :| 0 < j < |values| && token in ConnectionTokens(values[j]) {
        assert rest[j - 1] == values[j];
      }
    }
  }

  predicate Blank(s: string) {
    forall i :: 0 <= i < |s| ==> s[i] == ' ' || s[i] == '\t' || s[i] == '\n' || s[i] == '\r' || s[i] as int == 12
  }

  /** An element of a list that names the field `n`, in any case and with any whitespace around it. */
  ghost predicate Names(element: string, n: string) {
    exists left, token, right :: element == left + token + right && Blank(left) && Blank(right) && Spells(token, n)
  }

  /** A name as the header map stores it: not empty, ASCII, no capitals, no whitespace. */
  predicate FieldName(n: string) {
    n != "" && NoUpper(n) && forall i :: 0 <= i < |n| ==> 32 < n[i] as int < 128
  }

  lemma SpelledIsTight(token: string, n: string)
    requires FieldName(n) && Spells(token, n)
    ensures token != "" && Tight(token, IsAsciiWhitespace) && IsToken(token)
  {
    assert !IsAsciiWhitespace(n[0]) && !IsAsciiWhitespace(n[|n| - 1]);
  }

  lemma NamesIs(element: string, n: string)
    requires FieldName(n)
    ensures Names(element, n) <==> IsToken(Trim(element, IsAsciiWhitespace)) && Lower(Trim(element, IsAsciiWhitespace)) == n
  {
    if left, token, right :| element == left + token + right && Blank(left) && Blank(right) && Spells(token, n) {
      SpelledIsTight(token, n);
      TrimPadded(left, token, right, IsAsciiWhitespace);
      LowerSpells(token, n);
    }
    var left, right := TrimSplits(element, IsAsciiWhitespace);
    LowerSpells(Trim(element, IsAsciiWhitespace), n);
  }

  /** `parts` are the elements of the list `value`. */
  predicate IsSplit(parts: seq<string>, value: string) {
    parts != [] && (forall i :: 0 <= i < |parts| ==> ',' !in parts[i]) && Join(parts) == value
  }

  /** Some value of `Connection` has an element, between commas, that names the field. */
  ghost predicate NamedByConnection(h: Headers, n: string) {
    "connection" in h && exists j, parts, i ::
      0 <= j < |h["connection"]| && IsSplit(parts, h["connection"][j]) && 0 <= i < |parts| && Names(parts[i], n)
  }

  lemma NominatedIsNamed(h: Headers, n: string)
    requires FieldName(n) && Nominated(h, n)
    ensures NamedByConnection(h, n)
  {
    var values := GetAll(h, "connection");
    var t :| t in Nominations(values) && Lower(t) == n;
    NominationsCover(values, t);
    var j :| 0 <= j < |values| && t in ConnectionTokens(values[j]);
    var parts := Split(values[j]);
    JoinSplit(values[j]);
    TokensAre(parts, t);
    var i :| 0 <= i < |parts| && Trim(parts[i], IsAsciiWhitespace) == t;
    NamesIs(parts[i], n);
    assert IsSplit(parts, h["connection"][j]);
  }

  lemma NamedIsNominated(h: Headers, n: string)
    requires FieldName(n) && NamedByConnection(h, n)
    ensures Nominated(h, n)
  {
    var j, parts, i :| 0 <= j < |h["connection"]| && IsSplit(parts, h["connection"][j]) && 0 <= i < |parts| && Names(parts[i], n);
    var t := Trim(parts[i], IsAsciiWhitespace);
    NamesIs(parts[i], n);
    NominationsAreIndependent(parts, t);
    NominationsCover(h["connection"], t);
    assert t in Nominations(GetAll(h, "connection"));
  }

  /** A field that is on neither list and can be removed crosses, unchanged, exactly when no value of
      `Connection` names it. */
  lemma {:induction false} OtherFieldsCrossExactlyWhenUnnamed(h: Headers, o: Options, n: string)
    requires ProxyList(o.staticHeaders) && FieldName(n) && n in h
    requires !ListedName(n, o.staticHeaders == HOP_BY_HOP) && !Untouchable(n)
    ensures n in StripHopByHop(h, o) <==> !NamedByConnection(h, n)
    ensures n in StripHopByHop(h, o) ==> StripHopByHop(h, o)[n] == h[n]
  {
    ProxyListsAreLower(o.staticHeaders);
    ListIs(o.staticHeaders, n);
    ProtectedIs(n);
    if Nominated(h, n) {
      NominatedIsNamed(h, n);
    }
    if NamedByConnection(h, n) {
      NamedIsNominated(h, n);
    }
    StripsField(h, o, n);
  }

  // ---------------------------------------------------------------------------------------
  // Upgrade and framing
  // ---------------------------------------------------------------------------------------

  /** The hop is one on which an upgrade may be kept. */
  predicate UpgradeHop(upgrade: UpgradePreserve) {
    match upgrade
    case Never => false
    case IfUpgradeRequest(yes) => yes
    case If101(yes) => yes
  }

  /** Exactly one `Upgrade` value, readable, that names WebSocket and nothing else. */
  ghost predicate CleanUpgrade(h: Headers) {
    && "upgrade" in h && |h["upgrade"]| == 1 && Names(h["upgrade"][0], "websocket")
    && forall i :: 0 <= i < |h["upgrade"][0]| ==> 32 <= h["upgrade"][0][i] as int <= 126 || h["upgrade"][0][i] == '\t'
  }

  lemma WebsocketIsAName()
    ensures FieldName("websocket") && FieldName("chunked")
  {
  }

  lemma CleanUpgradeIs(h: Headers)
    ensures HasWebsocketUpgrade(h) <==> CleanUpgrade(h)
  {
    WebsocketIsAName();
    if "upgrade" in h && |h["upgrade"]| == 1 {
      var v := h["upgrade"][0];
      NamesIs(v, "websocket");
      if IsVisible(v) && Lower(Trim(v, IsAsciiWhitespace)) == "websocket" {
        var left, right := TrimSplits(v, IsAsciiWhitespace);
        LowerSpells(Trim(v, IsAsciiWhitespace), "websocket");
      }
    }
  }

  lemma PreserveIs(h: Headers, upgrade: UpgradePreserve)
    ensures PreserveActive(h, upgrade) <==> UpgradeHop(upgrade) && CleanUpgrade(h)
  {
    CleanUpgradeIs(h);
  }

  /** The upgrade pair crosses, unchanged, exactly on a hop that may keep an upgrade and with a clean one. */
  lemma {:induction false} UpgradePairCrossesExactly(h: Headers, o: Options, n: string)
    requires ProxyList(o.staticHeaders) && (n == "upgrade" || n == "connection")
    ensures n in StripHopByHop(h, o) <==> n in h && UpgradeHop(o.upgrade) && CleanUpgrade(h)
    ensures n in StripHopByHop(h, o) ==> StripHopByHop(h, o)[n] == h[n]
  {
    PreserveIs(h, o.upgrade);
    ProxyListsAreLower(o.staticHeaders);
    StripsField(h, o, n);
  }

  /** The last element of the list `value` is `chunked`. */
  ghost predicate LastIsChunked(value: string) {
    exists parts :: IsSplit(parts, value) && Names(parts[|parts| - 1], "chunked")
  }

  /** The last element of the last `Transfer-Encoding` value is `chunked`. */
  ghost predicate EndsChunked(h: Headers) {
    "transfer-encoding" in h && h["transfer-encoding"] != []
    && LastIsChunked(h["transfer-encoding"][|h["transfer-encoding"]| - 1])
  }

  lemma ChunkedToken(s: string)
    requires Lower(s) == "chunked"
    ensures IsToken(s)
  {
    LowerSpells(s, "chunked");
    SpelledIsTight(s, "chunked");
  }

  lemma ChunkedElement(element: string)
    ensures Names(element, "chunked") <==> Lower(Trim(element, IsAsciiWhitespace)) == "chunked"
  {
    WebsocketIsAName();
    NamesIs(element, "chunked");
    if Lower(Trim(element, IsAsciiWhitespace)) == "chunked" {
      ChunkedToken(Trim(element, IsAsciiWhitespace));
    }
  }

  lemma LastIsChunkedIs(value: string)
    ensures LastIsChunked(value) <==> EndsInChunked(value)
  {
    var parts := Split(value);
    JoinSplit(value);
    assert IsSplit(parts, value);
    ChunkedElement(parts[|parts| - 1]);
    if other :| IsSplit(other, value) && Names(other[|other| - 1], "chunked") {
      SplitJoin(other);
    }
  }

  lemma EndsChunkedIs(h: Headers)
    ensures DeclaresChunked(h) <==> EndsChunked(h)
  {
    var values := GetAll(h, "transfer-encoding");
    if values != [] {
      LastIsChunkedIs(values[|values| - 1]);
    }
  }

  lemma LengthIsKept(h: Headers, o: Options)
    requires ProxyList(o.staticHeaders)
    ensures !Dropped(h, o, "content-length")
  {
    ProxyListsAreLower(o.staticHeaders);
    LengthIsProtected();
  }

  /** Chunked framing crosses exactly when it is to be restored, the message ended in it and has no
      length, and the hop is not a kept upgrade on which restoring is suppressed; and then as `chunked`. */
  lemma {:induction false} FramingCrossesExactly(h: Headers, o: Options)
    requires ProxyList(o.staticHeaders)
    ensures "transfer-encoding" in StripHopByHop(h, o) <==>
              && o.restoreChunkedFraming && EndsChunked(h) && "content-length" !in h
              && !(o.suppressChunkedRestoreOnWebsocket && UpgradeHop(o.upgrade) && CleanUpgrade(h))
    ensures "transfer-encoding" in StripHopByHop(h, o) ==> StripHopByHop(h, o)["transfer-encoding"] == ["chunked"]
  {
    PreserveIs(h, o.upgrade);
    EndsChunkedIs(h);
    LengthIsKept(h, o);
    NeverBothFramings(h, o);
  }
}

/** Stripping in place, as the loops over names and tokens it is. */
module NextHopHeaders {
  import opened ReservedHeaders
  import opened NextHopModel

  lemma {:induction false} TokensConcat(h: Headers, a: seq<string>, b: seq<string>, names: seq<string>)
    ensures StripTokens(h, a + b, names) == StripTokens(StripTokens(h, a, names), b, names)
    decreases |a|
  {
    if a == [] {
      assert a + b == b;
    } else {
      assert (a + b)[0] == a[0] && (a + b)[1..] == a[1..] + b;
      TokensConcat(if InStatic(a[0], names) || IsProtected(a[0]) then h else Remove(h, a[0]), a[1..], b, names);
    }
  }

  class HeaderTarget {
    var headers: Headers

    constructor (headers: Headers)
      ensures this.headers == headers
    {
      this.headers := headers;
    }

    method RemoveByName(name: string)
      modifies this
      ensures headers == Remove(old(headers), name)
    {
      headers := headers - {Lower(name)};
    }

    method InsertTransferEncodingChunked()
      modifies this
      ensures headers == old(headers)["transfer-encoding" := ["chunked"]]
    {
      headers := headers["transfer-encoding" := ["chunked"]];
    }

    method StripStaticNames(names: seq<string>, ws: bool)
      modifies this
      ensures headers == StripStatic(old(headers), names, ws)
    {
      for i := 0 to |names|
        invariant StripStatic(headers, names[i..], ws) == StripStatic(old(headers), names, ws)
      {
        assert names[i..][0] == names[i] && names[i..][1..] == names[i + 1..];
        if !PreservedName(names[i], ws) {
          RemoveByName(names[i]);
        }
      }
    }

    method StripTokensOf(tokens: seq<string>, names: seq<string>)
      modifies this
      ensures headers == StripTokens(old(headers), tokens, names)
    {
      for i := 0 to |tokens|
        invariant StripTokens(headers, tokens[i..], names) == StripTokens(old(headers), tokens, names)
      {
        assert tokens[i..][0] == tokens[i] && tokens[i..][1..] == tokens[i + 1..];
        if !InStatic(tokens[i], names) && !IsProtected(tokens[i]) {
          RemoveByName(tokens[i]);
        }
      }
    }

    method StripConnectionTokens(values: seq<string>, names: seq<string>)
      modifies this
      ensures headers == StripTokens(old(headers), Nominations(values), names)
    {
      for i := 0 to |values|
        invariant StripTokens(headers, Nominations(values[i..]), names)
                  == StripTokens(old(headers), Nominations(values), names)
      {
        assert values[i..][0] == values[i] && values[i..][1..] == values[i + 1..];
        TokensConcat(headers, ConnectionTokens(values[i]), Nominations(values[i + 1..]), names);
        StripTokensOf(ConnectionTokens(values[i]), names);
      }
    }

    method Strip(o: Options)
      modifies this
      ensures headers == StripHopByHop(old(headers), o)
    {
      var ws := PreserveActive(headers, o.upgrade);
      var connectionValues := GetAll(headers, "connection");
      var wasChunked := o.restoreChunkedFraming && DeclaresChunked(headers);
      StripStaticNames(o.staticHeaders, ws);
      StripConnectionTokens(connectionValues, o.staticHeaders);
      if o.restoreChunkedFraming {
        var allowRestore := !(o.suppressChunkedRestoreOnWebsocket && ws);
        if allowRestore && wasChunked && "content-length" !in headers {
          InsertTransferEncodingChunked();
        }
      }
    }
  }
}

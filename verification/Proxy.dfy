/** The two-hop reverse proxy: control plane by host name, then host agent by path. */
module Proxy {
  import opened Records
  import opened Paths

  // ---- String operations ----

  function TrimPrefix(s: string, prefix: string): string {
    if prefix <= s then s[|prefix|..] else s
  }

  /** Split on slashes into at most `n` parts. */
  function SplitN(s: string, n: nat): (parts: seq<string>)
    requires n > 0
    ensures 1 <= |parts| <= n
    decreases n
  {
    if n == 1 || Slash(s) == |s| then [s] else [s[..Slash(s)]] + SplitN(s[Slash(s) + 1..], n - 1)
  }

  predicate DigitsOnly(s: string) {
    s != "" && forall i :: 0 <= i < |s| ==> '0' <= s[i] <= '9'
  }

  function Number(s: string): nat
    requires forall i :: 0 <= i < |s| ==> '0' <= s[i] <= '9'
  {
    if s == "" then 0 else Number(s[..|s| - 1]) * 10 + (s[|s| - 1] as int - '0' as int)
  }

  /** Decimal digits with an optional sign; a number too large for a machine word is refused as out of range below. */
  function Atoi(s: string): Option<int> {
    if s != "" && (s[0] == '+' || s[0] == '-') then
      if DigitsOnly(s[1..]) then
        (var n: int := Number(s[1..]); Some(if s[0] == '-' then -n else n))
      else None
    else if DigitsOnly(s) then Some(Number(s)) else None
  }

  predicate ValidPort(port: string) {
    Atoi(port).Some? && 1 <= Atoi(port).value <= 65535
  }

  // ---- The host agent ----

  /** `proxyPrefix`. */
  function PathPrefix(id: string, port: string): string {
    "/proxy/" + id + "/" + port
  }

  datatype Target = Target(id: string, port: string, host: string)

  function Key(t: Target): string {
    t.id + "/" + t.port + "/" + t.host
  }

  /** What the guest's server is asked for. */
  function GuestPath(t: Target, path: string): string {
    var trimmed := TrimPrefix(path, PathPrefix(t.id, t.port));
    "/" + if trimmed != path then TrimPrefix(trimmed, "/") else ""
  }

  datatype Served = BadRequest | Unavailable | Forward(target: Target, path: string)

  /** `resolve` finds a running sandbox's address; `hostPort` renders address and port number. */
  datatype Hosts = Hosts(resolve: string -> Option<string>, hostPort: (string, int) -> string)

  function Serve(hosts: Hosts, path: string): Served {
    var trimmed := TrimPrefix(path, "/proxy/");
    if trimmed == path then BadRequest
    else
      var parts := SplitN(trimmed, 3);
      if |parts| < 2 || !ValidPort(parts[1]) then BadRequest
      else if hosts.resolve(parts[0]).None? then Unavailable
      else
        var target := Target(parts[0], parts[1], hosts.hostPort(hosts.resolve(parts[0]).value, Atoi(parts[1]).value));
        Forward(target, GuestPath(target, path))
  }

  /** An absolute location, as parsed. */
  datatype Url = Url(host: string, requestUri: string)

  function AgentLocation(t: Target, parse: string -> Option<Url>, loc: string): string {
    if loc == "" then loc
    else if "/" <= loc then PathPrefix(t.id, t.port) + loc
    else if parse(loc).Some? && parse(loc).value.host == t.host then PathPrefix(t.id, t.port)
      + parse(loc).value.requestUri
    else loc
  }

  // ---- The control plane ----

  function OuterPath(id: string, port: string, path: string): string {
    "/proxy/" + id + "/" + port + path
  }

  function OuterLocation(id: string, port: string, loc: string): string {
    if loc != "" then TrimPrefix(loc, PathPrefix(id, port)) else loc
  }

  // ---- Transparency ----

  lemma SplitParts(id: string, port: string, rest: string)
    requires SlashFree(id) && SlashFree(port) && (rest == "" || Rooted(rest))
    ensures var parts := SplitN(id + "/" + port + rest, 3); |parts| >= 2 && parts[0] == id && parts[1] == port
  {
    SecondPart(port, rest);
    var tail := port + rest;
    hide *;
    SplitStep(id, tail, 3);
    Regroup(id, port, rest);
  }

  lemma Regroup(id: string, port: string, rest: string)
    ensures id + "/" + (port + rest) == id + "/" + port + rest
  {
  }

  lemma SecondPart(port: string, rest: string)
    requires SlashFree(port) && (rest == "" || Rooted(rest))
    ensures SplitN(port + rest, 2)[0] == port
  {
    if rest == "" {
      assert port + rest == port;
      SplitLast(port, 2);
    } else {
      assert rest == "/" + rest[1..];
      assert port + rest == port + "/" + rest[1..];
      SplitStep(port, rest[1..], 2);
    }
  }

  lemma SplitLast(a: string, n: nat)
    requires SlashFree(a) && n > 0
    ensures SplitN(a, n) == [a]
  {
    SlashAfter(a, "");
  }

  lemma SplitStep(a: string, rest: string, n: nat)
    requires SlashFree(a) && n > 1
    ensures SplitN(a + "/" + rest, n) == [a] + SplitN(rest, n - 1)
  {
    var whole := a + "/" + rest;
    SlashAfter(a, rest);
    assert whole[..|a|] == a && whole[|a| + 1..] == rest;
  }

  /** Every path the agent is asked for that has an identifier and a port, and what becomes of it. */
  lemma ServeOutcome(hosts: Hosts, id: string, port: string, rest: string)
    requires SlashFree(id) && SlashFree(port) && (rest == "" || Rooted(rest))
    ensures Serve(hosts, OuterPath(id, port, rest)) ==
            if !ValidPort(port) then BadRequest
            else if hosts.resolve(id).None? then Unavailable
            else Forward(Target(id, port, hosts.hostPort(hosts.resolve(id).value, Atoi(port).value)), if rest == ""
              then "/" else rest)
  {
    var path := OuterPath(id, port, rest);
    var trimmed := id + "/" + port + rest;
    assert path == "/proxy/" + trimmed;
    assert "/proxy/" <= path && path[|"/proxy/"|..] == trimmed;
    SplitParts(id, port, rest);
    GuestPathOf(id, port, rest);
    hide SplitN, GuestPath, ValidPort, Atoi;
    assert TrimPrefix(path, "/proxy/") == trimmed && |trimmed| < |path|;
  }

  lemma GuestPathOf(id: string, port: string, rest: string)
    requires rest == "" || Rooted(rest)
    ensures forall host :: GuestPath(Target(id, port, host), OuterPath(id, port, rest)) == if rest == "" then "/"
            else rest
  {
    var prefix := PathPrefix(id, port);
    var path := prefix + rest;
    assert path == OuterPath(id, port, rest);
    assert prefix <= path && path[|prefix|..] == rest;
    if rest != "" {
      assert rest == "/" + rest[1..];
    } else {
      assert "/" + "" == "/";
    }
  }

  /** Through both hops the guest is asked for exactly the client's path, doubled and trailing slashes included, and
      for nothing but a path that starts with a slash. */
  lemma GuestSeesClientPathIff(hosts: Hosts, id: string, port: string, path: string)
    requires SlashFree(id) && SlashFree(port) && ValidPort(port) && hosts.resolve(id).Some?
    ensures (Serve(hosts, OuterPath(id, port, path)).Forward? && Serve(hosts, OuterPath(id, port, path)).path
            == path) <==> Rooted(path)
  {
    hide ValidPort, Atoi, SplitN;
    if Rooted(path) {
      ServeOutcome(hosts, id, port, path);
    }
  }

  /** A root-relative location comes back unchanged, one naming the guest's own address as its request URI, and any
      other as it was. */
  lemma LocationRoundTrip(t: Target, parse: string -> Option<Url>, loc: string)
    ensures OuterLocation(t.id, t.port, AgentLocation(t, parse, loc)) ==
            if loc != "" && !Rooted(loc) && parse(loc).Some? && parse(loc).value.host == t.host
              then parse(loc).value.requestUri else loc
  {
    var prefix := PathPrefix(t.id, t.port);
    assert |prefix| > 0 && prefix[0] == '/';
    assert (prefix + loc)[|prefix|..] == loc;
    if parse(loc).Some? {
      var uri := parse(loc).value.requestUri;
      assert (prefix + uri)[|prefix|..] == uri;
    }
  }

  /** Following a redirect at the agent leads where the guest pointed: asked for the rewritten location, the agent
      asks the guest for the original one, or for the request URI of one naming the guest. */
  lemma RedirectLeadsToGuest(t: Target, parse: string -> Option<Url>, loc: string)
    ensures Rooted(loc) ==> GuestPath(t, AgentLocation(t, parse, loc)) == loc
    ensures loc != "" && !Rooted(loc) && parse(loc).Some? && parse(loc).value.host == t.host
            && Rooted(parse(loc).value.requestUri) ==>
              GuestPath(t, AgentLocation(t, parse, loc)) == parse(loc).value.requestUri
  {
    if Rooted(loc) {
      GuestPathOf(t.id, t.port, loc);
    } else if parse(loc).Some? && Rooted(parse(loc).value.requestUri) {
      GuestPathOf(t.id, t.port, parse(loc).value.requestUri);
    }
  }

  // ---- The cache ----

  predicate Proper(t: Target) {
    SlashFree(t.id) && SlashFree(t.port)
  }

  lemma CutKey(t: Target)
    requires Proper(t)
    ensures var k := Key(t);
            && Slash(k) == |t.id| && k[..|t.id|] == t.id
            && var rest := k[|t.id| + 1..];
               Slash(rest) == |t.port| && rest[..|t.port|] == t.port && rest[|t.port| + 1..] == t.host
  {
    var tail := t.port + "/" + t.host;
    assert Key(t) == t.id + "/" + tail;
    SlashAfter(t.id, tail);
    SlashAfter(t.port, t.host);
    assert Key(t)[|t.id| + 1..] == tail;
  }

  /** Different targets have different keys. */
  lemma KeyInjective(t: Target, u: Target)
    requires Proper(t) && Proper(u) && Key(t) == Key(u)
    ensures t == u
  {
    CutKey(t);
    CutKey(u);
  }

  lemma KeyParts(t: Target)
    ensures Key(t) == t.id + "/" + (t.port + "/" + t.host)
  {
  }

  lemma EvictedIff(t: Target, id: string)
    requires Proper(t) && SlashFree(id)
    ensures id + "/" <= Key(t) <==> t.id == id
  {
    hide Key, Slash, SlashFree;
    CutKey(t);
    KeyParts(t);
    if id + "/" <= Key(t) {
      var rest := Key(t)[|id| + 1..];
      assert Key(t) == id + "/" + rest;
      SlashAfter(id, rest);
      assert Key(t)[..|id|] == id;
    }
  }

  class ProxyHandler {
    /** A cached proxy is its target: prefix and address are fixed when it is made. */
    var proxies: map<string, Target>

    ghost predicate Valid()
      reads this
    {
      forall k :: k in proxies ==> Proper(proxies[k]) && k == Key(proxies[k])
    }

    constructor ()
      ensures Valid() && proxies == map[]
    {
      proxies := map[];
    }

    /** Whatever the cache holds, the proxy used is the one for this sandbox, port and address. */
    method GetOrCreateProxy(id: string, port: string, host: string) returns (proxy: Target)
      requires Valid() && SlashFree(id) && SlashFree(port)
      modifies this
      ensures Valid() && proxy == Target(id, port, host)
      ensures proxies == old(proxies)[Key(proxy) := proxy]
    {
      var target := Target(id, port, host);
      var key := id + "/" + port + "/" + host;
      if key in proxies {
        KeyInjective(proxies[key], target);
        assert proxies == proxies[key := target];
        return proxies[key];
      }
      proxies := proxies[key := target];
      proxy := target;
    }

    /** For an identifier, which holds no slash, eviction removes all of that sandbox's proxies and nothing else. */
    method EvictProxy(id: string)
      requires Valid()
      modifies this
      ensures Valid()
      ensures proxies == map k | k in old(proxies) && !(id + "/" <= k) :: old(proxies)[k]
      ensures SlashFree(id) ==> forall k :: k in old(proxies) ==> (k in proxies <==> old(proxies)[k].id != id)
    {
      var todo := proxies.Keys;
      while todo != {}
        invariant todo <= proxies.Keys <= old(proxies.Keys) && Valid()
        invariant forall k :: k in proxies ==> proxies[k] == old(proxies)[k] && (k in todo || !(id + "/" <= k))
        invariant forall k :: k in old(proxies) && !(id + "/" <= k) ==> k in proxies
        decreases |todo|
      {
        var key := Pick(todo);
        todo := todo - {key};
        if id + "/" <= key {
          proxies := proxies - {key};
        }
      }
      if SlashFree(id) {
        forall k | k in old(proxies) ensures k in proxies <==> old(proxies)[k].id != id {
          EvictedIff(old(proxies)[k], id);
        }
      }
    }

    method ServeHTTP(hosts: Hosts, path: string) returns (r: Served)
      requires Valid()
      modifies this
      ensures Valid() && r == Serve(hosts, path)
    {
      var trimmed := TrimPrefix(path, "/proxy/");
      if trimmed == path {
        return BadRequest;
      }
      var parts := SplitN(trimmed, 3);
      if |parts| < 2 {
        return BadRequest;
      }
      var id, port := parts[0], parts[1];
      var n := Atoi(port);
      if n.None? || n.value < 1 || n.value > 65535 {
        return BadRequest;
      }
      var ip := hosts.resolve(id);
      if ip.None? {
        return Unavailable;
      }
      FirstPartsSlashFree(trimmed);
      PortSlashFree(port);
      hide Atoi, SplitN, GuestPath, ValidPort;
      var proxy := GetOrCreateProxy(id, port, hosts.hostPort(ip.value, n.value));
      r := Forward(proxy, GuestPath(proxy, path));
    }
  }

  lemma FirstPartsSlashFree(s: string)
    ensures |SplitN(s, 3)| >= 2 ==> SlashFree(SplitN(s, 3)[0])
  {
  }

  lemma PortSlashFree(port: string)
    requires Atoi(port).Some?
    ensures SlashFree(port)
  {
    if port[0] == '+' || port[0] == '-' { assert port == [port[0]] + port[1..]; }
  }

  // ---- Ports ----

  /** The usual decimal form. */
  function Decimal(n: nat): string {
    (if n >= 10 then Decimal(n / 10) else "") + [('0' as int + n % 10) as char]
  }

  predicate ZerosOnly(s: string) {
    forall i :: 0 <= i < |s| ==> s[i] == '0'
  }

  lemma NumberSnoc(s: string, d: nat)
    requires (forall i :: 0 <= i < |s| ==> '0' <= s[i] <= '9') && d < 10
    ensures DigitsOnly(s + [('0' as int + d) as char])
    ensures Number(s + [('0' as int + d) as char]) == Number(s) * 10 + d
  {
    hide Number;
    var c := ('0' as int + d) as char;
    NumberOfSnoc(s, c);
    assert c as int - '0' as int == d;
  }

  lemma NumberOfSnoc(s: string, c: char)
    requires (forall i :: 0 <= i < |s| ==> '0' <= s[i] <= '9') && '0' <= c <= '9'
    ensures DigitsOnly(s + [c])
    ensures Number(s + [c]) == Number(s) * 10 + (c as int - '0' as int)
  {
    var t := s + [c];
    assert t[..|s|] == s && t[|s|] == c;
  }

  lemma {:induction false} ZerosAreNothing(zeros: string)
    requires ZerosOnly(zeros)
    ensures Number(zeros) == 0
  {
    if zeros != "" { ZerosAreNothing(zeros[..|zeros| - 1]); }
  }

  /** Zeros and then the decimal form read as the number. */
  lemma {:induction false} NumberOfDecimal(zeros: string, n: nat)
    requires ZerosOnly(zeros)
    ensures DigitsOnly(zeros + Decimal(n)) && Number(zeros + Decimal(n)) == n
    decreases n
  {
    hide Number, Decimal;
    if n >= 10 {
      var front, last := n / 10, n % 10;
      NumberOfDecimal(zeros, front);
      NumberSnoc(zeros + Decimal(front), last);
      assert n == front * 10 + last;
      DecimalSnoc(front, last);
      Associative(zeros, Decimal(front), [('0' as int + last) as char]);
    } else {
      ZerosAreNothing(zeros);
      NumberSnoc(zeros, n);
      DecimalDigit(n);
    }
  }

  lemma DecimalDigit(d: nat)
    requires d < 10
    ensures Decimal(d) == [('0' as int + d) as char]
  {
    assert "" + [('0' as int + d) as char] == [('0' as int + d) as char];
  }

  lemma MoreZeros(zeros: string)
    requires ZerosOnly(zeros)
    ensures ZerosOnly(zeros + "0")
  {
  }

  /** One more digit after zeros and a decimal form. */
  lemma DecimalStep(rest: string, n: nat, d: nat) returns (zeros: string)
    requires ZerosOnly(rest) && d < 10
    ensures ZerosOnly(zeros) && rest + Decimal(n) + [('0' as int + d) as char] == zeros + Decimal(n * 10 + d)
  {
    hide Decimal;
    if n == 0 {
      DecimalDigit(0);
      DecimalDigit(d);
      MoreZeros(rest);
      return rest + "0";
    }
    DecimalSnoc(n, d);
    Associative(rest, Decimal(n), [('0' as int + d) as char]);
    return rest;
  }

  lemma LastDigit(s: string) returns (d: nat)
    requires DigitsOnly(s)
    ensures d < 10 && s == s[..|s| - 1] + [('0' as int + d) as char]
    ensures |s| > 1 ==> DigitsOnly(s[..|s| - 1])
    ensures |s| > 1 ==> Number(s) == Number(s[..|s| - 1]) * 10 + d
    ensures |s| == 1 ==> Number(s) == d && s == [('0' as int + d) as char]
  {
    d := s[|s| - 1] as int - '0' as int;
    assert |s| == 1 ==> s[..0] == "";
  }

  /** Digits are nothing but zeros and the decimal form of what they read as. */
  lemma {:induction false} DigitsAreDecimal(s: string) returns (zeros: string)
    requires DigitsOnly(s)
    ensures ZerosOnly(zeros) && s == zeros + Decimal(Number(s))
  {
    hide Number, Decimal;
    var d := LastDigit(s);
    if |s| == 1 {
      DecimalDigit(d);
      return "";
    }
    var front := s[..|s| - 1];
    var rest := DigitsAreDecimal(front);
    zeros := DecimalStep(rest, Number(front), d);
  }

  lemma DecimalSnoc(n: nat, d: nat)
    requires n > 0 && d < 10
    ensures Decimal(n * 10 + d) == Decimal(n) + [('0' as int + d) as char]
  {
    assert (n * 10 + d) / 10 == n && (n * 10 + d) % 10 == d;
  }

  predicate Numeral(s: string, sign: string, zeros: string, v: int) {
    && ZerosOnly(zeros) && sign in {"", "+", "-"} && (v < 0 ==> sign == "-") && (v > 0 ==> sign != "-")
    && s == sign + (zeros + Decimal(if v < 0 then -v else v))
  }

  /** `s` is a decimal numeral for `v`, with or without sign and leading zeros. */
  ghost predicate Writes(s: string, v: int) {
    exists sign, zeros :: Numeral(s, sign, zeros, v)
  }

  /** A text is read as a number exactly when it is a numeral for it. */
  lemma AtoiIff(s: string, v: int)
    ensures Atoi(s) == Some(v) <==> Writes(s, v)
  {
    if Atoi(s) == Some(v) {
      hide Atoi;
      NumeralIsWritten(s);
    } else if Writes(s, v) {
      var sign, zeros :| Numeral(s, sign, zeros, v);
      hide Atoi;
      NumeralIsRead(s, sign, zeros, v);
    }
  }

  lemma NumeralIsRead(s: string, sign: string, zeros: string, v: int)
    requires Numeral(s, sign, zeros, v)
    ensures Atoi(s) == Some(v)
  {
    hide Number, Decimal;
    var n := if v < 0 then -v else v;
    NumberOfDecimal(zeros, n);
    if sign == "" {
      assert s == zeros + Decimal(n);
    } else {
      assert s[1..] == zeros + Decimal(n) && s[0] == sign[0];
    }
  }

  lemma NumeralIsWritten(s: string)
    requires Atoi(s).Some?
    ensures Writes(s, Atoi(s).value)
  {
    hide Number, Decimal;
    var sign := if s[0] == '+' then "+" else if s[0] == '-' then "-" else "";
    var digits := s[|sign|..];
    var zeros := DigitsAreDecimal(digits);
    assert s == sign + digits;
    assert Numeral(s, sign, zeros, Atoi(s).value);
  }

  /** A port is accepted exactly when it is a numeral for 1 to 65535. */
  lemma ValidPortIff(port: string)
    ensures ValidPort(port) <==> exists n :: 1 <= n <= 65535 && Writes(port, n)
  {
    hide Atoi, Writes;
    if Atoi(port).Some? { AtoiIff(port, Atoi(port).value); }
    forall n | Writes(port, n)
      ensures Atoi(port) == Some(n)
    {
      AtoiIff(port, n);
    }
  }

  // ---- Every path ----

  /** The path names a sandbox and a port the way the control plane writes them. */
  ghost predicate Addresses(path: string, id: string, port: string, rest: string) {
    && SlashFree(id) && SlashFree(port) && (rest == "" || Rooted(rest))
    && path == "/proxy/" + id + "/" + port + rest
  }

  lemma HeadOf(s: string, n: nat)
    requires n > 1
    ensures SplitN(s, n)[0] == s[..Slash(s)] && SlashFree(s[..Slash(s)])
    ensures |SplitN(s, n)| > 1 ==>
      Slash(s) < |s| && s[Slash(s)] == '/' && SplitN(s, n)[1] == SplitN(s[Slash(s) + 1..], n - 1)[0]
  {
    assert Slash(s) == |s| ==> s[..|s|] == s;
  }

  lemma PartsOf(s: string) returns (rest: string)
    requires |SplitN(s, 3)| >= 2
    ensures var parts := SplitN(s, 3);
            && SlashFree(parts[0]) && SlashFree(parts[1]) && (rest == "" || Rooted(rest))
            && s == parts[0] + "/" + parts[1] + rest
  {
    hide SplitN;
    HeadOf(s, 3);
    var i := Slash(s);
    var tail := s[i + 1..];
    HeadOf(tail, 2);
    rest := tail[Slash(tail)..];
    hide SlashFree, Slash;
    var id, port := s[..i], tail[..Slash(tail)];
    assert s == id + "/" + tail && tail == port + rest;
    Regroup(id, port, rest);
  }

  /** Whatever path the agent is asked for, it is a bad request exactly when it does not name a sandbox and a port from
      1 to 65535. */
  lemma BadRequestIff(hosts: Hosts, path: string)
    ensures Serve(hosts, path) == BadRequest <==>
            !exists id, port, rest, n :: Addresses(path, id, port, rest) && 1 <= n <= 65535 && Writes(port, n)
  {
    hide ValidPort, Atoi, SplitN, GuestPath, Writes;
    if Serve(hosts, path) != BadRequest {
      var trimmed := path[|"/proxy/"|..];
      var parts := SplitN(trimmed, 3);
      var rest := PartsOf(trimmed);
      assert path == "/proxy/" + trimmed;
      assert path == "/proxy/" + parts[0] + "/" + parts[1] + rest;
      assert Addresses(path, parts[0], parts[1], rest);
      ValidPortIff(parts[1]);
    }
    forall id, port, rest, n | Addresses(path, id, port, rest) && 1 <= n <= 65535 && Writes(port, n)
      ensures Serve(hosts, path) != BadRequest
    {
      ServeOutcome(hosts, id, port, rest);
      ValidPortIff(port);
    }
  }
}

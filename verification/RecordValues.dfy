/** Validation and canonical text of DNS record values (src/dns_record_types.py). */
module RecordValues {
  import opened Basics
  import opened Text

  datatype RecordType = A | AAAA | CNAME | TXT | MX | NS | SRV | CAA | PTR | SOA

  /** The text form of IPv6 addresses is not modelled: a canonicaliser is a parameter. */
  type Ip6 = string -> Option<string>

  ghost predicate CanonicalIp6(ip6: Ip6) {
    forall s :: ip6(s).Some? ==> var t := ip6(s).value;
      t != [] && Stripped(t) && ip6(t) == Some(t)
  }

  // ---------------------------------------------------------------- host names

  predicate HostChar(c: char) {
    'A' <= c <= 'Z' || 'a' <= c <= 'z' || '0' <= c <= '9' || c == '_' || c == '-'
  }

  predicate HostLabel(s: string) {
    && 1 <= |s| <= 63
    && s[0] != '-' && s[|s| - 1] != '-'
    && forall i :: 0 <= i < |s| ==> HostChar(s[i])
  }

  function LabelLength(s: string): (n: nat)
    ensures n <= |s| && '.' !in s[..n] && (n < |s| ==> s[n] == '.')
  {
    if s == [] || s[0] == '.' then 0
    else
      var m := LabelLength(s[1..]);
      assert s[..m + 1] == [s[0]] + s[1..][..m];
      m + 1
  }

  /** Labels separated by single dots, with at most one dot after the last label. */
  predicate HostLabels(s: string)
    decreases |s|
  {
    var n := LabelLength(s);
    HostLabel(s[..n]) && (n == |s| || n + 1 == |s| || HostLabels(s[n + 1..]))
  }

  predicate EndsWithNewline(s: string) {
    s != [] && s[|s| - 1] == '\n'
  }

  /** `_HOSTNAME_RE.match(host)`: the final `$` also matches just before one trailing newline. */
  predicate HostMatches(host: string) {
    var body := if EndsWithNewline(host) then host[..|host| - 1] else host;
    1 <= |body| <= 253 && HostLabels(body)
  }

  function NormalizeHostname(value: string): Result<string> {
    var host := RightStripDots(Strip(value));
    if host != [] && HostMatches(host) then Ok(host) else Err("Invalid hostname.")
  }

  lemma {:induction false} HostLabelsNoSpaces(s: string)
    requires HostLabels(s)
    ensures NoSpaces(s)
    decreases |s|
  {
    var n := LabelLength(s);
    assert s == s[..n] + s[n..];
    if n + 1 < |s| {
      HostLabelsNoSpaces(s[n + 1..]);
      assert s == s[..n] + ['.'] + s[n + 1..];
    } else if n + 1 == |s| {
      assert s == s[..n] + ['.'];
    }
  }

  /** A normalized name is a non-empty token without a trailing dot, except for the one trailing
      newline that `$` lets through; normalising it again gives it back exactly without that newline. */
  lemma NormalizeHostnameFixed(value: string)
    requires NormalizeHostname(value).Ok?
    ensures var h := NormalizeHostname(value).value;
      && NormalizeHostname(h).Ok?
      && (NormalizeHostname(h) == Ok(h) <==> !EndsWithNewline(h))
      && (!EndsWithNewline(h) ==> IsToken(h))
  {
    var h := NormalizeHostname(value).value;
    RightStripDotsShape(Strip(value));
    StripFixes(h);
    if EndsWithNewline(h) {
      var body := h[..|h| - 1];
      HostLabelsNoSpaces(body);
      StripOneNewline(body);
      assert body + "\n" == h;
      TrailingDotDropped(body);
    } else {
      HostLabelsNoSpaces(h);
      assert RightStripDots(h) == h;
    }
  }

  lemma StripOneNewline(body: string)
    requires IsToken(body)
    ensures Strip(body + "\n") == body
  {
    var s := body + "\n";
    assert LeftStrip(s) == s;
    assert s[..|s| - 1] == body;
    assert RightStrip(body) == body;
  }

  /** Dropping trailing dots from a matching name leaves a matching name. */
  lemma {:induction false} TrailingDotDropped(s: string)
    requires 1 <= |s| <= 253 && HostLabels(s) && NoSpaces(s)
    ensures NoSpaces(RightStripDots(s)) && RightStripDots(s) != [] && HostMatches(RightStripDots(s))
  {
    HostLabelsLastChar(s);
    if s[|s| - 1] == '.' {
      var t := s[..|s| - 1];
      assert RightStripDots(t) == t;
      HostLabelsNoSpaces(t);
    }
  }

  lemma {:induction false} HostLabelsLastChar(s: string)
    requires HostLabels(s)
    ensures s != []
    ensures s[|s| - 1] == '.' ==> |s| > 1 && s[|s| - 2] != '.' && HostLabels(s[..|s| - 1])
    decreases |s|
  {
    var n := LabelLength(s);
    if n + 1 < |s| {
      var name, rest := s[..n], s[n + 1..];
      HostLabelsLastChar(rest);
      if s[|s| - 1] == '.' {
        HostLabelsCons(name, rest[..|rest| - 1]);
        assert s[..|s| - 1] == name + "." + rest[..|rest| - 1];
      }
    } else if n + 1 == |s| {
      var t := s[..|s| - 1];
      LabelLengthOf(t, n);
    }
  }

  lemma HostLabelsCons(name: string, rest: string)
    requires '.' !in name && rest != []
    ensures HostLabels(name + "." + rest) <==> HostLabel(name) && HostLabels(rest)
  {
    hide HostLabel, LabelLength;
    var s, n := name + "." + rest, |name|;
    assert s[..n] == name && s[n] == '.' && s[n + 1..] == rest;
    LabelLengthOf(s, n);
  }

  lemma {:induction false} LabelLengthOf(s: string, n: nat)
    requires n <= |s| && '.' !in s[..n] && (n < |s| ==> s[n] == '.')
    ensures LabelLength(s) == n
  {
    if n > 0 {
      assert s[0] in s[..n];
      assert s[1..][..n - 1] == s[..n][1..];
      LabelLengthOf(s[1..], n - 1);
    }
  }

  // ---------------------------------------------------------------- numbers and records

  function ParseUint(token: string, maximum: nat): Result<nat> {
    var n := ParseInt(token);
    if n.None? then Err("must be an integer.")
    else if n.value < 0 || n.value > maximum then Err("out of range.")
    else Ok(n.value)
  }

  datatype Mx = Mx(priority: nat, exchange: string)
  datatype Srv = Srv(priority: nat, weight: nat, port: nat, target: string)
  datatype Caa = Caa(flags: nat, tag: string, value: string)

  function ParseMx(value: string): Result<Mx> {
    var parts := Split(Strip(value));
    if |parts| != 2 then Err("MX value must be: priority exchange")
    else
      var priority :- ParseUint(parts[0], 65535);
      var exchange :- NormalizeHostname(parts[1]);
      Ok(Mx(priority, exchange))
  }

  function ParseSrv(value: string): Result<Srv> {
    var parts := Split(Strip(value));
    if |parts| != 4 then Err("SRV value must be: priority weight port target")
    else
      var priority :- ParseUint(parts[0], 65535);
      var weight :- ParseUint(parts[1], 65535);
      var port :- ParseUint(parts[2], 65535);
      var target :- NormalizeHostname(parts[3]);
      Ok(Srv(priority, weight, port, target))
  }

  predicate CaaTag(s: string) {
    s != [] && forall i :: 0 <= i < |s| ==> HostChar(s[i]) && s[i] != '-' && s[i] != '_'
  }

  /** `s.startswith('"') and s.endswith('"')`, which a single quote character also satisfies. */
  predicate Quoted(s: string) {
    s != [] && s[0] == '"' && s[|s| - 1] == '"'
  }

  /** Quotes a value that contains a space and is not quoted already. */
  function QuoteIfSpaced(s: string): string {
    if ' ' in s && !Quoted(s) then "\"" + s + "\"" else s
  }

  function ParseCaa(value: string): Result<Caa> {
    var parts := SplitAtMost(Strip(value), 2);
    if |parts| != 3 then Err("CAA value must be: flags tag value")
    else
      var flags :- ParseUint(parts[0], 255);
      if !CaaTag(parts[1]) then Err("Invalid CAA tag.")
      else if Strip(parts[2]) == [] then Err("CAA value is required.")
      else Ok(Caa(flags, Lower(parts[1]), QuoteIfSpaced(Strip(parts[2]))))
  }

  function MxText(mx: Mx): string {
    Decimal(mx.priority) + " " + mx.exchange
  }

  function SrvText(srv: Srv): string {
    Decimal(srv.priority) + " " + (Decimal(srv.weight) + " " + (Decimal(srv.port) + " " + srv.target))
  }

  function CaaText(caa: Caa): string {
    Decimal(caa.flags) + " " + (caa.tag + " " + caa.value)
  }

  // ---------------------------------------------------------------- IPv4

  /** One octet as `ipaddress` accepts it: one to three digits, no leading zero, at most 255. */
  predicate Octet(s: string) {
    && 1 <= |s| <= 3
    && (forall i :: 0 <= i < |s| ==> IsDigit(s[i]))
    && (|s| > 1 ==> s[0] != '0')
    && ParseInt(s).Some? && ParseInt(s).value <= 255
  }

  predicate Octets(s: string, count: nat)
    requires count > 0
    decreases count
  {
    var n := LabelLength(s);
    Octet(s[..n]) && (if count == 1 then n == |s| else n < |s| && Octets(s[n + 1..], count - 1))
  }

  /** Exactly the accepted IPv4 texts; each is its own canonical form. */
  predicate Ip4(s: string) { Octets(s, 4) }

  lemma {:induction false} OctetsNoSpaces(s: string, count: nat)
    requires count > 0 && Octets(s, count)
    ensures IsToken(s)
    decreases count
  {
    var n := LabelLength(s);
    assert s == s[..n] + s[n..];
    if count > 1 {
      OctetsNoSpaces(s[n + 1..], count - 1);
      assert s == s[..n] + ['.'] + s[n + 1..];
    }
  }

  // ---------------------------------------------------------------- normalisation

  /** `normalize_record_value`. */
  function NormalizeValue(ip6: Ip6, rt: RecordType, value: string): Result<string> {
    var raw := Strip(value);
    if raw == [] then Err("Record values must not be empty.")
    else match rt
      case A => if Ip4(raw) then Ok(raw) else Err("A record requires an IPv4 address.")
      case AAAA =>
        var addr := ip6(raw);
        if addr.Some? then Ok(addr.value) else Err("AAAA record requires an IPv6 address.")
      case CNAME | NS | PTR => NormalizeHostname(raw)
      case TXT | SOA => Ok(raw)
      case MX => var mx :- ParseMx(raw); Ok(MxText(mx))
      case SRV => var srv :- ParseSrv(raw); Ok(SrvText(srv))
      case CAA => var caa :- ParseCaa(raw); Ok(CaaText(caa))
  }

  /** `[normalize_record_value(rt, v) for v in values]`, failing on the first bad value. */
  function NormalizeEach(ip6: Ip6, rt: RecordType, values: seq<string>): (r: Result<seq<string>>)
    ensures r.Ok? ==> |r.value| == |values|
    ensures r.Ok? ==> forall i :: 0 <= i < |values| ==> NormalizeValue(ip6, rt, values[i]) == Ok(r.value[i])
    ensures r.Err? ==> exists i :: 0 <= i < |values| && NormalizeValue(ip6, rt, values[i]).Err?
  {
    if values == [] then Ok([])
    else
      var first := NormalizeValue(ip6, rt, values[0]);
      if first.Err? then Err(first.message)
      else
        var rest := NormalizeEach(ip6, rt, values[1..]);
        if rest.Err? then
          assert exists i :: 0 <= i < |values[1..]| && NormalizeValue(ip6, rt, values[1..][i]).Err?;
          Err(rest.message)
        else Ok([first.value] + rest.value)
  }

  /** `normalize_record_values`: at least one value, exactly one for CNAME and SOA. */
  function NormalizeValues(ip6: Ip6, rt: RecordType, values: seq<string>): (r: Result<seq<string>>)
    ensures r.Ok? ==> |r.value| == |values| > 0 && (rt == CNAME ==> |r.value| == 1)
    ensures r.Ok? ==> forall i :: 0 <= i < |values| ==> NormalizeValue(ip6, rt, values[i]) == Ok(r.value[i])
  {
    if values == [] then Err("values is required and must contain at least one entry.")
    else if (rt == CNAME || rt == SOA) && |values| != 1 then Err("requires exactly one value.")
    else NormalizeEach(ip6, rt, values)
  }

  // ---------------------------------------------------------------- what parsing yields

  lemma ParsedMx(value: string)
    requires ParseMx(value).Ok?
    ensures var mx := ParseMx(value).value;
      mx.priority <= 65535 && IsToken(mx.exchange) && NormalizeHostname(mx.exchange) == Ok(mx.exchange)
  {
    SplitTokens(Strip(value));
    TokenHostname(Split(Strip(value))[1]);
  }

  lemma ParsedSrv(value: string)
    requires ParseSrv(value).Ok?
    ensures var srv := ParseSrv(value).value;
      && srv.priority <= 65535 && srv.weight <= 65535 && srv.port <= 65535
      && IsToken(srv.target) && NormalizeHostname(srv.target) == Ok(srv.target)
  {
    SplitTokens(Strip(value));
    TokenHostname(Split(Strip(value))[3]);
  }

  lemma TokenHostname(token: string)
    requires IsToken(token) && NormalizeHostname(token).Ok?
    ensures var h := NormalizeHostname(token).value; IsToken(h) && NormalizeHostname(h) == Ok(h)
  {
    StripFixes(token);
    RightStripDotsShape(token);
    NormalizeHostnameFixed(token);
  }

  /** A parsed CAA value is stripped, not empty, and quoted whenever it has a space. */
  lemma ParsedCaa(value: string)
    requires ParseCaa(value).Ok?
    ensures var caa := ParseCaa(value).value;
      && caa.flags <= 255 && CaaTag(caa.tag) && Lower(caa.tag) == caa.tag
      && caa.value != [] && Strip(caa.value) == caa.value && QuoteIfSpaced(caa.value) == caa.value
  {
    var parts := SplitAtMost(Strip(value), 2);
    StripFixes(parts[2]);
    LowerTag(parts[1]);
    StripFixes(QuoteIfSpaced(Strip(parts[2])));
  }

  lemma LowerTag(tag: string)
    requires CaaTag(tag)
    ensures CaaTag(Lower(tag)) && Lower(Lower(tag)) == Lower(tag)
  {
  }

  // ---------------------------------------------------------------- parsing what was printed

  lemma ParseMxText(mx: Mx)
    requires mx.priority <= 65535 && IsToken(mx.exchange) && NormalizeHostname(mx.exchange) == Ok(mx.exchange)
    ensures ParseMx(MxText(mx)) == Ok(mx) && Stripped(MxText(mx)) && MxText(mx) != []
  {
    hide Strip, LeftStrip, RightStrip, Split, Decimal, ParseInt, NormalizeHostname;
    ParseDecimal(mx.priority);
    StripFixes(MxText(mx));
    SplitJoin(Decimal(mx.priority), mx.exchange);
    SplitOne(mx.exchange);
  }

  lemma ParseSrvText(srv: Srv)
    requires srv.priority <= 65535 && srv.weight <= 65535 && srv.port <= 65535
    requires IsToken(srv.target) && NormalizeHostname(srv.target) == Ok(srv.target)
    ensures ParseSrv(SrvText(srv)) == Ok(srv) && Stripped(SrvText(srv)) && SrvText(srv) != []
  {
    hide Strip, LeftStrip, RightStrip, Split, Decimal, ParseInt, NormalizeHostname;
    ParseDecimal(srv.priority);
    ParseDecimal(srv.weight);
    ParseDecimal(srv.port);
    SplitFour(Decimal(srv.priority), Decimal(srv.weight), Decimal(srv.port), srv.target);
    StripFixes(SrvText(srv));
  }

  /** Parsing "flags tag value": the value comes back stripped, and quoted when it has a space. */
  lemma ParseCaaText(caa: Caa)
    requires caa.flags <= 255 && CaaTag(caa.tag) && Lower(caa.tag) == caa.tag
    ensures Strip(caa.value) == [] ==> ParseCaa(CaaText(caa)).Err?
    ensures Strip(caa.value) != [] ==> ParseCaa(CaaText(caa)) == Ok(caa.(value := QuoteIfSpaced(Strip(caa.value))))
    ensures Strip(CaaText(caa)) != []
  {
    ParseDecimal(caa.flags);
    SplitTwoAndRest(Decimal(caa.flags), caa.tag, caa.value);
    StripTwice(caa.value);
  }

  lemma StripTwice(s: string)
    ensures Strip(Strip(s)) == Strip(s)
  {
    StripFixes(s);
    StripFixes(Strip(s));
  }

  lemma ParseCaaStrips(value: string)
    ensures ParseCaa(Strip(value)) == ParseCaa(value) && Strip(Strip(value)) == Strip(value)
  {
    StripTwice(value);
  }

  // ---------------------------------------------------------------- idempotence

  /** Normalising is idempotent, except that CNAME, NS and PTR keep a newline found before a
      trailing dot ("a\n." becomes "a\n", which becomes "a"): there it is not. */
  lemma NormalizeIdempotent(ip6: Ip6, rt: RecordType, value: string)
    requires CanonicalIp6(ip6)
    requires NormalizeValue(ip6, rt, value).Ok?
    ensures var n := NormalizeValue(ip6, rt, value).value;
      NormalizeValue(ip6, rt, n) == Ok(n) <==>
        !(rt in {CNAME, NS, PTR} && EndsWithNewline(RightStripDots(Strip(value))))
  {
    hide Decimal, ParseInt, ParseMx, ParseSrv, ParseCaa, MxText, SrvText, CaaText;
    var raw := Strip(value);
    StripFixes(value);
    StripFixes(raw);
    match rt {
      case A => OctetsNoSpaces(raw, 4);
      case AAAA => StripFixes(ip6(raw).value);
      case CNAME | NS | PTR =>
        NormalizeHostnameFixed(raw);
        StripTwice(NormalizeHostname(raw).value);
      case TXT | SOA =>
      case MX =>
        ParsedMx(raw);
        ParseMxText(ParseMx(raw).value);
        StripFixes(MxText(ParseMx(raw).value));
      case SRV =>
        ParsedSrv(raw);
        ParseSrvText(ParseSrv(raw).value);
        StripFixes(SrvText(ParseSrv(raw).value));
      case CAA =>
        ParsedCaa(raw);
        ParseCaaText(ParseCaa(raw).value);
        ParseCaaStrips(CaaText(ParseCaa(raw).value));
    }
  }

  lemma NewlineBeforeDotIsKept(ip6: Ip6)
    ensures NormalizeValue(ip6, CNAME, "a\n.") == Ok("a\n")
    ensures NormalizeValue(ip6, CNAME, "a\n") == Ok("a")
  {
    var v := "a\n.";
    assert LeftStrip(v) == v && RightStrip(v) == v;
    assert RightStripDots(v) == "a\n" by { assert v[..|v| - 1] == "a\n"; }
    assert LabelLength("a") == 1 && HostLabel("a"[..1]);
    assert HostMatches("a\n") by { assert "a\n"[..1] == "a"; }
    StripOneNewline("a");
    assert "a" + "\n" == "a\n";
    assert Strip("a") == "a" && RightStripDots("a") == "a" && HostMatches("a");
    assert Strip("a\n.") == "a\n.";
  }
}

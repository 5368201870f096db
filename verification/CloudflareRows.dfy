/** Names and row contents of the Cloudflare plugin (src/plugins/cloudflare.py, lines 32-88 and 373-414). */
module CloudflareRows {
  import opened Basics
  import opened Text
  import opened RecordValues

  // ---------------------------------------------------------------- owner names

  /** What `.strip().rstrip(".")` leaves of a name. */
  function Trimmed(name: string): string {
    RightStripDots(Strip(name))
  }

  function Qualified(z: string, r: string): string {
    if r == [] || r == "@" then z
    else if EndsWithIgnoringCase(r, "." + z) || Lower(r) == Lower(z) then r
    else r + ("." + z)
  }

  function Fqdn(zoneName: string, recordName: string): string {
    Qualified(Trimmed(zoneName), Trimmed(recordName))
  }

  function Relative(z: string, f: string): string {
    if Lower(f) == Lower(z) then "@"
    else if EndsWithIgnoringCase(f, "." + z) then
      var r := f[..|f| - |"." + z|];
      if r == [] then "@" else r
    else f
  }

  function RelativeName(zoneName: string, fqdn: string): string {
    Relative(Trimmed(zoneName), Trimmed(fqdn))
  }

  lemma RelativeOfQualified(z: string, name: string)
    requires name != []
    ensures Relative(z, Qualified(z, name)) == name <==>
      name == "@" || !(EndsWithIgnoringCase(name, "." + z) || Lower(name) == Lower(z))
  {
    if name != "@" {
      if EndsWithIgnoringCase(name, "." + z) || Lower(name) == Lower(z) {
        hide Lower, EndsWithIgnoringCase;
      } else {
        RelativeOfOutside(z, name);
      }
    }
  }

  /** A name outside the zone gets the zone appended, and loses it again. */
  lemma RelativeOfOutside(z: string, name: string)
    requires name != []
    ensures Relative(z, name + ("." + z)) == name
  {
    var suffix := "." + z;
    var f := name + suffix;
    assert f[|name|..] == suffix && f[..|name|] == name;
    assert |Lower(f)| == |f| > |z| == |Lower(z)|;
    hide Lower;
  }

  /** The qualified name reads back as the relative name exactly when that name is not itself
      inside the zone; the apex "@" always reads back as "@". */
  lemma RelativeOfFqdn(zoneName: string, name: string)
    requires Trimmed(zoneName) != [] && Trimmed(Trimmed(zoneName)) == Trimmed(zoneName)
    requires name != [] && Trimmed(name) == name
    ensures var z := Trimmed(zoneName);
      RelativeName(zoneName, Fqdn(zoneName, name)) == name <==>
        name == "@" || !(EndsWithIgnoringCase(name, "." + z) || Lower(name) == Lower(z))
  {
    RelativeOfQualified(Trimmed(zoneName), name);
    TrimmedEnds(name);
    TrimmedEnds(Trimmed(zoneName));
    TrimmedFixed(name + ("." + Trimmed(zoneName)));
  }

  lemma TrimmedEnds(s: string)
    requires s != [] && Trimmed(s) == s
    ensures !IsSpace(s[0]) && !IsSpace(s[|s| - 1]) && s[|s| - 1] != '.'
  {
    StripShorter(s);
    RightStripDotsShape(Strip(s));
    StripFixes(s);
  }

  lemma TrimmedFixed(s: string)
    requires s != [] && !IsSpace(s[0]) && !IsSpace(s[|s| - 1]) && s[|s| - 1] != '.'
    ensures Trimmed(s) == s
  {
    StripFixes(s);
  }

  lemma StripShorter(s: string)
    ensures |Strip(s)| < |s| || Strip(s) == s
  {
    LeftStripShape(s);
    RightStripShape(LeftStrip(s));
  }

  // ---------------------------------------------------------------- row contents

  datatype Data =
    | NoData
    | SrvData(srv: Srv, service: string, proto: string, name: string)
    | CaaData(caa: Caa)

  /** A row's `content`, `priority` and `data`; a missing content or priority reads as "" or 0. */
  datatype Body = Body(content: string, priority: nat, data: Data)

  function UnquoteTxt(value: string): string {
    var v := Strip(value);
    if |v| >= 2 && Quoted(v) then v[1..|v| - 1] else v
  }

  function TxtContent(value: string): string {
    "\"" + UnquoteTxt(value) + "\""
  }

  /** `_record_body`: how a value is written to the provider. */
  function RecordBody(fqdn: string, rt: RecordType, value: string): Result<Body> {
    match rt
    case TXT => Ok(Body(TxtContent(value), 0, NoData))
    case MX =>
      var mx :- ParseMx(value);
      Ok(Body(mx.exchange, mx.priority, NoData))
    case SRV =>
      var srv :- ParseSrv(value);
      var (service, proto, name) := SrvParts(fqdn);
      Ok(Body("", 0, SrvData(srv, service, proto, name)))
    case CAA =>
      var caa :- ParseCaa(value);
      Ok(Body("", 0, CaaData(caa.(value := Unquoted(caa.value)))))
    case _ => Ok(Body(value, 0, NoData))
  }

  function LeftStripDots(s: string): string {
    if s != [] && s[0] == '.' then LeftStripDots(s[1..]) else s
  }

  /** `_srv_parts`: service and protocol labels of an SRV owner name. */
  function SrvParts(fqdn: string): (string, string, string) {
    var s := RightStripDots(LeftStripDots(fqdn));
    var n := LabelLength(s);
    var rest := if n < |s| then s[n + 1..] else [];
    var m := LabelLength(rest);
    if n > 0 && s[0] == '_' && m > 0 && rest[0] == '_' && m < |rest| then
      (s[..n], rest[..m], rest[m + 1..])
    else ("_service", "_tcp", fqdn)
  }

  /** `_canonical_from_row`: how a row's value is read back. */
  function Canonical(ip6: Ip6, rt: RecordType, body: Body): Result<string> {
    match rt
    case MX =>
      var exchange :- NormalizeHostname(body.content);
      Ok(MxText(Mx(body.priority, exchange)))
    case SRV =>
      var srv := if body.data.SrvData? then body.data.srv else Srv(body.priority, 0, 0, []);
      var target :- NormalizeHostname(if srv.target != [] then srv.target else body.content);
      Ok(SrvText(srv.(target := target)))
    case CAA =>
      if body.data.CaaData? then NormalizeValue(ip6, CAA, CaaText(body.data.caa))
      else NormalizeValue(ip6, CAA, body.content)
    case TXT => Ok(UnquoteTxt(body.content))
    case CNAME | NS | PTR => NormalizeHostname(body.content)
    case _ => Ok(body.content)
  }

  /** What reading back the row written for `value` gives. */
  function ReadBack(ip6: Ip6, fqdn: string, rt: RecordType, value: string): Result<string> {
    var body :- RecordBody(fqdn, rt, value);
    Canonical(ip6, rt, body)
  }

  /** The value can be written and is read back unchanged. */
  predicate RoundTrips(ip6: Ip6, fqdn: string, rt: RecordType, value: string) {
    ReadBack(ip6, fqdn, rt, value) == Ok(value)
  }

  /** A quoted CAA text that survives losing its quotes on the way out: it has a space, no
      white space next to the quotes, and no second pair of quotes. */
  predicate RequotedCaa(text: string)
    requires |text| >= 2
  {
    var inner := text[1..|text| - 1];
    ' ' in inner && Stripped(inner) && !Quoted(inner)
  }

  /** When the provider returns a normalized value unchanged: always for addresses, MX and SRV;
      for host names without the kept newline; for TXT without enclosing quotes; for CAA texts
      that are not quoted, or are quoted and RequotedCaa. */
  predicate Readable(rt: RecordType, normalized: string) {
    match rt
    case CNAME | NS | PTR => !EndsWithNewline(normalized)
    case TXT => !(|normalized| >= 2 && Quoted(normalized))
    case CAA =>
      var caa := ParseCaa(normalized);
      caa.Ok? && (|caa.value.value| >= 2 && Quoted(caa.value.value) ==> RequotedCaa(caa.value.value))
    case _ => true
  }

  /** Round trip of written values, exactly characterised for every record type. */
  lemma ReadBackWritten(ip6: Ip6, fqdn: string, rt: RecordType, value: string)
    requires CanonicalIp6(ip6)
    requires NormalizeValue(ip6, rt, value).Ok?
    ensures var n := NormalizeValue(ip6, rt, value).value;
      RoundTrips(ip6, fqdn, rt, n) <==> Readable(rt, n)
  {
    var n := NormalizeValue(ip6, rt, value).value;
    match rt {
      case A | AAAA | SOA =>
      case CNAME | NS | PTR => NormalizeHostnameFixed(Strip(value));
      case TXT =>
        StripFixes(value);
        StripFixes(n);
        var v := UnquoteTxt(n);
        StripFixes(TxtContent(n));
        assert TxtContent(n)[1..|TxtContent(n)| - 1] == v;
      case MX =>
        ParsedMx(Strip(value));
        ParseMxText(ParseMx(Strip(value)).value);
      case SRV =>
        ParsedSrv(Strip(value));
        ParseSrvText(ParseSrv(Strip(value)).value);
      case CAA =>
        ParsedCaa(Strip(value));
        CaaReadBack(ip6, fqdn, ParseCaa(Strip(value)).value);
    }
  }

  function Unquoted(text: string): string {
    if |text| >= 2 && Quoted(text) then text[1..|text| - 1] else text
  }

  /** A parsed CAA value is written without its quotes and read back stripped and re-quoted. */
  lemma CaaBack(ip6: Ip6, fqdn: string, caa: Caa)
    requires caa.flags <= 255 && CaaTag(caa.tag) && Lower(caa.tag) == caa.tag
    requires caa.value != [] && Strip(caa.value) == caa.value && QuoteIfSpaced(caa.value) == caa.value
    ensures ParseCaa(CaaText(caa)) == Ok(caa)
    ensures var inner := Strip(Unquoted(caa.value));
      if inner == [] then ReadBack(ip6, fqdn, CAA, CaaText(caa)).Err?
      else ReadBack(ip6, fqdn, CAA, CaaText(caa)) == Ok(CaaText(caa.(value := QuoteIfSpaced(inner))))
  {
    hide Strip, Split, SplitAtMost, Decimal, ParseInt, ParseCaa, CaaText;
    ParseCaaText(caa);
    var sent := caa.(value := Unquoted(caa.value));
    assert RecordBody(fqdn, CAA, CaaText(caa)) == Ok(Body("", 0, CaaData(sent)));
    ParseCaaText(sent);
    ParseCaaStrips(CaaText(sent));
  }

  lemma CaaReadBack(ip6: Ip6, fqdn: string, caa: Caa)
    requires caa.flags <= 255 && CaaTag(caa.tag) && Lower(caa.tag) == caa.tag
    requires caa.value != [] && Strip(caa.value) == caa.value && QuoteIfSpaced(caa.value) == caa.value
    ensures RoundTrips(ip6, fqdn, CAA, CaaText(caa)) <==> Readable(CAA, CaaText(caa))
  {
    CaaBack(ip6, fqdn, caa);
    var inner := Unquoted(caa.value);
    if Strip(inner) != [] {
      CaaTextInjective(caa.(value := QuoteIfSpaced(Strip(inner))), caa);
      RequoteFixes(caa.value);
    }
  }

  lemma RequoteFixes(text: string)
    requires Strip(text) == text && QuoteIfSpaced(text) == text && Strip(Unquoted(text)) != []
    ensures QuoteIfSpaced(Strip(Unquoted(text))) == text <==>
      (|text| >= 2 && Quoted(text) ==> RequotedCaa(text))
  {
    var inner := Unquoted(text);
    StripShorter(inner);
    StripFixes(inner);
    if |text| >= 2 && Quoted(text) {
      assert text == "\"" + inner + "\"";
    }
  }

  lemma CaaTextInjective(a: Caa, b: Caa)
    requires a.flags == b.flags && a.tag == b.tag
    ensures CaaText(a) == CaaText(b) <==> a == b
  {
    var prefix := Decimal(a.flags) + " " + (a.tag + " ");
    assert CaaText(a) == prefix + a.value && CaaText(b) == prefix + b.value;
    assert CaaText(a)[|prefix|..] == a.value && CaaText(b)[|prefix|..] == b.value;
  }

  /** A TXT value in quotes comes back without them. */
  lemma QuotedTxtLosesQuotes(ip6: Ip6, fqdn: string, text: string)
    requires Strip(text) == text && |text| >= 2 && Quoted(text)
    ensures ReadBack(ip6, fqdn, TXT, text) == Ok(text[1..|text| - 1])
  {
    var inner := text[1..|text| - 1];
    StripFixes(TxtContent(text));
    assert TxtContent(text)[1..|TxtContent(text)| - 1] == inner;
  }

  /** A CAA value of two quotes is accepted and written, but its row can never be read again. */
  lemma EmptyQuotedCaaUnreadable(ip6: Ip6, fqdn: string, flags: nat, tag: string)
    requires flags <= 255 && CaaTag(tag) && Lower(tag) == tag
    ensures RecordBody(fqdn, CAA, CaaText(Caa(flags, tag, "\"\""))).Ok?
    ensures ReadBack(ip6, fqdn, CAA, CaaText(Caa(flags, tag, "\"\""))).Err?
  {
    StripFixes("\"\"");
    CaaBack(ip6, fqdn, Caa(flags, tag, "\"\""));
    assert Unquoted("\"\"") == [];
  }
}

/** What the functions for names, values and rows compute, part by part and without their own words
    (src/dns_record_types.py, lines 116-242; src/plugins/cloudflare.py, lines 32-88 and 373-414). */
module RecordForms {
  import opened Basics
  import opened Text
  import opened RecordValues
  import opened CloudflareRows

  // ---------------------------------------------------------------- host names

  predicate HostOrDot(c: char) {
    'A' <= c <= 'Z' || 'a' <= c <= 'z' || '0' <= c <= '9' || c == '_' || c == '-' || c == '.'
  }

  /** Characters that may follow each other: an empty label, or one with a hyphen at an end, does not occur. */
  predicate MayFollow(a: char, b: char) {
    !(a == '.' && (b == '.' || b == '-')) && !(a == '-' && b == '.')
  }

  ghost predicate Adjacent(s: string) {
    forall i, j :: 0 <= i < j < |s| && j == i + 1 ==> MayFollow(s[i], s[j])
  }

  ghost predicate ShortStretches(s: string) {
    forall i, j :: 0 <= i <= j <= |s| && '.' !in s[i..j] ==> j - i <= 63
  }

  /** A host name, place by place: no stretch without a dot is longer than 63 characters, no label is empty, and
      none starts or ends with a hyphen; one dot may end the name. */
  ghost predicate HostText(s: string) {
    && s != [] && s[0] != '.' && s[0] != '-' && s[|s| - 1] != '-'
    && (forall i :: 0 <= i < |s| ==> HostOrDot(s[i])) && Adjacent(s) && ShortStretches(s)
  }

  /** The label-by-label pattern accepts exactly those. */
  lemma {:induction false} HostLabelsExactly(s: string)
    ensures HostLabels(s) <==> HostText(s)
    decreases |s|
  {
    hide HostText, HostLabel;
    var n := LabelLength(s);
    OneLabel(s[..n]);
    if n == |s| {
      assert s[..n] == s;
    } else {
      var rest := s[n + 1..];
      assert s == s[..n] + "." + rest;
      JoinedText(s[..n], rest);
      if rest != [] {
        HostLabelsExactly(rest);
      }
    }
  }

  lemma OneLabel(s: string)
    requires '.' !in s
    ensures HostLabel(s) <==> HostText(s)
  {
    assert s[0..|s|] == s;
    assert forall i :: 0 <= i < |s| ==> s[i] in s;
    assert ShortStretches(s) <==> |s| <= 63;
    hide ShortStretches;
  }

  /** A first label and the rest. */
  lemma JoinedText(a: string, b: string)
    requires '.' !in a
    ensures HostText(a + "." + b) <==> HostText(a) && (b == [] || HostText(b))
  {
    JoinedAdjacent(a, b);
    JoinedStretches(a, b);
    hide Adjacent, ShortStretches;
    var t := a + "." + b;
    assert forall i :: 0 <= i < |a| ==> t[i] == a[i];
    assert forall i :: 0 <= i < |b| ==> t[|a| + 1 + i] == b[i];
    assert t[|a|] == '.';
  }

  lemma JoinedAdjacent(a: string, b: string)
    ensures Adjacent(a + "." + b) <==>
      Adjacent(a) && Adjacent(b) && (a == [] || MayFollow(a[|a| - 1], '.')) && (b == [] || MayFollow('.', b[0]))
  {
    var t, n := a + "." + b, |a|;
    if Adjacent(t) {
      assert forall i :: 0 <= i < n ==> t[i] == a[i];
      forall i, j | 0 <= i < j < |b| && j == i + 1 ensures MayFollow(b[i], b[j]) {
        assert MayFollow(t[n + 1 + i], t[n + 1 + j]);
      }
      assert n > 0 ==> MayFollow(t[n - 1], t[n]);
      assert b != [] ==> MayFollow(t[n], t[n + 1]);
    }
  }

  lemma JoinedStretches(a: string, b: string)
    requires '.' !in a
    ensures ShortStretches(a + "." + b) <==> ShortStretches(a) && ShortStretches(b)
  {
    var t, n := a + "." + b, |a|;
    forall i, j | 0 <= i <= j <= n ensures t[i..j] == a[i..j] {
    }
    forall i, j | 0 <= i <= j <= |b| ensures t[n + 1 + i..n + 1 + j] == b[i..j] {
    }
    forall i, j | 0 <= i <= n < j <= |t| ensures '.' in t[i..j] {
      assert t[i..j][n - i] == '.';
    }
    if ShortStretches(a) && ShortStretches(b) {
      forall i, j | 0 <= i <= j <= |t| && '.' !in t[i..j] ensures j - i <= 63 {
        if j <= n {
          assert t[i..j] == a[i..j];
        } else if i > n {
          assert t[i..j] == b[i - n - 1..j - n - 1];
        }
      }
    }
    if ShortStretches(t) {
      forall i, j | 0 <= i <= j <= |b| && '.' !in b[i..j] ensures j - i <= 63 {
        assert t[n + 1 + i..n + 1 + j] == b[i..j];
      }
    }
  }
  /** A host name is accepted exactly if what is left after outer white space and trailing dots is such a text of
      at most 253 characters, or one followed by a newline; and then that is the result. */
  lemma HostnameExactly(value: string)
    ensures var host := RightStripDots(Strip(value));
      NormalizeHostname(value).Ok? <==>
        (|host| <= 253 && HostText(host))
        || (host != [] && |host| <= 254 && host[|host| - 1] == '\n' && HostText(host[..|host| - 1]))
    ensures NormalizeHostname(value).Ok? ==> NormalizeHostname(value).value == RightStripDots(Strip(value))
  {
    var host := RightStripDots(Strip(value));
    HostLabelsExactly(host);
    if host != [] {
      HostLabelsExactly(host[..|host| - 1]);
    }
    hide Adjacent, ShortStretches, HostLabels;
  }

  // ---------------------------------------------------------------- IPv4 addresses

  /** An octet is the decimal text of a number up to 255. */
  lemma OctetExactly(s: string)
    ensures Octet(s) <==> exists n: nat :: n <= 255 && s == Decimal(n)
  {
    if n: nat :| n <= 255 && s == Decimal(n) {
      ParseDecimal(n);
      DecimalShape(n);
    }
    if Octet(s) {
      var n := ParseInt(s).value;
      ShortNumber(s);
      assert s == Decimal(n);
    }
  }

  lemma DecimalShape(n: nat)
    ensures n <= 255 ==> |Decimal(n)| <= 3
    ensures |Decimal(n)| > 1 ==> Decimal(n)[0] != '0'
  {
    assert n >= 10 ==> Decimal(n) == Decimal(n / 10) + Decimal(n % 10);
    if n >= 100 {
      assert n / 10 >= 10;
      DecimalHead(n);
    } else if n >= 10 {
      DecimalHead(n);
    }
  }

  lemma {:induction false} DecimalHead(n: nat)
    ensures Decimal(n)[0] == '0' <==> n == 0
    decreases n
  {
    if n >= 10 {
      DecimalHead(n / 10);
    }
  }

  lemma ShortNumber(s: string)
    requires 1 <= |s| <= 3 && (forall i :: 0 <= i < |s| ==> IsDigit(s[i])) && (|s| > 1 ==> s[0] != '0')
    ensures ParseInt(s).Some? && ParseInt(s).value >= 0 && s == Decimal(ParseInt(s).value)
  {
    var a := DigitValue(s[0]);
    var one, two := s[1..], if |s| > 1 then s[2..] else [];
    assert ParseInt(s) == ScanDigits(s, 0, false) == ScanDigits(one, a, true);
    if |s| > 1 {
      var b := DigitValue(s[1]);
      assert one[0] == s[1] && one[1..] == two;
      assert ScanDigits(one, a, true) == ScanDigits(two, a * 10 + b, true);
      assert (a * 10 + b) / 10 == a && (a * 10 + b) % 10 == b;
      assert Decimal(a * 10 + b) == Decimal(a) + Decimal(b);
      if |s| > 2 {
        var c := DigitValue(s[2]);
        assert two[0] == s[2] && two[1..] == [];
        var n := (a * 10 + b) * 10 + c;
        assert ScanDigits(two, a * 10 + b, true) == Some(n);
        assert n / 10 == a * 10 + b && n % 10 == c;
        assert Decimal(n) == Decimal(a * 10 + b) + Decimal(c);
      }
    }
  }
  function Dotted(a: nat, b: nat, c: nat, d: nat): string {
    Decimal(a) + "." + (Decimal(b) + "." + (Decimal(c) + "." + Decimal(d)))
  }

  /** Every dotted quad of numbers up to 255 is accepted as an IPv4 address, ... */
  lemma QuadIsIp4(a: nat, b: nat, c: nat, d: nat)
    requires a <= 255 && b <= 255 && c <= 255 && d <= 255
    ensures Ip4(Dotted(a, b, c, d))
  {
    hide Octets, Octet, Decimal;
    var two, three := Decimal(c) + "." + Decimal(d), Decimal(b) + "." + (Decimal(c) + "." + Decimal(d));
    DecimalIsOctet(a);
    DecimalIsOctet(b);
    DecimalIsOctet(c);
    DecimalIsOctet(d);
    OctetLast(Decimal(d));
    OctetFirst(Decimal(c), Decimal(d), 1);
    OctetFirst(Decimal(b), two, 2);
    OctetFirst(Decimal(a), three, 3);
  }

  lemma DecimalIsOctet(n: nat)
    ensures '.' !in Decimal(n) && (n <= 255 ==> Octet(Decimal(n)))
  {
    OctetExactly(Decimal(n));
    hide Octet;
    assert forall c :: c in Decimal(n) ==> IsDigit(c);
  }

  /** ... and nothing else. */
  lemma Ip4IsQuad(s: string) returns (a: nat, b: nat, c: nat, d: nat)
    requires Ip4(s)
    ensures a <= 255 && b <= 255 && c <= 255 && d <= 255 && s == Dotted(a, b, c, d)
  {
    hide Octet, Decimal;
    var rest: string;
    a, rest := OctetOff(s, 4);
    b, rest := OctetOff(rest, 3);
    c, rest := OctetOff(rest, 2);
    OctetLast(rest);
    OctetExactly(rest);
    d :| d <= 255 && rest == Decimal(d);
  }

  lemma OctetOff(s: string, count: nat) returns (n: nat, rest: string)
    requires count > 1 && Octets(s, count)
    ensures n <= 255 && s == Decimal(n) + "." + rest && Octets(rest, count - 1)
  {
    hide Octet, Decimal;
    var m := LabelLength(s);
    rest := s[m + 1..];
    OctetExactly(s[..m]);
    n :| n <= 255 && s[..m] == Decimal(n);
    assert s == s[..m] + "." + rest;
  }

  lemma OctetFirst(first: string, rest: string, count: nat)
    requires count > 0 && '.' !in first
    ensures Octets(first + "." + rest, count + 1) <==> Octet(first) && Octets(rest, count)
  {
    hide Octet;
    var s, n := first + "." + rest, |first|;
    assert s[..n] == first && s[n] == '.' && s[n + 1..] == rest;
    LabelLengthOf(s, n);
  }

  lemma OctetLast(s: string)
    ensures Octets(s, 1) ==> Octet(s)
    ensures '.' !in s ==> (Octets(s, 1) <==> Octet(s))
  {
    var n := LabelLength(s);
    assert n == |s| ==> s[..n] == s;
    if '.' !in s {
      assert s[..|s|] == s;
      LabelLengthOf(s, |s|);
    }
    hide Octet;
  }

  // ---------------------------------------------------------------- values

  /** Numbers are read as they are written, within their bounds; a sign is allowed. */
  lemma NumbersRead(n: nat, maximum: nat)
    ensures ParseUint(Decimal(n), maximum).Ok? <==> n <= maximum
    ensures n <= maximum ==> ParseUint(Decimal(n), maximum) == Ok(n)
    ensures ParseInt("-" + Decimal(n)) == Some(0 - n) && ParseInt("+" + Decimal(n)) == Some(n)
  {
    ParseDecimal(n);
    ScanDecimal(n, []);
    assert Decimal(n) + [] == Decimal(n);
    assert ("-" + Decimal(n))[1..] == Decimal(n) && ("+" + Decimal(n))[1..] == Decimal(n);
  }

  /** Values of the types with one part: stripped, never empty, and then each by its own rule. */
  lemma OnePartValues(ip6: Ip6, rt: RecordType, value: string)
    ensures var raw, r := Strip(value), NormalizeValue(ip6, rt, value);
      match rt
      case A => (r.Ok? <==> exists a: nat, b: nat, c: nat, d: nat ::
        a <= 255 && b <= 255 && c <= 255 && d <= 255 && raw == Dotted(a, b, c, d)) && (r.Ok? ==> r.value == raw)
      case AAAA => r.Ok? ==> raw != [] && ip6(raw) == Some(r.value)
      case TXT | SOA => (r.Ok? <==> raw != []) && (r.Ok? ==> r.value == raw)
      case CNAME | NS | PTR => (r.Ok? <==> NormalizeHostname(value).Ok?) && (r.Ok? ==> r.value == RightStripDots(raw))
      case MX | SRV | CAA => raw == [] ==> r.Err?
  {
    StripTwice(value);
    var raw := Strip(value);
    if rt == A {
      if raw != [] && Ip4(raw) {
        var a, b, c, d := Ip4IsQuad(raw);
      }
      if a: nat, b: nat, c: nat, d: nat :| a <= 255 && b <= 255 && c <= 255 && d <= 255 && raw == Dotted(a, b, c, d) {
        QuadIsIp4(a, b, c, d);
      }
    }
    hide Octets;
  }

  /** "priority exchange": the number stays, the exchange loses trailing dots. */
  lemma MxValues(ip6: Ip6, p: nat, host: string)
    requires IsToken(host)
    ensures NormalizeValue(ip6, MX, Decimal(p) + " " + host).Ok? <==> p <= 65535 && NormalizeHostname(host).Ok?
    ensures NormalizeValue(ip6, MX, Decimal(p) + " " + host).Ok? ==>
      NormalizeValue(ip6, MX, Decimal(p) + " " + host).value == Decimal(p) + " " + RightStripDots(host)
  {
    hide Strip, LeftStrip, RightStrip, Split, Decimal, ParseInt, NormalizeHostname;
    NumbersRead(p, 65535);
    ParseDecimal(p);
    StripFixes(host);
    PrependToken(Decimal(p), host);
    SplitOne(host);
    HostnameExactly(host);
    hide HostText;
  }
  function Words(a: string, b: string, c: string, d: string): string { a + " " + (b + " " + (c + " " + d)) }

  /** "priority weight port target": the same for four parts. */
  lemma SrvValues(ip6: Ip6, p: nat, w: nat, port: nat, host: string)
    requires IsToken(host)
    ensures var r := NormalizeValue(ip6, SRV, Words(Decimal(p), Decimal(w), Decimal(port), host));
      && (r.Ok? <==> p <= 65535 && w <= 65535 && port <= 65535 && NormalizeHostname(host).Ok?)
      && (r.Ok? ==> r.value == Words(Decimal(p), Decimal(w), Decimal(port), RightStripDots(host)))
  {
    hide Strip, LeftStrip, RightStrip, Split, Decimal, ParseInt, ParseUint, NormalizeHostname, RightStripDots,
      IsToken;
    NumbersRead(p, 65535);
    NumbersRead(w, 65535);
    NumbersRead(port, 65535);
    ParseDecimal(p);
    ParseDecimal(w);
    ParseDecimal(port);
    WordsSplit(Decimal(p), Decimal(w), Decimal(port), host);
    TokenNormalised(host);
    var parts := [Decimal(p), Decimal(w), Decimal(port), host];
    assert Split(Words(parts[0], parts[1], parts[2], parts[3])) == parts;
  }

  lemma WordsSplit(a: string, b: string, c: string, d: string)
    requires IsToken(a) && IsToken(b) && IsToken(c) && IsToken(d)
    ensures Words(a, b, c, d) != [] && Strip(Words(a, b, c, d)) == Words(a, b, c, d)
    ensures Split(Words(a, b, c, d)) == [a, b, c, d]
  {
    hide Strip, Split;
    SplitFour(a, b, c, d);
  }

  lemma TokenNormalised(host: string)
    requires IsToken(host)
    ensures NormalizeHostname(host).Ok? ==> NormalizeHostname(host).value == RightStripDots(host)
  {
    StripFixes(host);
    hide HostMatches;
  }
  /** "flags tag value": the tag becomes lower case, the value is stripped, and quoted if it has a space and no
      quotes around it. */
  lemma CaaValues(ip6: Ip6, flags: nat, tag: string, text: string)
    requires CaaTag(tag) && flags <= 255
    ensures var r := NormalizeValue(ip6, CAA, Decimal(flags) + " " + (tag + " " + text));
      var v := Strip(text);
      && (r.Ok? <==> v != [])
      && (r.Ok? ==>
            var kept := if ' ' in v && !(v[0] == '"' && v[|v| - 1] == '"') then "\"" + v + "\"" else v;
            r.value == Decimal(flags) + " " + (Lower(tag) + " " + kept))
  {
    hide Strip, Decimal, ParseInt, ParseUint, SplitAtMost, Lower;
    var whole := Decimal(flags) + " " + (tag + " " + text);
    ParseDecimal(flags);
    NumbersRead(flags, 255);
    SplitTwoAndRest(Decimal(flags), tag, text);
    StripTwice(text);
    StripTwice(whole);
    if Strip(text) != [] {
      var parts := [Decimal(flags), tag, Strip(text)];
      assert SplitAtMost(Strip(whole), 2) == parts;
    }
  }

  /** Anything but flags up to 255, a tag of letters and digits, and a value is refused. */
  lemma CaaRefused(ip6: Ip6, value: string)
    requires NormalizeValue(ip6, CAA, value).Ok?
    ensures var parts := SplitAtMost(Strip(value), 2);
      && |parts| == 3 && parts[1] != [] && ParseInt(parts[0]).Some? && 0 <= ParseInt(parts[0]).value <= 255
      && forall c :: c in parts[1] ==> 'A' <= c <= 'Z' || 'a' <= c <= 'z' || '0' <= c <= '9'
  {
    StripTwice(value);
    hide Strip, SplitAtMost, ParseInt;
  }

  // ---------------------------------------------------------------- rows

  /** An MX value is sent as its exchange with the priority beside it. */
  lemma MxRow(fqdn: string, p: nat, host: string)
    requires p <= 65535 && IsToken(host) && NormalizeHostname(host) == Ok(host)
    ensures RecordBody(fqdn, MX, Decimal(p) + " " + host) == Ok(Body(host, p, NoData))
  {
    ParseMxText(Mx(p, host));
  }

  /** An SRV value is sent as data, with service and protocol from the owner name: "_sip._tcp.rest". */
  lemma SrvRow(a: string, b: string, name: string, p: nat, w: nat, port: nat, host: string)
    requires p <= 65535 && w <= 65535 && port <= 65535 && IsToken(host) && NormalizeHostname(host) == Ok(host)
    requires a != [] && b != [] && a[0] == '_' && b[0] == '_' && '.' !in a && '.' !in b
    requires name != [] && name[|name| - 1] != '.'
    ensures RecordBody(a + "." + (b + "." + name), SRV, Words(Decimal(p), Decimal(w), Decimal(port), host))
      == Ok(Body("", 0, SrvData(Srv(p, w, port, host), a, b, name)))
  {
    hide Decimal, ParseSrv, NormalizeHostname, SrvParts, IsToken;
    ParseSrvText(Srv(p, w, port, host));
    OwnerParts(a, b, name);
  }

  lemma OwnerParts(a: string, b: string, name: string)
    requires a != [] && b != [] && a[0] == '_' && b[0] == '_' && '.' !in a && '.' !in b
    requires name != [] && name[|name| - 1] != '.'
    ensures SrvParts(a + "." + (b + "." + name)) == (a, b, name)
  {
    var s, rest := a + "." + (b + "." + name), b + "." + name;
    assert LeftStripDots(s) == s && RightStripDots(s) == s by {
      assert s[0] == '_' && s[|s| - 1] == name[|name| - 1];
    }
    hide LeftStripDots, RightStripDots, LabelLength;
    FirstLabel(a, rest);
    FirstLabel(b, name);
  }

  lemma FirstLabel(a: string, rest: string)
    requires '.' !in a
    ensures var s := a + "." + rest; LabelLength(s) == |a| && s[..|a|] == a && s[|a| + 1..] == rest
  {
    var s := a + "." + rest;
    assert s[..|a|] == a && s[|a|] == '.';
    LabelLengthOf(s, |a|);
  }

  /** Any other owner name is sent as it is, with a default service and protocol. */
  lemma OtherOwner(fqdn: string)
    requires fqdn == [] || (fqdn[0] != '_' && fqdn[0] != '.')
    ensures SrvParts(fqdn) == ("_service", "_tcp", fqdn)
  {
    RightStripDotsShape(fqdn);
  }

  /** A CAA value is sent as data, quoted or not, without the quotes. */
  lemma CaaRow(fqdn: string, flags: nat, tag: string, text: string)
    requires flags <= 255 && CaaTag(tag) && Lower(tag) == tag && text != [] && Stripped(text) && !Quoted(text)
    ensures var quoted, sent := "\"" + text + "\"", Ok(Body("", 0, CaaData(Caa(flags, tag, text))));
      && (' ' !in text ==> RecordBody(fqdn, CAA, Decimal(flags) + " " + (tag + " " + text)) == sent)
      && RecordBody(fqdn, CAA, Decimal(flags) + " " + (tag + " " + quoted)) == sent
  {
    hide Decimal, ParseCaa, Strip, Lower, CaaTag;
    var quoted := "\"" + text + "\"";
    StripFixes(text);
    StripFixes(quoted);
    assert quoted[1..|quoted| - 1] == text;
    ParseCaaText(Caa(flags, tag, text));
    ParseCaaText(Caa(flags, tag, quoted));
  }

  /** A TXT value is sent in exactly one pair of quotes, and values without parts as they are. */
  lemma TextRow(fqdn: string, rt: RecordType, text: string)
    requires text != [] && Stripped(text)
    ensures !Quoted(text) ==> RecordBody(fqdn, TXT, text) == Ok(Body("\"" + text + "\"", 0, NoData))
    ensures RecordBody(fqdn, TXT, "\"" + text + "\"") == Ok(Body("\"" + text + "\"", 0, NoData))
    ensures rt in {A, AAAA, CNAME, NS, PTR, SOA} ==> RecordBody(fqdn, rt, text) == Ok(Body(text, 0, NoData))
  {
    hide Strip;
    var quoted := "\"" + text + "\"";
    StripFixes(text);
    StripFixes(quoted);
    assert quoted[1..|quoted| - 1] == text;
  }

  /** How rows are read, whoever wrote them: an MX or SRV row as its parts, with 0 for parts an SRV row without data
      lacks, ... */
  lemma HostRowsRead(ip6: Ip6, content: string, p: nat, w: nat, port: nat, service: string, proto: string, name: string)
    requires IsToken(content) && NormalizeHostname(content) == Ok(content)
    ensures Canonical(ip6, MX, Body(content, p, NoData)) == Ok(Decimal(p) + " " + content)
    ensures Canonical(ip6, SRV, Body(content, p, NoData)) == Ok(Words(Decimal(p), "0", "0", content))
    ensures Canonical(ip6, SRV, Body("", 0, SrvData(Srv(p, w, port, content), service, proto, name))) ==
      Ok(Words(Decimal(p), Decimal(w), Decimal(port), content))
    ensures forall rt :: rt in {CNAME, NS, PTR} ==> Canonical(ip6, rt, Body(content, p, NoData)) == Ok(content)
  {
    assert Decimal(0) == "0";
    hide Decimal, NormalizeHostname;
  }

  /** ... a TXT row without the quotes around it, a CAA row as its text or its parts, and any other as it is. */
  lemma TextRowsRead(ip6: Ip6, text: string, caa: Caa, p: nat)
    requires Stripped(text)
    ensures Canonical(ip6, TXT, Body("\"" + text + "\"", p, NoData)) == Ok(text)
    ensures !(|text| >= 2 && text[0] == '"' && text[|text| - 1] == '"') ==>
      Canonical(ip6, TXT, Body(text, p, NoData)) == Ok(text)
    ensures Canonical(ip6, CAA, Body(text, p, NoData)) == NormalizeValue(ip6, CAA, text)
    ensures Canonical(ip6, CAA, Body(text, p, CaaData(caa))) ==
      NormalizeValue(ip6, CAA, Decimal(caa.flags) + " " + (caa.tag + " " + caa.value))
    ensures forall rt :: rt in {A, AAAA, SOA} ==> Canonical(ip6, rt, Body(text, p, NoData)) == Ok(text)
  {
    hide Decimal, NormalizeValue;
    var quoted := "\"" + text + "\"";
    StripFixes(text);
    StripFixes(quoted);
    assert quoted[1..|quoted| - 1] == text;
  }

  // ---------------------------------------------------------------- owner names

  /** An empty name, or "@", is the zone itself; ... */
  lemma Apex(zone: string)
    requires Trimmed(zone) == zone
    ensures Fqdn(zone, "") == zone && Fqdn(zone, "@") == zone
  {
    assert Trimmed("") == "" && Trimmed("@") == "@";
    hide Trimmed;
  }

  /** ... a name that is the zone, or ends in it after a dot, in whatever case, stays as it is, ... */
  lemma InsideZone(zone: string, name: string, prefix: string, suffix: string)
    requires Trimmed(zone) == zone && zone != [] && Trimmed(name) == name && name != "@"
    requires Lower(suffix) == Lower(zone) && (name == suffix || name == prefix + ("." + suffix))
    ensures Fqdn(zone, name) == name
  {
    hide Trimmed;
    if name != suffix {
      assert name[|prefix|..] == "." + suffix && |suffix| == |Lower(suffix)| == |zone|;
      assert Lower("." + suffix) == "." + Lower(suffix) && Lower("." + zone) == "." + Lower(zone) by {
        assert ("." + suffix)[1..] == suffix && ("." + zone)[1..] == zone;
      }
    } else {
      assert |suffix| == |Lower(suffix)| == |Lower(zone)|;
    }
  }

  /** ... and any other gets the zone appended. */
  lemma OutsideZone(zone: string, name: string)
    requires Trimmed(zone) == zone && Trimmed(name) == name && name != [] && name != "@" && Lower(name) != Lower(zone)
    requires forall prefix, suffix :: name == prefix + ("." + suffix) ==> Lower(suffix) != Lower(zone)
    ensures Fqdn(zone, name) == name + ("." + zone)
  {
    hide Trimmed;
    if EndsWithIgnoringCase(name, "." + zone) {
      var prefix, suffix := EndsInZone(zone, name);
    }
  }

  lemma EndsInZone(zone: string, name: string) returns (prefix: string, suffix: string)
    requires EndsWithIgnoringCase(name, "." + zone)
    ensures name == prefix + ("." + suffix) && Lower(suffix) == Lower(zone)
  {
    var at := |name| - |"." + zone|;
    var tail := name[at..];
    prefix, suffix := name[..at], name[at + 1..];
    assert Lower(tail)[0] == Lower("." + zone)[0];
    assert tail == "." + suffix && name == prefix + tail;
    assert tail[1..] == suffix && ("." + zone)[1..] == zone;
    assert Lower(tail) == [LowerChar(tail[0])] + Lower(tail[1..]);
  }
}

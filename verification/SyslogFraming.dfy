/** Octet-counted framing and the RFC 5424 priority (src/remote_syslog.py, lines 67-95 and 231-253).
    Encoded messages are ASCII, one character per octet. */
module SyslogFraming {
  import opened Basics
  import opened Text

  datatype Level = Verbose | Informational | Warning | Error

  function Rank(level: Level): nat {
    match level case Verbose => 0 case Informational => 10 case Warning => 20 case Error => 30
  }

  predicate MeetsMinimumLevel(event: Level, minimum: Level) {
    Rank(event) >= Rank(minimum)
  }

  function Severity(level: Level): nat {
    match level case Verbose => 7 case Informational => 6 case Warning => 4 case Error => 3
  }

  const FACILITY: map<string, nat> := map[
    "kern" := 0, "user" := 1, "mail" := 2, "daemon" := 3, "auth" := 4, "syslog" := 5, "lpr" := 6,
    "news" := 7, "uucp" := 8, "cron" := 9, "authpriv" := 10, "ftp" := 11,
    "local0" := 16, "local1" := 17, "local2" := 18, "local3" := 19,
    "local4" := 20, "local5" := 21, "local6" := 22, "local7" := 23]

  function FacilityCode(name: string): nat {
    if Lower(name) in FACILITY then FACILITY[Lower(name)] else 16
  }

  function Priority(level: Level, facility: string): nat {
    FacilityCode(facility) * 8 + Severity(level)
  }

  /** The priority is a valid PRIVAL (section 6.2.1 of RFC 5424) from which both parts are recovered. */
  lemma PriorityIsValid(level: Level, facility: string)
    ensures Priority(level, facility) <= 191
    ensures Priority(level, facility) / 8 == FacilityCode(facility)
    ensures Priority(level, facility) % 8 == Severity(level)
    ensures Lower(facility) !in FACILITY ==> Priority(level, facility) / 8 == FACILITY["local0"]
  {
    assert FacilityCode(facility) <= 23 by {
      assert forall f :: f in FACILITY ==> FACILITY[f] <= 23;
    }
  }

  /** An event is wanted exactly when it is at least as severe as the minimum: severities (section 6.2.1 of
      RFC 5424) fall as levels rise. */
  lemma MeetsIffAsSevere(event: Level, minimum: Level)
    ensures MeetsMinimumLevel(event, minimum) <==> Severity(event) <= Severity(minimum)
    ensures Severity(Error) == 3 && Severity(Warning) == 4 && Severity(Informational) == 6 && Severity(Verbose) == 7
  {
  }

  function FrameTcp(message: string): string {
    Decimal(|message|) + " " + message
  }

  function Stream(messages: seq<string>): string {
    if messages == [] then [] else FrameTcp(messages[0]) + Stream(messages[1..])
  }

  function DigitRun(s: string): (n: nat)
    ensures n <= |s| && forall i :: 0 <= i < n ==> IsDigit(s[i])
  {
    if s == [] || !IsDigit(s[0]) then 0 else 1 + DigitRun(s[1..])
  }

  function NumberOf(digits: string): nat
    requires forall i :: 0 <= i < |digits| ==> IsDigit(digits[i])
  {
    if digits == [] then 0
    else NumberOf(digits[..|digits| - 1]) * 10 + DigitValue(digits[|digits| - 1])
  }

  /** A receiver for section 3.4.1 of RFC 6587: MSG-LEN starts with a non-zero digit. */
  function Decode(stream: string): Option<seq<string>>
    decreases |stream|
  {
    if stream == [] then Some([])
    else
      var k := DigitRun(stream);
      if k == 0 || k == |stream| || stream[0] == '0' || stream[k] != ' ' then None
      else
        var end := k + 1 + NumberOf(stream[..k]);
        if end > |stream| then None
        else
          var rest := Decode(stream[end..]);
          if rest.None? then None else Some([stream[k + 1..end]] + rest.value)
  }

  lemma {:induction false} DecimalReads(n: nat)
    ensures NumberOf(Decimal(n)) == n
    ensures Decimal(n)[0] == '0' <==> n == 0
    decreases n
  {
    if n < 10 {
      assert Decimal(n)[..0] == [];
    } else {
      DecimalReads(n / 10);
      assert Decimal(n) == Decimal(n / 10) + Decimal(n % 10);
      assert Decimal(n)[..|Decimal(n)| - 1] == Decimal(n / 10);
    }
  }

  lemma {:induction false} DigitRunOf(digits: string, rest: string)
    requires forall i :: 0 <= i < |digits| ==> IsDigit(digits[i])
    requires rest != [] && !IsDigit(rest[0])
    ensures DigitRun(digits + rest) == |digits|
  {
    if digits == [] {
      assert digits + rest == rest;
    } else {
      assert (digits + rest)[1..] == digits[1..] + rest;
      DigitRunOf(digits[1..], rest);
    }
  }

  lemma DecodeFrame(message: string, rest: string)
    ensures Decode(FrameTcp(message) + rest) ==
      if message == [] || Decode(rest).None? then None else Some([message] + Decode(rest).value)
  {
    var head := Decimal(|message|);
    var stream := FrameTcp(message) + rest;
    var tail := " " + message + rest;
    assert stream == head + tail;
    DigitRunOf(head, tail);
    DecimalReads(|message|);
    assert stream[..|head|] == head && stream[0] == head[0] && stream[|head|] == ' ';
    var end := |head| + 1 + |message|;
    assert stream[|head| + 1..end] == message && stream[end..] == rest;
  }

  /** Octet counting is uniquely decodable: a receiver recovers exactly the messages sent, unless one
      of them is empty (its frame "0 " has no valid length). */
  lemma {:induction false} FramesDecode(messages: seq<string>)
    ensures Decode(Stream(messages)) == if [] in messages then None else Some(messages)
  {
    if messages != [] {
      FramesDecode(messages[1..]);
      DecodeFrame(messages[0], Stream(messages[1..]));
      assert messages == [messages[0]] + messages[1..];
    }
  }

  /** `encode_rfc5424`, with the text after the priority given. */
  function Encode(level: Level, facility: string, rest: string): string {
    "<" + Decimal(Priority(level, facility)) + ">1 " + rest
  }

  /** A receiver reads facility, severity and version 1 from the header, and finds the rest as it was. */
  lemma HeaderReads(level: Level, facility: string, rest: string)
    ensures var encoded := Encode(level, facility, rest);
      && encoded[0] == '<'
      && var k := DigitRun(encoded[1..]);
      && NumberOf(encoded[1..][..k]) == 8 * FacilityCode(facility) + Severity(level)
      && encoded[1..][k..] == ">1 " + rest
  {
    var digits := Decimal(Priority(level, facility));
    DecimalReads(Priority(level, facility));
    DigitRunOf(digits, ">1 " + rest);
    assert Encode(level, facility, rest)[1..] == digits + (">1 " + rest);
    assert (digits + (">1 " + rest))[..|digits|] == digits;
  }

  /** Encoded events are never empty, so every stream of events decodes. */
  lemma EncodedStreamDecodes(messages: seq<string>)
    requires forall m :: m in messages ==> exists level, facility, rest :: m == Encode(level, facility, rest)
    ensures Decode(Stream(messages)) == Some(messages)
  {
    FramesDecode(messages);
  }
}

/** Running a PowerShell script of any length through WinRM (src/plugins/microsoft.py, lines 35-40 and
    87-136): a short one directly, a long one staged through a remote file in base64 chunks. */
module WinRmStaging {
  import opened Basics

  const SOFT_LIMIT := 6000
  const CHUNK_SIZE := 1800

  type Byte = n: int | 0 <= n < 256

  // ---------------------------------------------------------------- encodings

  /** The base64 alphabet of section 4 of RFC 4648. */
  function Digit(d: nat): (c: char)
    requires d < 64
    ensures DigitValue(c) == Some(d)
  {
    if d < 26 then (d + 65) as char
    else if d < 52 then (d + 71) as char
    else if d < 62 then (d - 4) as char
    else if d == 62 then '+'
    else '/'
  }

  function DigitValue(c: char): Option<nat> {
    if 'A' <= c <= 'Z' then Some(c as int - 65)
    else if 'a' <= c <= 'z' then Some(c as int - 71)
    else if '0' <= c <= '9' then Some(c as int + 4)
    else if c == '+' then Some(62)
    else if c == '/' then Some(63)
    else None
  }

  /** Three bytes as four digits, as far as `n` of them. */
  function Quad(a: Byte, b: Byte, c: Byte): (s: string)
    ensures |s| == 4
    ensures DigitValue(s[0]) == Some(a / 4) && DigitValue(s[1]) == Some(a % 4 * 16 + b / 16)
    ensures DigitValue(s[2]) == Some(b % 16 * 4 + c / 64) && DigitValue(s[3]) == Some(c % 64)
  {
    [Digit(a / 4), Digit(a % 4 * 16 + b / 16), Digit(b % 16 * 4 + c / 64), Digit(c % 64)]
  }

  function Base64(bytes: seq<Byte>): (s: string)
    ensures |s| == Base64Length(|bytes|)
  {
    if bytes == [] then []
    else if |bytes| == 1 then Quad(bytes[0], 0, 0)[..2] + "=="
    else if |bytes| == 2 then Quad(bytes[0], bytes[1], 0)[..3] + "="
    else
      assert |bytes[3..]| == |bytes| - 3;
      Quad(bytes[0], bytes[1], bytes[2]) + Base64(bytes[3..])
  }

  /** Three bytes are four digits; examples from section 10 of RFC 4648, and the last digits of the alphabet. */
  lemma Base64Examples()
    ensures Base64([102, 111, 111]) == "Zm9v" && Base64([0xFB, 0xFF, 0xBF]) == "+/+/"
  {
    assert [102, 111, 111][3..] == [] && [0xFB, 0xFF, 0xBF][3..] == [];
  }

  function Base64Length(n: nat): nat { 4 * ((n + 2) / 3) }

  function HighByte(d0: nat, d1: nat): nat { d0 * 4 + d1 / 16 }

  function MiddleByte(d1: nat, d2: nat): nat { d1 % 16 * 16 + d2 / 4 }

  function LowByte(d2: nat, d3: nat): nat { d2 % 4 * 64 + d3 }

  /** `FromBase64String` on text without white space. */
  function FromBase64(s: string): Option<seq<Byte>> {
    if s == [] then Some([])
    else if |s| < 4 then None
    else
      var d0, d1, d2, d3 := DigitValue(s[0]), DigitValue(s[1]), DigitValue(s[2]), DigitValue(s[3]);
      if d0.None? || d1.None? then None
      else
        var a := HighByte(d0.value, d1.value);
        if a >= 256 then None
        else if s[2..] == "==" then Some([a])
        else if d2.None? then None
        else
          var b := MiddleByte(d1.value, d2.value);
          if b >= 256 then None
          else if s[3..] == "=" then Some([a, b])
          else if d3.None? then None
          else
            var c := LowByte(d2.value, d3.value);
            if c >= 256 then None
            else
              var rest := FromBase64(s[4..]);
              if rest.None? then None else Some([a, b, c] + rest.value)
  }

  lemma {:induction false} Base64RoundTrip(bytes: seq<Byte>)
    ensures FromBase64(Base64(bytes)) == Some(bytes)
  {
    PadIsNoDigit();
    hide Quad, FromBase64;
    if |bytes| == 1 {
      OneByteRoundTrip(bytes[0]);
      assert bytes == [bytes[0]];
    } else if |bytes| == 2 {
      TwoBytesRoundTrip(bytes[0], bytes[1]);
      assert bytes == [bytes[0], bytes[1]];
    } else if |bytes| >= 3 {
      Base64RoundTrip(bytes[3..]);
      GroupRoundTrip(bytes[0], bytes[1], bytes[2], Base64(bytes[3..]));
      assert bytes == [bytes[0], bytes[1], bytes[2]] + bytes[3..];
    }
  }

  lemma PadIsNoDigit()
    ensures DigitValue('=') == None && FromBase64([]) == Some([])
  {
  }

  lemma GroupArithmetic(a: Byte, b: Byte, c: Byte)
    ensures HighByte(a / 4, a % 4 * 16 + b / 16) == a
    ensures MiddleByte(a % 4 * 16 + b / 16, b % 16 * 4 + c / 64) == b
    ensures LowByte(b % 16 * 4 + c / 64, c % 64) == c
  {
  }

  lemma OneByteRoundTrip(a: Byte)
    ensures FromBase64(Quad(a, 0, 0)[..2] + "==") == Some([a])
  {
    GroupArithmetic(a, 0, 0);
    hide DigitValue, HighByte, FromBase64;
    PaddedTwice(Quad(a, 0, 0), a / 4, a % 4 * 16, a);
  }

  lemma PaddedTwice(quad: string, d0: nat, d1: nat, a: Byte)
    requires |quad| == 4 && DigitValue(quad[0]) == Some(d0) && DigitValue(quad[1]) == Some(d1) && HighByte(d0, d1) == a
    ensures FromBase64(quad[..2] + "==") == Some([a])
  {
    hide DigitValue, HighByte, FromBase64;
    var s := quad[..2] + "==";
    assert s[0] == quad[0] && s[1] == quad[1] && s[2..] == "==";
    DecodeTail(s, d0, d1, 0, a, 0);
  }

  lemma TwoBytesRoundTrip(a: Byte, b: Byte)
    ensures FromBase64(Quad(a, b, 0)[..3] + "=") == Some([a, b])
  {
    GroupArithmetic(a, b, 0);
    hide Quad, DigitValue, HighByte, MiddleByte, FromBase64;
    var s := Quad(a, b, 0)[..3] + "=";
    assert s[0] == Quad(a, b, 0)[0] && s[1] == Quad(a, b, 0)[1] && s[2] == Quad(a, b, 0)[2];
    DecodeTail(s, a / 4, a % 4 * 16 + b / 16, b % 16 * 4 + 0 / 64, a, b);
  }

  lemma DecodeTail(s: string, d0: nat, d1: nat, d2: nat, a: Byte, b: Byte)
    requires |s| == 4 && DigitValue(s[0]) == Some(d0) && DigitValue(s[1]) == Some(d1) && HighByte(d0, d1) == a
    ensures s[2..] == "==" ==> FromBase64(s) == Some([a])
    ensures DigitValue(s[2]) == Some(d2) && MiddleByte(d1, d2) == b && s[3..] == "=" ==> FromBase64(s) == Some([a, b])
  {
    PadIsNoDigit();
    hide DigitValue, HighByte, MiddleByte, LowByte;
    assert s[2..][0] == s[2];
  }

  /** A full group decodes to its three bytes, and leaves what follows it. */
  lemma GroupRoundTrip(a: Byte, b: Byte, c: Byte, rest: string)
    ensures FromBase64(rest).Some? ==> FromBase64(Quad(a, b, c) + rest) == Some([a, b, c] + FromBase64(rest).value)
  {
    GroupArithmetic(a, b, c);
    var s := Quad(a, b, c) + rest;
    assert s[4..] == rest;
    hide Quad, HighByte, MiddleByte, LowByte;
    DecodeGroup(s, a / 4, a % 4 * 16 + b / 16, b % 16 * 4 + c / 64, c % 64, a, b, c);
  }

  lemma DecodeGroup(s: string, d0: nat, d1: nat, d2: nat, d3: nat, a: Byte, b: Byte, c: Byte)
    requires |s| >= 4 && DigitValue(s[0]) == Some(d0) && DigitValue(s[1]) == Some(d1)
    requires DigitValue(s[2]) == Some(d2) && DigitValue(s[3]) == Some(d3)
    requires HighByte(d0, d1) == a && MiddleByte(d1, d2) == b && LowByte(d2, d3) == c
    ensures FromBase64(s[4..]).Some? ==> FromBase64(s) == Some([a, b, c] + FromBase64(s[4..]).value)
  {
    PadIsNoDigit();
    hide DigitValue, HighByte, MiddleByte, LowByte;
    assert s[2..][0] == s[2] && s[3..][0] == s[3];
  }

  lemma {:induction false} Base64Alphabet(bytes: seq<Byte>)
    ensures forall c :: c in Base64(bytes) ==> DigitValue(c).Some? || c == '='
  {
    if |bytes| >= 3 {
      Base64Alphabet(bytes[3..]);
    }
  }

  /** UTF-8 of one character, and the number of bytes of its UTF-16 form. */
  function Utf8(c: char): seq<Byte> {
    var n := c as int;
    if n < 0x80 then [n]
    else if n < 0x800 then [0xC0 + n / 64, 0x80 + n % 64]
    else if n < 0x10000 then [0xE0 + n / 4096, 0x80 + n / 64 % 64, 0x80 + n % 64]
    else [0xF0 + n / 262144 % 8, 0x80 + n / 4096 % 64, 0x80 + n / 64 % 64, 0x80 + n % 64]
  }

  function Utf8Text(s: string): seq<Byte> {
    if s == [] then [] else Utf8(s[0]) + Utf8Text(s[1..])
  }

  /** UTF-8 keeps the code point: the bits beside the marks of section 3 of RFC 3629 make it up. One byte or two, ... */
  lemma ShortCodePoint(c: char)
    requires c as int < 0x800
    ensures var n, u := c as int, Utf8(c);
      if n < 0x80 then |u| == 1 && u[0] == n
      else |u| == 2 && u[0] / 32 == 6 && u[1] / 64 == 2 && Bits([u[0] % 32, u[1] % 64]) == n
  {
    hide Bits;
    var n := c as int;
    TwoGroups(n / 64, n % 64);
    SixBits(n);
    if n >= 0x80 {
      Marked(0xC0, 32, n / 64);
      Marked(0x80, 64, n % 64);
    }
  }

  /** ... three, ... */
  lemma MiddleCodePoint(c: char)
    requires 0x800 <= c as int < 0x10000
    ensures var n, u := c as int, Utf8(c);
      && |u| == 3 && u[0] / 16 == 14 && u[1] / 64 == 2 && u[2] / 64 == 2
      && Bits([u[0] % 16, u[1] % 64, u[2] % 64]) == n
  {
    hide Bits;
    var n := c as int;
    SixBits(n);
    SixBits(n / 64);
    ThreeGroups(n / 4096, n / 64 % 64, n % 64);
    Marked(0xE0, 16, n / 4096);
    Marked(0x80, 64, n / 64 % 64);
    Marked(0x80, 64, n % 64);
  }

  /** ... or four. */
  lemma LongCodePoint(c: char)
    requires 0x10000 <= c as int
    ensures var n, u := c as int, Utf8(c);
      && |u| == 4 && u[0] / 8 == 30 && u[1] / 64 == 2 && u[2] / 64 == 2 && u[3] / 64 == 2
      && Bits([u[0] % 8, u[1] % 64, u[2] % 64, u[3] % 64]) == n
  {
    hide Bits;
    var n := c as int;
    SixBits(n);
    SixBits(n / 64);
    SixBits(n / 4096);
    FourGroups(n / 262144 % 8, n / 4096 % 64, n / 64 % 64, n % 64);
    Marked(0xF0, 8, n / 262144 % 8);
    Marked(0x80, 64, n / 4096 % 64);
    Marked(0x80, 64, n / 64 % 64);
    Marked(0x80, 64, n % 64);
  }

  lemma SixBits(n: nat)
    ensures n == n / 64 * 64 + n % 64
    ensures n / 64 / 64 == n / 4096 && n / 4096 / 64 == n / 262144
  {
  }

  lemma Marked(mark: nat, size: nat, bits: nat)
    requires (mark, size) in {(0x80, 64), (0xC0, 32), (0xE0, 16), (0xF0, 8)} && bits < size
    ensures (mark + bits) % size == bits && (mark + bits) / size == mark / size
  {
  }

  lemma TwoGroups(a: nat, b: nat)
    ensures Bits([a, b]) == a * 64 + b
  {
    BitsNext([a], b);
    assert [a] + [b] == [a, b];
  }

  lemma ThreeGroups(a: nat, b: nat, c: nat)
    ensures Bits([a, b, c]) == (a * 64 + b) * 64 + c
  {
    TwoGroups(a, b);
    BitsNext([a, b], c);
    assert [a, b] + [c] == [a, b, c];
  }

  lemma FourGroups(a: nat, b: nat, c: nat, d: nat)
    ensures Bits([a, b, c, d]) == ((a * 64 + b) * 64 + c) * 64 + d
  {
    ThreeGroups(a, b, c);
    BitsNext([a, b, c], d);
    assert [a, b, c] + [d] == [a, b, c, d];
  }

  /** Groups of six bits, the first one on top. */
  function Bits(groups: seq<nat>): nat {
    if groups == [] then 0 else Bits(groups[..|groups| - 1]) * 64 + groups[|groups| - 1]
  }

  lemma BitsNext(groups: seq<nat>, last: nat)
    ensures Bits(groups + [last]) == Bits(groups) * 64 + last
    ensures |groups| == 1 ==> Bits(groups) == groups[0]
  {
    assert (groups + [last])[..|groups|] == groups;
  }

  /** UTF-16 of one character, low byte first. */
  function Utf16(c: char): seq<Byte> {
    var n := c as int;
    if n < 0x10000 then [n % 256, n / 256]
    else
      var high, low := 0xD800 + (n - 0x10000) / 1024, 0xDC00 + (n - 0x10000) % 1024;
      [high % 256, high / 256, low % 256, low / 256]
  }

  function Utf16Text(s: string): seq<Byte> {
    if s == [] then [] else Utf16(s[0]) + Utf16Text(s[1..])
  }

  /** The length of the command line argument `run_ps` makes of a script: UTF-16, then base64. */
  function EncodedLength(script: string): nat { |Base64(Utf16Text(script))| }

  predicate Ascii(s: string) { forall i :: 0 <= i < |s| ==> s[i] as int < 128 }

  lemma {:induction false} AsciiSize(s: string)
    requires Ascii(s)
    ensures |Utf16Text(s)| == 2 * |s|
  {
    if s != [] {
      AsciiSize(s[1..]);
    }
  }

  // ---------------------------------------------------------------- commands

  datatype Command = Direct(script: string) | First(chunk: string) | Append(chunk: string) | Runner

  function Concat(parts: seq<string>): string {
    if parts == [] then [] else parts[0] + Concat(parts[1..])
  }

  /** The PowerShell text of a command, in pieces. */
  function Pieces(command: Command, token: string): seq<string> {
    match command
    case Direct(script) => [script]
    case First(chunk) => [
      "$ErrorActionPreference='Stop'; ", "$p=Join-Path $env:TEMP 'atd-", token, ".b64'; ",
      "Set-Content -LiteralPath $p -Value '", chunk, "' -Encoding Ascii"]
    case Append(chunk) => [
      "$ErrorActionPreference='Stop'; ", "$p=Join-Path $env:TEMP 'atd-", token, ".b64'; ",
      "Add-Content -LiteralPath $p -Value '", chunk, "' -Encoding Ascii"]
    case Runner => [
      "$ErrorActionPreference = 'Stop'\n", "$b64p = Join-Path $env:TEMP 'atd-", token, ".b64'\n",
      "$ps1 = Join-Path $env:TEMP 'atd-", token, ".ps1'\n", "try {\n",
      "  $text = [Text.Encoding]::UTF8", ".GetString(", "[Convert]::FromBase64String(",
      "(Get-Content -LiteralPath $b64p -Raw)))\n", "  [IO.File]::WriteAllText($ps1, $text)\n", "  & $ps1\n",
      "} finally {\n", "  Remove-Item -LiteralPath $b64p,$ps1", " -Force -ErrorAction SilentlyContinue\n", "}"]
  }

  function Text(command: Command, token: string): string { Concat(Pieces(command, token)) }

  lemma DirectText(script: string, token: string)
    ensures Text(Direct(script), token) == script
  {
    assert [script][1..] == [] && script + [] == script;
    assert Concat([script]) == script + Concat([]);
  }

  /** What a staging command says: the first one sets the content of the file, every later one adds to it. */
  lemma StagingTexts(chunk: string, token: string)
    ensures var opening := "$ErrorActionPreference='Stop'; " + ("$p=Join-Path $env:TEMP 'atd-" + (token + ".b64'; "));
      && Text(First(chunk), token) ==
         opening + ("Set-Content -LiteralPath $p -Value '" + (chunk + "' -Encoding Ascii"))
      && Text(Append(chunk), token) ==
         opening + ("Add-Content -LiteralPath $p -Value '" + (chunk + "' -Encoding Ascii"))
  {
    SevenPieces(Pieces(First(chunk), token));
    SevenPieces(Pieces(Append(chunk), token));
  }

  lemma SevenPieces(parts: seq<string>)
    requires |parts| == 7
    ensures Concat(parts) ==
      parts[0] + (parts[1] + (parts[2] + parts[3])) + (parts[4] + (parts[5] + parts[6]))
  {
    var first, last := parts[..4], parts[4..];
    assert parts == first + last;
    ConcatJoin(first, last);
    Pieces4(first);
    Pieces3(last);
  }

  lemma Pieces3(parts: seq<string>)
    requires |parts| == 3
    ensures Concat(parts) == parts[0] + (parts[1] + parts[2])
  {
    var two, one := parts[1..], parts[2..];
    assert two[1..] == one && one[1..] == [];
    assert Concat(one) == one[0] + [] == one[0];
    assert Concat(two) == two[0] + Concat(one);
    assert Concat(parts) == parts[0] + Concat(two);
  }

  lemma Pieces4(parts: seq<string>)
    requires |parts| == 4
    ensures Concat(parts) == parts[0] + (parts[1] + (parts[2] + parts[3]))
  {
    Pieces3(parts[1..]);
    assert Concat(parts) == parts[0] + Concat(parts[1..]);
  }

  predicate ShortPiece(piece: string) { Ascii(piece) && |piece| <= 40 }

  lemma ShortStagingPieces()
    ensures ShortPiece("$ErrorActionPreference='Stop'; ") && ShortPiece("$p=Join-Path $env:TEMP 'atd-") &&
      ShortPiece(".b64'; ")
  {
  }

  lemma ShortContentPieces()
    ensures ShortPiece("Set-Content -LiteralPath $p -Value '") && ShortPiece("Add-Content -LiteralPath $p -Value '")
    ensures ShortPiece("' -Encoding Ascii")
  {
  }

  lemma ShortPathPieces()
    ensures ShortPiece("$ErrorActionPreference = 'Stop'\n") && ShortPiece("$b64p = Join-Path $env:TEMP 'atd-")
    ensures ShortPiece(".b64'\n") && ShortPiece("$ps1 = Join-Path $env:TEMP 'atd-") && ShortPiece(".ps1'\n")
  {
  }

  lemma ShortDecodePieces()
    ensures ShortPiece("try {\n") && ShortPiece("  $text = [Text.Encoding]::UTF8") && ShortPiece(".GetString(")
  {
  }

  lemma ShortConvertPieces()
    ensures ShortPiece("[Convert]::FromBase64String(") && ShortPiece("(Get-Content -LiteralPath $b64p -Raw)))\n")
  {
  }

  lemma ShortRunPieces()
    ensures ShortPiece("  [IO.File]::WriteAllText($ps1, $text)\n") && ShortPiece("  & $ps1\n") &&
      ShortPiece("} finally {\n")
  {
  }

  lemma ShortRemovePieces()
    ensures ShortPiece("  Remove-Item -LiteralPath $b64p,$ps1") &&
      ShortPiece(" -Force -ErrorAction SilentlyContinue\n") && ShortPiece("}")
  {
  }

  lemma {:induction false} ShortText(parts: seq<string>)
    requires forall i :: 0 <= i < |parts| ==> ShortPiece(parts[i])
    ensures Ascii(Concat(parts)) && |Concat(parts)| <= 40 * |parts|
  {
    if parts != [] {
      ShortText(parts[1..]);
    }
  }

  lemma {:induction false} ConcatJoin(a: seq<string>, b: seq<string>)
    ensures Concat(a + b) == Concat(a) + Concat(b)
  {
    if a == [] {
      assert a + b == b;
    } else {
      assert (a + b)[1..] == a[1..] + b;
      ConcatJoin(a[1..], b);
    }
  }

  lemma StagingFitsText(before: seq<string>, chunk: string, after: string)
    requires |before| == 5 && (forall i :: 0 <= i < |before| ==> ShortPiece(before[i])) && ShortPiece(after)
    requires |chunk| <= CHUNK_SIZE && Ascii(chunk)
    ensures Ascii(Concat(before + [chunk, after])) && |Concat(before + [chunk, after])| <= 6 * 40 + CHUNK_SIZE
  {
    hide ShortPiece;
    ShortText(before);
    ConcatJoin(before, [chunk, after]);
    assert Concat([chunk, after]) == chunk + after by {
      assert [chunk, after][1..] == [after] && [after][1..] == [];
      assert Concat([after]) == after + [] == after;
    }
    assert ShortPiece(after);
    AsciiJoin(chunk, after);
    AsciiJoin(Concat(before), chunk + after);
  }

  lemma AsciiJoin(a: string, b: string)
    requires Ascii(a) && (Ascii(b) || ShortPiece(b))
    ensures Ascii(a + b) && (ShortPiece(b) ==> |b| <= 40)
  {
  }

  /** Every staging command fits the command line. */
  lemma CommandFits(command: Command, token: string)
    requires |token| == 32 && Ascii(token) && !command.Direct?
    requires !command.Runner? ==> |command.chunk| <= CHUNK_SIZE && Ascii(command.chunk)
    ensures EncodedLength(Text(command, token)) <= SOFT_LIMIT
  {
    assert ShortPiece(token);
    hide ShortPiece, Concat, Ascii, Utf16Text, Base64, Pieces;
    if command.Runner? {
      RunnerFits(token);
    } else {
      StagingCommandFits(command, token);
    }
    AsciiSize(Text(command, token));
  }

  lemma RunnerFits(token: string)
    requires ShortPiece(token)
    ensures Ascii(Text(Runner, token)) && |Text(Runner, token)| <= 40 * 18
  {
    hide ShortPiece, Concat, Ascii;
    ShortPathPieces();
    ShortDecodePieces();
    ShortConvertPieces();
    ShortRunPieces();
    ShortRemovePieces();
    ShortText(Pieces(Runner, token));
  }

  lemma StagingCommandFits(command: Command, token: string)
    requires ShortPiece(token) && (command.First? || command.Append?)
    requires |command.chunk| <= CHUNK_SIZE && Ascii(command.chunk)
    ensures Ascii(Text(command, token)) && |Text(command, token)| <= 6 * 40 + CHUNK_SIZE
  {
    hide ShortPiece, Concat, Ascii;
    var pieces := Pieces(command, token);
    ShortStagingPieces();
    ShortContentPieces();
    assert pieces == pieces[..5] + [command.chunk, pieces[6]];
    StagingFitsText(pieces[..5], command.chunk, pieces[6]);
  }

  // ---------------------------------------------------------------- chunks

  /** `payload_b64[i : i + 1800]` for each multiple of 1800. */
  function Chunks(payload: string): (chunks: seq<string>)
    ensures forall i :: 0 <= i < |chunks| ==> 0 < |chunks[i]| <= CHUNK_SIZE
  {
    if payload == [] then []
    else if |payload| <= CHUNK_SIZE then [payload]
    else [payload[..CHUNK_SIZE]] + Chunks(payload[CHUNK_SIZE..])
  }

  lemma {:induction false} ChunksConcat(payload: string)
    ensures Concat(Chunks(payload)) == payload
  {
    if |payload| > CHUNK_SIZE {
      ChunksConcat(payload[CHUNK_SIZE..]);
      assert payload == payload[..CHUNK_SIZE] + payload[CHUNK_SIZE..];
    } else if payload != [] {
      assert [payload][1..] == [];
    }
  }

  lemma {:induction false} ChunkAlphabet(payload: string, i: nat)
    requires i < |Chunks(payload)|
    ensures forall c :: c in Chunks(payload)[i] ==> c in payload
  {
    if |payload| > CHUNK_SIZE && i > 0 {
      ChunkAlphabet(payload[CHUNK_SIZE..], i - 1);
    }
  }

  /** The chunks as the code iterates over them: never none. */
  function Parts(payload: string): (parts: seq<string>)
    ensures parts != []
  {
    var chunks := Chunks(payload);
    if chunks == [] then [""] else chunks
  }

  /** The commands that stage and run a long script. */
  function Staging(script: string): (commands: seq<Command>)
    ensures commands != []
  {
    var parts := Parts(Base64(Utf8Text(script)));
    [First(parts[0])] + Appends(parts[1..]) + [Runner]
  }

  function Appends(chunks: seq<string>): (commands: seq<Command>)
    ensures |commands| == |chunks| && forall i :: 0 <= i < |chunks| ==> commands[i] == Append(chunks[i])
  {
    if chunks == [] then [] else [Append(chunks[0])] + Appends(chunks[1..])
  }

  // ---------------------------------------------------------------- the remote side

  predicate IsBlank(c: char) { c in {' ', '\t', '\r', '\n'} }

  /** `FromBase64String` skips white space. */
  function WithoutBlanks(s: string): string {
    if s == [] then [] else (if IsBlank(s[0]) then [] else [s[0]]) + WithoutBlanks(s[1..])
  }

  /** The staging file after the given commands: each one writes its chunk and a line end. */
  function FileAfter(commands: seq<Command>): string {
    if commands == [] then []
    else
      var last := commands[|commands| - 1];
      if last.First? then last.chunk + "\r\n"
      else if last.Append? then FileAfter(commands[..|commands| - 1]) + last.chunk + "\r\n"
      else FileAfter(commands[..|commands| - 1])
  }

  /** The bytes the runner decodes and executes. */
  function Executed(commands: seq<Command>): Option<seq<Byte>> {
    FromBase64(WithoutBlanks(FileAfter(commands)))
  }

  lemma {:induction false} WithoutBlanksJoin(a: string, b: string)
    ensures WithoutBlanks(a + b) == WithoutBlanks(a) + WithoutBlanks(b)
  {
    if a == [] {
      assert a + b == b;
    } else {
      assert (a + b)[1..] == a[1..] + b;
      WithoutBlanksJoin(a[1..], b);
    }
  }

  lemma {:induction false} NoBlanks(s: string)
    requires forall c :: c in s ==> !IsBlank(c)
    ensures WithoutBlanks(s) == s
  {
    if s != [] {
      assert s[0] in s;
      NoBlanks(s[1..]);
    }
  }

  lemma LineOfChunk(s: string, chunk: string)
    requires forall c :: c in chunk ==> !IsBlank(c)
    ensures WithoutBlanks(s + chunk + "\r\n") == WithoutBlanks(s) + chunk
  {
    WithoutBlanksJoin(s + chunk, "\r\n");
    WithoutBlanksJoin(s, chunk);
    NoBlanks(chunk);
    assert WithoutBlanks("\r\n") == [] by {
      assert "\r\n"[1..] == "\n" && "\n"[1..] == "";
    }
  }

  lemma {:induction false} ConcatSnoc(parts: seq<string>, part: string)
    ensures Concat(parts + [part]) == Concat(parts) + part
  {
    if parts == [] {
      assert parts + [part] == [part] && [part][1..] == [];
    } else {
      assert (parts + [part])[1..] == parts[1..] + [part];
      ConcatSnoc(parts[1..], part);
    }
  }

  lemma {:induction false} FileOfChunks(chunks: seq<string>, n: nat)
    requires 1 <= n <= |chunks| && forall i, c :: 0 <= i < |chunks| && c in chunks[i] ==> !IsBlank(c)
    ensures WithoutBlanks(FileAfter([First(chunks[0])] + Appends(chunks[1..])[..n - 1])) == Concat(chunks[..n])
  {
    hide WithoutBlanks, IsBlank;
    var commands := [First(chunks[0])] + Appends(chunks[1..])[..n - 1];
    assert chunks[..n] == chunks[..n - 1] + [chunks[n - 1]];
    ConcatSnoc(chunks[..n - 1], chunks[n - 1]);
    if n == 1 {
      assert commands == [First(chunks[0])] && chunks[..0] == [];
      LineOfChunk([], chunks[0]);
      assert [] + chunks[0] == chunks[0];
      NoBlanks([]);
    } else {
      FileOfChunks(chunks, n - 1);
      assert commands[..n - 1] == [First(chunks[0])] + Appends(chunks[1..])[..n - 2];
      assert commands[n - 1] == Append(chunks[n - 1]);
      LineOfChunk(FileAfter(commands[..n - 1]), chunks[n - 1]);
    }
  }

  lemma AlphabetIsPlain(c: char)
    requires DigitValue(c).Some? || c == '='
    ensures !IsBlank(c) && c as int < 128 && c != '\''
  {
  }

  lemma PartsConcat(payload: string)
    ensures Concat(Parts(payload)) == payload
  {
    ChunksConcat(payload);
    if Chunks(payload) == [] {
      assert [""][1..] == [] && "" + "" == "";
    }
  }

  lemma PartsArePlain(bytes: seq<Byte>, i: nat, c: char)
    requires i < |Parts(Base64(bytes))| && c in Parts(Base64(bytes))[i]
    ensures !IsBlank(c) && c as int < 128 && c != '\''
  {
    hide Base64;
    ChunkAlphabet(Base64(bytes), i);
    Base64Alphabet(bytes);
    AlphabetIsPlain(c);
  }

  /** A staged script of any length runs with exactly the bytes of the original. */
  lemma StagedScriptRuns(script: string)
    ensures Executed(Staging(script)) == Some(Utf8Text(script))
  {
    hide FileAfter, WithoutBlanks, FromBase64, Base64, IsBlank, Utf8Text, Parts, Concat, Appends;
    var bytes := Utf8Text(script);
    var parts := Parts(Base64(bytes));
    PartsConcat(Base64(bytes));
    forall i, c | 0 <= i < |parts| && c in parts[i] ensures !IsBlank(c) {
      PartsArePlain(bytes, i, c);
    }
    FileOfChunks(parts, |parts|);
    assert Appends(parts[1..])[..|parts| - 1] == Appends(parts[1..]) && parts[..|parts|] == parts;
    RunnerKeepsFile([First(parts[0])] + Appends(parts[1..]));
    Base64RoundTrip(bytes);
  }

  lemma RunnerKeepsFile(staged: seq<Command>)
    ensures FileAfter(staged + [Runner]) == FileAfter(staged)
  {
    assert (staged + [Runner])[..|staged|] == staged;
  }

  lemma StagingShape(script: string, parts: seq<string>)
    requires parts == Parts(Base64(Utf8Text(script)))
    ensures var all := Staging(script);
      && |all| == |parts| + 1 && all[0] == First(parts[0]) && all[|parts|] == Runner
      && forall i :: 1 <= i < |parts| ==> all[i] == Append(parts[i])
  {
    hide Parts, Base64, Utf8Text, Appends;
  }

  lemma PartsAreShort(payload: string, i: nat)
    requires i < |Parts(payload)|
    ensures |Parts(payload)[i]| <= CHUNK_SIZE
  {
    hide Chunks;
  }

  /** No staging command is too long, whatever the script. */
  lemma StagingFits(script: string, token: string, i: nat)
    requires |token| == 32 && Ascii(token) && i < |Staging(script)|
    ensures EncodedLength(Text(Staging(script)[i], token)) <= SOFT_LIMIT
    ensures !Staging(script)[i].Direct?
    ensures !Staging(script)[i].Runner? ==> '\'' !in Staging(script)[i].chunk
  {
    hide Parts, Base64, Utf8Text, Text, EncodedLength;
    var bytes := Utf8Text(script);
    var parts := Parts(Base64(bytes));
    var command := Staging(script)[i];
    if !command.Runner? {
      var k :| 0 <= k < |parts| && command.chunk == parts[k];
      PartsAreShort(Base64(bytes), k);
      forall c | c in command.chunk ensures c as int < 128 && c != '\'' {
        PartsArePlain(bytes, k, c);
      }
      assert forall k :: 0 <= k < |command.chunk| ==> command.chunk[k] in command.chunk;
    }
    CommandFits(command, token);
  }

  // ---------------------------------------------------------------- _run_ps_payload

  /** A WinRM session: every command sent, with the status the target answered. */
  class Session {
    ghost var sent: seq<Command>
    ghost var statuses: seq<int>

    constructor ()
      ensures sent == [] && statuses == []
    {
      sent, statuses := [], [];
    }

    /** `run_ps`: the command runs remotely and may fail there. */
    method RunPs(command: Command, token: string) returns (status: int)
      requires |Base64(Utf16Text(Text(command, token)))| <= 6000
      modifies this
      ensures sent == old(sent) + [command] && statuses == old(statuses) + [status]
    {
      status := *;
      sent, statuses := sent + [command], statuses + [status];
    }

    /** `_run_ps_payload`. The limit on every command sent is RunPs's precondition; a staging step that
        fails ends the run with its status, and only a complete staging reaches the runner. */
    method RunPsPayload(script: string, token: string) returns (status: int)
      requires |token| == 32 && Ascii(token) && sent == [] && statuses == []
      modifies this
      ensures statuses != [] && |sent| == |statuses| && status == statuses[|statuses| - 1]
      ensures |Base64(Utf16Text(script))| <= 6000 ==> sent == [Direct(script)]
      ensures |Base64(Utf16Text(script))| > 6000 ==>
        (sent <= Staging(script) && (|sent| < |Staging(script)| ==> status != 0)
        && forall i :: 0 <= i < |statuses| - 1 ==> statuses[i] == 0)
      ensures |Base64(Utf16Text(script))| > 6000 && sent == Staging(script) ==> Executed(sent) == Some(Utf8Text(script))
    {
      hide Executed, Base64, Utf8Text, Utf16Text, Chunks, Text, Staging, Appends, Concat;
      if EncodedLength(script) <= SOFT_LIMIT {
        DirectText(script, token);
        status := RunPs(Direct(script), token);
        return;
      }
      var chunks := Chunks(Base64(Utf8Text(script)));
      if chunks == [] {
        chunks := [""];
      }
      assert chunks == Parts(Base64(Utf8Text(script)));
      StagedScriptRuns(script);
      ghost var all := Staging(script);
      StagingShape(script, chunks);
      StagingFits(script, token, 0);
      status := RunPs(First(chunks[0]), token);
      if status != 0 {
        return;
      }
      for i := 1 to |chunks|
        invariant sent == all[..i] && |statuses| == i && status == statuses[i - 1] == 0
        invariant forall k :: 0 <= k < i ==> statuses[k] == 0
      {
        assert all[i] == Append(chunks[i]);
        StagingFits(script, token, i);
        status := RunPs(Append(chunks[i]), token);
        assert all[..i + 1] == all[..i] + [all[i]];
        if status != 0 {
          return;
        }
      }
      StagingFits(script, token, |chunks|);
      assert all == all[..|chunks|] + [all[|chunks|]];
      status := RunPs(Runner, token);
    }
  }
}

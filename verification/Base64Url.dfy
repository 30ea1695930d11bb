/** Bytes as text: base64 with the URL-safe alphabet of section 5 of RFC 4648, without padding. */
module Base64Url {
  import opened Options

  type Byte = b: int | 0 <= b < 256

  type Sextet = n: int | 0 <= n < 64

  // ----- btoa and atob -----

  function CharOf(n: Sextet): char {
    if n < 26 then ('A' as int + n) as char
    else if n < 52 then ('a' as int + n - 26) as char
    else if n < 62 then ('0' as int + n - 52) as char
    else if n == 62 then '+'
    else '/'
  }

  function SextetOf(c: char): Option<Sextet> {
    if 'A' <= c <= 'Z' then Some(c as int - 'A' as int)
    else if 'a' <= c <= 'z' then Some(c as int - 'a' as int + 26)
    else if '0' <= c <= '9' then Some(c as int - '0' as int + 52)
    else if c == '+' then Some(62)
    else if c == '/' then Some(63)
    else None
  }

  /** The digits of a byte sequence, six bits each, most significant first. */
  function Digits(b: seq<Byte>): string {
    if b == [] then []
    else if |b| == 1 then [CharOf(b[0] / 4), CharOf(b[0] % 4 * 16)]
    else if |b| == 2 then [CharOf(b[0] / 4), CharOf(b[0] % 4 * 16 + b[1] / 16), CharOf(b[1] % 16 * 4)]
    else
      [CharOf(b[0] / 4), CharOf(b[0] % 4 * 16 + b[1] / 16), CharOf(b[1] % 16 * 4 + b[2] / 64), CharOf(b[2] % 64)]
      + Digits(b[3..])
  }

  function Padding(n: nat): string {
    if n % 3 == 1 then "==" else if n % 3 == 2 then "=" else ""
  }

  predicate IsBinary(s: string) {
    forall i :: 0 <= i < |s| ==> s[i] as int < 256
  }

  function Codes(s: string): seq<Byte>
    requires IsBinary(s)
  {
    seq(|s|, i requires 0 <= i < |s| => s[i] as int)
  }

  function Chars(b: seq<Byte>): (s: string)
    ensures IsBinary(s)
  {
    seq(|b|, i requires 0 <= i < |b| => b[i] as char)
  }

  /** `btoa`, which throws on a character beyond U+00FF. */
  function Btoa(binary: string): Option<string> {
    if IsBinary(binary) then Some(Digits(Codes(binary)) + Padding(|binary|)) else None
  }

  function Undigits(s: string): Option<seq<Byte>> {
    if s == [] then Some([])
    else if |s| == 1 then None
    else
      var p, q := SextetOf(s[0]), SextetOf(s[1]);
      if p.None? || q.None? then None
      else
        var first := p.value * 4 + q.value / 16;
        if |s| == 2 then Some([first])
        else
          var r := SextetOf(s[2]);
          if r.None? then None
          else
            var second := q.value % 16 * 16 + r.value / 4;
            if |s| == 3 then Some([first, second])
            else
              var t := SextetOf(s[3]);
              var rest := Undigits(s[4..]);
              if t.None? || rest.None? then None
              else Some([first, second, r.value % 4 * 64 + t.value] + rest.value)
  }

  predicate IsSpace(c: char) {
    c == '\t' || c == '\n' || c as int == 12 || c == '\r' || c == ' '
  }

  function Unspaced(s: string): string {
    if s == [] then [] else (if IsSpace(s[0]) then [] else [s[0]]) + Unspaced(s[1..])
  }

  /** One or two final padding characters, when they complete a group of four. */
  function Unpadded(s: string): string {
    if s == [] || |s| % 4 != 0 || s[|s| - 1] != '=' then s
    else if s[|s| - 2] == '=' then s[..|s| - 2]
    else s[..|s| - 1]
  }

  /** `atob`, the forgiving decoder of browsers; None where it throws. */
  function Atob(s: string): Option<string> {
    match Undigits(Unpadded(Unspaced(s)))
    case None => None
    case Some(b) => Some(Chars(b))
  }

  // ----- the URL-safe form -----

  function ToUrl(s: string): string {
    seq(|s|, i requires 0 <= i < |s| => if s[i] == '+' then '-' else if s[i] == '/' then '_' else s[i])
  }

  function FromUrl(s: string): string {
    seq(|s|, i requires 0 <= i < |s| => if s[i] == '-' then '+' else if s[i] == '_' then '/' else s[i])
  }

  /** `replace(/=+$/, "")` */
  function Stripped(s: string): string {
    if s == [] || s[|s| - 1] != '=' then s else Stripped(s[..|s| - 1])
  }

  /** `padEnd` with the padding character, to a multiple of four. */
  function PadEnd(s: string): string {
    s + seq((4 - |s| % 4) % 4, _ => '=')
  }

  function Encode(b: seq<Byte>): string {
    Stripped(ToUrl(Digits(b) + Padding(|b|)))
  }

  function Decode(value: string): Option<seq<Byte>> {
    match Atob(PadEnd(FromUrl(value)))
    case None => None
    case Some(binary) => if IsBinary(binary) then Some(Codes(binary)) else None
  }

  method BytesToBase64Url(bytes: seq<Byte>) returns (text: string)
    ensures text == Encode(bytes)
  {
    var binary := "";
    for i := 0 to |bytes|
      invariant binary == Chars(bytes[..i])
    {
      binary := binary + [bytes[i] as char];
    }
    assert bytes[..|bytes|] == bytes && Codes(binary) == bytes;
    text := Stripped(ToUrl(Btoa(binary).value));
  }

  /** `failed` stands for the exception of atob. */
  method Base64UrlToBytes(value: string) returns (failed: bool, bytes: array<Byte>)
    ensures failed <==> Decode(value).None?
    ensures !failed ==> bytes[..] == Decode(value).value
  {
    var decoded := Atob(PadEnd(FromUrl(value)));
    if decoded.None? {
      bytes := new Byte[0];
      return true, bytes;
    }
    var binary := decoded.value;
    AtobIsBinary(PadEnd(FromUrl(value)));
    bytes := new Byte[|binary|](_ => 0);
    for i := 0 to |binary|
      invariant bytes[..i] == Codes(binary)[..i]
    {
      bytes[i] := binary[i] as int;
    }
    assert bytes[..] == bytes[..|binary|] && Codes(binary)[..|binary|] == Codes(binary);
    failed := false;
  }

  lemma AtobIsBinary(s: string)
    ensures Atob(s).Some? ==> IsBinary(Atob(s).value)
  {}

  // ----- the round trip -----

  lemma SextetRoundTrip(n: Sextet)
    ensures SextetOf(CharOf(n)) == Some(n)
  {}

  /** Six-bit groups give their bytes back. */
  lemma Regroup(x: Byte, y: Byte, z: Byte)
    ensures x / 4 * 4 + (x % 4 * 16 + y / 16) / 16 == x
    ensures (x % 4 * 16 + y / 16) % 16 * 16 + (y % 16 * 4 + z / 64) / 4 == y
    ensures (y % 16 * 4 + z / 64) % 4 * 64 + z % 64 == z
  {
    assert (x % 4 * 16 + y / 16) / 16 == x % 4 && (x % 4 * 16 + y / 16) % 16 == y / 16;
    assert (y % 16 * 4 + z / 64) / 4 == y % 16 && (y % 16 * 4 + z / 64) % 4 == z / 64;
  }

  lemma GroupReads(x: Byte, y: Byte, z: Byte, rest: string, bytes: seq<Byte>)
    requires Undigits(rest) == Some(bytes)
    ensures Undigits([CharOf(x / 4), CharOf(x % 4 * 16 + y / 16), CharOf(y % 16 * 4 + z / 64), CharOf(z % 64)] + rest)
            == Some([x, y, z] + bytes)
  {
    var s := [CharOf(x / 4), CharOf(x % 4 * 16 + y / 16), CharOf(y % 16 * 4 + z / 64), CharOf(z % 64)] + rest;
    assert s[4..] == rest;
    Regroup(x, y, z);
    SextetRoundTrip(x / 4);
    SextetRoundTrip(x % 4 * 16 + y / 16);
    SextetRoundTrip(y % 16 * 4 + z / 64);
    SextetRoundTrip(z % 64);
  }

  lemma EndReads(x: Byte, y: Byte)
    ensures Undigits([CharOf(x / 4), CharOf(x % 4 * 16)]) == Some([x])
    ensures Undigits([CharOf(x / 4), CharOf(x % 4 * 16 + y / 16), CharOf(y % 16 * 4)]) == Some([x, y])
  {
    Regroup(x, 0, 0);
    Regroup(x, y, 0);
    SextetRoundTrip(x / 4);
    SextetRoundTrip(x % 4 * 16);
    SextetRoundTrip(x % 4 * 16 + y / 16);
    SextetRoundTrip(y % 16 * 4);
  }

  lemma {:induction false} DigitsRoundTrip(b: seq<Byte>)
    ensures Undigits(Digits(b)) == Some(b)
  {
    if |b| == 1 {
      EndReads(b[0], 0);
      assert b == [b[0]];
    } else if |b| == 2 {
      EndReads(b[0], b[1]);
      assert b == [b[0], b[1]];
    } else if |b| > 2 {
      DigitsRoundTrip(b[3..]);
      GroupReads(b[0], b[1], b[2], Digits(b[3..]), b[3..]);
      assert b == [b[0], b[1], b[2]] + b[3..];
    }
  }

  predicate IsDigit(c: char) {
    SextetOf(c).Some?
  }

  lemma {:induction false} DigitsAreDigits(b: seq<Byte>)
    ensures forall c :: c in Digits(b) ==> IsDigit(c)
  {
    forall n: Sextet { SextetRoundTrip(n); }
    if |b| > 2 { DigitsAreDigits(b[3..]); }
  }

  lemma {:induction false} DigitsLength(b: seq<Byte>)
    ensures |Digits(b)| == (4 * |b| + 2) / 3
  {
    if |b| > 2 { DigitsLength(b[3..]); }
  }

  /** Padding completes the last group of four. */
  lemma {:induction false} PaddingLength(b: seq<Byte>)
    ensures |Padding(|b|)| == (4 - |Digits(b)| % 4) % 4
  {
    if |b| > 2 {
      PaddingLength(b[3..]);
      assert |Digits(b)| == 4 + |Digits(b[3..])|;
      assert |b| % 3 == (|b| - 3) % 3;
    }
  }

  lemma StripEnd(s: string, n: nat)
    requires s == [] || s[|s| - 1] != '='
    ensures Stripped(s + seq(n, _ => '=')) == s
  {
    var pad := seq(n, _ => '=');
    if n == 0 {
      assert s + pad == s;
    } else {
      assert (s + pad)[..|s| + n - 1] == s + seq(n - 1, _ => '=');
      StripEnd(s, n - 1);
    }
  }

  predicate IsUrlSafe(c: char) {
    'A' <= c <= 'Z' || 'a' <= c <= 'z' || '0' <= c <= '9' || c == '-' || c == '_'
  }

  lemma EncodeDigits(b: seq<Byte>)
    ensures Encode(b) == ToUrl(Digits(b))
  {
    DigitsAreDigits(b);
    var n, digits := |Padding(|b|)|, Digits(b);
    assert Padding(|b|) == seq(n, _ => '=');
    assert ToUrl(digits + Padding(|b|)) == ToUrl(digits) + seq(n, _ => '=');
    if digits != [] { assert digits[|digits| - 1] in digits; }
    StripEnd(ToUrl(digits), n);
  }

  /** Only the URL-safe alphabet, no padding, and the shortest length. */
  lemma EncodeLaw(b: seq<Byte>)
    ensures |Encode(b)| == (4 * |b| + 2) / 3
    ensures forall i :: 0 <= i < |Encode(b)| ==> IsUrlSafe(Encode(b)[i])
  {
    EncodeDigits(b);
    DigitsAreDigits(b);
    DigitsLength(b);
    forall i | 0 <= i < |Digits(b)|
      ensures IsUrlSafe(ToUrl(Digits(b))[i])
    {
      assert Digits(b)[i] in Digits(b);
    }
  }

  lemma {:induction false} NoSpaces(s: string)
    requires forall i :: 0 <= i < |s| ==> IsDigit(s[i]) || s[i] == '='
    ensures Unspaced(s) == s
  {
    if s != [] { NoSpaces(s[1..]); }
  }

  lemma UnpadsText(digits: string, pad: string)
    requires '=' !in digits && |digits + pad| % 4 == 0
    requires pad == "" || (digits != [] && (pad == "=" || pad == "=="))
    ensures Unpadded(digits + pad) == digits
  {
    var s := digits + pad;
    assert s[..|digits|] == digits;
    if digits != [] { assert s[|digits| - 1] == digits[|digits| - 1] && digits[|digits| - 1] in digits; }
  }

  lemma UrlRoundTrip(digits: string)
    requires forall c :: c in digits ==> IsDigit(c)
    ensures FromUrl(ToUrl(digits)) == digits
  {
    forall i | 0 <= i < |digits| ensures FromUrl(ToUrl(digits))[i] == digits[i] { assert digits[i] in digits; }
  }

  lemma PadLength(n: nat)
    ensures (n + (4 - n % 4) % 4) % 4 == 0
  {}

  lemma PadEndDigits(b: seq<Byte>)
    ensures PadEnd(Digits(b)) == Digits(b) + Padding(|b|) && |PadEnd(Digits(b))| % 4 == 0
  {
    var digits := Digits(b);
    var pad := seq((4 - |digits| % 4) % 4, _ => '=');
    assert Padding(|b|) == pad by { PaddingLength(b); }
    PadLength(|digits|);
    assert |digits + pad| == |digits| + (4 - |digits| % 4) % 4;
  }

  lemma DigitsAreClean(b: seq<Byte>)
    ensures '=' !in Digits(b)
    ensures forall i :: 0 <= i < |Digits(b) + Padding(|b|)| ==>
              var c := (Digits(b) + Padding(|b|))[i]; IsDigit(c) || c == '='
  {
    DigitsAreDigits(b);
    forall i | 0 <= i < |Digits(b)| ensures IsDigit(Digits(b)[i]) { assert Digits(b)[i] in Digits(b); }
  }

  lemma AtobDigits(b: seq<Byte>)
    ensures Atob(PadEnd(Digits(b))) == Some(Chars(b))
  {
    var digits, pad := Digits(b), Padding(|b|);
    PadEndDigits(b);
    DigitsAreClean(b);
    NoSpaces(digits + pad);
    UnpadsText(digits, pad);
    DigitsRoundTrip(b);
  }

  /** Decoding what was encoded gives the bytes back, for every byte sequence. */
  lemma RoundTrip(b: seq<Byte>)
    ensures Decode(Encode(b)) == Some(b)
  {
    EncodeDigits(b);
    DigitsAreDigits(b);
    UrlRoundTrip(Digits(b));
    AtobDigits(b);
    assert Codes(Chars(b)) == b;
  }

  // ----- the digits themselves, and which texts can be read -----

  /** Table 2 of RFC 4648. */
  const UPPER := "ABCDEFGHIJKLMNOPQRSTUVWXYZ"
  const LOWER := "abcdefghijklmnopqrstuvwxyz"
  const NUMERALS := "0123456789"
  const URL_ALPHABET := UPPER + LOWER + NUMERALS + "-_"

  function ByteAt(b: seq<Byte>, i: nat): Byte {
    if i < |b| then b[i] else 0
  }

  /** The `k`-th six-bit group: three bytes make 24 bits, zeros follow the last byte. */
  function SixBits(b: seq<Byte>, k: nat): int {
    var g := k / 4 * 3;
    var bits := ByteAt(b, g) * 65536 + ByteAt(b, g + 1) * 256 + ByteAt(b, g + 2);
    if k % 4 == 0 then bits / 262144 else if k % 4 == 1 then bits / 4096 % 64 else if k % 4 == 2 then bits / 64 % 64 else bits % 64
  }

  lemma Cut64(q: int, r: int)
    requires 0 <= r < 64
    ensures (q * 64 + r) / 64 == q && (q * 64 + r) % 64 == r
  {}

  lemma Cut4096(q: int, r: int)
    requires 0 <= r < 4096
    ensures (q * 4096 + r) / 4096 == q
  {}

  lemma Cut262144(q: int, r: int)
    requires 0 <= r < 262144
    ensures (q * 262144 + r) / 262144 == q
  {}

  lemma SplitBits(x: Byte, y: Byte, z: Byte)
    ensures var bits := x * 65536 + y * 256 + z;
            && bits / 262144 == x / 4 && bits / 4096 % 64 == x % 4 * 16 + y / 16
            && bits / 64 % 64 == y % 16 * 4 + z / 64 && bits % 64 == z % 64
  {
    var bits := x * 65536 + y * 256 + z;
    var d0, d1, d2, d3 := x / 4, x % 4 * 16 + y / 16, y % 16 * 4 + z / 64, z % 64;
    assert bits == d0 * 262144 + d1 * 4096 + d2 * 64 + d3;
    Cut64(d0 * 4096 + d1 * 64 + d2, d3);
    Cut64(d0 * 64 + d1, d2);
    Cut4096(d0 * 64 + d1, d2 * 64 + d3);
    Cut64(d0, d1);
    Cut262144(d0, d1 * 4096 + d2 * 64 + d3);
  }

  lemma LaterBits(b: seq<Byte>, k: nat)
    requires |b| > 2 && k >= 4
    ensures SixBits(b, k) == SixBits(b[3..], k - 4)
  {
    assert (k - 4) / 4 * 3 + 3 == k / 4 * 3;
  }

  /** The digits of the first group, with zeros for the bytes that are missing. */
  lemma FirstDigits(b: seq<Byte>, k: nat)
    requires k < 4 && k < |Digits(b)|
    ensures var x, y, z := ByteAt(b, 0), ByteAt(b, 1), ByteAt(b, 2);
            Digits(b)[k] == CharOf(if k == 0 then x / 4 else if k == 1 then x % 4 * 16 + y / 16
                                   else if k == 2 then y % 16 * 4 + z / 64 else z % 64)
  {}

  lemma FirstBits(b: seq<Byte>, k: nat)
    requires k < 4 && k < |Digits(b)|
    ensures 0 <= SixBits(b, k) < 64 && Digits(b)[k] == CharOf(SixBits(b, k))
  {
    FirstDigits(b, k);
    SplitBits(ByteAt(b, 0), ByteAt(b, 1), ByteAt(b, 2));
    assert k / 4 * 3 == 0 && k % 4 == k;
  }

  lemma {:induction false} DigitsAreBits(b: seq<Byte>, k: nat)
    requires k < |Digits(b)|
    ensures 0 <= SixBits(b, k) < 64 && Digits(b)[k] == CharOf(SixBits(b, k))
    decreases |b|
  {
    if k < 4 {
      FirstBits(b, k);
    } else {
      DigitsAreBits(b[3..], k - 4);
      LaterBits(b, k);
    }
  }

  lemma Uppers()
    ensures |UPPER| == 26 && forall n :: 0 <= n < 26 ==> UPPER[n] == ('A' as int + n) as char
  {}

  lemma Lowers()
    ensures |LOWER| == 26 && forall n :: 0 <= n < 26 ==> LOWER[n] == ('a' as int + n) as char
  {}

  lemma Numerals()
    ensures |NUMERALS| == 10 && forall n :: 0 <= n < 10 ==> NUMERALS[n] == ('0' as int + n) as char
  {}

  lemma UrlDigit(n: Sextet)
    ensures |URL_ALPHABET| == 64
    ensures (if CharOf(n) == '+' then '-' else if CharOf(n) == '/' then '_' else CharOf(n)) == URL_ALPHABET[n]
  {
    Uppers();
    Lowers();
    Numerals();
    assert n < 26 ==> URL_ALPHABET[n] == UPPER[n];
    assert 26 <= n < 52 ==> URL_ALPHABET[n] == LOWER[n - 26];
    assert 52 <= n < 62 ==> URL_ALPHABET[n] == NUMERALS[n - 52];
  }

  /** Each character stands for the next six bits, by the table. */
  lemma EncodesBits(b: seq<Byte>, k: nat)
    requires k < |Encode(b)|
    ensures 0 <= SixBits(b, k) < 64 && Encode(b)[k] == URL_ALPHABET[SixBits(b, k)]
  {
    EncodeDigits(b);
    DigitsAreBits(b, k);
    UrlDigit(SixBits(b, k));
  }

  lemma {:induction false} UndigitsExactly(s: string)
    ensures Undigits(s).Some? <==> |s| % 4 != 1 && forall i :: 0 <= i < |s| ==> IsDigit(s[i])
    decreases |s|
  {
    if |s| >= 4 {
      UndigitsExactly(s[4..]);
      assert s == [s[0], s[1], s[2], s[3]] + s[4..];
    }
  }

  lemma PaddedReads(digits: string, pad: string)
    requires forall i :: 0 <= i < |digits| ==> IsDigit(digits[i])
    requires |digits + pad| % 4 == 0 && |pad| < 4 && (|digits| % 4 == 1 <==> |pad| == 3)
    requires forall i :: 0 <= i < |pad| ==> pad[i] == '='
    ensures Undigits(Unpadded(digits + pad)).Some? <==> |digits| % 4 != 1
  {
    if |pad| == 3 {
      assert (digits + pad)[|digits| + 2] == '=' && (digits + pad)[|digits| + 1] == '=';
      assert Unpadded(digits + pad)[|digits|] == '=';
      UndigitsExactly(Unpadded(digits + pad));
    } else {
      assert pad == if |pad| == 0 then "" else if |pad| == 1 then "=" else "==";
      UnpadsText(digits, pad);
      UndigitsExactly(digits);
    }
  }

  lemma UrlIsDigits(value: string)
    requires forall i :: 0 <= i < |value| ==> IsUrlSafe(value[i])
    ensures forall i :: 0 <= i < |value| ==> IsDigit(FromUrl(value)[i])
  {}

  lemma DecodeReads(value: string)
    ensures Decode(value).Some? <==> Undigits(Unpadded(Unspaced(PadEnd(FromUrl(value))))).Some?
  {
    AtobIsBinary(PadEnd(FromUrl(value)));
  }

  lemma PadEndIs(digits: string) returns (pad: string)
    ensures PadEnd(digits) == digits + pad && |digits + pad| % 4 == 0 && |pad| < 4
    ensures |digits| % 4 == 1 <==> |pad| == 3
    ensures forall i :: 0 <= i < |pad| ==> pad[i] == '='
  {
    pad := seq((4 - |digits| % 4) % 4, _ => '=');
    PadLength(|digits|);
  }

  /** A text in the URL-safe alphabet can be read exactly when its length leaves no lone last character. */
  lemma DecodesExactly(value: string)
    requires forall i :: 0 <= i < |value| ==> IsUrlSafe(value[i])
    ensures Decode(value).Some? <==> |value| % 4 != 1
  {
    DecodeReads(value);
    UrlIsDigits(value);
    CleanReads(FromUrl(value));
  }

  lemma CleanReads(digits: string)
    requires forall i :: 0 <= i < |digits| ==> IsDigit(digits[i])
    ensures Undigits(Unpadded(Unspaced(PadEnd(digits)))).Some? <==> |digits| % 4 != 1
  {
    var pad := PadEndIs(digits);
    var padded := digits + pad;
    assert PadEnd(digits) == padded;
    assert Unspaced(padded) == padded by { NoSpaces(padded); }
    PaddedReads(digits, pad);
  }

  lemma {:induction false} UnspacedKeeps(s: string, c: char)
    requires c in s && !IsSpace(c)
    ensures c in Unspaced(s)
  {
    if s[0] != c {
      assert s == [s[0]] + s[1..];
      UnspacedKeeps(s[1..], c);
    }
  }

  lemma UnpaddedKeeps(s: string, c: char)
    requires c in s && c != '='
    ensures c in Unpadded(s)
  {
    var i :| 0 <= i < |s| && s[i] == c;
    assert i < |Unpadded(s)| && Unpadded(s)[i] == c;
  }

  /** A text with any other character, but for padding and white space, cannot be read. */
  lemma StrayCharacterFails(value: string, c: char)
    requires c in value && !IsUrlSafe(c) && c != '+' && c != '/' && c != '=' && !IsSpace(c)
    ensures Decode(value).None?
  {
    var i :| 0 <= i < |value| && value[i] == c;
    var pad := PadEndIs(FromUrl(value));
    assert (FromUrl(value) + pad)[i] == c;
    UnspacedKeeps(PadEnd(FromUrl(value)), c);
    UnpaddedKeeps(Unspaced(PadEnd(FromUrl(value))), c);
    var s := Unpadded(Unspaced(PadEnd(FromUrl(value))));
    var k :| 0 <= k < |s| && s[k] == c;
    assert !IsDigit(s[k]);
    UndigitsExactly(s);
    DecodeReads(value);
  }
}

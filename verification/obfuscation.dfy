/** The password obfuscation that the registration screen and both login screens apply
    before sending a password (the three copies of `encryptPassword` use the same key and
    the same steps): every UTF-16 code unit is XOR-ed with the code unit of the key
    `cmpc2024` at the same position modulo the key's length, and the result is given to
    `btoa`, which is the base64 encoding of section 4 of RFC 4648 applied to a string whose
    code units are all at most 0xFF, and throws for any other string. This is obfuscation,
    not encryption. */
module Obfuscation {
  import opened Common

  /** The key `'cmpc2024'` as code units. */
  const Key: CodeUnits := [0x63, 0x6D, 0x70, 0x63, 0x32, 0x30, 0x32, 0x34]

  /** The XOR stage: each code unit combined with the cycled key. */
  function Xor(pw: CodeUnits): CodeUnits {
    seq(|pw|, i requires 0 <= i < |pw| => pw[i] ^ Key[i % |Key|])
  }

  /** The XOR stage undoes itself. */
  lemma XorInvolution(pw: CodeUnits)
    ensures Xor(Xor(pw)) == pw
  {
    var x := Xor(pw);
    forall i | 0 <= i < |pw|
      ensures Xor(x)[i] == pw[i]
    {
      assert Xor(x)[i] == (pw[i] ^ Key[i % |Key|]) ^ Key[i % |Key|];
    }
  }

  /** Every key unit is below 0x80, so the XOR stage leaves a code unit above 0xFF exactly
      where the password has one. */
  lemma XorKeepsWideUnits(pw: CodeUnits, i: int)
    requires 0 <= i < |pw|
    ensures Xor(pw)[i] > 0xFF <==> pw[i] > 0xFF
  {
    var k := Key[i % |Key|];
    assert k < 0x80;
    assert Xor(pw)[i] == pw[i] ^ k;
  }

  /** A byte, as `btoa` reads it from a code unit. */
  type Byte = b: int | 0 <= b < 256

  /** A six-bit value, as one base64 digit carries it. */
  type Sextet = v: int | 0 <= v < 64

  /** One base64 digit of the alphabet of RFC 4648 section 4. */
  function DigitChar(v: Sextet): char {
    if v < 26 then (65 + v) as char
    else if v < 52 then (97 + (v - 26)) as char
    else if v < 62 then (48 + (v - 52)) as char
    else if v == 62 then '+'
    else '/'
  }

  /** The six-bit value of a base64 digit, `None` for any other character. */
  function DigitValue(c: char): (r: Option<Sextet>)
    ensures r.Some? ==> DigitChar(r.value) == c
  {
    if 'A' <= c <= 'Z' then Some(c as int - 65)
    else if 'a' <= c <= 'z' then Some(c as int - 97 + 26)
    else if '0' <= c <= '9' then Some(c as int - 48 + 52)
    else if c == '+' then Some(62)
    else if c == '/' then Some(63)
    else None
  }

  /** The 64 digits are distinct and none of them is the padding character. */
  lemma DigitRoundTrip(v: Sextet)
    ensures DigitValue(DigitChar(v)) == Some(v)
    ensures DigitChar(v) != '='
  {
  }

  /** The four characters for one group of one to three bytes; a short group is padded
      with `=`. */
  function EncodeGroup(g: seq<Byte>): (q: string)
    requires 1 <= |g| <= 3
    ensures |q| == 4
  {
    var b0 := g[0];
    var b1 := if |g| > 1 then g[1] else 0;
    var b2 := if |g| > 2 then g[2] else 0;
    [DigitChar(b0 / 4), DigitChar(b0 % 4 * 16 + b1 / 16),
     if |g| > 1 then DigitChar(b1 % 16 * 4 + b2 / 64) else '=',
     if |g| > 2 then DigitChar(b2 % 64) else '=']
  }

  /** The bytes of one group of four characters; `None` when it is not base64. */
  function DecodeGroup(q: string): (r: Option<seq<Byte>>)
    requires |q| == 4
    ensures r.Some? ==> 1 <= |r.value| <= 3
  {
    var d0, d1 := DigitValue(q[0]), DigitValue(q[1]);
    if d0.None? || d1.None? then None
    else
      var c0, c1 := d0.value, d1.value;
      var b0 := c0 * 4 + c1 / 16;
      if q[2] == '=' && q[3] == '=' then Some([b0])
      else
        var d2 := DigitValue(q[2]);
        if d2.None? then None
        else
          var c2 := d2.value;
          var b1 := c1 % 16 * 16 + c2 / 4;
          if q[3] == '=' then Some([b0, b1])
          else
            var d3 := DigitValue(q[3]);
            if d3.None? then None
            else Some([b0, b1, c2 % 4 * 64 + d3.value])
  }

  /** A digit made of a high part `h` and a low part `l < 16` splits back into them. */
  lemma SplitBy16(h: int, l: int)
    requires 0 <= h && 0 <= l < 16
    ensures (h * 16 + l) / 16 == h && (h * 16 + l) % 16 == l
  {
  }

  /** A digit made of a high part `h` and a low part `l < 4` splits back into them. */
  lemma SplitBy4(h: int, l: int)
    requires 0 <= h && 0 <= l < 4
    ensures (h * 4 + l) / 4 == h && (h * 4 + l) % 4 == l
  {
  }

  lemma GroupRoundTrip(g: seq<Byte>)
    requires 1 <= |g| <= 3
    ensures DecodeGroup(EncodeGroup(g)) == Some(g)
  {
    var b0 := g[0];
    var b1 := if |g| > 1 then g[1] else 0;
    var b2 := if |g| > 2 then g[2] else 0;
    var c0, c1, c2, c3 := b0 / 4, b0 % 4 * 16 + b1 / 16, b1 % 16 * 4 + b2 / 64, b2 % 64;
    DigitRoundTrip(c0);
    DigitRoundTrip(c1);
    DigitRoundTrip(c2);
    DigitRoundTrip(c3);
    SplitBy16(b0 % 4, b1 / 16);
    SplitBy4(b1 % 16, b2 / 64);
    if |g| == 1 {
      assert g == [b0];
    } else if |g| == 2 {
      assert g == [b0, b1];
    } else {
      assert g == [b0, b1, b2];
    }
  }

  /** Base64 of a byte string (RFC 4648 section 4): each group of three bytes becomes four
      digits; a final group of one or two bytes is padded to four characters. */
  function Base64(bytes: seq<Byte>): (s: string)
    ensures |s| == 4 * ((|bytes| + 2) / 3)
    decreases |bytes|
  {
    if |bytes| == 0 then ""
    else if |bytes| <= 3 then EncodeGroup(bytes)
    else EncodeGroup(bytes[..3]) + Base64(bytes[3..])
  }

  /** Decoding base64 text back to bytes; `None` for text that is not base64. Padding may
      only end the text. */
  function Base64Decode(s: string): (r: Option<seq<Byte>>)
    decreases |s|
  {
    if |s| == 0 then Some([])
    else if |s| < 4 then None
    else
      match DecodeGroup(s[..4])
      case None => None
      case Some(g) =>
        if |g| < 3 then (if |s| == 4 then Some(g) else None)
        else
          match Base64Decode(s[4..])
          case None => None
          case Some(rest) => Some(g + rest)
  }

  /** Decoding undoes encoding. */
  lemma {:induction false} Base64RoundTrip(bytes: seq<Byte>)
    ensures Base64Decode(Base64(bytes)) == Some(bytes)
    decreases |bytes|
  {
    if |bytes| == 0 {
    } else if |bytes| <= 3 {
      GroupRoundTrip(bytes);
      var s := Base64(bytes);
      assert s == EncodeGroup(bytes);
      assert s[..4] == s;
      assert s[4..] == [];
      assert bytes + [] == bytes;
    } else {
      var s := Base64(bytes);
      GroupRoundTrip(bytes[..3]);
      assert s[..4] == EncodeGroup(bytes[..3]);
      assert s[4..] == Base64(bytes[3..]);
      Base64RoundTrip(bytes[3..]);
      assert bytes == bytes[..3] + bytes[3..];
    }
  }

  /** A string `btoa` accepts: every code unit fits in a byte. */
  predicate Latin1(s: CodeUnits) {
    forall i :: 0 <= i < |s| ==> s[i] <= 0xFF
  }

  /** The bytes of a Latin-1 string, one per code unit. */
  function ToBytes(s: CodeUnits): (b: seq<Byte>)
    requires Latin1(s)
    ensures |b| == |s|
    ensures forall i :: 0 <= i < |s| ==> b[i] == s[i] as int
  {
    if s == [] then [] else [s[0] as int] + ToBytes(s[1..])
  }

  /** A byte string read as code units. */
  function Widen(b: seq<Byte>): (s: CodeUnits)
    ensures |s| == |b| && Latin1(s)
    ensures forall i :: 0 <= i < |b| ==> s[i] as int == b[i]
  {
    if b == [] then [] else WidenUnit(b[0]); [b[0] as bv16] + Widen(b[1..])
  }

  lemma WidenUnit(x: Byte)
    ensures (x as bv16) as int == x && x as bv16 <= 0xFF
  {
  }

  /** `btoa(s)`: base64 of the bytes of a Latin-1 string; `None` stands for the
      `InvalidCharacterError` it throws for any other string. */
  function Btoa(s: CodeUnits): (r: Option<string>)
    ensures r.None? <==> !Latin1(s)
    ensures r.Some? ==> |r.value| == 4 * ((|s| + 2) / 3)
  {
    if Latin1(s) then Some(Base64(ToBytes(s))) else None
  }

  /** `encryptPassword(password)`: the loop builds the XOR stage one code unit at a time,
      then `btoa` encodes it. The result is `None` (the call throws) exactly when the
      password has a code unit above 0xFF; otherwise it is the base64 text of the XOR stage,
      of length 4 * ceil(n / 3), and the empty password gives the empty text. */
  method EncryptPassword(pw: CodeUnits) returns (r: Option<string>)
    ensures r == Btoa(Xor(pw))
    ensures r.None? <==> exists i :: 0 <= i < |pw| && pw[i] > 0xFF
    ensures r.Some? ==> |r.value| == 4 * ((|pw| + 2) / 3)
    ensures pw == [] ==> r == Some("")
  {
    var encrypted: CodeUnits := [];
    var i := 0;
    while i < |pw|
      invariant 0 <= i <= |pw|
      invariant |encrypted| == i
      invariant forall j :: 0 <= j < i ==> encrypted[j] == pw[j] ^ Key[j % |Key|]
    {
      encrypted := encrypted + [pw[i] ^ Key[i % |Key|]];
      i := i + 1;
    }
    assert encrypted == Xor(pw);
    forall j | 0 <= j < |pw|
      ensures encrypted[j] > 0xFF <==> pw[j] > 0xFF
    {
      XorKeepsWideUnits(pw, j);
    }
    r := Btoa(encrypted);
  }

  /** Reading an obfuscated password back: base64-decode, widen, and apply the XOR stage. */
  function Reveal(s: string): (r: Option<CodeUnits>)
    ensures r.Some? ==> Latin1(Xor(r.value))
  {
    match Base64Decode(s)
    case None => None
    case Some(bytes) =>
      var units := Widen(bytes);
      var pw := Xor(units);
      XorInvolution(units);
      Some(pw)
  }

  /** The obfuscation loses nothing: revealing the text of an accepted password gives the
      password back. */
  lemma RevealObfuscated(pw: CodeUnits)
    requires Btoa(Xor(pw)).Some?
    ensures Reveal(Btoa(Xor(pw)).value) == Some(pw)
  {
    var x := Xor(pw);
    var bytes := ToBytes(x);
    assert Btoa(x) == Some(Base64(bytes));
    Base64RoundTrip(bytes);
    WidenBytes(x);
    XorInvolution(pw);
    assert Reveal(Base64(bytes)) == Some(Xor(Widen(bytes)));
  }

  /** Widening the bytes of a Latin-1 string gives the string back. */
  lemma WidenBytes(s: CodeUnits)
    requires Latin1(s)
    ensures Widen(ToBytes(s)) == s
  {
    var w := Widen(ToBytes(s));
    forall i | 0 <= i < |s|
      ensures w[i] == s[i]
    {
      assert w[i] as int == s[i] as int;
    }
  }
}

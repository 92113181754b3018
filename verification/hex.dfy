// Hexadecimal strings: what the Rust core parses and prints and what the Go
// side prints and parses. A string is its UTF-8 code units, one `char` each.
module Hex {
  import opened Words
  import opened Bytes

  datatype Option<+T> = None | Some(value: T)

  // The outcomes of the Rust parsers; `Panicked` is the slice at a byte that
  // is not a character boundary.
  datatype Parsed = Parsed(bytes: seq<byte>) | BadLength(len: nat) | BadHex | Panicked

  function HexDigit(n: nat): char
    requires n < 16
  {
    "0123456789abcdef"[n]
  }

  // A hexadecimal digit in either case.
  function DigitValue(c: char): (v: Option<nat>)
    ensures v.Some? ==> v.value < 16
  {
    if '0' <= c <= '9' then Some(c as nat - '0' as nat)
    else if 'a' <= c <= 'f' then Some(c as nat - 'a' as nat + 10)
    else if 'A' <= c <= 'F' then Some(c as nat - 'A' as nat + 10)
    else None
  }

  function ToLower(c: char): char
  {
    if 'A' <= c <= 'Z' then (c as nat - 'A' as nat + 'a' as nat) as char else c
  }

  function Lower(s: string): (t: string)
    ensures |t| == |s|
  {
    seq(|s|, i requires 0 <= i < |s| => ToLower(s[i]))
  }

  // hex::encode and hex.EncodeToString
  function Encode(bs: seq<byte>): (s: string)
    ensures |s| == 2 * |bs|
  {
    if bs == [] then [] else [HexDigit(bs[0] / 16), HexDigit(bs[0] % 16)] + Encode(bs[1..])
  }

  // hex::decode_to_slice and hex.DecodeString
  function Decode(s: string): (r: Option<seq<byte>>)
    ensures r.Some? ==> |s| == 2 * |r.value|
  {
    if s == [] then Some([])
    else if |s| == 1 then None
    else
      var hi, lo, rest := DigitValue(s[0]), DigitValue(s[1]), Decode(s[2..]);
      if hi.Some? && lo.Some? && rest.Some? then Some([16 * hi.value + lo.value] + rest.value) else None
  }

  // str::trim_start_matches("0x"): every leading "0x" goes.
  function TrimStart(s: string): string
  {
    if "0x" <= s then TrimStart(s[2..]) else s
  }

  // strings.TrimPrefix(s, "0x"): at most one goes.
  function TrimPrefix(s: string): string
  {
    if "0x" <= s then s[2..] else s
  }

  function ParseHex32(s: string): Parsed
  {
    var t := TrimStart(s);
    if |t| != 64 then BadLength(|t|)
    else match Decode(t)
      case None => BadHex
      case Some(bs) => Parsed(bs)
  }

  // No character of the UTF-8 string is split at index i.
  predicate IsBoundary(s: string, i: nat)
    requires i <= |s|
  {
    i == |s| || !(0x80 <= s[i] as nat < 0xC0)
  }

  function ParsePrefix24(s: string): Parsed
  {
    var t := TrimStart(s);
    if |t| < 48 then BadLength(|t|)
    else if !IsBoundary(t, 48) then Panicked
    else match Decode(t[..48])
      case None => BadHex
      case Some(bs) => Parsed(bs)
  }

  // to_hex32, and the "0x" form of any byte string
  function ToHex(bs: seq<byte>): string { "0x" + Encode(bs) }

  /* Which strings parse */

  predicate AllHex(s: string) { forall i :: 0 <= i < |s| ==> DigitValue(s[i]).Some? }

  lemma {:induction false} DecodesExactly(s: string)
    ensures Decode(s).Some? <==> |s| % 2 == 0 && AllHex(s)
  {
    hide DigitValue;
    if |s| >= 2 {
      DecodesExactly(s[2..]);
      assert forall i :: 2 <= i < |s| ==> s[i] == s[2..][i - 2];
    }
  }

  function Repeated(n: nat): string { if n == 0 then [] else "0x" + Repeated(n - 1) }

  // TrimStart takes off as many "0x" as there are at the front and no more.
  lemma {:induction false} TrimStartExactly(s: string) returns (n: nat)
    ensures s == Repeated(n) + TrimStart(s) && !("0x" <= TrimStart(s))
  {
    if "0x" <= s {
      var k := TrimStartExactly(s[2..]);
      n := k + 1;
      assert s == "0x" + s[2..];
    } else {
      n := 0;
    }
  }

  // The text, its "0x" off, is the sixty-four hexadecimal digits of 32 bytes.
  predicate Digits32(s: string) { var t := TrimStart(s); |t| == 64 && AllHex(t) }

  // It has forty-eight or more characters that begin with the digits of 24
  // bytes, and whatever follows them does not split a character.
  predicate Digits24(s: string) { var t := TrimStart(s); |t| >= 48 && IsBoundary(t, 48) && AllHex(t[..48]) }

  // Its forty-eighth byte ends inside a character.
  predicate Splits24(s: string) { var t := TrimStart(s); |t| >= 48 && !IsBoundary(t, 48) }

  lemma ParsesExactly(s: string)
    ensures ParseHex32(s).Parsed? <==> Digits32(s)
    ensures ParsePrefix24(s).Parsed? <==> Digits24(s)
    ensures ParsePrefix24(s).Panicked? <==> Splits24(s)
  {
    hide Decode, AllHex, TrimStart;
    var t := TrimStart(s);
    if |t| == 64 { DecodesExactly(t); }
    if |t| >= 48 { DecodesExactly(t[..48]); }
  }

  // Forty-seven zeros and a two-byte character.
  function SplitPrefix(): string { seq(47, _ => '0') + [0xC3 as char, 0xA9 as char] }

  lemma SplitPrefixSplits() ensures Splits24(SplitPrefix())
  {
    var s := SplitPrefix();
    assert s[1] == '0' && s[48] == 0xA9 as char;
    assert s[1] != "0x"[1];
  }

  // A whole character after the forty-eighth byte does no harm.
  lemma SuffixAccepted() ensures Digits24(seq(48, _ => '0') + [0xC3 as char, 0xA9 as char])
  {
    var s := seq(48, _ => '0') + [0xC3 as char, 0xA9 as char];
    assert s[1] == '0' && s[1] != "0x"[1];
    assert TrimStart(s) == s && s[48] == 0xC3 as char;
    assert forall i :: 0 <= i < 48 ==> s[..48][i] == '0';
  }

  /* Round trips */

  lemma DigitRoundTrip(n: nat)
    requires n < 16
    ensures DigitValue(HexDigit(n)) == Some(n) && ToLower(HexDigit(n)) == HexDigit(n) && HexDigit(n) != 'x'
  {
  }

  lemma DigitCanonical(c: char)
    requires DigitValue(c).Some?
    ensures HexDigit(DigitValue(c).value) == ToLower(c)
  {
  }

  lemma DecodeStep(s: string)
    requires |s| >= 2 && DigitValue(s[0]).Some? && DigitValue(s[1]).Some? && Decode(s[2..]).Some?
    ensures Decode(s) == Some([16 * DigitValue(s[0]).value + DigitValue(s[1]).value] + Decode(s[2..]).value)
  {
  }

  lemma {:induction false} DecodeEncode(bs: seq<byte>) ensures Decode(Encode(bs)) == Some(bs)
  {
    if bs != [] {
      hide HexDigit, DigitValue, Decode;
      DigitRoundTrip(bs[0] / 16); DigitRoundTrip(bs[0] % 16);
      DecodeEncode(bs[1..]);
      assert Encode(bs)[2..] == Encode(bs[1..]);
      DecodeStep(Encode(bs));
      assert [bs[0]] + bs[1..] == bs;
    }
  }

  lemma EncodeStep(b: byte, bs: seq<byte>)
    ensures Encode([b] + bs) == [HexDigit(b / 16), HexDigit(b % 16)] + Encode(bs)
  {
    hide HexDigit;
    assert ([b] + bs)[1..] == bs;
  }

  lemma DecodeParts(s: string)
    requires s != [] && Decode(s).Some?
    ensures |s| >= 2 && DigitValue(s[0]).Some? && DigitValue(s[1]).Some? && Decode(s[2..]).Some?
    ensures Decode(s).value == [16 * DigitValue(s[0]).value + DigitValue(s[1]).value] + Decode(s[2..]).value
  {
    hide DigitValue;
  }

  lemma Nibbles(hi: nat, lo: nat)
    requires hi < 16 && lo < 16
    ensures (16 * hi + lo) / 16 == hi && (16 * hi + lo) % 16 == lo
  {
  }

  lemma LowerStep(s: string)
    requires |s| >= 2
    ensures Lower(s) == [ToLower(s[0]), ToLower(s[1])] + Lower(s[2..])
  {
    hide ToLower;
  }

  // Decoding forgets the case of the digits and nothing else.
  lemma {:induction false} EncodeDecode(s: string)
    requires Decode(s).Some?
    ensures Encode(Decode(s).value) == Lower(s)
  {
    if s != [] {
      DecodeParts(s);
      hide HexDigit, DigitValue, ToLower, Encode, Lower, Decode;
      var hi, lo := DigitValue(s[0]).value, DigitValue(s[1]).value;
      DigitCanonical(s[0]); DigitCanonical(s[1]);
      EncodeDecode(s[2..]);
      Nibbles(hi, lo);
      EncodeStep(16 * hi + lo, Decode(s[2..]).value);
      LowerStep(s);
    }
  }

  lemma TrimPrinted(bs: seq<byte>)
    ensures TrimStart(ToHex(bs)) == Encode(bs) == TrimPrefix(ToHex(bs))
  {
    var s := Encode(bs);
    assert ToHex(bs)[2..] == s;
    if "0x" <= s {
      assert s[1] == "0x"[1];
      DigitRoundTrip(bs[0] % 16);
    }
  }

  // Stripping every "0x" never eats payload: parsing undoes printing.
  lemma ParsePrinted32(bs: seq<byte>)
    requires |bs| == 32
    ensures ParseHex32(ToHex(bs)) == Parsed(bs)
  {
    hide Encode, Decode, TrimStart;
    TrimPrinted(bs);
    DecodeEncode(bs);
  }

  lemma ParsePrinted24(bs: seq<byte>)
    requires |bs| == 24
    ensures ParsePrefix24(ToHex(bs)) == Parsed(bs)
  {
    hide Encode, Decode, TrimStart;
    TrimPrinted(bs);
    DecodeEncode(bs);
    assert Encode(bs)[..48] == Encode(bs);
  }

  lemma HexDigitIs(n: nat)
    requires n < 16
    ensures HexDigit(n) as int == if n < 10 then '0' as int + n else 'a' as int + n - 10
  {
  }

  // Byte k prints as its high digit and then its low one, in lower case.
  lemma {:induction false} EncodeAt(bs: seq<byte>, k: nat)
    requires k < |bs|
    ensures var hi, lo := bs[k] / 16, bs[k] % 16;
            && Encode(bs)[2 * k] as int == (if hi < 10 then '0' as int + hi else 'a' as int + hi - 10)
            && Encode(bs)[2 * k + 1] as int == (if lo < 10 then '0' as int + lo else 'a' as int + lo - 10)
    decreases k
  {
    hide HexDigit;
    if k == 0 {
      HexDigitIs(bs[0] / 16); HexDigitIs(bs[0] % 16);
    } else {
      EncodeAt(bs[1..], k - 1);
      assert Encode(bs)[2..] == Encode(bs[1..]);
      assert Encode(bs)[2 * k] == Encode(bs)[2..][2 * (k - 1)] && Encode(bs)[2 * k + 1] == Encode(bs)[2..][2 * (k - 1) + 1];
    }
  }

  lemma PrintedInjective(a: seq<byte>, b: seq<byte>)
    requires ToHex(a) == ToHex(b)
    ensures a == b
  {
    hide Encode, Decode;
    assert ToHex(a)[2..] == Encode(a) && ToHex(b)[2..] == Encode(b);
    DecodeEncode(a); DecodeEncode(b);
  }

  // The strings the 32-byte parser takes to bs: any number of "0x", then the
  // sixty-four digits of bs in either case.
  lemma ParseExactly(s: string, bs: seq<byte>)
    ensures ParseHex32(s) == Parsed(bs) <==> |bs| == 32 && Lower(TrimStart(s)) == Encode(bs)
  {
    hide Encode, Decode, Lower;
    var t := TrimStart(s);
    if ParseHex32(s) == Parsed(bs) {
      EncodeDecode(t);
    } else if |bs| == 32 && Lower(t) == Encode(bs) {
      DecodeEncode(bs);
      LowerDecodes(t);
      assert false;
    }
  }

  // The strings the prefix parser takes to bs: any number of "0x", then the
  // forty-eight digits of bs in either case, then anything that does not begin
  // inside a character.
  lemma ParsePrefixExactly(s: string, bs: seq<byte>)
    ensures ParsePrefix24(s) == Parsed(bs) <==>
            |bs| == 24 && var t := TrimStart(s); |t| >= 48 && IsBoundary(t, 48) && Lower(t[..48]) == Encode(bs)
  {
    hide Encode, Decode, Lower, TrimStart;
    var t := TrimStart(s);
    if |t| >= 48 && IsBoundary(t, 48) {
      var d := t[..48];
      if ParsePrefix24(s) == Parsed(bs) {
        EncodeDecode(d);
      } else if |bs| == 24 && Lower(d) == Encode(bs) {
        DecodeEncode(bs);
        LowerDecodes(d);
        assert false;
      }
    }
  }

  lemma {:induction false} LowerDecodes(s: string) ensures Decode(Lower(s)) == Decode(s)
  {
    if |s| >= 2 {
      LowerDecodes(s[2..]);
      assert Lower(s)[2..] == Lower(s[2..]);
      assert DigitValue(ToLower(s[0])) == DigitValue(s[0]) && DigitValue(ToLower(s[1])) == DigitValue(s[1]);
    }
  }

  /* The Go side */

  // big.Int.Bytes: the minimal big-endian bytes of |v|.
  function MinimalBytes(v: nat): seq<byte>
  {
    if v == 0 then [] else MinimalBytes(v / 256) + [v % 256]
  }

  function Abs(v: int): nat { if v < 0 then -v else v }

  // difficultyToHex32; a nil difficulty prints as zero.
  function DifficultyBytes(v: Option<int>): (bs: seq<byte>)
    ensures |bs| == 32
  {
    match v
    case None => seq(32, _ => 0)
    case Some(v) =>
      var b := MinimalBytes(Abs(v));
      var b := if |b| > 32 then b[|b| - 32..] else b;
      seq(32 - |b|, _ => 0) + b
  }

  function DifficultyToHex32(v: Option<int>): string { ToHex(DifficultyBytes(v)) }

  // The nonce onFound decodes, if it accepts the string.
  function GoNonce(s: string): (r: Option<seq<byte>>)
    ensures r.Some? ==> |r.value| == 32
  {
    var t := TrimPrefix(s);
    if |t| != 64 then None else Decode(t)
  }

  lemma GoReadsPrinted(bs: seq<byte>)
    requires |bs| == 32
    ensures GoNonce(ToHex(bs)) == Some(bs)
  {
    hide Encode, Decode;
    TrimPrinted(bs);
    DecodeEncode(bs);
  }

  // A second "0x" is stripped by the core and refused by Go.
  lemma DoublePrefix(bs: seq<byte>)
    requires |bs| == 32
    ensures ParseHex32("0x" + ToHex(bs)) == Parsed(bs) && GoNonce("0x" + ToHex(bs)) == None
  {
    hide Encode, Decode;
    var s := "0x" + ToHex(bs);
    assert s[2..] == ToHex(bs);
    assert TrimStart(s) == TrimStart(ToHex(bs));
    ParsePrinted32(bs);
    TrimPrinted(bs);
  }

  lemma {:induction false} MinimalValue(v: nat) ensures Value(MinimalBytes(v)) == v
  {
    if v > 0 {
      MinimalValue(v / 256);
      ValueSnoc(MinimalBytes(v / 256), v % 256);
    }
  }

  lemma {:induction false} ZerosValue(n: nat, bs: seq<byte>)
    ensures Value(seq(n, _ => 0) + bs) == Value(bs)
  {
    var zeros: seq<byte> := seq(n, _ => 0);
    if bs == [] {
      assert zeros + bs == zeros;
      if n > 0 {
        ZerosValue(n - 1, []);
        assert zeros[..n - 1] == seq(n - 1, _ => 0) + [];
      }
    } else {
      var k := |bs| - 1;
      ZerosValue(n, bs[..k]);
      assert (zeros + bs)[..n + k] == zeros + bs[..k];
    }
  }

  const TWO256: nat := 0x1_0000000000000000_0000000000000000_0000000000000000_0000000000000000

  lemma Pow256Of32() ensures Pow256(32) == TWO256
  {
    Pow256Of8();
    Pow256Plus(8, 8); Pow256Plus(16, 16);
  }

  lemma {:induction false} Pow256Plus(a: nat, b: nat) ensures Pow256(a + b) == Pow256(a) * Pow256(b)
  {
    if a > 0 {
      Pow256Plus(a - 1, b);
      assert 256 * (Pow256(a - 1) * Pow256(b)) == Pow256(a) * Pow256(b);
    }
  }

  lemma SuffixValue(bs: seq<byte>)
    requires |bs| > 32
    ensures Value(bs[|bs| - 32..]) == Value(bs) % TWO256
  {
    var a, b := bs[..|bs| - 32], bs[|bs| - 32..];
    assert bs == a + b;
    ValueConcat(a, b);
    ValueBound(b);
    Pow256Of32();
    hide Value, Pow256;
    ModUnique(Value(bs), TWO256, Value(a), Value(b));
  }

  lemma DifficultyValue(n: nat)
    ensures Value(DifficultyBytes(Some(n))) == n % TWO256
  {
    hide Value, MinimalBytes, Pow256;
    var b := MinimalBytes(n);
    MinimalValue(n);
    if |b| > 32 {
      SuffixValue(b);
      ZerosValue(0, b[|b| - 32..]);
    } else {
      ZerosValue(32 - |b|, b);
      ValueBound(b);
      Pow256Of32();
      Pow256Monotone(|b|, 32);
    }
  }

  // What the core reads back from the printed difficulty is the magnitude of
  // the big integer modulo 2^256.
  lemma DifficultyRoundTrip(v: Option<int>)
    ensures ParseHex32(DifficultyToHex32(v)) == Parsed(DifficultyBytes(v))
    ensures Value(DifficultyBytes(v)) == if v.None? then 0 else Abs(v.value) % TWO256
  {
    ParsePrinted32(DifficultyBytes(v));
    if v.None? {
      ZerosValue(32, []);
      assert DifficultyBytes(v) == seq(32, _ => 0) + [];
    } else {
      hide Value, MinimalBytes;
      DifficultyValue(Abs(v.value));
      assert DifficultyBytes(v) == DifficultyBytes(Some(Abs(v.value)));
    }
  }

  lemma {:induction false} Pow256Monotone(a: nat, b: nat)
    requires a <= b
    ensures Pow256(a) <= Pow256(b)
  {
    if a < b { Pow256Monotone(a, b - 1); }
  }
}

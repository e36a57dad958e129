/**
  The URL-safe base64 alphabet of section 5 of RFC 4648 without padding
  (section 3.2), as Go's `base64.RawURLEncoding` implements it: the encoder
  never emits `=`; the decoder skips `\r` and `\n`, rejects any other character
  outside the alphabet (so `=` too) and a final group of one symbol, and, not
  being in strict mode, ignores the unused low bits of a final group of two or
  three symbols.
*/
module Base64Url {
  import opened Wrappers
  import opened Text

  type sextet = v: int | 0 <= v < 64

  datatype DecodeError = CorruptInput

  /** The value of an alphabet symbol, or None for a character outside the alphabet. */
  function Value(c: char): Option<sextet>
  {
    if 'A' <= c <= 'Z' then Some(c as int - 'A' as int)
    else if 'a' <= c <= 'z' then Some(c as int - 'a' as int + 26)
    else if '0' <= c <= '9' then Some(c as int - '0' as int + 52)
    else if c == '-' then Some(62)
    else if c == '_' then Some(63)
    else None
  }

  predicate IsSymbol(c: char) { Value(c).Some? }

  /** The symbol for a six-bit value; `Value` is its inverse. */
  function Symbol(v: sextet): (c: char)
    ensures Value(c) == Some(v)
    ensures c as int < 128
  {
    if v < 26 then ('A' as int + v) as char
    else if v < 52 then ('a' as int + v - 26) as char
    else if v < 62 then ('0' as int + v - 52) as char
    else if v == 62 then '-'
    else '_'
  }

  /** The symbols of one to three bytes: 24 bits cut into four sextets, of which 2, 3 or 4 are written. */
  function Quantum(b: seq<byte>): (s: string)
    requires 1 <= |b| <= 3
    ensures |s| == |b| + 1
  {
    var x := Sextets(b[0], if |b| > 1 then b[1] else 0, if |b| > 2 then b[2] else 0);
    [Symbol(x[0]), Symbol(x[1]), Symbol(x[2]), Symbol(x[3])][..|b| + 1]
  }

  /** `RawURLEncoding.EncodeToString`. */
  function Encode(b: seq<byte>): (s: string)
    ensures |s| == (4 * |b| + 2) / 3
    ensures forall i :: 0 <= i < |s| ==> IsSymbol(s[i])
    decreases |b|
  {
    if |b| == 0 then ""
    else if |b| <= 3 then Quantum(b)
    else Quantum(b[..3]) + Encode(b[3..])
  }

  /** The decoder's first pass: carriage returns and line feeds are skipped. */
  function StripNewlines(s: string): (t: string)
    ensures |t| <= |s|
    ensures forall i :: 0 <= i < |t| ==> t[i] != '\n' && t[i] != '\r'
    ensures forall c :: c != '\n' && c != '\r' ==> (c in t <==> c in s)
    ensures multiset(t) == multiset(s)['\n' := 0]['\r' := 0]
  {
    if |s| == 0 then ""
    else if s[0] == '\n' || s[0] == '\r' then
      assert s == [s[0]] + s[1..];
      StripNewlines(s[1..])
    else
      assert s == [s[0]] + s[1..];
      [s[0]] + StripNewlines(s[1..])
  }

  /** Bytes of a group of two to four symbols, whose values are `v`. */
  function Bytes(v: seq<sextet>): (b: seq<byte>)
    requires 2 <= |v| <= 4
    ensures |b| == |v| - 1
  {
    var v0, v1 := v[0] as int, v[1] as int;
    var v2 := if |v| > 2 then v[2] as int else 0;
    var v3 := if |v| > 3 then v[3] as int else 0;
    var b0: byte := v0 * 4 + v1 / 16;
    if |v| == 2 then [b0]
    else
      var b1: byte := (v1 % 16) * 16 + v2 / 4;
      var b2: byte := (v2 % 4) * 64 + v3;
      if |v| == 3 then [b0, b1] else [b0, b1, b2]
  }

  predicate AllSymbols(s: string) { forall i :: 0 <= i < |s| ==> IsSymbol(s[i]) }

  function Values(s: string): (v: seq<sextet>)
    requires AllSymbols(s)
    ensures |v| == |s|
    ensures forall i :: 0 <= i < |s| ==> v[i] == Value(s[i]).value
  {
    seq(|s|, i requires 0 <= i < |s| => Value(s[i]).value)
  }

  /** Decoding of newline-free text, four symbols at a time. */
  function DecodeSymbols(s: string): Result<seq<byte>, DecodeError>
    decreases |s|
  {
    var n := if |s| < 4 then |s| else 4;
    if |s| == 0 then Ok([])
    else if |s| == 1 || !AllSymbols(s[..n]) then Err(CorruptInput)
    else if |s| < 4 then Ok(Bytes(Values(s)))
    else
      match DecodeSymbols(s[4..])
      case Err(e) => Err(e)
      case Ok(rest) => Ok(Bytes(Values(s[..4])) + rest)
  }

  /**
    `RawURLEncoding.DecodeString`: after line breaks are skipped, the text is
    accepted exactly when it is alphabet-only and its length is not one more
    than a multiple of four, and then yields three bytes per four symbols.
  */
  function Decode(s: string): (r: Result<seq<byte>, DecodeError>)
    ensures r.Ok? <==> AllSymbols(StripNewlines(s)) && |StripNewlines(s)| % 4 != 1
    ensures r.Ok? ==> |r.value| == 3 * |StripNewlines(s)| / 4
  {
    DecodeSymbolsAccepts(StripNewlines(s));
    DecodeSymbols(StripNewlines(s))
  }

  /** A text is alphabet-only exactly when its first four symbols and the rest are. */
  lemma AllSymbolsSplit(s: string)
    requires |s| >= 4
    ensures AllSymbols(s) <==> AllSymbols(s[..4]) && AllSymbols(s[4..])
  {
    if AllSymbols(s[..4]) && AllSymbols(s[4..]) {
      forall i | 0 <= i < |s| ensures IsSymbol(s[i]) {
        if i >= 4 { assert s[i] == s[4..][i - 4]; } else { assert s[i] == s[..4][i]; }
      }
    }
  }

  /** Decoding accepts exactly the alphabet-only texts whose length is not one more than a multiple of four, and yields three bytes per four symbols. */
  lemma {:induction false} DecodeSymbolsAccepts(s: string)
    ensures DecodeSymbols(s).Ok? <==> AllSymbols(s) && |s| % 4 != 1
    ensures DecodeSymbols(s).Ok? ==> |DecodeSymbols(s).value| == 3 * |s| / 4
    decreases |s|
  {
    if |s| >= 4 {
      DecodeSymbolsAccepts(s[4..]);
      AllSymbolsSplit(s);
      assert |s| % 4 == |s[4..]| % 4 && 3 * |s| / 4 == 3 + 3 * |s[4..]| / 4;
    } else if 1 < |s| < 4 {
      assert s[..|s|] == s;
    }
  }

  /** The bit arithmetic of a quantum: reassembling the four sextets of three bytes gives the bytes back. */
  lemma SextetsReassemble(b0: byte, b1: byte, b2: byte)
    ensures (b0 / 4) * 4 + ((b0 % 4) * 16 + b1 / 16) / 16 == b0 as int
    ensures (((b0 % 4) * 16 + b1 / 16) % 16) * 16 + ((b1 % 16) * 4 + b2 / 64) / 4 == b1 as int
    ensures (((b1 % 16) * 4 + b2 / 64) % 4) * 64 + b2 % 64 == b2 as int
  {
    assert ((b0 % 4) * 16 + b1 / 16) / 16 == b0 % 4;
    assert ((b0 % 4) * 16 + b1 / 16) % 16 == b1 / 16;
    assert ((b1 % 16) * 4 + b2 / 64) / 4 == b1 % 16;
    assert ((b1 % 16) * 4 + b2 / 64) % 4 == b2 / 64;
  }

  /** The sextets a quantum of three bytes (the missing ones taken as zero) is cut into. */
  function Sextets(b0: byte, b1: byte, b2: byte): (x: seq<sextet>)
    ensures |x| == 4
  {
    [b0 / 4, (b0 % 4) * 16 + b1 / 16, (b1 % 16) * 4 + b2 / 64, b2 % 64]
  }

  lemma QuantumValues(b: seq<byte>)
    requires 1 <= |b| <= 3
    ensures AllSymbols(Quantum(b))
    ensures Values(Quantum(b)) == Sextets(b[0], if |b| > 1 then b[1] else 0, if |b| > 2 then b[2] else 0)[..|b| + 1]
  {
  }

  lemma BytesOfSextets(b0: byte, b1: byte, b2: byte, n: int)
    requires 1 <= n <= 3
    ensures Bytes(Sextets(b0, b1, b2)[..n + 1]) == [b0, b1, b2][..n]
  {
    var x := Sextets(b0, b1, b2);
    SextetsReassemble(b0, b1, b2);
    if n == 1 {
      assert x[..2] == [x[0], x[1]];
    } else if n == 2 {
      assert x[..3] == [x[0], x[1], x[2]];
    } else {
      assert x[..4] == x;
    }
  }

  lemma QuantumRoundTrip(b: seq<byte>)
    requires 1 <= |b| <= 3
    ensures AllSymbols(Quantum(b))
    ensures Bytes(Values(Quantum(b))) == b
  {
    var b1: byte := if |b| > 1 then b[1] else 0;
    var b2: byte := if |b| > 2 then b[2] else 0;
    QuantumValues(b);
    BytesOfSextets(b[0], b1, b2, |b|);
    assert [b[0], b1, b2][..|b|] == b;
  }

  lemma {:induction false} DecodeSymbolsEncode(b: seq<byte>)
    ensures DecodeSymbols(Encode(b)) == Ok(b)
    decreases |b|
  {
    if 1 <= |b| <= 3 {
      QuantumRoundTrip(b);
      var s := Encode(b);
      assert s == Quantum(b);
      assert s[..|s|] == s;
      assert 1 < |s| < 4 ==> DecodeSymbols(s) == Ok(Bytes(Values(s)));
      if |s| == 4 {
        assert s[4..] == "" && s[..4] == s;
        assert DecodeSymbols(s[4..]) == Ok([]);
        assert Bytes(Values(s[..4])) + [] == b;
      }
    } else if |b| > 3 {
      var s := Encode(b);
      var q := Quantum(b[..3]);
      QuantumRoundTrip(b[..3]);
      DecodeSymbolsEncode(b[3..]);
      assert s[..4] == q;
      assert s[4..] == Encode(b[3..]);
      assert b[..3] + b[3..] == b;
    }
  }

  lemma {:induction false} StripNewlinesKeeps(s: string)
    requires forall i :: 0 <= i < |s| ==> s[i] != '\n' && s[i] != '\r'
    ensures StripNewlines(s) == s
    decreases |s|
  {
    if |s| > 0 {
      StripNewlinesKeeps(s[1..]);
      assert [s[0]] + s[1..] == s;
    }
  }

  /** Round trip: decoding what the encoder produced gives back the bytes. */
  lemma DecodeEncode(b: seq<byte>)
    ensures Decode(Encode(b)) == Ok(b)
  {
    StripNewlinesKeeps(Encode(b));
    DecodeSymbolsEncode(b);
  }

  /** Encoded text is unpadded: it never holds `=`. */
  lemma EncodeUnpadded(b: seq<byte>)
    ensures '=' !in Encode(b)
  {
    assert !IsSymbol('=');
  }

  /** A character outside the alphabet other than a line break, `=` among them, makes decoding fail. */
  lemma ForeignCharacterRejected(s: string, c: char)
    requires c in s && !IsSymbol(c) && c != '\n' && c != '\r'
    ensures Decode(s).Err?
  {
    var t := StripNewlines(s);
    assert c in t;
    DecodeSymbolsAccepts(t);
    var i :| 0 <= i < |t| && t[i] == c;
  }

  /** Padding is refused by the unpadded decoder. */
  lemma PaddingRejected(s: string)
    requires '=' in s
    ensures Decode(s).Err?
  {
    ForeignCharacterRejected(s, '=');
  }
}

/**
 Sortable base62 keys (src/utils/base62.rs). The digit loop of the base62 crate is written out
 with its standard alphabet 0-9, A-Z, a-z, most significant digit first.
 */
module Base62 {
  import opened Wrappers
  import opened StoreErrors
  import opened ByteStrings
  import opened MachineWords

  const WIDTH_U64 := 11

  function DigitChar(d: nat): byte
    requires d < 62
  {
    if d < 10 then 48 + d else if d < 36 then 65 + d - 10 else 97 + d - 36
  }

  function CharDigit(b: byte): (d: Option<nat>)
    ensures d.Some? ==> d.value < 62 && DigitChar(d.value) == b
  {
    if 48 <= b <= 57 then Some(b - 48)
    else if 65 <= b <= 90 then Some(b - 65 + 10)
    else if 97 <= b <= 122 then Some(b - 97 + 36)
    else None
  }

  /**
   The alphabet: the digit bytes are exactly 0-9, A-Z and a-z, and count upwards in byte order,
   which leaves no choice for any of the 62.
   */
  lemma {:induction false} DigitsCountUp()
    ensures forall b: byte ::
              (CharDigit(b).Some? <==>
                 || '0' as int <= b <= '9' as int
                 || 'A' as int <= b <= 'Z' as int
                 || 'a' as int <= b <= 'z' as int)
    ensures forall d: nat | d < 62 :: CharDigit(DigitChar(d)) == Some(d)
    ensures forall c: nat, d: nat | c < d < 62 :: DigitChar(c) < DigitChar(d)
  {
  }

  predicate Alphabetic(s: Bytes) {
    forall i | 0 <= i < |s| :: CharDigit(s[i]).Some?
  }

  /** The minimal encoding. */
  function Digits(n: nat): (s: Bytes)
    ensures s != [] && Alphabetic(s)
  {
    if n < 62 then [DigitChar(n)] else Digits(n / 62) + [DigitChar(n % 62)]
  }

  function Zeros(n: nat): (s: Bytes)
    ensures |s| == n && forall i | 0 <= i < n :: s[i] == 48
  {
    if n == 0 then [] else [48] + Zeros(n - 1)
  }

  function EncodePad(n: u64, width: nat): (s: Bytes)
    ensures Alphabetic(s)
  {
    var digits := Digits(n);
    (if |digits| < width then Zeros(width - |digits|) else []) + digits
  }

  function EncodeTime(ts: u64): Bytes {
    EncodePad(ts, WIDTH_U64)
  }

  datatype DecodeError = EmptyInput | InvalidBase62Byte(b: byte, at: nat) | ArithmeticOverflow

  /** The crate's decoding loop into a u128, from byte i on. */
  function DecodeFrom(s: Bytes, i: nat, acc: nat): Result<nat, DecodeError>
    requires i <= |s|
    decreases |s| - i
  {
    if i == |s| then Ok(acc) else
      match CharDigit(s[i])
      case None => Err(InvalidBase62Byte(s[i], i))
      case Some(d) => if acc * 62 + d >= TWO_128 then Err(ArithmeticOverflow) else DecodeFrom(s, i + 1, acc * 62 + d)
  }

  function Decode(s: Bytes): Result<nat, DecodeError> {
    if s == [] then Err(EmptyInput) else
      match DecodeFrom(s, 0, 0)
      case Ok(value) => if value >= TWO_64 then Err(ArithmeticOverflow) else Ok(value)
      case Err(e) => Err(e)
  }

  // --- Numerals ---

  /** The number an alphabet string denotes. */
  function Value(s: Bytes): nat
    requires Alphabetic(s)
  {
    if s == [] then 0 else Value(s[..|s| - 1]) * 62 + CharDigit(s[|s| - 1]).value
  }

  function Pow62(k: nat): (p: nat)
    ensures p > 0
  {
    if k == 0 then 1 else 62 * Pow62(k - 1)
  }

  lemma {:induction false} ValueSnoc(s: Bytes, c: byte)
    requires Alphabetic(s) && CharDigit(c).Some?
    ensures Alphabetic(s + [c]) && Value(s + [c]) == Value(s) * 62 + CharDigit(c).value
  {
    assert (s + [c])[..|s|] == s;
  }

  lemma {:induction false} ValueBound(s: Bytes)
    requires Alphabetic(s)
    ensures Value(s) < Pow62(|s|)
    decreases |s|
  {
    if s != [] { ValueBound(s[..|s| - 1]); }
  }

  lemma {:induction false} DigitsDenote(n: nat)
    ensures Value(Digits(n)) == n
  {
    if n < 62 {
      assert Digits(n)[..0] == [];
    } else {
      DigitsDenote(n / 62);
      ValueSnoc(Digits(n / 62), DigitChar(n % 62));
    }
  }

  lemma {:induction false} DigitsFit(n: nat, k: nat)
    requires n < Pow62(k) && k > 0
    ensures |Digits(n)| <= k
  {
    if n >= 62 {
      assert Pow62(1) == 62;
      DigitsFit(n / 62, k - 1);
    }
  }

  lemma {:induction false} U64Fits(n: u64)
    ensures |Digits(n)| <= WIDTH_U64
  {
    assert Pow62(11) == 52036560683837093888;
    DigitsFit(n, 11);
  }

  lemma {:induction false} PaddingDenotesNothing(k: nat, s: Bytes)
    requires Alphabetic(s)
    ensures Alphabetic(Zeros(k) + s) && Value(Zeros(k) + s) == Value(s)
    decreases k, |s|
  {
    if s != [] {
      var init, last := s[..|s| - 1], s[|s| - 1];
      PaddingDenotesNothing(k, init);
      assert Zeros(k) + s == (Zeros(k) + init) + [last];
      ValueSnoc(Zeros(k) + init, last);
    } else if k > 0 {
      PaddingDenotesNothing(k - 1, []);
      assert Zeros(k) + s == (Zeros(k - 1) + []) + [48];
      ValueSnoc(Zeros(k - 1) + [], 48);
    } else {
      assert Zeros(0) + s == s;
    }
  }

  // --- Round trips ---

  lemma {:induction false} PaddedDenotes(n: u64, width: nat)
    ensures Value(EncodePad(n, width)) == n
    ensures |EncodePad(n, width)| == if |Digits(n)| < width then width else |Digits(n)|
  {
    var digits := Digits(n);
    var k := if |digits| < width then width - |digits| else 0;
    assert EncodePad(n, width) == Zeros(k) + digits;
    DigitsDenote(n);
    PaddingDenotesNothing(k, digits);
  }

  /** A longer numeral denotes at least as much, so an early overflow is a real one. */
  lemma {:induction false} DecodeLoop(s: Bytes, i: nat)
    requires Alphabetic(s) && i <= |s| && Value(s[..i]) < TWO_128
    ensures DecodeFrom(s, i, Value(s[..i])) == if Value(s) < TWO_128 then Ok(Value(s)) else Err(ArithmeticOverflow)
    decreases |s| - i
  {
    if i == |s| {
      assert s[..i] == s;
    } else {
      assert s[..i + 1] == s[..i] + [s[i]];
      ValueSnoc(s[..i], s[i]);
      if Value(s[..i + 1]) < TWO_128 {
        DecodeLoop(s, i + 1);
      } else {
        ValueGrows(s, i + 1);
      }
    }
  }

  lemma {:induction false} ValueGrows(s: Bytes, i: nat)
    requires Alphabetic(s) && i <= |s|
    ensures Value(s[..i]) <= Value(s)
    decreases |s| - i
  {
    if i < |s| {
      assert s[..i + 1] == s[..i] + [s[i]];
      ValueSnoc(s[..i], s[i]);
      ValueGrows(s, i + 1);
    } else {
      assert s[..i] == s;
    }
  }

  /** Decoding a nonempty alphabet string gives the number it denotes, and overflow exactly from 2^64 on. */
  lemma {:induction false} DecodeIsValue(s: Bytes)
    requires s != [] && Alphabetic(s)
    ensures Decode(s) == if Value(s) < TWO_64 then Ok(Value(s)) else Err(ArithmeticOverflow)
  {
    assert s[..0] == [];
    DecodeLoop(s, 0);
  }

  /** A numeral of the repository's own tests: 1700 is "RQ"; and the empty string is no numeral. */
  lemma {:induction false} KnownNumeral()
    ensures Digits(1700) == ['R' as int, 'Q' as int] && Decode(['R' as int, 'Q' as int]) == Ok(1700)
    ensures Decode([]) == Err(EmptyInput)
  {
    assert Digits(27) == [82];
    assert Digits(1700) == Digits(27) + [81];
    var s: Bytes := [82, 81];
    assert CharDigit(82) == Some(27) && CharDigit(81) == Some(26);
    assert s[..1] == [82] && s[..1][..0] == [];
    assert Value([82]) == 27;
    assert Value(s) == 27 * 62 + 26;
    DecodeIsValue(s);
  }

  /** Any other byte is reported, unless the digits before it already overflow a u128. */
  lemma {:induction false} DecodeRejectsForeignBytes(s: Bytes, at: nat)
    requires at < |s| && Alphabetic(s[..at]) && CharDigit(s[at]).None?
    ensures Decode(s) == Err(if Value(s[..at]) < TWO_128 then InvalidBase62Byte(s[at], at) else ArithmeticOverflow)
  {
    assert s[..0] == [] && s[..at][..0] == [];
    DecodeUpTo(s, 0, at);
  }

  lemma {:induction false} DecodeUpTo(s: Bytes, i: nat, at: nat)
    requires i <= at < |s| && Alphabetic(s[..at]) && CharDigit(s[at]).None?
    requires Alphabetic(s[..i]) && Value(s[..i]) < TWO_128
    ensures DecodeFrom(s, i, Value(s[..i]))
            == Err(if Value(s[..at]) < TWO_128 then InvalidBase62Byte(s[at], at) else ArithmeticOverflow)
    decreases at - i
  {
    if i < at {
      assert s[..at][i] == s[i];
      assert s[..i + 1] == s[..i] + [s[i]];
      ValueSnoc(s[..i], s[i]);
      if Value(s[..i + 1]) < TWO_128 {
        DecodeUpTo(s, i + 1, at);
      } else {
        assert s[..at][..i + 1] == s[..i + 1];
        ValueGrows(s[..at], i + 1);
      }
    }
  }

  /** Decoding undoes encoding at every width. */
  lemma {:induction false} DecodeEncodePad(n: u64, width: nat)
    ensures Decode(EncodePad(n, width)) == Ok(n)
  {
    PaddedDenotes(n, width);
    DecodeIsValue(EncodePad(n, width));
  }

  /** Encoding at its own width undoes decoding. */
  lemma {:induction false} EncodePadDecode(s: Bytes)
    requires s != [] && Alphabetic(s) && Decode(s).Ok?
    ensures Decode(s).value < TWO_64 && EncodePad(Decode(s).value, |s|) == s
  {
    DecodeIsValue(s);
    var n := Value(s);
    ValueBound(s);
    DigitsFit(n, |s|);
    PaddedDenotes(n, |s|);
    OrderIsNumeric(EncodePad(n, |s|), s);
  }

  // --- Order ---

  /** Between alphabet strings of one length, bytewise order is numeric order. */
  lemma {:induction false} OrderIsNumeric(a: Bytes, b: Bytes)
    requires Alphabetic(a) && Alphabetic(b) && |a| == |b|
    ensures Less(a, b) <==> Value(a) < Value(b)
    ensures a == b <==> Value(a) == Value(b)
    decreases |a|
  {
    if a != [] {
      var n := |a| - 1;
      assert a == a[..n] + [a[n]] && b == b[..n] + [b[n]];
      OrderIsNumeric(a[..n], b[..n]);
      LessSnoc(a[..n], b[..n], a[n], b[n]);
      assert a[n] < b[n] <==> CharDigit(a[n]).value < CharDigit(b[n]).value;
    }
  }

  /** Time keys are exactly 11 characters and sort as their timestamps. */
  lemma {:induction false} TimeKeysSort(a: u64, b: u64)
    ensures |EncodeTime(a)| == WIDTH_U64
    ensures Less(EncodeTime(a), EncodeTime(b)) <==> a < b
  {
    U64Fits(a);
    U64Fits(b);
    PaddedDenotes(a, WIDTH_U64);
    PaddedDenotes(b, WIDTH_U64);
    OrderIsNumeric(EncodeTime(a), EncodeTime(b));
  }

  /** Encoding u64::MAX - ts gives the newest-first order, and decoding it gives ts back. */
  lemma {:induction false} DescendingTimeKeys(a: u64, b: u64)
    ensures Less(EncodeTime(TWO_64 - 1 - a), EncodeTime(TWO_64 - 1 - b)) <==> b < a
    ensures Decode(EncodeTime(TWO_64 - 1 - a)) == Ok(TWO_64 - 1 - a)
  {
    TimeKeysSort(TWO_64 - 1 - a, TWO_64 - 1 - b);
    DecodeEncodePad(TWO_64 - 1 - a, WIDTH_U64);
  }

  // --- The allocation-free encoder ---

  /** The crate's encode_bytes: the minimal encoding at the front of a caller's buffer. */
  method EncodeBytes(n: u64, buf: array<byte>) returns (len: nat)
    requires buf.Length >= WIDTH_U64
    modifies buf
    ensures len == |Digits(n)| <= buf.Length && buf[..len] == Digits(n)
  {
    U64Fits(n);
    len := 1;
    var m: nat := n;
    while m >= 62
      invariant |Digits(n)| == len - 1 + |Digits(m)|
    {
      m, len := m / 62, len + 1;
    }
    var i := len;
    m := n;
    while i > 0
      invariant 0 <= i <= len == |Digits(n)|
      invariant i > 0 ==> Digits(m) == Digits(n)[..i]
      invariant buf[i..len] == Digits(n)[i..]
    {
      i := i - 1;
      ghost var tail := buf[i + 1..len];
      assert Digits(m)[i] == Digits(n)[i] == DigitChar(m % 62);
      buf[i] := DigitChar(m % 62);
      assert buf[i..len] == [buf[i]] + tail;
      if i > 0 {
        assert Digits(m / 62) == Digits(m)[..i] == Digits(n)[..i];
      }
      m := m / 62;
    }
  }

  /**
   The in-place encoder. It panics exactly when the buffer has not the requested width or the
   width is too small for the number; otherwise the buffer holds what the allocating encoder returns.
   */
  method EncodeFastPad(n: u64, width: nat, out: array<byte>) returns (r: Result<(), StoreError>)
    modifies out
    ensures r == if out.Length != width || width < |Digits(n)| then Err(Panic) else Ok(())
    ensures r.Ok? ==> out[..] == EncodePad(n, width)
    ensures r.Err? ==> out[..] == if out.Length != width then old(out[..]) else Zeros(width)
  {
    if out.Length != width { return Err(Panic); }
    forall i | 0 <= i < width { out[i] := 48; }
    assert out[..] == Zeros(width);
    var tmp := new byte[22](_ => 0);
    var len := EncodeBytes(n, tmp);
    if len > 0 {
      if width < len { return Err(Panic); }
      var start := width - len;
      forall i | 0 <= i < len { out[start + i] := tmp[i]; }
      PadShape(n, width);
      assert forall i | 0 <= i < len :: out[start + i] == tmp[..len][i];
      assert out[..start] == Zeros(start) && out[start..] == tmp[..len];
      assert out[..] == out[..start] + out[start..];
    }
    return Ok(());
  }

  lemma {:induction false} PadShape(n: u64, width: nat)
    requires |Digits(n)| <= width
    ensures EncodePad(n, width) == Zeros(width - |Digits(n)|) + Digits(n)
  {
  }
}

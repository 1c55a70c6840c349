/** Values with an expiry header (src/types.rs): an 8-byte big-endian timestamp, then the raw value. */
module ExpiryCodec {
  import opened Wrappers
  import opened StoreErrors
  import opened ByteStrings
  import opened MachineWords

  const TIMESTAMP_SIZE := 8

  // --- u64::to_be_bytes and u64::from_be_bytes ---

  /** The low k bytes of n, most significant first. */
  function BigEndian(n: nat, k: nat): (s: Bytes)
    ensures |s| == k
  {
    if k == 0 then [] else BigEndian(n / 256, k - 1) + [n % 256]
  }

  function Pow256(k: nat): (p: nat)
    ensures p > 0
  {
    if k == 0 then 1 else 256 * Pow256(k - 1)
  }

  function Number(s: Bytes): (n: nat)
    ensures n < Pow256(|s|)
    decreases |s|
  {
    if s == [] then 0 else Number(s[..|s| - 1]) * 256 + s[|s| - 1]
  }

  lemma {:induction false} NumberOfBigEndian(n: nat, k: nat)
    requires n < Pow256(k)
    ensures Number(BigEndian(n, k)) == n
  {
    if k > 0 {
      NumberOfBigEndian(n / 256, k - 1);
      assert BigEndian(n, k)[..k - 1] == BigEndian(n / 256, k - 1);
    }
  }

  lemma {:induction false} BigEndianOfNumber(s: Bytes)
    ensures BigEndian(Number(s), |s|) == s
    decreases |s|
  {
    if s != [] { BigEndianOfNumber(s[..|s| - 1]); }
  }

  lemma {:induction false} BigEndianSorts(a: nat, b: nat, k: nat)
    requires a < Pow256(k) && b < Pow256(k)
    ensures Less(BigEndian(a, k), BigEndian(b, k)) <==> a < b
  {
    if k > 0 {
      BigEndianSorts(a / 256, b / 256, k - 1);
      NumberOfBigEndian(a / 256, k - 1);
      NumberOfBigEndian(b / 256, k - 1);
      LessSnoc(BigEndian(a / 256, k - 1), BigEndian(b / 256, k - 1), a % 256, b % 256);
    }
  }

  lemma {:induction false} EightBytesAreU64()
    ensures Pow256(8) == TWO_64
  {
    assert Pow256(4) == 0x1_0000_0000;
  }

  // --- The codec ---

  datatype ValueWithExpiry = ValueWithExpiry(expireTime: u64, raw: Bytes)

  /** The storage format. */
  function Stored(v: ValueWithExpiry): Bytes {
    BigEndian(v.expireTime, TIMESTAMP_SIZE) + v.raw
  }

  /** The expiry header; 0 when the slice is too short to have one. */
  function ExpireTime(bytes: Bytes): u64 {
    if |bytes| < TIMESTAMP_SIZE then 0 else
      EightBytesAreU64();
      Number(bytes[..TIMESTAMP_SIZE])
  }

  function RawDataRef(bytes: Bytes): Result<Bytes, string> {
    if |bytes| < TIMESTAMP_SIZE then Err("Invalid byte array length") else Ok(bytes[TIMESTAMP_SIZE..])
  }

  function FromSlice(bytes: Bytes): Result<ValueWithExpiry, StoreError> {
    if |bytes| < TIMESTAMP_SIZE then Err(Deserialization("Byte slice too short for ValueWithExpiry")) else
      match RawDataRef(bytes)
      case Ok(raw) => Ok(ValueWithExpiry(ExpireTime(bytes), raw))
      case Err(e) => Err(Deserialization(e))
  }

  /** expire_time_from_slice: the header is copied into an array and read as big endian. */
  method ExpireTimeFromSlice(bytes: Bytes) returns (t: u64)
    ensures t == ExpireTime(bytes)
    ensures |bytes| < 8 ==> t == 0
    ensures |bytes| >= 8 ==> BigEndian(t, 8) == bytes[..8]
  {
    if |bytes| < TIMESTAMP_SIZE { return 0; }
    var header := new byte[8](_ => 0);
    forall i | 0 <= i < 8 { header[i] := bytes[i]; }
    EightBytesAreU64();
    var n: nat := 0;
    for i := 0 to 8
      invariant n == Number(header[..i])
    {
      assert header[..i + 1][..i] == header[..i];
      n := n * 256 + header[i];
    }
    assert header[..8] == bytes[..8];
    BigEndianOfNumber(bytes[..8]);
    return n;
  }

  /** serialize_for_storage and serialize_unchecked: the header extended by the raw value. */
  method SerializeForStorage(v: ValueWithExpiry) returns (bytes: Bytes)
    ensures bytes == Stored(v) && FromSlice(bytes) == Ok(v)
  {
    bytes := [];
    var n, k := v.expireTime as nat, 0;
    while k < TIMESTAMP_SIZE
      invariant k <= TIMESTAMP_SIZE
      invariant BigEndian(v.expireTime, TIMESTAMP_SIZE) == BigEndian(n, TIMESTAMP_SIZE - k) + bytes
    {
      bytes := [n % 256] + bytes;
      n, k := n / 256, k + 1;
    }
    assert bytes == BigEndian(v.expireTime, TIMESTAMP_SIZE);
    bytes := bytes + v.raw;
    DecodeUndoesEncode(v);
  }

  /** From<Vec<u8>>: drains the header in place; a shorter vector panics. */
  method FromVec(vec: Bytes) returns (r: Result<ValueWithExpiry, StoreError>)
    ensures r == if FromSlice(vec).Ok? then Ok(FromSlice(vec).value) else Err(Panic)
  {
    if |vec| < 8 { return Err(Panic); }
    var value := vec;
    var header := value[..8];
    value := value[8..];
    var t := ExpireTimeFromSlice(header);
    assert header[..8] == vec[..8];
    return Ok(ValueWithExpiry(t, value));
  }

  lemma {:induction false} DecodeUndoesEncode(v: ValueWithExpiry)
    ensures FromSlice(Stored(v)) == Ok(v)
  {
    EightBytesAreU64();
    NumberOfBigEndian(v.expireTime, 8);
    assert Stored(v)[..8] == BigEndian(v.expireTime, 8) && Stored(v)[8..] == v.raw;
  }

  /** On every string long enough for a header all decoders agree and encoding undoes them; on no other. */
  lemma {:induction false} EncodeUndoesDecode(bytes: Bytes)
    ensures FromSlice(bytes).Ok? <==> |bytes| >= TIMESTAMP_SIZE
    ensures FromSlice(bytes).Ok? ==>
              var v := FromSlice(bytes).value;
              Stored(v) == bytes && ExpireTime(bytes) == v.expireTime && RawDataRef(bytes) == Ok(v.raw)
  {
    EightBytesAreU64();
    if |bytes| >= TIMESTAMP_SIZE {
      BigEndianOfNumber(bytes[..8]);
      assert bytes == bytes[..8] + bytes[8..];
    }
  }

  /** Stored values sort by expiry time, then by raw value. */
  lemma {:induction false} StoredSortByExpiry(a: ValueWithExpiry, b: ValueWithExpiry)
    ensures Less(Stored(a), Stored(b))
            <==> a.expireTime < b.expireTime || (a.expireTime == b.expireTime && Less(a.raw, b.raw))
  {
    EightBytesAreU64();
    BigEndianSorts(a.expireTime, b.expireTime, 8);
    NumberOfBigEndian(a.expireTime, 8);
    NumberOfBigEndian(b.expireTime, 8);
    LessAppend(BigEndian(a.expireTime, 8), BigEndian(b.expireTime, 8), a.raw, b.raw);
  }
}

/** Byte strings, their lexicographic order (RocksDB's default comparator) and prefixes. */
module ByteStrings {

  type byte = b: nat | b < 256

  type Bytes = seq<byte>

  predicate Less(a: Bytes, b: Bytes) {
    b != [] && (a == [] || a[0] < b[0] || (a[0] == b[0] && Less(a[1..], b[1..])))
  }

  predicate AtMost(a: Bytes, b: Bytes) {
    !Less(b, a)
  }

  predicate StartsWith(s: Bytes, prefix: Bytes) {
    |prefix| <= |s| && s[..|prefix|] == prefix
  }

  lemma {:induction false} LessIrreflexive(a: Bytes)
    ensures !Less(a, a)
  {
    if a != [] { LessIrreflexive(a[1..]); }
  }

  lemma {:induction false} LessTransitive(a: Bytes, b: Bytes, c: Bytes)
    requires Less(a, b) && Less(b, c)
    ensures Less(a, c)
  {
    if a != [] && a[0] == b[0] && b[0] == c[0] {
      LessTransitive(a[1..], b[1..], c[1..]);
    }
  }

  lemma {:induction false} LessTotal(a: Bytes, b: Bytes)
    ensures Less(a, b) || a == b || Less(b, a)
    ensures !(Less(a, b) && Less(b, a))
  {
    if a != [] && b != [] && a[0] == b[0] {
      LessTotal(a[1..], b[1..]);
      assert a == [a[0]] + a[1..] && b == [b[0]] + b[1..];
    }
  }

  /** A mixed chain of the two orders. */
  lemma {:induction false} AtMostLessTransitive(a: Bytes, b: Bytes, c: Bytes)
    requires AtMost(a, b) && Less(b, c)
    ensures Less(a, c)
  {
    LessTotal(a, b);
    if Less(a, b) { LessTransitive(a, b, c); }
  }

  /** A prefix is the least string that carries it. */
  lemma {:induction false} PrefixIsLeast(prefix: Bytes, s: Bytes)
    requires StartsWith(s, prefix)
    ensures AtMost(prefix, s)
  {
    if prefix != [] {
      assert s[0] == s[..|prefix|][0] == prefix[0];
      assert s[1..][..|prefix| - 1] == s[..|prefix|][1..];
      PrefixIsLeast(prefix[1..], s[1..]);
    }
  }

  /** The strings that carry a prefix form an interval of the order. */
  lemma {:induction false} PrefixIsConvex(prefix: Bytes, a: Bytes, b: Bytes, c: Bytes)
    requires StartsWith(a, prefix) && StartsWith(c, prefix)
    requires AtMost(a, b) && AtMost(b, c)
    ensures StartsWith(b, prefix)
  {
    if prefix != [] {
      assert a[0] == a[..|prefix|][0] == prefix[0];
      assert c[0] == c[..|prefix|][0] == prefix[0];
      assert b != [] && b[0] == prefix[0];
      assert a[1..][..|prefix| - 1] == a[..|prefix|][1..];
      assert c[1..][..|prefix| - 1] == c[..|prefix|][1..];
      PrefixIsConvex(prefix[1..], a[1..], b[1..], c[1..]);
      assert b[..|prefix|] == [b[0]] + b[1..][..|prefix| - 1];
    }
  }

  /** Between strings of one length, a last byte only decides when all before it agree. */
  lemma {:induction false} LessSnoc(a: Bytes, b: Bytes, c: byte, d: byte)
    requires |a| == |b|
    ensures Less(a + [c], b + [d]) <==> Less(a, b) || (a == b && c < d)
  {
    LessIrreflexive(b);
    if a != [] {
      assert (a + [c])[1..] == a[1..] + [c] && (b + [d])[1..] == b[1..] + [d];
      assert a == [a[0]] + a[1..] && b == [b[0]] + b[1..];
      LessSnoc(a[1..], b[1..], c, d);
    }
  }

  /** Headers of one length decide first, then the tails. */
  lemma {:induction false} LessAppend(a: Bytes, b: Bytes, x: Bytes, y: Bytes)
    requires |a| == |b|
    ensures Less(a + x, b + y) <==> Less(a, b) || (a == b && Less(x, y))
  {
    if a == [] {
      assert a + x == x && b + y == y;
    } else {
      LessIrreflexive(b);
      assert (a + x)[1..] == a[1..] + x && (b + y)[1..] == b[1..] + y;
      assert a == [a[0]] + a[1..] && b == [b[0]] + b[1..];
      LessAppend(a[1..], b[1..], x, y);
    }
  }
}

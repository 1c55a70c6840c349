/** Sorted tables of records, and the cursors the engine opens on them. */
module Tables {
  import opened ByteStrings

  datatype Record = Record(key: Bytes, value: Bytes)

  predicate Sorted(t: seq<Record>) {
    forall i, j | 0 <= i < j < |t| :: Less(t[i].key, t[j].key)
  }

  function Filter(t: seq<Record>, f: Record -> bool): seq<Record> {
    if t == [] then [] else (if f(t[0]) then [t[0]] else []) + Filter(t[1..], f)
  }

  function Reverse(t: seq<Record>): (r: seq<Record>)
    ensures |r| == |t| && forall i | 0 <= i < |t| :: r[i] == t[|t| - 1 - i]
  {
    if t == [] then [] else Reverse(t[1..]) + [t[0]]
  }

  /** The longest head whose records all satisfy f: what a scan that stops at the first mismatch sees. */
  function Head(t: seq<Record>, f: Record -> bool): (r: seq<Record>)
    ensures r <= t
  {
    if t == [] || !f(t[0]) then [] else [t[0]] + Head(t[1..], f)
  }

  function HasPrefix(prefix: Bytes): Record -> bool {
    (r: Record) => StartsWith(r.key, prefix)
  }

  /** On the scanned side of a start key, the key itself included. */
  function OnSide(start: Bytes, reverse: bool): Record -> bool {
    (r: Record) => if reverse then AtMost(r.key, start) else AtMost(start, r.key)
  }

  datatype Mode = FromStart | FromEnd | From(key: Bytes, reverse: bool)

  /** The records an engine iterator yields, in order. */
  function Cursor(t: seq<Record>, mode: Mode): seq<Record> {
    match mode
    case FromStart => t
    case FromEnd => Reverse(t)
    case From(k, reverse) => InDirection(Filter(t, OnSide(k, reverse)), reverse)
  }

  function InDirection(t: seq<Record>, reverse: bool): seq<Record> {
    if reverse then Reverse(t) else t
  }

  // --- Laws ---

  lemma {:induction false} FilterMembers(t: seq<Record>, f: Record -> bool)
    ensures forall r :: r in Filter(t, f) <==> r in t && f(r)
  {
    if t != [] {
      FilterMembers(t[1..], f);
      assert forall r :: r in t <==> r == t[0] || r in t[1..];
    }
  }

  lemma {:induction false} FilterSorted(t: seq<Record>, f: Record -> bool)
    requires Sorted(t)
    ensures Sorted(Filter(t, f))
  {
    if t != [] {
      FilterSorted(t[1..], f);
      FilterMembers(t[1..], f);
      var rest := Filter(t[1..], f);
      forall j | 0 <= j < |rest| ensures Less(t[0].key, rest[j].key) {
        assert rest[j] in t[1..];
        var i :| 0 <= i < |t| - 1 && t[1..][i] == rest[j];
        assert t[i + 1] == rest[j];
      }
    }
  }

  /** Filtering by g first changes nothing when f implies g. */
  lemma {:induction false} FilterAbsorbs(t: seq<Record>, g: Record -> bool, f: Record -> bool)
    requires forall r | r in t :: f(r) ==> g(r)
    ensures Filter(Filter(t, g), f) == Filter(t, f)
  {
    if t != [] {
      FilterAbsorbs(t[1..], g, f);
      assert t[0] in t;
      FilterCons(t[0], Filter(t[1..], g), f);
      assert Filter(t, g) == if g(t[0]) then [t[0]] + Filter(t[1..], g) else Filter(t[1..], g);
    }
  }

  lemma {:induction false} FilterCons(r: Record, t: seq<Record>, f: Record -> bool)
    ensures Filter([r] + t, f) == (if f(r) then [r] else []) + Filter(t, f)
  {
    assert ([r] + t)[1..] == t;
  }

  lemma {:induction false} FilterSnoc(t: seq<Record>, r: Record, f: Record -> bool)
    ensures Filter(t + [r], f) == Filter(t, f) + if f(r) then [r] else []
  {
    if t == [] {
      assert t + [r] == [r];
    } else {
      FilterSnoc(t[1..], r, f);
      assert (t + [r])[1..] == t[1..] + [r];
    }
  }

  lemma {:induction false} FilterReverse(t: seq<Record>, f: Record -> bool)
    ensures Filter(Reverse(t), f) == Reverse(Filter(t, f))
  {
    if t != [] {
      FilterReverse(t[1..], f);
      FilterSnoc(Reverse(t[1..]), t[0], f);
    }
  }

  /** In cursor order, no record that fails f comes before one that satisfies it. */
  ghost predicate HeadClosed(t: seq<Record>, f: Record -> bool) {
    forall i, j | 0 <= i < j < |t| && f(t[j]) :: f(t[i])
  }

  lemma {:induction false} HeadClosedCons(t: seq<Record>, f: Record -> bool)
    requires t != []
    ensures HeadClosed(t, f) <==> if f(t[0]) then HeadClosed(t[1..], f) else forall r | r in t[1..] :: !f(r)
  {
    var rest := t[1..];
    assert forall i | 0 < i < |t| :: t[i] == rest[i - 1];
    if HeadClosed(t, f) {
      forall i, j | 0 <= i < j < |rest| && f(rest[j]) ensures f(rest[i]) { assert f(t[j + 1]) && t[i + 1] == rest[i]; }
      if !f(t[0]) {
        forall r | r in rest ensures !f(r) {
          var j :| 0 <= j < |rest| && rest[j] == r;
          assert t[j + 1] == r;
        }
      }
    }
  }

  lemma {:induction false} HeadIsFilterIffClosed(t: seq<Record>, f: Record -> bool)
    ensures Head(t, f) == Filter(t, f) <==> HeadClosed(t, f)
  {
    if t != [] {
      HeadClosedCons(t, f);
      if f(t[0]) {
        HeadIsFilterIffClosed(t[1..], f);
        assert Head(t, f)[1..] == Head(t[1..], f) && Filter(t, f)[1..] == Filter(t[1..], f);
      } else {
        FilterMembers(t[1..], f);
        if Filter(t, f) != [] { assert Filter(t, f)[0] in Filter(t[1..], f); }
      }
    }
  }

  /** The records from `start` on that carry the prefix, in scan order. */
  function PrefixedFrom(t: seq<Record>, prefix: Bytes, start: Bytes, reverse: bool): seq<Record> {
    Filter(Cursor(t, From(start, reverse)), HasPrefix(prefix))
  }

  /** In scan order, a comes before b. */
  predicate Precedes(a: Record, b: Record, reverse: bool) {
    if reverse then Less(b.key, a.key) else Less(a.key, b.key)
  }

  lemma {:induction false} PrecedesIsStrict(a: Record, b: Record, reverse: bool)
    ensures !Precedes(a, a, reverse) && !(Precedes(a, b, reverse) && Precedes(b, a, reverse))
  {
    LessIrreflexive(a.key);
    LessTotal(a.key, b.key);
  }

  /** Whatever a record on the scanned side precedes is on that side as well. */
  lemma {:induction false} SideIsOpenEnded(r: Record, q: Record, start: Bytes, reverse: bool)
    requires OnSide(start, reverse)(r) && Precedes(r, q, reverse)
    ensures OnSide(start, reverse)(q)
  {
    LessTotal(q.key, start);
    if reverse {
      LessTotal(r.key, start);
      if Less(start, q.key) { LessTransitive(start, q.key, r.key); }
    } else {
      AtMostLessTransitive(start, r.key, q.key);
    }
  }

  /**
   No stored record at the start key, or beyond it in scan order, lies before a record that carries
   the prefix, without carrying it itself.
   */
  ghost predicate NoGap(t: seq<Record>, prefix: Bytes, start: Bytes, reverse: bool) {
    forall r, q | r in t && q in t && prefix <= q.key && Precedes(r, q, reverse)
                  && (r.key == start || if reverse then Less(r.key, start) else Less(start, r.key)) ::
      prefix <= r.key
  }

  /** The scanned side of a start key: the key itself, and what is less in reverse or greater forward. */
  lemma {:induction false} SideIsOrder(r: Record, start: Bytes, reverse: bool)
    ensures OnSide(start, reverse)(r) <==> r.key == start || if reverse then Less(r.key, start) else Less(start, r.key)
  {
    LessTotal(r.key, start);
    LessIrreflexive(start);
  }

  lemma {:induction false} CursorOrder(t: seq<Record>, start: Bytes, reverse: bool)
    requires Sorted(t)
    ensures var c := Cursor(t, From(start, reverse));
            && (forall r :: r in c <==> r in t && OnSide(start, reverse)(r))
            && forall i, j | 0 <= i < j < |c| :: Precedes(c[i], c[j], reverse)
  {
    var kept := Filter(t, OnSide(start, reverse));
    var c := Cursor(t, From(start, reverse));
    FilterMembers(t, OnSide(start, reverse));
    FilterSorted(t, OnSide(start, reverse));
    forall r ensures r in c <==> r in kept {
      if reverse {
        if r in kept { var i :| 0 <= i < |kept| && kept[i] == r; assert c[|kept| - 1 - i] == r; }
      }
    }
  }

  lemma {:induction false} ClosedIffNoGap(t: seq<Record>, prefix: Bytes, start: Bytes, reverse: bool)
    requires Sorted(t)
    ensures HeadClosed(Cursor(t, From(start, reverse)), HasPrefix(prefix)) <==> NoGap(t, prefix, start, reverse)
  {
    var c := Cursor(t, From(start, reverse));
    var f := HasPrefix(prefix);
    CursorOrder(t, start, reverse);
    if NoGap(t, prefix, start, reverse) {
      forall i, j | 0 <= i < j < |c| && f(c[j]) ensures f(c[i]) {
        assert c[i] in c && c[j] in c;
        SideIsOrder(c[i], start, reverse);
      }
    } else {
      var r, q :| r in t && q in t && prefix <= q.key && Precedes(r, q, reverse)
        && (r.key == start || if reverse then Less(r.key, start) else Less(start, r.key)) && !(prefix <= r.key);
      SideIsOrder(r, start, reverse);
      SideIsOpenEnded(r, q, start, reverse);
      assert r in c && q in c;
      var i :| 0 <= i < |c| && c[i] == r;
      var j :| 0 <= j < |c| && c[j] == q;
      PrecedesIsStrict(r, q, reverse);
      assert i < j;
    }
  }

  /** A start key that itself carries the prefix leaves no gap, in either direction. */
  lemma {:induction false} PrefixedStartHasNoGap(t: seq<Record>, prefix: Bytes, start: Bytes, reverse: bool)
    requires StartsWith(start, prefix)
    ensures NoGap(t, prefix, start, reverse)
  {
    forall r, q | r in t && q in t && prefix <= q.key && Precedes(r, q, reverse)
                  && (r.key == start || if reverse then Less(r.key, start) else Less(start, r.key))
      ensures prefix <= r.key
    {
      SideIsOrder(r, start, reverse);
      LessTotal(q.key, r.key);
      if reverse {
        PrefixIsConvex(prefix, q.key, r.key, start);
      } else {
        PrefixIsConvex(prefix, start, r.key, q.key);
      }
    }
  }
}

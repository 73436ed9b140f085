/** Which order the comparison of Firestore values is, said without it: kinds in a fixed order, and within
    a kind by truth, size, time, alphabet or the first position that differs. */
module ValueOrder {
  import opened Wrappers
  import opened Ordering
  import opened Text
  import opened FirestoreOrder

  // ----- Lists in dictionary order -----

  /** Up to `k` the lists are the same, and there the first one ends or has the lesser element. */
  ghost predicate DecidedAt<T>(a: seq<T>, b: seq<T>, k: nat, below: (T, T) -> bool) {
    && k <= |a| && k < |b|
    && (forall j | 0 <= j < k :: a[j] == b[j])
    && (k == |a| || below(a[k], b[k]))
  }

  ghost predicate Dictionary<T>(a: seq<T>, b: seq<T>, below: (T, T) -> bool) {
    exists k: nat :: DecidedAt(a, b, k, below)
  }

  lemma DictionaryEnds<T>(a: seq<T>, b: seq<T>, below: (T, T) -> bool)
    requires a == [] || b == []
    ensures Dictionary(a, b, below) <==> |a| < |b|
  {
    if a == [] && b != [] { assert DecidedAt(a, b, 0, below); }
  }

  lemma DictionaryStep<T>(a: seq<T>, b: seq<T>, below: (T, T) -> bool)
    requires a != [] && b != []
    ensures Dictionary(a, b, below) <==> below(a[0], b[0]) || (a[0] == b[0] && Dictionary(a[1..], b[1..], below))
  {
    if k: nat :| DecidedAt(a, b, k, below) {
      if k > 0 { assert DecidedAt(a[1..], b[1..], k - 1, below); }
    }
    if below(a[0], b[0]) {
      assert DecidedAt(a, b, 0, below);
    } else if a[0] == b[0] && Dictionary(a[1..], b[1..], below) {
      var k: nat :| DecidedAt(a[1..], b[1..], k, below);
      forall j | 0 <= j < k + 1 ensures a[j] == b[j] {
        if j > 0 { assert a[j] == a[1..][j-1] && b[j] == b[1..][j-1]; }
      }
      assert DecidedAt(a, b, k + 1, below);
    }
  }

  const ByCode: (char, char) -> bool := (a, b) => a < b
  const BySize: (nat, nat) -> bool := (a, b) => a < b
  const Alphabetically: (string, string) -> bool := (a, b) => StringLess(a, b)

  lemma {:induction false} TextOrder(a: string, b: string)
    ensures StringLess(a, b) <==> Dictionary(a, b, ByCode)
    ensures OfText(a, b) == Less <==> Dictionary(a, b, ByCode)
    ensures OfText(a, b) == Equal <==> a == b
    ensures OfText(a, b) == Greater <==> Dictionary(b, a, ByCode)
  {
    StringTrichotomy(a, b);
    StringDictionary(a, b);
    StringDictionary(b, a);
  }

  lemma {:induction false} StringDictionary(a: string, b: string)
    ensures StringLess(a, b) <==> Dictionary(a, b, ByCode)
  {
    if a == [] || b == [] {
      DictionaryEnds(a, b, ByCode);
    } else {
      DictionaryStep(a, b, ByCode);
      StringDictionary(a[1..], b[1..]);
    }
  }

  lemma {:induction false} BytesOrder(a: seq<nat>, b: seq<nat>)
    ensures OfBytes(a, b) == Less <==> Dictionary(a, b, BySize)
    ensures OfBytes(a, b) == Equal <==> a == b
  {
    if a == [] || b == [] {
      DictionaryEnds(a, b, BySize);
    } else {
      DictionaryStep(a, b, BySize);
      BytesOrder(a[1..], b[1..]);
      assert a == [a[0]] + a[1..] && b == [b[0]] + b[1..];
    }
  }

  lemma {:induction false} TextsOrder(a: seq<string>, b: seq<string>)
    ensures OfTexts(a, b) == Less <==> Dictionary(a, b, Alphabetically)
    ensures OfTexts(a, b) == Equal <==> a == b
  {
    if a == [] || b == [] {
      DictionaryEnds(a, b, Alphabetically);
    } else {
      DictionaryStep(a, b, Alphabetically);
      StringTrichotomy(a[0], b[0]);
      TextsOrder(a[1..], b[1..]);
      assert a == [a[0]] + a[1..] && b == [b[0]] + b[1..];
    }
  }

  // ----- The order -----

  /** null < boolean < number < timestamp < string < bytes < reference < geo point < array < map < sentinel */
  function Kind(v: Value): nat {
    if v.Null? then 0
    else if v.Boolean? then 1
    else if v.Integer? || v.Dbl? then 2
    else if v.Timestamp? then 3
    else if v.Str? then 4
    else if v.Bytes? then 5
    else if v.Reference? then 6
    else if v.GeoPoint? then 7
    else if v.Array? then 8
    else if v.Map? then 9
    else 10
  }

  /** NaN, then minus infinity, the reals by size, plus infinity. */
  predicate DoubleBelow(a: Double, b: Double) {
    !b.NaN? && (a.NaN? || (a.NegInf? && !b.NegInf?) || (b.PosInf? && !a.PosInf?)
                || (a.Finite? && b.Finite? && a.r < b.r))
  }

  function NumberOf(v: Value): Double
    requires Kind(v) == 2
  {
    if v.Integer? then AsDouble(v.i) else v.d
  }

  function Length(v: Value): nat {
    if v.Array? then |v.items| else if v.Map? then |v.fields| else 0
  }

  function Label(v: Value, k: nat): string
    requires k < Length(v)
  {
    if v.Map? then v.fields[k].key else ""
  }

  function Element(v: Value, k: nat): Value
    requires k < Length(v)
  {
    if v.Map? then v.fields[k].value else v.items[k]
  }

  /** Equal up to the type of numbers; sentinels are never told apart. */
  ghost predicate Tied(l: Value, r: Value)
    decreases l
  {
    && Kind(l) == Kind(r)
    && if l.Null? || l.Sentinel? then true
       else if Kind(l) == 2 && l.Integer? != r.Integer? then NumberOf(l) == NumberOf(r)
       else if l.Array? || l.Map? then
         Length(l) == Length(r)
         && forall k | 0 <= k < Length(l) :: Label(l, k) == Label(r, k) && Tied(Element(l, k), Element(r, k))
       else l == r
  }

  /** From `from` up to `k` all is tied, and there the first list ends, has the lesser key, or the lesser
      element at the same key. */
  ghost predicate FirstDiffersAt(l: Value, r: Value, from: nat, k: nat)
    decreases l, 0
  {
    && from <= k <= Length(l) && k < Length(r)
    && (forall j | from <= j < k :: Label(l, j) == Label(r, j) && Tied(Element(l, j), Element(r, j)))
    && (k == Length(l) || Dictionary(Label(l, k), Label(r, k), ByCode)
        || (Label(l, k) == Label(r, k) && Below(Element(l, k), Element(r, k))))
  }

  ghost predicate FirstDiffers(l: Value, r: Value, from: nat)
    decreases l, 1
  {
    exists k: nat :: FirstDiffersAt(l, r, from, k)
  }

  ghost predicate Below(l: Value, r: Value)
    decreases l, 2
  {
    Kind(l) < Kind(r) ||
    (Kind(l) == Kind(r) &&
     match l
     case Boolean(b) => !b && r.b
     case Integer(i) => if r.Integer? then i < r.i else DoubleBelow(AsDouble(i), r.d)
     case Dbl(d) => DoubleBelow(d, NumberOf(r))
     case Timestamp(s, n) => s < r.seconds || (s == r.seconds && n < r.nanos)
     case Str(s) => Dictionary(s, r.s, ByCode)
     case Bytes(x) => Dictionary(x, r.bytes, BySize)
     case Reference(p) => Dictionary(Split(p, '/'), Split(r.path, '/'), Alphabetically)
     case GeoPoint(x, y) => DoubleBelow(x, r.latitude) || (x == r.latitude && DoubleBelow(y, r.longitude))
     case Array(_) => FirstDiffers(l, r, 0)
     case Map(_) => FirstDiffers(l, r, 0)
     case _ => false)
  }

  lemma DoubleOrder(a: Double, b: Double)
    ensures OfDoubles(a, b) == Less <==> DoubleBelow(a, b)
    ensures OfDoubles(a, b) == Equal <==> a == b
  {}

  lemma ReferenceOrder(a: string, b: string)
    ensures OfTexts(Split(a, '/'), Split(b, '/')) == Less <==> Dictionary(Split(a, '/'), Split(b, '/'), Alphabetically)
    ensures OfTexts(Split(a, '/'), Split(b, '/')) == Equal <==> a == b
  {
    TextsOrder(Split(a, '/'), Split(b, '/'));
    JoinOfSplit(a, '/');
    JoinOfSplit(b, '/');
  }

  lemma KindsApart(l: Value, r: Value)
    requires Kind(l) != Kind(r)
    ensures Compared(l, r) == Less <==> Below(l, r)
    ensures Compared(l, r) != Equal && !Tied(l, r)
  {}

  lemma NumbersInOrder(l: Value, r: Value)
    requires Kind(l) == Kind(r) == 2
    ensures Compared(l, r) == Less <==> Below(l, r)
    ensures Compared(l, r) == Equal <==> Tied(l, r)
  {
    DoubleOrder(NumberOf(l), NumberOf(r));
    hide OfDoubles, AsDouble, DoubleBelow;
  }

  lemma SimplesInOrder(l: Value, r: Value)
    requires Kind(l) == Kind(r) && Kind(l) != 2 && !l.Array? && !l.Map?
    ensures Compared(l, r) == Less <==> Below(l, r)
    ensures Compared(l, r) == Equal <==> Tied(l, r)
  {
    hide Dictionary, OfText, OfTexts, OfBytes, OfDoubles, DoubleBelow;
    match l
    case Str(s) => TextOrder(s, r.s);
    case Bytes(x) => BytesOrder(x, r.bytes);
    case Reference(p) => ReferenceOrder(p, r.path);
    case GeoPoint(x, y) =>
      DoubleOrder(x, r.latitude);
      DoubleOrder(y, r.longitude);
    case _ =>
  }

  lemma {:induction false} LessOrTied(l: Value, r: Value)
    ensures Compared(l, r) == Less <==> Below(l, r)
    ensures Compared(l, r) == Equal <==> Tied(l, r)
    decreases l, Parts(l) + 1
  {
    if Kind(l) != Kind(r) {
      KindsApart(l, r);
    } else if Kind(l) == 2 {
      NumbersInOrder(l, r);
    } else if l.Array? || l.Map? {
      LessOrTiedFrom(l, r, 0);
      hide ComparedFrom, FirstDiffers;
    } else {
      SimplesInOrder(l, r);
    }
  }

  lemma {:induction false} LessOrTiedFrom(l: Value, r: Value, k: nat)
    requires k <= Parts(l) && k <= Parts(r) && ((l.Array? && r.Array?) || (l.Map? && r.Map?))
    ensures ComparedFrom(l, r, k) == Less <==> FirstDiffers(l, r, k)
    ensures ComparedFrom(l, r, k) == Equal <==>
            Length(l) == Length(r)
            && forall j | k <= j < Length(l) :: Label(l, j) == Label(r, j) && Tied(Element(l, j), Element(r, j))
    decreases l, Parts(l) - k
  {
    if k == Parts(l) || k == Parts(r) {
      if k < Parts(r) { assert FirstDiffersAt(l, r, k, k); }
    } else {
      TextOrder(KeyAt(l, k), KeyAt(r, k));
      LessOrTied(PartAt(l, k), PartAt(r, k));
      LessOrTiedFrom(l, r, k + 1);
      DiffersStep(l, r, k);
      hide Compared, Tied, Below, Dictionary, OfText, FirstDiffers, FirstDiffersAt;
    }
  }

  lemma DiffersStep(l: Value, r: Value, k: nat)
    requires k < Length(l) && k < Length(r)
    ensures FirstDiffers(l, r, k) <==>
            Dictionary(Label(l, k), Label(r, k), ByCode)
            || (Label(l, k) == Label(r, k)
                && (Below(Element(l, k), Element(r, k))
                    || (Tied(Element(l, k), Element(r, k)) && FirstDiffers(l, r, k + 1))))
  {
    hide Below, Tied, Dictionary;
    if m: nat :| FirstDiffersAt(l, r, k, m) {
      if m > k { assert FirstDiffersAt(l, r, k + 1, m); }
    }
    if Dictionary(Label(l, k), Label(r, k), ByCode)
      || (Label(l, k) == Label(r, k) && Below(Element(l, k), Element(r, k))) {
      assert FirstDiffersAt(l, r, k, k);
    }
    if FirstDiffers(l, r, k + 1) && Label(l, k) == Label(r, k) && Tied(Element(l, k), Element(r, k)) {
      var m: nat :| FirstDiffersAt(l, r, k + 1, m);
      assert FirstDiffersAt(l, r, k, m);
    }
  }

  /** The comparison is this order, for all values. */
  lemma ComparedIsTheOrder(l: Value, r: Value)
    ensures Compared(l, r) == Less <==> Below(l, r)
    ensures Compared(l, r) == Equal <==> Tied(l, r)
    ensures Compared(l, r) == Greater <==> Below(r, l)
  {
    LessOrTied(l, r);
    LessOrTied(r, l);
    ComparedReverses(l, r);
  }

  /** Instants with proper nanoseconds are ordered chronologically. */
  lemma InstantsInTime(s: int, n: int, s': int, n': int)
    requires 0 <= n < 1_000_000_000 && 0 <= n' < 1_000_000_000
    ensures Below(Timestamp(s, n), Timestamp(s', n')) <==> s * 1_000_000_000 + n < s' * 1_000_000_000 + n'
  {}

  // ----- Integers among doubles -----

  function Pow2(k: nat): nat {
    if k == 0 then 1 else 2 * Pow2(k - 1)
  }

  /** `d` is a double with 53 bits nearest to `m`, and of two equally near ones the even one: `q` units of
      `unit`, where a full mantissa keeps the unit as small as it can be. */
  predicate NearestDouble(m: nat, d: nat, q: nat, unit: nat) {
    && d == q * unit && q <= 9007199254740992 && (unit > 1 ==> q >= 4503599627370496)
    && -(unit as int) <= 2 * (d - m) <= unit
    && (2 * (d - m) == unit || 2 * (m - d) == unit ==> q % 2 == 0)
  }

  lemma {:induction false} RoundedIsNearest(m: nat, unit: nat, j: nat) returns (q: nat, k: nat)
    requires unit == Pow2(j) > 0 && (unit > 1 ==> 2 * m > 9007199254740992 * unit)
    ensures NearestDouble(m, Rounded(m, unit), q, Pow2(k))
    decreases m - 9007199254740992 * unit
  {
    if m > 9007199254740992 * unit {
      q, k := RoundedIsNearest(m, 2 * unit, j + 1);
    } else {
      k := j;
      q := RoundedAtUnit(m, unit);
    }
  }

  lemma RoundedAtUnit(m: nat, unit: nat) returns (q: nat)
    requires unit > 0 && m <= 9007199254740992 * unit && (unit > 1 ==> 2 * m > 9007199254740992 * unit)
    ensures NearestDouble(m, Rounded(m, unit), q, unit)
  {
    q := m / unit;
    var r := m % unit;
    QuotientWithin(m, unit);
    NextMultiple(q, unit);
    Division(m, unit);
    var down, up := q * unit, (q + 1) * unit;
    assert Rounded(m, unit) == if 2 * r > unit || (2 * r == unit && q % 2 == 1) then up else down;
    hide Rounded;
    if 2 * r > unit || (2 * r == unit && q % 2 == 1) { q := q + 1; }
  }

  lemma NextMultiple(q: nat, unit: nat)
    ensures (q + 1) * unit == q * unit + unit
  {}

  lemma Division(m: nat, unit: nat)
    requires unit > 0
    ensures m == m / unit * unit + m % unit && m % unit < unit
  {}

  lemma QuotientWithin(m: nat, unit: nat)
    requires unit > 0 && m <= 9007199254740992 * unit && (unit > 1 ==> 2 * m > 9007199254740992 * unit)
    ensures m / unit <= 9007199254740992 && (m / unit == 9007199254740992 ==> m % unit == 0)
    ensures unit > 1 ==> m / unit >= 4503599627370496
  {
    var q := m / unit;
    Division(m, unit);
    TimesMonotone(9007199254740993, q, unit);
    TimesMonotone(q, 4503599627370495, unit);
  }

  lemma TimesMonotone(a: nat, b: nat, p: nat)
    ensures a <= b ==> a * p <= b * p
  {}

  /** An integer stands among doubles where its nearest double does, at itself up to 2^53. */
  lemma IntegerAsDouble(i: int) returns (q: nat, k: nat)
    ensures var m: nat := if i < 0 then -i else i;
            var d := if i < 0 then -AsDouble(i).r else AsDouble(i).r;
            && AsDouble(i).Finite? && NearestDouble(m, d.Floor, q, Pow2(k)) && d == d.Floor as real
            && (m <= 9007199254740992 ==> AsDouble(i).r == i as real)
  {
    assert Pow2(0) == 1;
    q, k := RoundedIsNearest(if i < 0 then -i else i, 1, 0);
  }
}

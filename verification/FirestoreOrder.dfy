/** The cross-type order on Firestore values. */
module FirestoreOrder {
  import opened Ordering
  import opened Text
  import opened Wrappers

  datatype Comparison = Less | Equal | Greater

  /** A double; the two zeros are one number, as they compare equal. */
  datatype Double = NaN | NegInf | Finite(r: real) | PosInf

  datatype Transform =
    | ServerTimestamp
    | ArrayUnion(elements: seq<Value>)
    | ArrayRemove(elements: seq<Value>)
    | NumericIncrement(operand: Value)
    | DeleteField

  datatype Field = Field(key: string, value: Value)

  /** A map is its entries in key order. */
  datatype Value =
    | Null
    | Boolean(b: bool)
    | Integer(i: int)
    | Dbl(d: Double)
    | Timestamp(seconds: int, nanos: int)
    | Str(s: string)
    | Bytes(bytes: seq<nat>)
    | Reference(path: string)
    | GeoPoint(latitude: Double, longitude: Double)
    | Array(items: seq<Value>)
    | Map(fields: seq<Field>)
    | Sentinel(transform: Transform)

  // ----- Comparing the parts -----

  function Reversed(c: Comparison): Comparison {
    match c case Less => Greater case Equal => Equal case Greater => Less
  }

  function Then(c: Comparison, d: Comparison): Comparison {
    if c == Equal then d else c
  }

  function OfInts(a: int, b: int): Comparison {
    if a < b then Less else if a == b then Equal else Greater
  }

  function OfDoubles(a: Double, b: Double): Comparison {
    match (a, b)
    case (NaN, NaN) => Equal
    case (NaN, _) => Less
    case (_, NaN) => Greater
    case (NegInf, NegInf) => Equal
    case (NegInf, _) => Less
    case (_, NegInf) => Greater
    case (PosInf, PosInf) => Equal
    case (PosInf, _) => Greater
    case (_, PosInf) => Less
    case (Finite(x), Finite(y)) => if x < y then Less else if x == y then Equal else Greater
  }

  function OfText(a: string, b: string): Comparison {
    if StringLess(a, b) then Less else if a == b then Equal else Greater
  }

  function OfTexts(a: seq<string>, b: seq<string>): Comparison {
    if a == [] || b == [] then OfInts(|a|, |b|) else Then(OfText(a[0], b[0]), OfTexts(a[1..], b[1..]))
  }

  function OfBytes(a: seq<nat>, b: seq<nat>): Comparison {
    if a == [] || b == [] then OfInts(|a|, |b|) else Then(OfInts(a[0], b[0]), OfBytes(a[1..], b[1..]))
  }

  const TWO_53: nat := 9007199254740992

  /** `m` to the nearest multiple of the spacing of 53-bit doubles around it, ties to the even one. */
  function Rounded(m: nat, ulp: nat): nat
    requires ulp > 0
    decreases m - TWO_53 * ulp
  {
    if m > TWO_53 * ulp then Rounded(m, 2 * ulp)
    else
      var q, r := m / ulp, m % ulp;
      if 2 * r > ulp || (2 * r == ulp && q % 2 == 1) then (q + 1) * ulp else q * ulp
  }

  /** The cast of an integer to a double. */
  function AsDouble(i: int): Double {
    Finite(if i < 0 then -(Rounded(-i, 1) as real) else Rounded(i, 1) as real)
  }

  function TypeOrder(v: Value): nat {
    match v
    case Null => 0
    case Boolean(_) => 1
    case Integer(_) => 2
    case Dbl(_) => 2
    case Timestamp(_, _) => 3
    case Str(_) => 4
    case Bytes(_) => 5
    case Reference(_) => 6
    case GeoPoint(_, _) => 7
    case Array(_) => 8
    case Map(_) => 9
    case Sentinel(_) => 10
  }

  function Parts(v: Value): nat {
    match v case Array(items) => |items| case Map(fields) => |fields| case _ => 0
  }

  function KeyAt(v: Value, k: nat): string
    requires k < Parts(v)
  {
    if v.Map? then v.fields[k].key else ""
  }

  function PartAt(v: Value, k: nat): Value
    requires k < Parts(v)
  {
    if v.Map? then v.fields[k].value else v.items[k]
  }

  // ----- Comparing values -----

  function Compared(l: Value, r: Value): Comparison
    decreases l, Parts(l) + 1
  {
    if TypeOrder(l) != TypeOrder(r) then OfInts(TypeOrder(l), TypeOrder(r))
    else match (l, r)
         case (Boolean(a), Boolean(b)) => if a == b then Equal else if b then Less else Greater
         case (Integer(a), Integer(b)) => OfInts(a, b)
         case (Dbl(a), Dbl(b)) => OfDoubles(a, b)
         case (Integer(a), Dbl(b)) => OfDoubles(AsDouble(a), b)
         case (Dbl(a), Integer(b)) => OfDoubles(a, AsDouble(b))
         case (Timestamp(s, n), Timestamp(s', n')) => Then(OfInts(s, s'), OfInts(n, n'))
         case (Str(a), Str(b)) => OfText(a, b)
         case (Bytes(a), Bytes(b)) => OfBytes(a, b)
         case (Reference(a), Reference(b)) => OfTexts(Split(a, '/'), Split(b, '/'))
         case (GeoPoint(x, y), GeoPoint(x', y')) => Then(OfDoubles(x, x'), OfDoubles(y, y'))
         case (Array(_), Array(_)) => ComparedFrom(l, r, 0)
         case (Map(_), Map(_)) => ComparedFrom(l, r, 0)
         case _ => Equal
  }

  /** Elements, or entries, from the k-th on; what runs out first comes first. */
  function ComparedFrom(l: Value, r: Value, k: nat): Comparison
    requires k <= Parts(l) && k <= Parts(r)
    decreases l, Parts(l) - k
  {
    if k == Parts(l) || k == Parts(r) then OfInts(Parts(l), Parts(r))
    else Then(OfText(KeyAt(l, k), KeyAt(r, k)), Then(Compared(PartAt(l, k), PartAt(r, k)), ComparedFrom(l, r, k + 1)))
  }

  // ----- Reflexive and antisymmetric, for all values -----

  lemma OfTextReverses(a: string, b: string)
    ensures OfText(b, a) == Reversed(OfText(a, b)) && OfText(a, a) == Equal
  {
    StringTrichotomy(a, b);
    StringTrichotomy(b, a);
  }

  lemma {:induction false} OfTextsReverses(a: seq<string>, b: seq<string>)
    ensures OfTexts(b, a) == Reversed(OfTexts(a, b))
  {
    if a != [] && b != [] {
      OfTextReverses(a[0], b[0]);
      OfTextsReverses(a[1..], b[1..]);
    }
  }

  lemma {:induction false} OfBytesReverses(a: seq<nat>, b: seq<nat>)
    ensures OfBytes(b, a) == Reversed(OfBytes(a, b))
  {
    if a != [] && b != [] { OfBytesReverses(a[1..], b[1..]); }
  }

  lemma {:induction false} ComparedReverses(l: Value, r: Value)
    ensures Compared(r, l) == Reversed(Compared(l, r))
    decreases l, Parts(l) + 1
  {
    match (l, r)
    case (Str(a), Str(b)) => OfTextReverses(a, b);
    case (Bytes(a), Bytes(b)) => OfBytesReverses(a, b);
    case (Reference(a), Reference(b)) => OfTextsReverses(Split(a, '/'), Split(b, '/'));
    case (Array(_), Array(_)) => ComparedFromReverses(l, r, 0);
    case (Map(_), Map(_)) => ComparedFromReverses(l, r, 0);
    case _ =>
  }

  lemma {:induction false} ComparedFromReverses(l: Value, r: Value, k: nat)
    requires k <= Parts(l) && k <= Parts(r) && l.Map? == r.Map?
    ensures ComparedFrom(r, l, k) == Reversed(ComparedFrom(l, r, k))
    decreases l, Parts(l) - k
  {
    if k < Parts(l) && k < Parts(r) {
      OfTextReverses(KeyAt(l, k), KeyAt(r, k));
      ComparedReverses(PartAt(l, k), PartAt(r, k));
      ComparedFromReverses(l, r, k + 1);
    }
  }

  lemma ComparedToItself(v: Value)
    ensures Compared(v, v) == Equal
  {
    ComparedReverses(v, v);
  }

  // ----- Transitive, while the cast to double is exact -----

  /** `x`, `y` and `z` are how a compares to b, b to c and a to c. */
  predicate Chains(x: Comparison, y: Comparison, z: Comparison) {
    && (x == Equal ==> z == y)
    && (y == Equal ==> z == x)
    && (x == y ==> z == x)
  }

  lemma OfTextChains(a: string, b: string, c: string)
    ensures Chains(OfText(a, b), OfText(b, c), OfText(a, c))
  {
    StringTrichotomy(a, b);
    StringTrichotomy(b, c);
    StringTrichotomy(a, c);
    if StringLess(a, b) && StringLess(b, c) { StringLessTransitive(a, b, c); }
    if StringLess(c, b) && StringLess(b, a) { StringLessTransitive(c, b, a); }
  }

  lemma {:induction false} OfTextsChains(a: seq<string>, b: seq<string>, c: seq<string>)
    ensures Chains(OfTexts(a, b), OfTexts(b, c), OfTexts(a, c))
  {
    if a != [] && b != [] && c != [] {
      OfTextChains(a[0], b[0], c[0]);
      OfTextsChains(a[1..], b[1..], c[1..]);
    }
  }

  lemma {:induction false} OfBytesChains(a: seq<nat>, b: seq<nat>, c: seq<nat>)
    ensures Chains(OfBytes(a, b), OfBytes(b, c), OfBytes(a, c))
  {
    if a != [] && b != [] && c != [] { OfBytesChains(a[1..], b[1..], c[1..]); }
  }

  lemma OfDoublesChains(a: Double, b: Double, c: Double)
    ensures Chains(OfDoubles(a, b), OfDoubles(b, c), OfDoubles(a, c))
  {}

  /** Every integer in the value, at any depth, is of magnitude at most `n`. */
  predicate IntegersWithin(v: Value, n: nat) {
    match v
    case Integer(i) => i <= n && -i <= n
    case Array(items) => forall x | x in items :: IntegersWithin(x, n)
    case Map(fields) => forall f | f in fields :: IntegersWithin(f.value, n)
    case _ => true
  }

  function AsNumber(v: Value): Double
    requires TypeOrder(v) == 2
  {
    if v.Integer? then Finite(v.i as real) else v.d
  }

  lemma NumbersCompareExactly(l: Value, r: Value)
    requires TypeOrder(l) == TypeOrder(r) == 2 && IntegersWithin(l, TWO_53) && IntegersWithin(r, TWO_53)
    ensures Compared(l, r) == OfDoubles(AsNumber(l), AsNumber(r))
  {}

  lemma {:induction false} ComparedChains(a: Value, b: Value, c: Value)
    requires IntegersWithin(a, TWO_53) && IntegersWithin(b, TWO_53) && IntegersWithin(c, TWO_53)
    ensures Chains(Compared(a, b), Compared(b, c), Compared(a, c))
    decreases a, Parts(a) + 1
  {
    if !(TypeOrder(a) == TypeOrder(b) == TypeOrder(c)) {
      TypesChain(a, b, c);
    } else {
      hide OfText, OfTexts, OfBytes, OfDoubles, AsDouble;
      match a
      case Null =>
      case Boolean(_) =>
      case Integer(_) => NumbersChain(a, b, c);
      case Dbl(_) => NumbersChain(a, b, c);
      case Timestamp(_, _) =>
      case Str(s) => OfTextChains(s, b.s, c.s);
      case Bytes(x) => OfBytesChains(x, b.bytes, c.bytes);
      case Reference(p) => OfTextsChains(Split(p, '/'), Split(b.path, '/'), Split(c.path, '/'));
      case GeoPoint(x, y) =>
        OfDoublesChains(x, b.latitude, c.latitude);
        OfDoublesChains(y, b.longitude, c.longitude);
      case Array(_) => ComparedFromChains(a, b, c, 0);
      case Map(_) => ComparedFromChains(a, b, c, 0);
      case Sentinel(_) =>
    }
  }

  lemma TypesChain(a: Value, b: Value, c: Value)
    requires !(TypeOrder(a) == TypeOrder(b) == TypeOrder(c))
    ensures Chains(Compared(a, b), Compared(b, c), Compared(a, c))
  {}

  lemma NumbersChain(a: Value, b: Value, c: Value)
    requires TypeOrder(a) == TypeOrder(b) == TypeOrder(c) == 2
    requires IntegersWithin(a, TWO_53) && IntegersWithin(b, TWO_53) && IntegersWithin(c, TWO_53)
    ensures Chains(Compared(a, b), Compared(b, c), Compared(a, c))
  {
    NumbersCompareExactly(a, b);
    NumbersCompareExactly(b, c);
    NumbersCompareExactly(a, c);
    OfDoublesChains(AsNumber(a), AsNumber(b), AsNumber(c));
  }

  lemma {:induction false} ComparedFromChains(a: Value, b: Value, c: Value, k: nat)
    requires k <= Parts(a) && k <= Parts(b) && k <= Parts(c) && TypeOrder(a) == TypeOrder(b) == TypeOrder(c)
    requires IntegersWithin(a, TWO_53) && IntegersWithin(b, TWO_53) && IntegersWithin(c, TWO_53)
    ensures Chains(ComparedFrom(a, b, k), ComparedFrom(b, c, k), ComparedFrom(a, c, k))
    decreases a, Parts(a) - k
  {
    hide Compared, OfText;
    if k < Parts(a) && k < Parts(b) && k < Parts(c) {
      OfTextChains(KeyAt(a, k), KeyAt(b, k), KeyAt(c, k));
      ComparedChains(PartAt(a, k), PartAt(b, k), PartAt(c, k));
      ComparedFromChains(a, b, c, k + 1);
    }
  }

  lemma {:induction false} WithinMore(v: Value, n: nat, m: nat)
    requires IntegersWithin(v, n) && n <= m
    ensures IntegersWithin(v, m)
  {
    match v
    case Array(items) => forall x | x in items ensures IntegersWithin(x, m) { WithinMore(x, n, m); }
    case Map(fields) => forall f | f in fields ensures IntegersWithin(f.value, m) { WithinMore(f.value, n, m); }
    case _ =>
  }

  lemma OneAbove() returns (a: Value, b: Value, c: Value)
    ensures a == Integer(TWO_53 + 1) && b.Dbl? && c == Integer(TWO_53)
    ensures Compared(a, b) == Compared(b, c) == Equal && Compared(a, c) == Greater
  {
    a, b, c := Integer(TWO_53 + 1), Dbl(Finite(TWO_53 as real)), Integer(TWO_53);
    assert Rounded(TWO_53 + 1, 1) == Rounded(TWO_53 + 1, 2) == TWO_53;
    assert Rounded(TWO_53, 1) == TWO_53;
  }

  /** The order is transitive on the values whose integers stay within a bound, at any depth, exactly for
      the bounds up to 2^53: one above, two integers share a double that lies between neither. */
  lemma TransitiveIff(n: nat)
    ensures (forall a, b, c | IntegersWithin(a, n) && IntegersWithin(b, n) && IntegersWithin(c, n)
                :: Chains(Compared(a, b), Compared(b, c), Compared(a, c)))
            <==> n <= TWO_53
  {
    if n <= TWO_53 {
      forall a, b, c | IntegersWithin(a, n) && IntegersWithin(b, n) && IntegersWithin(c, n)
        ensures Chains(Compared(a, b), Compared(b, c), Compared(a, c))
      {
        WithinMore(a, n, TWO_53);
        WithinMore(b, n, TWO_53);
        WithinMore(c, n, TWO_53);
        ComparedChains(a, b, c);
      }
    } else {
      var a, b, c := OneAbove();
      assert IntegersWithin(a, n) && IntegersWithin(b, n) && IntegersWithin(c, n);
    }
  }

  // ----- The comparison as it runs -----

  method CompareValues(l: Value, r: Value) returns (c: Option<Comparison>)
    ensures c == Some(Compared(l, r))
    decreases l
  {
    hide OfText, OfTexts, OfBytes, OfDoubles, AsDouble;
    if TypeOrder(l) != TypeOrder(r) { return Some(OfInts(TypeOrder(l), TypeOrder(r))); }
    if !l.Array? && !l.Map? { return Some(Compared(l, r)); }
    var k := 0;
    while k < Parts(l) && k < Parts(r)
      invariant k <= Parts(l) && k <= Parts(r)
      invariant Compared(l, r) == ComparedFrom(l, r, k)
    {
      if l.Map? {
        var byKey := OfText(KeyAt(l, k), KeyAt(r, k));
        if byKey != Equal { return Some(byKey); }
      } else {
        OfTextReverses("", "");
      }
      var byValue := CompareValues(PartAt(l, k), PartAt(r, k));
      if byValue != Some(Equal) { return byValue; }
      k := k + 1;
    }
    return Some(OfInts(Parts(l), Parts(r)));
  }
}

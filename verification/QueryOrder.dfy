/** The order-by list a query is really evaluated with. */
module QueryOrder {
  import opened Ordering
  import opened Text
  import opened QueryEvaluator

  // ----- The wire form of a field path -----

  predicate IsWordStart(c: char) {
    c == '_' || 'a' <= c <= 'z' || 'A' <= c <= 'Z'
  }

  predicate IsSimpleIdentifier(segment: string) {
    segment != "" && IsWordStart(segment[0])
    && forall i | 0 <= i < |segment| :: IsWordStart(segment[i]) || '0' <= segment[i] <= '9'
  }

  function Escaped(segment: string): string {
    if segment == "" then ""
    else (if segment[0] == '\\' || segment[0] == '`' then ['\\', segment[0]] else [segment[0]]) + Escaped(segment[1..])
  }

  function Quoted(segment: string): string {
    if IsSimpleIdentifier(segment) then Escaped(segment) else "`" + Escaped(segment) + "`"
  }

  function Canonical(field: FieldPath): string {
    Join(seq(|field|, i requires 0 <= i < |field| => Quoted(field[i])), '.')
  }

  lemma {:induction false} SimpleIsItself(segment: string)
    requires forall i | 0 <= i < |segment| :: segment[i] != '\\' && segment[i] != '`'
    ensures Escaped(segment) == segment
  {
    if segment != "" { SimpleIsItself(segment[1..]); }
  }

  /** The first unescaped backtick ends a quoted segment. */
  lemma {:induction false} EscapedEnds(a: string, b: string, r: string, t: string)
    requires Escaped(a) + "`" + r == Escaped(b) + "`" + t
    ensures a == b && r == t
  {
    var left, right := Escaped(a) + "`" + r, Escaped(b) + "`" + t;
    EscapedHead(a, r);
    EscapedHead(b, t);
    hide Escaped;
    if a != "" && b != "" {
      EscapedEnds(a[1..], b[1..], r, t);
    }
  }

  lemma EscapedHead(a: string, r: string)
    ensures var s := Escaped(a) + "`" + r;
            if a == "" then s[0] == '`' && s[1..] == r
            else if a[0] == '\\' || a[0] == '`' then
              s[0] == '\\' && s[1] == a[0] && s[2..] == Escaped(a[1..]) + "`" + r
            else s[0] == a[0] && s[1..] == Escaped(a[1..]) + "`" + r
  {}

  /** Nothing, or a dot and more. */
  predicate IsRest(s: string) {
    s == "" || s[0] == '.'
  }

  lemma {:induction false} PlainEnds(a: string, b: string, r: string, t: string)
    requires '.' !in a && '.' !in b && IsRest(r) && IsRest(t) && a + r == b + t
    ensures a == b && r == t
  {
    assert (a != "" ==> (a + r)[0] == a[0]) && (b != "" ==> (b + t)[0] == b[0]);
    assert (a == "" ==> a + r == r) && (b == "" ==> b + t == t);
    if a != "" && b != "" {
      assert (a + r)[0] == a[0] && (b + t)[0] == b[0] && (a + r)[1..] == a[1..] + r && (b + t)[1..] == b[1..] + t;
      PlainEnds(a[1..], b[1..], r, t);
      assert a == [a[0]] + a[1..] && b == [b[0]] + b[1..];
    }
  }

  lemma QuotedStarts(a: string)
    ensures Quoted(a) != "" && (IsSimpleIdentifier(a) <==> Quoted(a)[0] != '`')
    ensures IsSimpleIdentifier(a) ==> Quoted(a) == a && '.' !in a
    ensures !IsSimpleIdentifier(a) ==> Quoted(a) == "`" + Escaped(a) + "`"
  {
    if IsSimpleIdentifier(a) { SimpleIsItself(a); }
  }

  lemma QuotedEnds(a: string, b: string, r: string, t: string)
    requires IsRest(r) && IsRest(t) && Quoted(a) + r == Quoted(b) + t
    ensures a == b && r == t
  {
    QuotedStarts(a);
    QuotedStarts(b);
    hide IsSimpleIdentifier, Quoted, Escaped;
    assert (Quoted(a) + r)[0] == Quoted(a)[0] && (Quoted(b) + t)[0] == Quoted(b)[0];
    if IsSimpleIdentifier(a) {
      PlainEnds(a, b, r, t);
    } else {
      assert (Quoted(a) + r)[1..] == Escaped(a) + "`" + r && (Quoted(b) + t)[1..] == Escaped(b) + "`" + t;
      EscapedEnds(a, b, r, t);
    }
  }

  lemma CanonicalStep(first: string, rest: FieldPath)
    ensures Canonical([first] + rest) == Quoted(first) + if rest == [] then "" else "." + Canonical(rest)
  {
    var quoted := seq(|rest|, i requires 0 <= i < |rest| => Quoted(rest[i]));
    var field := [first] + rest;
    assert seq(|field|, i requires 0 <= i < |field| => Quoted(field[i])) == [Quoted(first)] + quoted;
    assert ([Quoted(first)] + quoted)[1..] == quoted;
  }

  /** The wire form tells all field paths apart, whatever characters their segments have. */
  lemma {:induction false} CanonicalIsInjective(a: FieldPath, b: FieldPath)
    ensures Canonical(a) == Canonical(b) <==> a == b
  {
    if a != [] && b != [] && Canonical(a) == Canonical(b) {
      var r := if a[1..] == [] then "" else "." + Canonical(a[1..]);
      var t := if b[1..] == [] then "" else "." + Canonical(b[1..]);
      assert a == [a[0]] + a[1..] && b == [b[0]] + b[1..];
      CanonicalStep(a[0], a[1..]);
      CanonicalStep(b[0], b[1..]);
      QuotedEnds(a[0], b[0], r, t);
      CanonicalIsInjective(a[1..], b[1..]);
      assert a[1..] != [] ==> r[1..] == Canonical(a[1..]);
      assert b[1..] != [] ==> t[1..] == Canonical(b[1..]);
    } else {
      if a != [] { CanonicalStep(a[0], a[1..]); assert a == [a[0]] + a[1..]; }
      if b != [] { CanonicalStep(b[0], b[1..]); assert b == [b[0]] + b[1..]; }
    }
  }

  /** A segment of letters, digits and underscores that starts with no digit is written as it is, any
      other one in backticks. */
  lemma SegmentForm(segment: string)
    requires forall c | c in segment :: c != '`' && c != '\\'
    ensures var plain := segment != "" && !('0' <= segment[0] <= '9') &&
                         forall c | c in segment :: c == '_' || 'a' <= c <= 'z' || 'A' <= c <= 'Z' || '0' <= c <= '9';
            Canonical([segment]) == if plain then segment else "`" + segment + "`"
  {
    assert forall i | 0 <= i < |segment| :: segment[i] in segment;
    CanonicalStep(segment, []);
    assert [segment] + [] == [segment];
    SimpleIsItself(segment);
    QuotedStarts(segment);
    hide Canonical, Quoted, Escaped;
  }

  // ----- The fields of inequality filters -----

  predicate IsInequality(op: Operator) {
    op.LessThan? || op.LessThanOrEqual? || op.GreaterThan? || op.GreaterThanOrEqual? || op.NotEqualTo? || op.NotIn?
  }

  function InequalityFields(filters: seq<Filter>): seq<FieldPath> {
    if filters == [] then []
    else
      (match filters[0]
       case On(field, op, _) => if IsInequality(op) then [field] else []
       case And(all) => InequalityFields(all)
       case Or(any) => InequalityFields(any))
      + InequalityFields(filters[1..])
  }

  /** The condition occurs among the filters, in composites of any depth. */
  ghost predicate Occurs(field: FieldPath, op: Operator, filters: seq<Filter>)
    decreases filters
  {
    exists i | 0 <= i < |filters| :: OccursIn(field, op, filters[i])
  }

  ghost predicate OccursIn(field: FieldPath, op: Operator, filter: Filter)
    decreases filter
  {
    match filter
    case On(f, o, _) => f == field && o == op
    case And(all) => Occurs(field, op, all)
    case Or(any) => Occurs(field, op, any)
  }

  /** One of six operators compares the field in the filter, or in one of the filters. */
  ghost predicate Unequal(field: FieldPath, filter: Filter) {
    exists op | op in {LessThan, LessThanOrEqual, GreaterThan, GreaterThanOrEqual, NotEqualTo, NotIn} ::
      OccursIn(field, op, filter)
  }

  ghost predicate SomeUnequal(field: FieldPath, filters: seq<Filter>) {
    exists op | op in {LessThan, LessThanOrEqual, GreaterThan, GreaterThanOrEqual, NotEqualTo, NotIn} ::
      Occurs(field, op, filters)
  }

  lemma UnequalStep(field: FieldPath, filters: seq<Filter>)
    requires filters != []
    ensures SomeUnequal(field, filters) <==> Unequal(field, filters[0]) || SomeUnequal(field, filters[1..])
  {
    forall op ensures Occurs(field, op, filters) <==>
                      OccursIn(field, op, filters[0]) || Occurs(field, op, filters[1..])
    {
      OccursStep(field, op, filters);
    }
    hide Occurs, OccursIn;
  }

  lemma UnequalInside(field: FieldPath, filter: Filter)
    ensures Unequal(field, filter) <==>
            match filter
            case On(f, op, _) => f == field && IsInequality(op)
            case And(all) => SomeUnequal(field, all)
            case Or(any) => SomeUnequal(field, any)
  {
    match filter
    case On(f, op, x) => assert IsInequality(op) && f == field ==> OccursIn(field, op, filter);
    case And(all) => assert forall op :: OccursIn(field, op, filter) == Occurs(field, op, all);
    case Or(any) => assert forall op :: OccursIn(field, op, filter) == Occurs(field, op, any);
  }

  /** The inequality fields are those compared by one of the six operators anywhere in the filters. */
  lemma {:induction false} WhichInequalityFields(field: FieldPath, filters: seq<Filter>)
    ensures field in InequalityFields(filters) <==> SomeUnequal(field, filters)
    decreases filters
  {
    if filters != [] {
      WhichInequalityFields(field, filters[1..]);
      UnequalStep(field, filters);
      UnequalInside(field, filters[0]);
      hide SomeUnequal, Unequal, IsInequality;
      match filters[0]
      case On(_, _, _) =>
      case And(all) => WhichInequalityFields(field, all);
      case Or(any) => WhichInequalityFields(field, any);
    }
  }

  lemma OccursStep(field: FieldPath, op: Operator, filters: seq<Filter>)
    requires filters != []
    ensures Occurs(field, op, filters) <==> OccursIn(field, op, filters[0]) || Occurs(field, op, filters[1..])
  {
    if Occurs(field, op, filters[1..]) {
      var i :| 0 <= i < |filters[1..]| && OccursIn(field, op, filters[1..][i]);
      assert filters[i+1] == filters[1..][i];
    }
  }

  predicate Precedes(a: FieldPath, b: FieldPath) {
    StringLess(Canonical(a), Canonical(b))
  }

  ghost predicate ByCanonical(fields: seq<FieldPath>) {
    forall i, j | 0 <= i < j < |fields| :: !Precedes(fields[j], fields[i])
  }

  method SortByCanonical(fields: seq<FieldPath>) returns (sorted: seq<FieldPath>)
    ensures ByCanonical(sorted) && forall f :: f in sorted <==> f in fields
  {
    hide Precedes;
    sorted := [];
    for n := 0 to |fields|
      invariant ByCanonical(sorted) && forall f :: f in sorted <==> f in fields[..n]
    {
      var x, i := fields[n], 0;
      while i < |sorted| && !Precedes(x, sorted[i])
        invariant i <= |sorted| && forall k | 0 <= k < i :: !Precedes(x, sorted[k])
      {
        i := i + 1;
      }
      forall k | i <= k < |sorted| ensures !Precedes(sorted[k], x) {
        if k == i { PrecedesOneWay(x, sorted[i]); } else { PrecedesAll(x, sorted[i], sorted[k]); }
      }
      assert fields[..n+1] == fields[..n] + [x];
      assert sorted == sorted[..i] + sorted[i..];
      sorted := sorted[..i] + [x] + sorted[i..];
    }
    assert fields[..|fields|] == fields;
  }

  lemma PrecedesOneWay(a: FieldPath, b: FieldPath)
    requires Precedes(a, b)
    ensures !Precedes(b, a)
  {
    StringTrichotomy(Canonical(a), Canonical(b));
  }

  lemma PrecedesAll(x: FieldPath, first: FieldPath, later: FieldPath)
    requires Precedes(x, first) && !Precedes(later, first)
    ensures !Precedes(later, x)
  {
    if Precedes(later, x) { StringLessTransitive(Canonical(later), Canonical(x), Canonical(first)); }
  }

  // ----- The list -----

  predicate Present(orders: seq<OrderBy>, field: FieldPath) {
    exists o | o in orders :: Canonical(o.field) == Canonical(field)
  }

  predicate LastDirection(explicit: seq<OrderBy>) {
    explicit != [] && explicit[|explicit|-1].descending
  }

  lemma PresentMeans(orders: seq<OrderBy>, field: FieldPath)
    ensures Present(orders, field) <==> exists o | o in orders :: o.field == field
  {
    hide Canonical;
    forall o | o in orders ensures Canonical(o.field) == Canonical(field) <==> o.field == field {
      CanonicalIsInjective(o.field, field);
    }
  }

  /** What has been added to the explicit clauses: some of `fields`, by canonical name, each once. */
  ghost predicate Extends(orders: seq<OrderBy>, explicit: seq<OrderBy>, fields: seq<FieldPath>) {
    && explicit <= orders
    && (forall i | |explicit| <= i < |orders| ::
          && orders[i].descending == LastDirection(explicit)
          && orders[i].field in fields && orders[i].field != DOCUMENT_ID
          && !Present(orders[..i], orders[i].field))
    && (forall i, j | |explicit| <= i < j < |orders| :: Precedes(orders[i].field, orders[j].field))
  }

  /** Explicit clauses first; then, by canonical name and each once, the inequality fields not ordered
      yet; the document id last unless ordered already. All that is added takes the last direction.
      Repeated fields drop out in the test for presence. */
  method NormalizedOrderBy(explicit: seq<OrderBy>, filters: seq<Filter>) returns (orders: seq<OrderBy>)
    ensures OrdersByDocumentId(orders)
    ensures forall f | f in InequalityFields(filters) && f != DOCUMENT_ID :: Present(orders, f)
    ensures Extends(orders, explicit, InequalityFields(filters))
            || (orders != [] && orders[|orders|-1] == OrderBy(DOCUMENT_ID, LastDirection(explicit))
                && Extends(orders[..|orders|-1], explicit, InequalityFields(filters))
                && !OrdersByDocumentId(orders[..|orders|-1]))
    ensures explicit <= orders && forall i | |explicit| <= i < |orders| ::
            orders[i].descending == (explicit != [] && explicit[|explicit|-1].descending)
    ensures forall f | SomeUnequal(f, filters) && f != ["__name__"] :: exists o | o in orders :: o.field == f
  {
    hide Canonical, Extends, SomeUnequal;
    var fields := SortByCanonical(InequalityFields(filters));
    orders := explicit;
    NothingAdded(explicit);
    for n := 0 to |fields|
      invariant Extends(orders, explicit, fields[..n])
      invariant forall f | f in fields[..n] && f != DOCUMENT_ID :: Present(orders, f)
    {
      var f, before := fields[n], orders;
      if f == DOCUMENT_ID || Present(orders, f) {
        AllowMore(orders, explicit, fields[..n], fields[..n+1]);
      } else {
        orders := orders + [OrderBy(f, LastDirection(explicit))];
        OneMoreField(before, explicit, fields, n);
      }
      StillPresent(before, orders, fields, n);
    }
    AllowMore(orders, explicit, fields[..|fields|], InequalityFields(filters));
    assert fields[..|fields|] == fields;
    AddedDirection(orders, explicit, InequalityFields(filters));
    if !OrdersByDocumentId(orders) {
      ghost var before := orders;
      var id := OrderBy(DOCUMENT_ID, LastDirection(explicit));
      orders := orders + [id];
      assert orders[|before|] == id && orders[..|before|] == before;
      forall f | f in InequalityFields(filters) && f != DOCUMENT_ID ensures Present(orders, f) {
        PresentInMore(before, [id], f);
      }
    }
    OrdersEachOne(orders, filters);
  }

  lemma OrdersEachOne(orders: seq<OrderBy>, filters: seq<Filter>)
    requires forall f | f in InequalityFields(filters) && f != DOCUMENT_ID :: Present(orders, f)
    ensures forall f | SomeUnequal(f, filters) && f != ["__name__"] :: exists o | o in orders :: o.field == f
  {
    hide Present, SomeUnequal;
    forall f | SomeUnequal(f, filters) && f != ["__name__"] ensures exists o | o in orders :: o.field == f {
      WhichInequalityFields(f, filters);
      PresentMeans(orders, f);
    }
  }

  lemma AddedDirection(orders: seq<OrderBy>, explicit: seq<OrderBy>, fields: seq<FieldPath>)
    requires Extends(orders, explicit, fields)
    ensures explicit <= orders && forall i | |explicit| <= i < |orders| ::
            orders[i].descending == (explicit != [] && explicit[|explicit|-1].descending)
  {}

  lemma NothingAdded(explicit: seq<OrderBy>)
    ensures Extends(explicit, explicit, [])
  {}

  lemma AllowMore(orders: seq<OrderBy>, explicit: seq<OrderBy>, some: seq<FieldPath>, more: seq<FieldPath>)
    requires Extends(orders, explicit, some) && forall f | f in some :: f in more
    ensures Extends(orders, explicit, more)
  {}

  lemma PresentInMore(orders: seq<OrderBy>, added: seq<OrderBy>, field: FieldPath)
    requires Present(orders, field)
    ensures Present(orders + added, field)
  {
    hide Canonical;
    var o :| o in orders && Canonical(o.field) == Canonical(field);
    assert o in orders + added;
  }

  lemma StillPresent(before: seq<OrderBy>, orders: seq<OrderBy>, fields: seq<FieldPath>, n: nat)
    requires n < |fields| && before <= orders
    requires forall f | f in fields[..n] && f != DOCUMENT_ID :: Present(before, f)
    requires fields[n] == DOCUMENT_ID || Present(before, fields[n]) ||
             (|orders| > |before| && orders[|before|].field == fields[n])
    ensures forall f | f in fields[..n+1] && f != DOCUMENT_ID :: Present(orders, f)
  {
    hide Canonical;
    assert fields[..n+1] == fields[..n] + [fields[n]] && orders == before + orders[|before|..];
    forall f | f in fields[..n+1] && f != DOCUMENT_ID ensures Present(orders, f) {
      if Present(before, f) {
        PresentInMore(before, orders[|before|..], f);
      } else {
        assert orders[|before|] in orders;
      }
    }
  }

  lemma OneMoreField(before: seq<OrderBy>, explicit: seq<OrderBy>, fields: seq<FieldPath>, n: nat)
    requires n < |fields| && ByCanonical(fields) && Extends(before, explicit, fields[..n])
    requires fields[n] != DOCUMENT_ID && !Present(before, fields[n])
    ensures Extends(before + [OrderBy(fields[n], LastDirection(explicit))], explicit, fields[..n+1])
  {
    hide Canonical, Precedes;
    var orders := before + [OrderBy(fields[n], LastDirection(explicit))];
    assert fields[..n+1] == fields[..n] + [fields[n]];
    forall i | |explicit| <= i < |before| ensures Precedes(before[i].field, fields[n]) {
      assert before[i] in before;
      LaterAndAbsent(fields, n, before[i].field);
    }
    forall i | |explicit| <= i < |orders| ensures !Present(orders[..i], orders[i].field) {
      assert orders[..i] == before[..i];
      assert before[..|before|] == before;
    }
  }

  lemma LaterAndAbsent(fields: seq<FieldPath>, n: nat, earlier: FieldPath)
    requires n < |fields| && ByCanonical(fields) && earlier in fields[..n]
    requires Canonical(earlier) != Canonical(fields[n])
    ensures Precedes(earlier, fields[n])
  {
    hide Canonical;
    var k :| 0 <= k < n && fields[k] == earlier;
    StringTrichotomy(Canonical(earlier), Canonical(fields[n]));
  }
}

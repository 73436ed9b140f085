/** What filters, orderings and cursors mean, said through the order of values, positions in arrays and
    sets of documents. */
module QueryMeaning {
  import opened Wrappers
  import opened Text
  import opened FirestoreOrder
  import opened ValueOrder
  import opened QueryEvaluator

  // ----- Fields -----

  /** No key twice. */
  ghost predicate IsMap(fields: seq<Field>) {
    forall i, j | 0 <= i < j < |fields| :: fields[i].key != fields[j].key
  }

  lemma {:induction false} NamedIsAmong(fields: seq<Field>, name: string, v: Value)
    requires IsMap(fields)
    ensures FieldNamed(fields, name) == Some(v) <==> Field(name, v) in fields
  {
    if fields != [] {
      NamedIsAmong(fields[1..], name, v);
      assert fields == [fields[0]] + fields[1..];
    }
  }

  /** A field path leads from map to map; the document's own id is its path, joined by slashes. */
  lemma FieldLeads(d: Document, fields: seq<Field>, name: string, rest: FieldPath, v: Value)
    requires d.data == Some(fields) && IsMap(fields) && [name] + rest != DOCUMENT_ID
    ensures rest == [] ==> (FieldValue(d, [name]) == Some(v) <==> Field(name, v) in fields)
    ensures rest != [] ==> (FieldValue(d, [name] + rest) == Some(v) <==>
                            exists inner :: Field(name, Map(inner)) in fields && FindInMap(inner, rest) == Some(v))
    ensures FieldValue(d, ["__name__"]) == Some(Str(Join(d.key, '/')))
  {
    assert ([name] + rest)[1..] == rest && ([name] + rest)[0] == name;
    NamedIsAmong(fields, name, v);
    var found := FieldNamed(fields, name);
    if found.Some? { NamedIsAmong(fields, name, found.value); }
    forall inner | Field(name, Map(inner)) in fields ensures found == Some(Map(inner)) {
      NamedIsAmong(fields, name, Map(inner));
    }
  }

  // ----- Orderings -----

  /** What a document is ordered by: the field's value, null if it has none. */
  function Cell(d: Document, field: FieldPath): Value {
    match FieldValue(d, field) case Some(v) => v case None => Value.Null
  }

  ghost predicate CellBelow(order: OrderBy, a: Value, b: Value) {
    if order.descending then Below(b, a) else Below(a, b)
  }

  /** The columns from `from` up to `k` are tied, and column `k` puts `a` first. */
  ghost predicate ColumnDecides(orders: seq<OrderBy>, a: seq<Value>, b: seq<Value>, from: nat, k: nat) {
    && from <= k < |orders| && k < |a| && k < |b|
    && (forall j | from <= j < k :: Tied(a[j], b[j])) && CellBelow(orders[k], a[k], b[k])
  }

  ghost predicate ComesFirst(orders: seq<OrderBy>, a: seq<Value>, b: seq<Value>, from: nat) {
    exists k: nat :: ColumnDecides(orders, a, b, from, k)
  }

  lemma {:induction false} ColumnsDecide(orders: seq<OrderBy>, a: seq<Value>, b: seq<Value>, from: nat)
    ensures ComparedRows(orders, a, b, from) == Less <==> ComesFirst(orders, a, b, from)
    ensures ComparedRows(orders, a, b, from) == Greater <==> ComesFirst(orders, b, a, from)
    decreases |orders| - from
  {
    hide Below, Tied, Compared;
    if from < |orders| && from < |a| && from < |b| {
      ColumnsDecide(orders, a, b, from + 1);
      ComparedIsTheOrder(a[from], b[from]);
      ComparedIsTheOrder(b[from], a[from]);
      ColumnStep(orders, a, b, from);
      ColumnStep(orders, b, a, from);
    }
  }

  lemma ColumnStep(orders: seq<OrderBy>, a: seq<Value>, b: seq<Value>, from: nat)
    requires from < |orders| && from < |a| && from < |b|
    ensures ComesFirst(orders, a, b, from) <==>
            CellBelow(orders[from], a[from], b[from])
            || (Tied(a[from], b[from]) && ComesFirst(orders, a, b, from + 1))
  {
    hide Below, Tied;
    if k: nat :| ColumnDecides(orders, a, b, from, k) {
      if k > from { assert ColumnDecides(orders, a, b, from + 1, k); }
    }
    if CellBelow(orders[from], a[from], b[from]) { assert ColumnDecides(orders, a, b, from, from); }
    if ComesFirst(orders, a, b, from + 1) && Tied(a[from], b[from]) {
      var k: nat :| ColumnDecides(orders, a, b, from + 1, k);
      assert ColumnDecides(orders, a, b, from, k);
    }
  }

  ghost function Cells(orders: seq<OrderBy>, d: Document): seq<Value> {
    seq(|orders|, i requires 0 <= i < |orders| => Cell(d, orders[i].field))
  }

  /** Documents are ordered by the first column that tells them apart, ascending or descending as it says. */
  lemma DocumentsInOrder(orders: seq<OrderBy>, l: Document, r: Document)
    ensures ComparedBy(orders, l, r) == Less <==> ComesFirst(orders, Cells(orders, l), Cells(orders, r), 0)
    ensures ComparedBy(orders, l, r) == Greater <==> ComesFirst(orders, Cells(orders, r), Cells(orders, l), 0)
  {
    assert RowOf(orders, l) == Cells(orders, l) && RowOf(orders, r) == Cells(orders, r);
    ColumnsDecide(orders, Cells(orders, l), Cells(orders, r), 0);
  }

  /** What starts at a cursor does not come before it, what starts after it comes after it; likewise for
      the end. */
  lemma CursorsInOrder(orders: seq<OrderBy>, d: Document, cursor: seq<Value>)
    ensures Keeps(orders, FromStart(Bound(cursor, true)), d) <==> !ComesFirst(orders, Cells(orders, d), cursor, 0)
    ensures Keeps(orders, FromStart(Bound(cursor, false)), d) <==> ComesFirst(orders, cursor, Cells(orders, d), 0)
    ensures Keeps(orders, UpToEnd(Bound(cursor, true)), d) <==> !ComesFirst(orders, cursor, Cells(orders, d), 0)
    ensures Keeps(orders, UpToEnd(Bound(cursor, false)), d) <==> ComesFirst(orders, Cells(orders, d), cursor, 0)
  {
    assert RowOf(orders, d) == Cells(orders, d);
    ColumnsDecide(orders, Cells(orders, d), cursor, 0);
    hide ComparedRows, ComesFirst, FieldValue;
  }

  // ----- Inequalities -----

  lemma OneColumn(order: OrderBy, d: Document, x: Value)
    ensures ComparedToBound([order], d, [x]) == Directed(order, Compared(ValueFor(d, order.field), x))
  {
    hide FieldValue, Compared;
    assert RowOf([order], d) == [ValueFor(d, order.field)];
    assert ComparedRows([order], RowOf([order], d), [x], 1) == Equal;
  }

  /** An inequality filter selects what the cursor at its operand selects, of the documents that have the
      field. */
  lemma InequalityIsACursor(d: Document, field: FieldPath, x: Value)
    requires FieldValue(d, field).Some?
    ensures Satisfies(d, On(field, LessThan, x)) <==> Keeps([OrderBy(field, false)], UpToEnd(Bound([x], false)), d)
    ensures Satisfies(d, On(field, LessThanOrEqual, x)) <==>
            Keeps([OrderBy(field, false)], UpToEnd(Bound([x], true)), d)
    ensures Satisfies(d, On(field, GreaterThan, x)) <==>
            Keeps([OrderBy(field, false)], FromStart(Bound([x], false)), d)
    ensures Satisfies(d, On(field, GreaterThanOrEqual, x)) <==>
            Keeps([OrderBy(field, false)], FromStart(Bound([x], true)), d)
  {
    hide FieldValue, Compared;
    OneColumn(OrderBy(field, false), d, x);
  }

  /** It compares the field's value with the operand in the order of values. */
  lemma InequalityInOrder(d: Document, field: FieldPath, x: Value)
    requires FieldValue(d, field).Some?
    ensures var v := FieldValue(d, field).value;
            && (Satisfies(d, On(field, LessThan, x)) <==> Below(v, x))
            && (Satisfies(d, On(field, LessThanOrEqual, x)) <==> !Below(x, v))
            && (Satisfies(d, On(field, GreaterThan, x)) <==> Below(x, v))
            && (Satisfies(d, On(field, GreaterThanOrEqual, x)) <==> !Below(v, x))
  {
    ComparedIsTheOrder(FieldValue(d, field).value, x);
    hide FieldValue, Compared, Below;
  }

  /** Descending, the same filters are the opposite cursors. */
  lemma InequalityIsACursorBackwards(d: Document, field: FieldPath, x: Value)
    requires FieldValue(d, field).Some?
    ensures Satisfies(d, On(field, LessThan, x)) <==> Keeps([OrderBy(field, true)], FromStart(Bound([x], false)), d)
    ensures Satisfies(d, On(field, GreaterThanOrEqual, x)) <==>
            Keeps([OrderBy(field, true)], UpToEnd(Bound([x], true)), d)
  {
    hide FieldValue, Compared;
    OneColumn(OrderBy(field, true), d, x);
  }

  /** A document without the field passes `!=` for any operand but null, and nothing else. */
  lemma MissingFieldPasses(d: Document, field: FieldPath, op: Operator, x: Value)
    requires FieldValue(d, field).None?
    ensures Satisfies(d, On(field, op, x)) <==> op == NotEqualTo && !x.Null?
  {}

  // ----- Membership -----

  /** The value at `i` of an array equals `x`. */
  predicate HasAt(v: Value, i: nat, x: Value) {
    v.Array? && i < |v.items| && SameValue(v.items[i], x)
  }

  lemma ContainsAt(items: seq<Value>, x: Value)
    ensures Contains(items, x) <==> exists i: nat :: HasAt(Array(items), i, x)
  {
    hide SameValue;
    if i: nat :| HasAt(Array(items), i, x) { assert items[i] in items; }
    if Contains(items, x) {
      var y :| y in items && SameValue(y, x);
      var i :| 0 <= i < |items| && items[i] == y;
      assert HasAt(Array(items), i, x);
    }
  }

  /** `array-contains` asks for a position of the field's array, `array-contains-any` for positions of both,
      `in` for a position of the operand; `not-in` asks for none, and for a value that is not null. */
  lemma MembershipByPosition(d: Document, field: FieldPath, x: Value)
    requires FieldValue(d, field).Some?
    ensures var v := FieldValue(d, field).value;
            && (Satisfies(d, On(field, ArrayContains, x)) <==> exists i: nat :: HasAt(v, i, x))
            && (Satisfies(d, On(field, ArrayContainsAny, x)) <==>
                  x.Array? && exists i: nat, j: nat | j < |x.items| :: HasAt(v, i, x.items[j]))
            && (Satisfies(d, On(field, In, x)) <==> exists j: nat :: HasAt(x, j, v))
            && (Satisfies(d, On(field, NotIn, x)) <==> x.Array? && !v.Null? && forall j: nat :: !HasAt(x, j, v))
  {
    hide FieldValue, SameValue, Contains;
    var v := FieldValue(d, field).value;
    if v.Array? { ContainsAt(v.items, x); }
    if x.Array? {
      ContainsAt(x.items, v);
      if v.Array? {
        forall y | y in x.items ensures Contains(v.items, y) <==> exists i: nat :: HasAt(v, i, y) {
          ContainsAt(v.items, y);
        }
        forall j: nat | j < |x.items| ensures x.items[j] in x.items {}
      }
    }
  }

  // ----- Composites -----

  /** A document that does not exist is never selected. A conjunction selects what its parts select one
      after the other, a disjunction what any of its parts selects alone. */
  lemma CompositesSelect(parts: seq<Filter>, d: Document)
    ensures d.data.None? ==> !Selects(parts, d)
    ensures Selects([And(parts)], d) <==> Selects(parts, d)
    ensures Selects([Or(parts)], d) <==> exists i | 0 <= i < |parts| :: Selects([parts[i]], d)
    ensures d.data.Some? ==> (Selects(parts, d) <==> forall i | 0 <= i < |parts| :: Selects([parts[i]], d))
  {
    hide Holds, FieldValue;
    assert And(parts) in [And(parts)] && Or(parts) in [Or(parts)];
    forall i | 0 <= i < |parts| ensures Selects([parts[i]], d) <==> d.data.Some? && Satisfies(d, parts[i]) {
      assert parts[i] in [parts[i]];
    }
    forall f | f in parts ensures exists i | 0 <= i < |parts| :: parts[i] == f {}
  }
}

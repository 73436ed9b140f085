/** Local evaluation of a Firestore query: filter, stable sort, cursor bounds, limit. */
module QueryEvaluator {
  import opened Wrappers
  import opened Text
  import opened FirestoreOrder

  type FieldPath = seq<string>

  const DOCUMENT_ID: FieldPath := ["__name__"]

  /** A snapshot: its key's path segments, and its fields if the document exists. */
  datatype Document = Document(key: seq<string>, data: Option<seq<Field>>)

  datatype Operator =
    | EqualTo | NotEqualTo | LessThan | LessThanOrEqual | GreaterThan | GreaterThanOrEqual
    | ArrayContains | ArrayContainsAny | In | NotIn

  datatype Filter = On(field: FieldPath, op: Operator, operand: Value) | And(all: seq<Filter>) | Or(any: seq<Filter>)

  datatype OrderBy = OrderBy(field: FieldPath, descending: bool)

  predicate OrdersByDocumentId(orders: seq<OrderBy>) {
    exists i | 0 <= i < |orders| :: orders[i].field == DOCUMENT_ID
  }

  datatype Bound = Bound(values: seq<Value>, inclusive: bool)

  datatype LimitType = First | Last

  datatype Query = Query(filters: seq<Filter>, orders: seq<OrderBy>, startAt: Option<Bound>, endAt: Option<Bound>,
                         limit: Option<nat>, limitType: LimitType)

  // ----- Fields and filters -----

  function FieldNamed(fields: seq<Field>, name: string): Option<Value> {
    if fields == [] then None
    else if fields[0].key == name then Some(fields[0].value)
    else FieldNamed(fields[1..], name)
  }

  function FindInMap(fields: seq<Field>, path: FieldPath): Option<Value>
    decreases |path|
  {
    if path == [] then None
    else
      var v := FieldNamed(fields, path[0]);
      if v.None? || |path| == 1 then v
      else if v.value.Map? then FindInMap(v.value.fields, path[1..])
      else None
  }

  function FieldValue(d: Document, field: FieldPath): Option<Value> {
    if field == DOCUMENT_ID then Some(Str(Join(d.key, '/')))
    else if d.data.None? then None
    else FindInMap(d.data.value, field)
  }

  predicate HoldsNaN(v: Value) {
    match v
    case Dbl(d) => d.NaN?
    case GeoPoint(x, y) => x.NaN? || y.NaN?
    case Array(items) => exists x | x in items :: HoldsNaN(x)
    case Map(fields) => exists f | f in fields :: HoldsNaN(f.value)
    case Sentinel(ArrayUnion(elements)) => exists x | x in elements :: HoldsNaN(x)
    case Sentinel(ArrayRemove(elements)) => exists x | x in elements :: HoldsNaN(x)
    case Sentinel(NumericIncrement(x)) => HoldsNaN(x)
    case _ => false
  }

  /** Equality of values as filters use it: an integer is never a double, and NaN never equals itself. */
  predicate SameValue(l: Value, r: Value) {
    l == r && !HoldsNaN(l)
  }

  predicate Contains(items: seq<Value>, needle: Value) {
    exists x | x in items :: SameValue(x, needle)
  }

  predicate Holds(op: Operator, operand: Value, v: Value) {
    var c := Compared(v, operand);
    match op
    case EqualTo => SameValue(v, operand)
    case NotEqualTo => !SameValue(v, operand)
    case LessThan => c == Less
    case LessThanOrEqual => c != Greater
    case GreaterThan => c == Greater
    case GreaterThanOrEqual => c != Less
    case ArrayContains => v.Array? && Contains(v.items, operand)
    case ArrayContainsAny => v.Array? && operand.Array? && exists x | x in operand.items :: Contains(v.items, x)
    case In => operand.Array? && Contains(operand.items, v)
    case NotIn => operand.Array? && !v.Null? && !Contains(operand.items, v)
  }

  predicate Satisfies(d: Document, filter: Filter) {
    match filter
    case On(field, op, operand) =>
      var v := FieldValue(d, field);
      if v.Some? then Holds(op, operand, v.value) else op == NotEqualTo && Holds(op, operand, Value.Null)
    case And(all) => forall f | f in all :: Satisfies(d, f)
    case Or(any) => exists f | f in any :: Satisfies(d, f)
  }

  predicate Selects(filters: seq<Filter>, d: Document) {
    d.data.Some? && forall f | f in filters :: Satisfies(d, f)
  }

  // ----- Order and bounds -----

  function ValueFor(d: Document, field: FieldPath): Value {
    var v := FieldValue(d, field);
    if v.Some? then v.value else Value.Null
  }

  function RowOf(orders: seq<OrderBy>, d: Document): (row: seq<Value>)
    ensures |row| == |orders|
  {
    seq(|orders|, i requires 0 <= i < |orders| => ValueFor(d, orders[i].field))
  }

  function Directed(order: OrderBy, c: Comparison): Comparison {
    if order.descending then Reversed(c) else c
  }

  /** Column by column from the k-th on, as far as both rows reach. */
  function ComparedRows(orders: seq<OrderBy>, a: seq<Value>, b: seq<Value>, k: nat): Comparison
    decreases |orders| - k
  {
    if k >= |orders| || k >= |a| || k >= |b| then Equal
    else Then(Directed(orders[k], Compared(a[k], b[k])), ComparedRows(orders, a, b, k + 1))
  }

  function ComparedBy(orders: seq<OrderBy>, l: Document, r: Document): Comparison {
    ComparedRows(orders, RowOf(orders, l), RowOf(orders, r), 0)
  }

  function ComparedToBound(orders: seq<OrderBy>, d: Document, values: seq<Value>): Comparison {
    ComparedRows(orders, RowOf(orders, d), values, 0)
  }

  predicate IsBeforeStartBound(orders: seq<OrderBy>, d: Document, bound: Bound) {
    var c := ComparedToBound(orders, d, bound.values);
    if bound.inclusive then c == Less else c != Greater
  }

  predicate IsAfterEndBound(orders: seq<OrderBy>, d: Document, bound: Bound) {
    var c := ComparedToBound(orders, d, bound.values);
    if bound.inclusive then c == Greater else c != Less
  }

  method CompareSnapshots(l: Document, r: Document, orders: seq<OrderBy>) returns (c: Comparison)
    ensures c == ComparedBy(orders, l, r)
  {
    for k := 0 to |orders|
      invariant ComparedBy(orders, l, r) == ComparedRows(orders, RowOf(orders, l), RowOf(orders, r), k)
    {
      var compared := CompareValues(ValueFor(l, orders[k].field), ValueFor(r, orders[k].field));
      c := compared.value;
      if orders[k].descending { c := Reversed(c); }
      if c != Equal { return; }
    }
    c := Equal;
  }

  method CompareSnapshotToBound(d: Document, values: seq<Value>, orders: seq<OrderBy>) returns (c: Comparison)
    ensures c == ComparedToBound(orders, d, values)
  {
    for k := 0 to |orders|
      invariant ComparedToBound(orders, d, values) == ComparedRows(orders, RowOf(orders, d), values, k)
    {
      if k >= |values| { break; }
      var compared := CompareValues(ValueFor(d, orders[k].field), values[k]);
      c := compared.value;
      if orders[k].descending { c := Reversed(c); }
      if c != Equal { return; }
    }
    c := Equal;
  }

  // ----- What a query evaluates to -----

  datatype Test = Selected(filters: seq<Filter>) | FromStart(start: Bound) | UpToEnd(end: Bound)

  predicate Keeps(orders: seq<OrderBy>, test: Test, d: Document) {
    match test
    case Selected(filters) => Selects(filters, d)
    case FromStart(bound) => !IsBeforeStartBound(orders, d, bound)
    case UpToEnd(bound) => !IsAfterEndBound(orders, d, bound)
  }

  function Retained(orders: seq<OrderBy>, test: Test, docs: seq<Document>): seq<Document> {
    if docs == [] then []
    else (if Keeps(orders, test, docs[0]) then [docs[0]] else []) + Retained(orders, test, docs[1..])
  }

  /** `d` goes in after everything it does not precede. */
  function Inserted(orders: seq<OrderBy>, docs: seq<Document>, d: Document): seq<Document> {
    if docs == [] || ComparedBy(orders, d, docs[0]) == Less then [d] + docs
    else [docs[0]] + Inserted(orders, docs[1..], d)
  }

  function SortedBy(orders: seq<OrderBy>, docs: seq<Document>): seq<Document> {
    if docs == [] then [] else Inserted(orders, SortedBy(orders, docs[..|docs|-1]), docs[|docs|-1])
  }

  function Started(q: Query, docs: seq<Document>): seq<Document> {
    if q.startAt.Some? then Retained(q.orders, FromStart(q.startAt.value), docs) else docs
  }

  function Windowed(q: Query, docs: seq<Document>): seq<Document> {
    if q.endAt.Some? then Retained(q.orders, UpToEnd(q.endAt.value), Started(q, docs)) else Started(q, docs)
  }

  function Limited(q: Query, docs: seq<Document>): seq<Document> {
    if q.limit.None? || |docs| <= q.limit.value then docs
    else if q.limitType.First? then docs[..q.limit.value]
    else docs[|docs|-q.limit.value..]
  }

  /** Everything the query would return without cursors and limit. */
  function Candidates(q: Query, docs: seq<Document>): seq<Document> {
    SortedBy(q.orders, Retained(q.orders, Selected(q.filters), docs))
  }

  function Evaluated(q: Query, docs: seq<Document>): seq<Document> {
    Limited(q, Windowed(q, Candidates(q, docs)))
  }

  // ----- The evaluation as it runs -----

  method TestDocument(orders: seq<OrderBy>, test: Test, d: Document) returns (keep: bool)
    ensures keep == Keeps(orders, test, d)
  {
    match test
    case Selected(filters) => keep := Selects(filters, d);
    case FromStart(bound) =>
      var c := CompareSnapshotToBound(d, bound.values, orders);
      keep := !(if bound.inclusive then c == Less else c != Greater);
    case UpToEnd(bound) =>
      var c := CompareSnapshotToBound(d, bound.values, orders);
      keep := !(if bound.inclusive then c == Greater else c != Less);
  }

  method Retain(orders: seq<OrderBy>, test: Test, docs: seq<Document>) returns (kept: seq<Document>)
    ensures kept == Retained(orders, test, docs)
  {
    hide Keeps;
    kept := [];
    for i := 0 to |docs|
      invariant kept + Retained(orders, test, docs[i..]) == Retained(orders, test, docs)
    {
      var keep := TestDocument(orders, test, docs[i]);
      assert docs[i..][0] == docs[i] && docs[i..][1..] == docs[i+1..];
      if keep { kept := kept + [docs[i]]; }
    }
  }

  lemma {:induction false} InsertedAt(orders: seq<OrderBy>, docs: seq<Document>, d: Document, i: nat)
    requires i <= |docs|
    requires forall k | 0 <= k < i :: ComparedBy(orders, d, docs[k]) != Less
    requires i < |docs| ==> ComparedBy(orders, d, docs[i]) == Less
    ensures Inserted(orders, docs, d) == docs[..i] + [d] + docs[i..]
  {
    hide ComparedBy;
    if i > 0 {
      InsertedAt(orders, docs[1..], d, i - 1);
      assert docs[..i] == [docs[0]] + docs[1..][..i-1];
    }
  }

  method StableSort(orders: seq<OrderBy>, docs: seq<Document>) returns (sorted: seq<Document>)
    ensures sorted == SortedBy(orders, docs)
  {
    hide ComparedBy, Inserted;
    sorted := [];
    for n := 0 to |docs|
      invariant sorted == SortedBy(orders, docs[..n])
    {
      var i := 0;
      while i < |sorted|
        invariant i <= |sorted|
        invariant forall k | 0 <= k < i :: ComparedBy(orders, docs[n], sorted[k]) != Less
      {
        var c := CompareSnapshots(docs[n], sorted[i], orders);
        if c == Less { break; }
        i := i + 1;
      }
      InsertedAt(orders, sorted, docs[n], i);
      assert docs[..n+1][..n] == docs[..n];
      sorted := sorted[..i] + [docs[n]] + sorted[i..];
    }
    assert docs[..|docs|] == docs;
  }

  method ApplyQuery(docs: seq<Document>, q: Query) returns (filtered: seq<Document>)
    ensures filtered == Evaluated(q, docs)
  {
    filtered := Retain(q.orders, Selected(q.filters), docs);
    filtered := StableSort(q.orders, filtered);
    if q.startAt.Some? { filtered := Retain(q.orders, FromStart(q.startAt.value), filtered); }
    if q.endAt.Some? { filtered := Retain(q.orders, UpToEnd(q.endAt.value), filtered); }
    if q.limit.Some? && |filtered| > q.limit.value {
      match q.limitType
      case First => filtered := filtered[..q.limit.value];
      case Last => filtered := filtered[|filtered|-q.limit.value..];
    }
  }

  // ----- Cursors from a document -----

  datatype CursorError = NoSuchDocument | FieldMissing

  predicate Lacks(d: Document, order: OrderBy) {
    order.field != DOCUMENT_ID && FieldValue(d, order.field).None?
  }

  datatype DatabaseId = DatabaseId(project: string, name: string)

  /** The cursor value for one ordering. */
  function CursorValue(d: Document, order: OrderBy, database: DatabaseId): Value {
    if order.field == DOCUMENT_ID then
      Reference("projects/" + database.project + "/databases/" + database.name + "/documents/" + Join(d.key, '/'))
    else ValueFor(d, order.field)
  }

  /** It names the document by its full resource name. */
  lemma ReferenceNamesTheDocument(d: Document, order: OrderBy, database: DatabaseId)
    requires order.field == DOCUMENT_ID && '/' !in database.project && '/' !in database.name
    requires d.key != [] && forall s | s in d.key :: '/' !in s
    ensures CursorValue(d, order, database).Reference?
    ensures Split(CursorValue(d, order, database).path, '/')
         == ["projects", database.project, "databases", database.name, "documents"] + d.key
  {
    var names := ["projects", database.project, "databases", database.name, "documents"];
    JoinFive(names, d.key);
    FiveNames(database.project, database.name, Join(d.key, '/'));
    SplitOfJoin(names + d.key, '/');
  }

  lemma FiveNames(project: string, name: string, key: string)
    ensures "projects/" + project + "/databases/" + name + "/documents/" + key ==
            "projects" + "/" + (project + "/" + ("databases" + "/" + (name + "/" + ("documents" + "/" + key))))
  {
    assert "/databases/" + name + "/documents/" + key
        == "/" + ("databases" + "/" + (name + "/" + ("documents" + "/" + key)));
    assert "projects/" + project + "/databases/" + name + "/documents/" + key
        == "projects/" + project + ("/databases/" + name + "/documents/" + key);
  }

  lemma JoinMore(first: string, rest: seq<string>, sep: char)
    requires rest != []
    ensures Join([first] + rest, sep) == first + [sep] + Join(rest, sep)
  {
    assert ([first] + rest)[1..] == rest;
  }

  lemma JoinFive(names: seq<string>, key: seq<string>)
    requires |names| == 5 && key != []
    ensures Join(names + key, '/') ==
            names[0] + "/" + (names[1] + "/" + (names[2] + "/" + (names[3] + "/" + (names[4] + "/" + Join(key, '/')))))
  {
    assert names + key == [names[0]] + ([names[1]] + ([names[2]] + ([names[3]] + ([names[4]] + key))));
    JoinMore(names[4], key, '/');
    JoinMore(names[3], [names[4]] + key, '/');
    JoinMore(names[2], [names[3]] + ([names[4]] + key), '/');
    JoinMore(names[1], [names[2]] + ([names[3]] + ([names[4]] + key)), '/');
    JoinMore(names[0], [names[1]] + ([names[2]] + ([names[3]] + ([names[4]] + key))), '/');
  }

  function CursorValues(orders: seq<OrderBy>, d: Document, database: DatabaseId): Result<seq<Value>, CursorError> {
    if d.data.None? then Err(NoSuchDocument)
    else if exists order | order in orders :: Lacks(d, order) then Err(FieldMissing)
    else Ok(seq(|orders|, i requires 0 <= i < |orders| => CursorValue(d, orders[i], database)))
  }

  method CursorValuesFromSnapshot(orders: seq<OrderBy>, d: Document, database: DatabaseId)
    returns (r: Result<seq<Value>, CursorError>)
    ensures r == CursorValues(orders, d, database)
    ensures r == Err(NoSuchDocument) <==> d.data.None?
    ensures r == Err(FieldMissing) <==>
            d.data.Some?
            && exists order | order in orders :: order.field != ["__name__"] && FieldValue(d, order.field).None?
    ensures r.Ok? ==>
            |r.value| == |orders|
            && forall i | 0 <= i < |orders| && orders[i].field != ["__name__"] ::
                 FieldValue(d, orders[i].field) == Some(r.value[i])
  {
    if d.data.None? { return Err(NoSuchDocument); }
    var values := [];
    for i := 0 to |orders|
      invariant |values| == i
      invariant forall k | 0 <= k < i :: !Lacks(d, orders[k]) && values[k] == CursorValue(d, orders[k], database)
    {
      if Lacks(d, orders[i]) {
        assert orders[i] in orders;
        return Err(FieldMissing);
      }
      values := values + [CursorValue(d, orders[i], database)];
    }
    assert forall order | order in orders :: exists k :: 0 <= k < |orders| && orders[k] == order;
    assert values == seq(|orders|, i requires 0 <= i < |orders| => CursorValue(d, orders[i], database));
    return Ok(values);
  }
}

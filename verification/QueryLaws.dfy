/** What query evaluation guarantees, for documents whose ordering values hold no integer beyond 2^53. */
module QueryLaws {
  import opened Wrappers
  import opened Text
  import opened FirestoreOrder
  import opened QueryEvaluator

  // ----- The order of documents -----

  predicate ExactRow(row: seq<Value>) {
    forall v | v in row :: IntegersWithin(v, TWO_53)
  }

  /** Every integer a document is ordered by converts to a double exactly. */
  predicate Exact(orders: seq<OrderBy>, docs: seq<Document>) {
    forall d | d in docs :: ExactRow(RowOf(orders, d))
  }

  lemma {:induction false} RowsReverse(orders: seq<OrderBy>, a: seq<Value>, b: seq<Value>, k: nat)
    ensures ComparedRows(orders, b, a, k) == Reversed(ComparedRows(orders, a, b, k))
    decreases |orders| - k
  {
    if k < |orders| && k < |a| && k < |b| {
      ComparedReverses(a[k], b[k]);
      RowsReverse(orders, a, b, k + 1);
    }
  }

  lemma {:induction false} RowsChain(orders: seq<OrderBy>, a: seq<Value>, b: seq<Value>, c: seq<Value>, k: nat)
    requires ExactRow(a) && ExactRow(b) && ExactRow(c) && |a| == |b| == |c|
    ensures Chains(ComparedRows(orders, a, b, k), ComparedRows(orders, b, c, k), ComparedRows(orders, a, c, k))
    decreases |orders| - k
  {
    if k < |orders| && k < |a| {
      ComparedChains(a[k], b[k], c[k]);
      RowsChain(orders, a, b, c, k + 1);
    }
  }

  function Rank(c: Comparison): int {
    match c case Less => -1 case Equal => 0 case Greater => 1
  }

  /** A cursor may stop short of the last column; going up the order never moves from after it to before it. */
  lemma {:induction false} RowsMonotone(orders: seq<OrderBy>, a: seq<Value>, b: seq<Value>, cursor: seq<Value>, k: nat)
    requires ExactRow(a) && ExactRow(b) && ExactRow(cursor) && |a| == |b| == |orders|
    requires ComparedRows(orders, a, b, k) != Greater
    ensures Rank(ComparedRows(orders, a, cursor, k)) <= Rank(ComparedRows(orders, b, cursor, k))
    decreases |orders| - k
  {
    if k < |orders| && k < |cursor| {
      ComparedChains(a[k], b[k], cursor[k]);
      if ComparedRows(orders, a, b, k + 1) != Greater { RowsMonotone(orders, a, b, cursor, k + 1); }
    }
  }

  /** Comparing documents is a total preorder, for every order-by list and mix of directions. */
  lemma DocumentsAreOrdered(orders: seq<OrderBy>, a: Document, b: Document, c: Document)
    requires Exact(orders, [a, b, c])
    ensures ComparedBy(orders, a, a) == Equal
    ensures ComparedBy(orders, b, a) == Reversed(ComparedBy(orders, a, b))
    ensures Chains(ComparedBy(orders, a, b), ComparedBy(orders, b, c), ComparedBy(orders, a, c))
  {
    RowsReverse(orders, RowOf(orders, a), RowOf(orders, b), 0);
    RowsReverse(orders, RowOf(orders, a), RowOf(orders, a), 0);
    assert a in [a, b, c] && b in [a, b, c] && c in [a, b, c];
    RowsChain(orders, RowOf(orders, a), RowOf(orders, b), RowOf(orders, c), 0);
  }

  // ----- Filters -----

  /** Where two values correspond, an integer faces an integer and a double a double. The order does not
      tell sentinels apart. */
  predicate SameForms(l: Value, r: Value) {
    !(l.Integer? && r.Dbl?) && !(l.Dbl? && r.Integer?) && (l.Sentinel? && r.Sentinel? ==> l == r)
    && forall k | 0 <= k < Parts(l) && k < Parts(r) :: SameForms(PartAt(l, k), PartAt(r, k))
  }

  lemma {:induction false} SameFormsAsItself(v: Value)
    ensures SameForms(v, v)
  {
    forall k | 0 <= k < Parts(v) ensures SameForms(PartAt(v, k), PartAt(v, k)) {
      SameFormsAsItself(PartAt(v, k));
    }
  }

  lemma {:induction false} EqualBytes(a: seq<nat>, b: seq<nat>)
    requires OfBytes(a, b) == Equal
    ensures a == b
  {
    if a != [] && b != [] {
      EqualBytes(a[1..], b[1..]);
      assert a == [a[0]] + a[1..] && b == [b[0]] + b[1..];
    }
  }

  lemma {:induction false} EqualTexts(a: seq<string>, b: seq<string>)
    requires OfTexts(a, b) == Equal
    ensures a == b
  {
    if a != [] && b != [] {
      EqualTexts(a[1..], b[1..]);
      assert a == [a[0]] + a[1..] && b == [b[0]] + b[1..];
    }
  }

  lemma {:induction false} TiedValues(l: Value, r: Value)
    requires Compared(l, r) == Equal && SameForms(l, r)
    ensures l == r
    decreases l, Parts(l) + 1
  {
    match (l, r)
    case (Bytes(a), Bytes(b)) => EqualBytes(a, b);
    case (Reference(a), Reference(b)) =>
      EqualTexts(Split(a, '/'), Split(b, '/'));
      JoinOfSplit(a, '/');
      JoinOfSplit(b, '/');
    case (Array(a), Array(b)) =>
      TiedParts(l, r, 0);
      assert forall k | 0 <= k < |a| && k < |b| :: a[k] == PartAt(l, k) && b[k] == PartAt(r, k);
    case (Map(a), Map(b)) =>
      TiedParts(l, r, 0);
      assert forall k | 0 <= k < |a| && k < |b| ::
          a[k] == Field(KeyAt(l, k), PartAt(l, k)) && b[k] == Field(KeyAt(r, k), PartAt(r, k));
    case _ =>
  }

  lemma {:induction false} TiedParts(l: Value, r: Value, from: nat)
    requires from <= Parts(l) && from <= Parts(r)
    requires ComparedFrom(l, r, from) == Equal && SameForms(l, r)
    ensures Parts(l) == Parts(r)
    ensures forall k | from <= k < Parts(l) :: KeyAt(l, k) == KeyAt(r, k) && PartAt(l, k) == PartAt(r, k)
    decreases l, Parts(l) - from
  {
    if from < Parts(l) && from < Parts(r) {
      TiedValues(PartAt(l, from), PartAt(r, from));
      TiedParts(l, r, from + 1);
    }
  }

  /** Filters use another equality than the order. A value passes for equal exactly if it ties, holds no
      NaN, and no integer in it faces a double: 1 and 1.0 tie and are not equal. */
  lemma EqualIffTied(l: Value, r: Value)
    ensures SameValue(l, r) <==> Compared(l, r) == Equal && SameForms(l, r) && !HoldsNaN(l)
  {
    ComparedToItself(l);
    SameFormsAsItself(l);
    if Compared(l, r) == Equal && SameForms(l, r) { TiedValues(l, r); }
  }

  // ----- Sorting -----

  ghost predicate Ascending(orders: seq<OrderBy>, docs: seq<Document>) {
    forall i, j | 0 <= i < j < |docs| :: ComparedBy(orders, docs[i], docs[j]) != Greater
  }

  /** The documents tied with `d`, in their order. */
  function Ties(orders: seq<OrderBy>, docs: seq<Document>, d: Document): seq<Document> {
    if docs == [] then []
    else (if ComparedBy(orders, docs[0], d) == Equal then [docs[0]] else []) + Ties(orders, docs[1..], d)
  }

  lemma {:induction false} TiesSplit(orders: seq<OrderBy>, a: seq<Document>, b: seq<Document>, d: Document)
    ensures Ties(orders, a + b, d) == Ties(orders, a, d) + Ties(orders, b, d)
  {
    hide ComparedBy;
    if a == [] {
      assert a + b == b;
    } else {
      TiesSplit(orders, a[1..], b, d);
      assert (a + b)[1..] == a[1..] + b && (a + b)[0] == a[0];
    }
  }

  lemma {:induction false} InsertedKeepsAll(orders: seq<OrderBy>, docs: seq<Document>, x: Document)
    ensures multiset(Inserted(orders, docs, x)) == multiset(docs) + multiset{x}
    ensures forall d :: d in Inserted(orders, docs, x) <==> d == x || d in docs
  {
    if docs != [] {
      assert docs == [docs[0]] + docs[1..];
      InsertedKeepsAll(orders, docs[1..], x);
    }
  }

  lemma {:induction false} InsertedAscends(orders: seq<OrderBy>, docs: seq<Document>, x: Document)
    requires Ascending(orders, docs) && Exact(orders, docs) && Exact(orders, [x])
    ensures Ascending(orders, Inserted(orders, docs, x))
  {
    if docs != [] {
      assert x in [x] && docs[0] in docs;
      if ComparedBy(orders, x, docs[0]) == Less {
        forall j | 0 <= j < |docs| ensures ComparedBy(orders, x, docs[j]) != Greater {
          assert docs[j] in docs;
          DocumentsAreOrdered(orders, x, docs[0], docs[j]);
        }
      } else {
        InsertedAscends(orders, docs[1..], x);
        InsertedKeepsAll(orders, docs[1..], x);
        DocumentsAreOrdered(orders, x, docs[0], x);
        var rest := Inserted(orders, docs[1..], x);
        forall j | 0 <= j < |rest| ensures ComparedBy(orders, docs[0], rest[j]) != Greater {
          assert rest[j] in rest;
          if rest[j] != x {
            var i :| 0 <= i < |docs[1..]| && docs[1..][i] == rest[j];
            assert rest[j] == docs[i+1];
          }
        }
      }
    }
  }

  lemma {:induction false} NoTieAfterLess(orders: seq<OrderBy>, docs: seq<Document>, x: Document, d: Document)
    requires Exact(orders, docs) && Exact(orders, [x, d])
    requires forall y | y in docs :: ComparedBy(orders, x, y) == Less
    requires ComparedBy(orders, x, d) == Equal
    ensures Ties(orders, docs, d) == []
  {
    if docs != [] {
      assert docs[0] in docs && x in [x, d] && d in [x, d];
      DocumentsAreOrdered(orders, x, docs[0], d);
      NoTieAfterLess(orders, docs[1..], x, d);
    }
  }

  lemma {:induction false} InsertedIsStable(orders: seq<OrderBy>, docs: seq<Document>, x: Document, d: Document)
    requires Ascending(orders, docs) && Exact(orders, docs) && Exact(orders, [x, d])
    ensures Ties(orders, Inserted(orders, docs, x), d) == Ties(orders, docs, d) + Ties(orders, [x], d)
  {
    hide ComparedBy;
    assert [x][1..] == [];
    if docs != [] {
      if ComparedBy(orders, x, docs[0]) == Less {
        TiesSplit(orders, [x], docs, d);
        if ComparedBy(orders, x, d) == Equal {
          forall y | y in docs ensures ComparedBy(orders, x, y) == Less {
            var j :| 0 <= j < |docs| && docs[j] == y;
            assert docs[0] in docs && x in [x, d];
            DocumentsAreOrdered(orders, x, docs[0], y);
          }
          NoTieAfterLess(orders, docs, x, d);
        }
      } else {
        InsertedIsStable(orders, docs[1..], x, d);
        assert Inserted(orders, docs, x)[1..] == Inserted(orders, docs[1..], x);
      }
    }
  }

  /** Sorting loses and adds nothing, puts the documents in order, and keeps the input order of ties. */
  lemma {:induction false} SortIsStable(orders: seq<OrderBy>, docs: seq<Document>)
    requires Exact(orders, docs)
    ensures Ascending(orders, SortedBy(orders, docs))
    ensures multiset(SortedBy(orders, docs)) == multiset(docs)
    ensures forall d | Exact(orders, [d]) :: Ties(orders, SortedBy(orders, docs), d) == Ties(orders, docs, d)
  {
    if docs != [] {
      var front, x := docs[..|docs|-1], docs[|docs|-1];
      assert docs == front + [x];
      assert x in docs && forall d | d in front :: d in docs;
      SortIsStable(orders, front);
      var sorted := SortedBy(orders, front);
      assert forall d | d in sorted :: d in multiset(sorted);
      assert Exact(orders, sorted) && Exact(orders, [x]);
      InsertedAscends(orders, sorted, x);
      InsertedKeepsAll(orders, sorted, x);
      forall d | Exact(orders, [d]) ensures Ties(orders, SortedBy(orders, docs), d) == Ties(orders, docs, d) {
        assert d in [d];
        InsertedIsStable(orders, sorted, x, d);
        TiesSplit(orders, front, [x], d);
      }
    }
  }

  // ----- Document ids decide every tie -----

  predicate ValidKey(key: seq<string>) {
    key != [] && forall segment | segment in key :: segment != "" && '/' !in segment
  }

  /** A collection: no two documents under one key. */
  ghost predicate Collection(docs: seq<Document>) {
    && (forall d | d in docs :: ValidKey(d.key))
    && (forall i, j | 0 <= i < j < |docs| :: docs[i].key != docs[j].key)
  }

  lemma {:induction false} EqualRowsAgree(orders: seq<OrderBy>, a: seq<Value>, b: seq<Value>, k: nat, i: nat)
    requires |a| == |b| == |orders| && k <= i < |orders| && ComparedRows(orders, a, b, k) == Equal
    ensures Compared(a[i], b[i]) == Equal
    decreases i - k
  {
    if k < i { EqualRowsAgree(orders, a, b, k + 1, i); }
  }

  lemma TiedMeansSameKey(orders: seq<OrderBy>, a: Document, b: Document)
    requires OrdersByDocumentId(orders) && ValidKey(a.key) && ValidKey(b.key)
    requires ComparedBy(orders, a, b) == Equal
    ensures a.key == b.key
  {
    var i :| 0 <= i < |orders| && orders[i].field == DOCUMENT_ID;
    EqualRowsAgree(orders, RowOf(orders, a), RowOf(orders, b), 0, i);
    assert RowOf(orders, a)[i] == Str(Join(a.key, '/')) && RowOf(orders, b)[i] == Str(Join(b.key, '/'));
    SplitOfJoin(a.key, '/');
    SplitOfJoin(b.key, '/');
  }

  ghost predicate StrictlyAscending(orders: seq<OrderBy>, docs: seq<Document>) {
    forall i, j | 0 <= i < j < |docs| :: ComparedBy(orders, docs[i], docs[j]) == Less
  }

  lemma {:induction false} PermutedCollection(docs: seq<Document>, other: seq<Document>)
    requires Collection(docs) && multiset(docs) == multiset(other)
    ensures Collection(other)
  {
    forall d | d in other ensures ValidKey(d.key) { assert d in multiset(other); }
    forall i, j | 0 <= i < j < |other| ensures other[i].key != other[j].key {
      assert other[i] in multiset(other) && other[j] in multiset(other);
      assert other[i] in docs && other[j] in docs;
      if other[i].key == other[j].key {
        assert other[i] == other[j];
        OccursTwice(other, i, j);
        OccursOnce(docs, other[i]);
      }
    }
  }

  lemma OccursTwice(docs: seq<Document>, i: nat, j: nat)
    requires i < j < |docs| && docs[i] == docs[j]
    ensures multiset(docs)[docs[i]] >= 2
  {
    assert docs == docs[..j] + docs[j..];
    assert docs[..j][i] == docs[i] && docs[j..][0] == docs[j];
    assert docs[i] in docs[..j] && docs[i] in docs[j..];
  }

  lemma {:induction false} OccursOnce(docs: seq<Document>, d: Document)
    requires Collection(docs)
    ensures multiset(docs)[d] <= 1
  {
    if docs != [] {
      assert docs == [docs[0]] + docs[1..];
      OccursOnce(docs[1..], d);
      assert docs[0] !in docs[1..];
    }
  }

  lemma {:induction false} RetainedIsPart(orders: seq<OrderBy>, test: Test, docs: seq<Document>)
    ensures forall d :: d in Retained(orders, test, docs) <==> d in docs && Keeps(orders, test, d)
  {
    hide Keeps;
    if docs != [] {
      assert docs == [docs[0]] + docs[1..];
      RetainedIsPart(orders, test, docs[1..]);
    }
  }

  lemma {:induction false} RetainedIsCollection(orders: seq<OrderBy>, test: Test, docs: seq<Document>)
    requires Collection(docs)
    ensures Collection(Retained(orders, test, docs))
  {
    hide Keeps, ValidKey;
    if docs != [] {
      RetainedIsCollection(orders, test, docs[1..]);
      RetainedIsPart(orders, test, docs[1..]);
      HeadHasItsOwnKey(docs, Retained(orders, test, docs[1..]));
    }
  }

  lemma HeadHasItsOwnKey(docs: seq<Document>, part: seq<Document>)
    requires docs != [] && Collection(docs) && forall d | d in part :: d in docs[1..]
    ensures forall j | 0 <= j < |part| :: docs[0].key != part[j].key
  {
    hide ValidKey;
    forall j | 0 <= j < |part| ensures docs[0].key != part[j].key {
      assert part[j] in part;
      var i :| 0 <= i < |docs[1..]| && docs[1..][i] == part[j];
      assert docs[i+1] == part[j];
    }
  }

  /** What is assumed of a query's input: keys are distinct, the order ends ties by document id. */
  ghost predicate Sound(q: Query, docs: seq<Document>) {
    OrdersByDocumentId(q.orders) && Collection(docs) && Exact(q.orders, docs)
  }

  lemma AscendsStrictly(orders: seq<OrderBy>, s: seq<Document>)
    requires Ascending(orders, s) && Collection(s) && OrdersByDocumentId(orders)
    ensures StrictlyAscending(orders, s)
  {
    forall i, j | 0 <= i < j < |s| ensures ComparedBy(orders, s[i], s[j]) == Less {
      assert s[i] in s && s[j] in s;
      if ComparedBy(orders, s[i], s[j]) == Equal { TiedMeansSameKey(orders, s[i], s[j]); }
    }
  }

  /** The candidates are the selected documents, each once, in one strict order. */
  lemma CandidatesAscend(q: Query, docs: seq<Document>)
    requires Sound(q, docs)
    ensures var s := Candidates(q, docs);
            && StrictlyAscending(q.orders, s) && Exact(q.orders, s) && Collection(s)
            && forall d :: d in s <==> d in docs && Selects(q.filters, d)
  {
    hide Retained, SortedBy, Collection, OrdersByDocumentId, ComparedBy, ExactRow, RowOf;
    var selected := Retained(q.orders, Selected(q.filters), docs);
    var s := Candidates(q, docs);
    RetainedIsPart(q.orders, Selected(q.filters), docs);
    RetainedIsCollection(q.orders, Selected(q.filters), docs);
    SortIsStable(q.orders, selected);
    PermutedCollection(selected, s);
    forall d ensures d in s <==> d in selected { assert d in multiset(s) <==> d in multiset(selected); }
    AscendsStrictly(q.orders, s);
  }

  /** Without a limit the answer is the documents that pass the filters and both cursors. */
  lemma AnswerIsWhatPasses(q: Query, docs: seq<Document>)
    requires Sound(q, docs) && q.limit.None?
    ensures forall d :: d in Evaluated(q, docs) <==>
              && d in docs && Selects(q.filters, d)
              && (q.startAt.Some? ==> Keeps(q.orders, FromStart(q.startAt.value), d))
              && (q.endAt.Some? ==> Keeps(q.orders, UpToEnd(q.endAt.value), d))
  {
    hide Candidates, Sound, Keeps, Selects, Retained;
    CandidatesAscend(q, docs);
    var s := Candidates(q, docs);
    if q.startAt.Some? { RetainedIsPart(q.orders, FromStart(q.startAt.value), s); }
    if q.endAt.Some? { RetainedIsPart(q.orders, UpToEnd(q.endAt.value), Started(q, s)); }
  }

  // ----- One order per set of documents -----

  /** Two strict lists of the same documents are one list. */
  lemma {:induction false} StrictOrderIsUnique(orders: seq<OrderBy>, a: seq<Document>, b: seq<Document>)
    requires StrictlyAscending(orders, a) && StrictlyAscending(orders, b)
    requires forall d :: d in a <==> d in b
    ensures a == b
  {
    assert b != [] ==> b[0] in b;
    if a != [] {
      assert a[0] in a && a[0] in b;
      assert b[0] in b && b[0] in a;
      RowsReverse(orders, RowOf(orders, a[0]), RowOf(orders, b[0]), 0);
      forall d ensures d in a[1..] <==> d in b[1..] {
        if d in a[1..] { NotFirst(orders, a, d); }
        if d in b[1..] { NotFirst(orders, b, d); }
      }
      StrictOrderIsUnique(orders, a[1..], b[1..]);
    }
  }

  lemma NotFirst(orders: seq<OrderBy>, docs: seq<Document>, d: Document)
    requires StrictlyAscending(orders, docs) && docs != [] && d in docs[1..]
    ensures d in docs && d != docs[0]
  {
    var i :| 0 <= i < |docs[1..]| && docs[1..][i] == d;
    assert docs[i+1] == d;
    RowsReverse(orders, RowOf(orders, d), RowOf(orders, d), 0);
  }

  /** The result does not depend on the order in which the documents come. */
  lemma InputOrderIsIrrelevant(q: Query, docs: seq<Document>, other: seq<Document>)
    requires Sound(q, docs) && multiset(docs) == multiset(other)
    ensures Evaluated(q, docs) == Evaluated(q, other)
  {
    PermutedCollection(docs, other);
    forall d ensures d in docs <==> d in other { assert d in multiset(docs) <==> d in multiset(other); }
    CandidatesAscend(q, docs);
    CandidatesAscend(q, other);
    StrictOrderIsUnique(q.orders, Candidates(q, docs), Candidates(q, other));
  }

  // ----- Cursors -----

  function Opposite(test: Test): Test
    requires !test.Selected?
  {
    match test
    case FromStart(b) => UpToEnd(Bound(b.values, !b.inclusive))
    case UpToEnd(b) => FromStart(Bound(b.values, !b.inclusive))
  }

  lemma {:induction false} RetainsAll(orders: seq<OrderBy>, test: Test, docs: seq<Document>)
    requires forall d | d in docs :: Keeps(orders, test, d)
    ensures Retained(orders, test, docs) == docs
  {
    hide Keeps;
    if docs != [] {
      RetainsAll(orders, test, docs[1..]);
      assert docs == [docs[0]] + docs[1..];
    }
  }

  lemma {:induction false} RetainsNone(orders: seq<OrderBy>, test: Test, docs: seq<Document>)
    requires forall d | d in docs :: !Keeps(orders, test, d)
    ensures Retained(orders, test, docs) == []
  {
    hide Keeps;
    if docs != [] { RetainsNone(orders, test, docs[1..]); }
  }

  lemma StartTestIsMonotone(orders: seq<OrderBy>, b: Bound, x: Document, y: Document)
    requires ExactRow(RowOf(orders, x)) && ExactRow(RowOf(orders, y)) && ExactRow(b.values)
    requires ComparedBy(orders, x, y) != Greater && Keeps(orders, FromStart(b), x)
    ensures Keeps(orders, FromStart(b), y)
  {
    RowsMonotone(orders, RowOf(orders, x), RowOf(orders, y), b.values, 0);
  }

  lemma OppositeTest(orders: seq<OrderBy>, test: Test, d: Document)
    requires !test.Selected?
    ensures Keeps(orders, Opposite(test), d) == !Keeps(orders, test, d)
  {}

  /** A cursor cuts a sorted list in two: what ends at it and what starts from it, for `startAt` with
      `endBefore` and for `startAfter` with `endAt`. The start test drops a prefix, the end test a suffix. */
  lemma {:induction false} CursorCutsInTwo(orders: seq<OrderBy>, b: Bound, docs: seq<Document>)
    requires Ascending(orders, docs) && Exact(orders, docs) && ExactRow(b.values)
    ensures Retained(orders, Opposite(FromStart(b)), docs) + Retained(orders, FromStart(b), docs) == docs
  {
    hide Keeps, Opposite, ComparedBy;
    if docs != [] {
      assert docs[0] in docs;
      OppositeTest(orders, FromStart(b), docs[0]);
      if Keeps(orders, FromStart(b), docs[0]) {
        forall d | d in docs ensures Keeps(orders, FromStart(b), d) && !Keeps(orders, Opposite(FromStart(b)), d) {
          var j :| 0 <= j < |docs| && docs[j] == d;
          if j > 0 { StartTestIsMonotone(orders, b, docs[0], d); }
          OppositeTest(orders, FromStart(b), d);
        }
        RetainsAll(orders, FromStart(b), docs);
        RetainsNone(orders, Opposite(FromStart(b)), docs);
      } else {
        CursorCutsInTwo(orders, b, docs[1..]);
        assert docs == [docs[0]] + docs[1..];
      }
    }
  }

  predicate ExactBound(b: Option<Bound>) {
    b.Some? ==> ExactRow(b.value.values)
  }

  lemma StartIsASuffix(orders: seq<OrderBy>, b: Bound, docs: seq<Document>) returns (i: nat)
    requires Ascending(orders, docs) && Exact(orders, docs) && ExactRow(b.values)
    ensures i <= |docs| && Retained(orders, FromStart(b), docs) == docs[i..]
  {
    CursorCutsInTwo(orders, b, docs);
    i := |Retained(orders, Opposite(FromStart(b)), docs)|;
  }

  lemma EndIsAPrefix(orders: seq<OrderBy>, b: Bound, docs: seq<Document>) returns (j: nat)
    requires Ascending(orders, docs) && Exact(orders, docs) && ExactRow(b.values)
    ensures j <= |docs| && Retained(orders, UpToEnd(b), docs) == docs[..j]
  {
    CursorCutsInTwo(orders, Bound(b.values, !b.inclusive), docs);
    j := |Retained(orders, UpToEnd(b), docs)|;
  }

  /** The window between two cursors is a contiguous stretch of the candidates. */
  lemma WindowIsContiguous(q: Query, docs: seq<Document>) returns (i: nat, j: nat)
    requires Sound(q, docs) && ExactBound(q.startAt) && ExactBound(q.endAt)
    ensures i <= j <= |Candidates(q, docs)| && Windowed(q, Candidates(q, docs)) == Candidates(q, docs)[i..j]
    ensures Started(q, Candidates(q, docs)) == Candidates(q, docs)[i..]
  {
    hide Retained, Candidates, Collection, OrdersByDocumentId, ExactRow, ComparedBy, RowOf;
    CandidatesAscend(q, docs);
    var s := Candidates(q, docs);
    i := 0;
    if q.startAt.Some? { i := StartIsASuffix(q.orders, q.startAt.value, s); }
    assert forall d | d in s[i..] :: d in s;
    j := |s|;
    if q.endAt.Some? {
      var length := EndIsAPrefix(q.orders, q.endAt.value, s[i..]);
      j := i + length;
      assert s[i..][..length] == s[i..j];
    }
  }

  // ----- Limits from the end -----

  function Flipped(orders: seq<OrderBy>): seq<OrderBy> {
    seq(|orders|, i requires 0 <= i < |orders| => OrderBy(orders[i].field, !orders[i].descending))
  }

  /** The form in which a limit-to-last query is sent: directions flipped, cursors swapped, limit from
      the front. */
  function RequestForm(q: Query): Query {
    if q.limitType.Last? then Query(q.filters, Flipped(q.orders), q.endAt, q.startAt, q.limit, First) else q
  }

  /** The list from its end to its start. */
  function Backwards<T>(s: seq<T>): seq<T> {
    seq(|s|, i requires 0 <= i < |s| => s[|s|-1-i])
  }

  lemma BackwardsSplit<T>(a: seq<T>, b: seq<T>)
    ensures Backwards(a + b) == Backwards(b) + Backwards(a)
  {}

  lemma BackwardsFront<T>(x: T, rest: seq<T>)
    ensures Backwards([x] + rest) == Backwards(rest) + [x]
  {
    BackwardsSplit([x], rest);
    assert Backwards([x]) == [x];
  }

  lemma BackwardsTwice<T>(s: seq<T>)
    ensures Backwards(Backwards(s)) == s
  {}

  lemma {:induction false} FlippedRows(orders: seq<OrderBy>, a: seq<Value>, b: seq<Value>, k: nat)
    ensures ComparedRows(Flipped(orders), a, b, k) == Reversed(ComparedRows(orders, a, b, k))
    decreases |orders| - k
  {
    if k < |orders| { FlippedRows(orders, a, b, k + 1); }
  }

  lemma FlippedRowOf(orders: seq<OrderBy>, d: Document)
    ensures RowOf(Flipped(orders), d) == RowOf(orders, d)
  {
  }

  function Mirrored(test: Test): Test {
    match test
    case Selected(filters) => test
    case FromStart(b) => UpToEnd(b)
    case UpToEnd(b) => FromStart(b)
  }

  lemma FlippedTest(orders: seq<OrderBy>, test: Test, d: Document)
    ensures Keeps(Flipped(orders), Mirrored(test), d) == Keeps(orders, test, d)
  {
    FlippedRowOf(orders, d);
    match test
    case Selected(_) =>
    case FromStart(b) => FlippedRows(orders, RowOf(orders, d), b.values, 0);
    case UpToEnd(b) => FlippedRows(orders, RowOf(orders, d), b.values, 0);
  }

  /** A start cursor in one direction is an end cursor in the other. */
  lemma {:induction false} FlippedCursor(orders: seq<OrderBy>, test: Test, docs: seq<Document>)
    ensures Retained(Flipped(orders), Mirrored(test), Backwards(docs)) == Backwards(Retained(orders, test, docs))
  {
    hide Keeps, Mirrored;
    if docs != [] {
      FlippedCursor(orders, test, docs[1..]);
      FlippedTest(orders, test, docs[0]);
      RetainedSplit(Flipped(orders), Mirrored(test), Backwards(docs[1..]), [docs[0]]);
      assert [docs[0]][1..] == [];
      var rest := Retained(orders, test, docs[1..]);
      assert docs == [docs[0]] + docs[1..];
      BackwardsFront(docs[0], docs[1..]);
      if Keeps(orders, test, docs[0]) { BackwardsFront(docs[0], rest); } else { assert [] + rest == rest; }
    }
  }

  lemma RetainedOfNothing(orders: seq<OrderBy>, test: Test)
    ensures Retained(orders, test, []) == []
  {}

  lemma RetainedStep(orders: seq<OrderBy>, test: Test, d: Document, rest: seq<Document>)
    ensures Retained(orders, test, [d] + rest) ==
            (if Keeps(orders, test, d) then [d] else []) + Retained(orders, test, rest)
  {
    hide Keeps;
    assert ([d] + rest)[1..] == rest;
  }

  lemma {:induction false} RetainedSplit(orders: seq<OrderBy>, test: Test, a: seq<Document>, b: seq<Document>)
    ensures Retained(orders, test, a + b) == Retained(orders, test, a) + Retained(orders, test, b)
  {
    hide Keeps, Retained;
    if a == [] {
      RetainedOfNothing(orders, test);
      assert a + b == b;
    } else {
      var head := if Keeps(orders, test, a[0]) then [a[0]] else [];
      assert a == [a[0]] + a[1..] && a + b == [a[0]] + (a[1..] + b);
      RetainedStep(orders, test, a[0], a[1..] + b);
      RetainedStep(orders, test, a[0], a[1..]);
      RetainedSplit(orders, test, a[1..], b);
      Regroup(head, Retained(orders, test, a[1..]), Retained(orders, test, b));
    }
  }

  lemma FlippedIsSound(q: Query, docs: seq<Document>)
    requires Sound(q, docs)
    ensures Sound(RequestForm(q), docs)
  {
    var i :| 0 <= i < |q.orders| && q.orders[i].field == DOCUMENT_ID;
    assert Flipped(q.orders)[i].field == DOCUMENT_ID;
    forall d | d in docs ensures ExactRow(RowOf(Flipped(q.orders), d)) { FlippedRowOf(q.orders, d); }
  }

  lemma FlippedCandidates(q: Query, docs: seq<Document>)
    requires Sound(q, docs) && q.limitType.Last?
    ensures Candidates(RequestForm(q), docs) == Backwards(Candidates(q, docs))
  {
    var s, f := Candidates(q, docs), RequestForm(q);
    CandidatesAscend(q, docs);
    FlippedIsSound(q, docs);
    CandidatesAscend(f, docs);
    BackwardsAscends(q.orders, s);
    forall d ensures d in Backwards(s) <==> d in s { BackwardsHolds(s, d); }
    StrictOrderIsUnique(f.orders, Candidates(f, docs), Backwards(s));
  }

  lemma BackwardsAscends(orders: seq<OrderBy>, s: seq<Document>)
    requires StrictlyAscending(orders, s)
    ensures StrictlyAscending(Flipped(orders), Backwards(s))
  {
    var back := Backwards(s);
    forall i, j | 0 <= i < j < |back| ensures ComparedBy(Flipped(orders), back[i], back[j]) == Less {
      FlippedRowOf(orders, back[i]);
      FlippedRowOf(orders, back[j]);
      FlippedRows(orders, RowOf(orders, back[i]), RowOf(orders, back[j]), 0);
      RowsReverse(orders, RowOf(orders, back[i]), RowOf(orders, back[j]), 0);
    }
  }

  lemma BackwardsHolds<T>(s: seq<T>, x: T)
    ensures x in Backwards(s) <==> x in s
  {
    var back := Backwards(s);
    if x in s {
      var i :| 0 <= i < |s| && s[i] == x;
      assert back[|s|-1-i] == x;
    }
  }

  lemma {:induction false} RetainedCommute(orders: seq<OrderBy>, t: Test, u: Test, docs: seq<Document>)
    ensures Retained(orders, t, Retained(orders, u, docs)) == Retained(orders, u, Retained(orders, t, docs))
  {
    hide Keeps;
    if docs != [] {
      var x, rest := docs[0], docs[1..];
      RetainedCommute(orders, t, u, rest);
      RetainedSplit(orders, t, if Keeps(orders, u, x) then [x] else [], Retained(orders, u, rest));
      RetainedSplit(orders, u, if Keeps(orders, t, x) then [x] else [], Retained(orders, t, rest));
      assert [x][1..] == [];
    }
  }

  lemma FlippedWindow(q: Query, s: seq<Document>)
    requires q.limitType.Last?
    ensures Windowed(RequestForm(q), Backwards(s)) == Backwards(Windowed(q, s))
  {
    hide Retained;
    var started := if q.startAt.Some? then Retained(q.orders, FromStart(q.startAt.value), s) else s;
    if q.startAt.Some? { FlippedCursor(q.orders, FromStart(q.startAt.value), s); }
    if q.endAt.Some? { FlippedCursor(q.orders, UpToEnd(q.endAt.value), started); }
    if q.startAt.Some? && q.endAt.Some? {
      RetainedCommute(Flipped(q.orders), FromStart(q.endAt.value), UpToEnd(q.startAt.value), Backwards(s));
    }
  }

  /** Limiting to the last results is the mirror image of limiting to the first ones. */
  lemma LimitToLastIsMirrored(q: Query, docs: seq<Document>)
    requires Sound(q, docs) && q.limitType.Last?
    ensures Evaluated(RequestForm(q), docs) == Backwards(Evaluated(q, docs))
  {
    hide Windowed, Candidates;
    FlippedCandidates(q, docs);
    FlippedWindow(q, Candidates(q, docs));
    var w := Windowed(q, Candidates(q, docs));
    if q.limit.Some? && |w| > q.limit.value {
      var n := |w| - q.limit.value;
      BackwardsSplit(w[..n], w[n..]);
      assert w == w[..n] + w[n..];
    }
  }

  /** `get_docs` turns a limit-to-last answer around, whatever store it came from. */
  function Delivered(q: Query, answer: seq<Document>): seq<Document> {
    if q.limitType.Last? then Backwards(answer) else answer
  }

  /** A server that evaluates the request form gets its answer delivered in the query's own order. */
  lemma ServerAnswerIsInOrder(q: Query, docs: seq<Document>)
    requires Sound(q, docs)
    ensures Delivered(q, Evaluated(RequestForm(q), docs)) == Evaluated(q, docs)
  {
    if q.limitType.Last? {
      LimitToLastIsMirrored(q, docs);
      BackwardsTwice(Evaluated(q, docs));
    }
  }

  lemma EvaluatedIsPart(q: Query, docs: seq<Document>)
    requires Sound(q, docs)
    ensures Collection(Evaluated(q, docs))
  {
    hide Retained, Candidates, ValidKey;
    CandidatesAscend(q, docs);
    var s := Candidates(q, docs);
    if q.startAt.Some? { RetainedIsCollection(q.orders, FromStart(q.startAt.value), s); }
    if q.endAt.Some? { RetainedIsCollection(q.orders, UpToEnd(q.endAt.value), Started(q, s)); }
    assert Collection(Windowed(q, s));
  }

  /** The in-memory store answers in the query's order already, so the turn undoes it: delivery is in
      order exactly when there is nothing to turn around. */
  lemma LocalAnswerInOrderIff(q: Query, docs: seq<Document>)
    requires Sound(q, docs)
    ensures Delivered(q, Evaluated(q, docs)) == Evaluated(q, docs) <==> q.limitType.First? || |Evaluated(q, docs)| <= 1
  {
    var s := Evaluated(q, docs);
    EvaluatedIsPart(q, docs);
    if |s| > 1 { assert Backwards(s)[0] == s[|s|-1]; }
  }

  function TwoDocuments(): seq<Document> {
    [Document(["c", "a"], Some([])), Document(["c", "b"], Some([]))]
  }

  lemma TwoDocumentsAreSound(q: Query)
    requires OrdersByDocumentId(q.orders)
    ensures Sound(q, TwoDocuments())
  {
    var docs := TwoDocuments();
    forall d, i | d in docs && 0 <= i < |q.orders| ensures IntegersWithin(RowOf(q.orders, d)[i], TWO_53) {
      assert FindInMap([], q.orders[i].field).None?;
    }
    assert docs[0].key[1] == "a" && docs[1].key[1] == "b";
  }

  lemma SameLength<T>(a: seq<T>, b: seq<T>)
    requires multiset(a) == multiset(b)
    ensures |a| == |b|
  {
    assert |multiset(a)| == |a| && |multiset(b)| == |b|;
  }

  /** A query without filters and cursors gets its answers from the in-memory store in order, whatever is
      stored, exactly if it is not limit-to-last or its limit is at most one. */
  lemma PlainQueryInOrderIff(q: Query)
    requires OrdersByDocumentId(q.orders) && q.filters == [] && q.startAt.None? && q.endAt.None?
    ensures (forall docs | Sound(q, docs) :: Delivered(q, Evaluated(q, docs)) == Evaluated(q, docs))
            <==> q.limitType.First? || (q.limit.Some? && q.limit.value <= 1)
  {
    if q.limitType.First? || (q.limit.Some? && q.limit.value <= 1) {
      forall docs | Sound(q, docs) ensures Delivered(q, Evaluated(q, docs)) == Evaluated(q, docs) {
        LocalAnswerInOrderIff(q, docs);
      }
    } else {
      var docs := TwoDocuments();
      TwoDocumentsAreSound(q);
      LocalAnswerInOrderIff(q, docs);
      assert forall d | d in docs :: Keeps(q.orders, Selected([]), d);
      RetainsAll(q.orders, Selected([]), docs);
      SortIsStable(q.orders, docs);
      SameLength(SortedBy(q.orders, docs), docs);
    }
  }

  // ----- Pages -----

  /** The query that starts after `d`, by the values it is ordered by. */
  function After(q: Query, d: Document): Query {
    q.(startAt := Some(Bound(RowOf(q.orders, d), false)))
  }

  lemma StartAfterOneOfThem(orders: seq<OrderBy>, s: seq<Document>, p: nat)
    requires StrictlyAscending(orders, s) && p < |s|
    ensures Retained(orders, FromStart(Bound(RowOf(orders, s[p]), false)), s) == s[p+1..]
  {
    var test := FromStart(Bound(RowOf(orders, s[p]), false));
    forall k | 0 <= k < |s| ensures Keeps(orders, test, s[k]) <==> k > p {
      RowsReverse(orders, RowOf(orders, s[p]), RowOf(orders, s[k]), 0);
    }
    CutAt(orders, test, s, p + 1);
  }

  lemma NextWindow(q: Query, docs: seq<Document>, m: nat)
    requires Sound(q, docs) && ExactBound(q.startAt) && ExactBound(q.endAt)
    requires 0 < m <= |Windowed(q, Candidates(q, docs))|
    ensures var w := Windowed(q, Candidates(q, docs));
            Windowed(After(q, w[m-1]), Candidates(q, docs)) == w[m..]
  {
    hide Retained, Candidates, Keeps, ComparedBy, Collection, OrdersByDocumentId, ExactRow;
    CandidatesAscend(q, docs);
    var s, w := Candidates(q, docs), Windowed(q, Candidates(q, docs));
    var i, j := WindowIsContiguous(q, docs);
    StartAfterOneOfThem(q.orders, s, i + m - 1);
    if q.endAt.Some? {
      RetainedSkipping(q.orders, UpToEnd(q.endAt.value), s[i..], m);
      assert s[i..][m..] == s[i+m..];
    }
  }

  lemma RetainedSkipping(orders: seq<OrderBy>, test: Test, docs: seq<Document>, m: nat)
    requires m <= |Retained(orders, test, docs)| && Retained(orders, test, docs) <= docs
    ensures Retained(orders, test, docs[m..]) == Retained(orders, test, docs)[m..]
  {
    hide Keeps, Retained, Collection;
    RetainedIsPart(orders, test, docs);
    forall d | d in docs[..m] ensures Keeps(orders, test, d) {
      assert d in Retained(orders, test, docs)[..m];
    }
    RetainsAll(orders, test, docs[..m]);
    RetainedSplit(orders, test, docs[..m], docs[m..]);
    assert docs == docs[..m] + docs[m..];
  }

  lemma AfterIsSound(q: Query, docs: seq<Document>, d: Document)
    requires Sound(q, docs) && d in Windowed(q, Candidates(q, docs))
    ensures Sound(After(q, d), docs) && ExactBound(After(q, d).startAt)
    ensures Candidates(After(q, d), docs) == Candidates(q, docs)
  {
    CandidatesAscend(q, docs);
    if q.startAt.Some? { RetainedIsPart(q.orders, FromStart(q.startAt.value), Candidates(q, docs)); }
    if q.endAt.Some? { RetainedIsPart(q.orders, UpToEnd(q.endAt.value), Started(q, Candidates(q, docs))); }
  }

  /** The results in pages of `n`: each page is fetched after the last document of the one before, until
      one comes back empty. */
  function Pages(q: Query, docs: seq<Document>, n: nat): seq<seq<Document>>
    requires n > 0 && Sound(q, docs) && ExactBound(q.startAt) && ExactBound(q.endAt)
    decreases |Windowed(q, Candidates(q, docs))|
  {
    var page := Evaluated(q.(limit := Some(n), limitType := First), docs);
    if page == [] then []
    else
      PageLeavesLess(q, docs, n);
      [page] + Pages(After(q, page[|page|-1]), docs, n)
  }

  lemma PageLeavesLess(q: Query, docs: seq<Document>, n: nat)
    requires n > 0 && Sound(q, docs) && ExactBound(q.startAt) && ExactBound(q.endAt)
    requires Evaluated(q.(limit := Some(n), limitType := First), docs) != []
    ensures var page := Evaluated(q.(limit := Some(n), limitType := First), docs);
            var next := After(q, page[|page|-1]);
            && Sound(next, docs) && ExactBound(next.startAt) && ExactBound(next.endAt)
            && |Windowed(next, Candidates(next, docs))| < |Windowed(q, Candidates(q, docs))|
  {
    hide Evaluated, Windowed, Candidates, Sound, RowOf, Keeps;
    var page := Evaluated(q.(limit := Some(n), limitType := First), docs);
    PageIsAPrefix(q, docs, n);
    AfterIsSound(q, docs, page[|page|-1]);
    NextWindow(q, docs, |page|);
  }

  lemma PageIsAPrefix(q: Query, docs: seq<Document>, n: nat)
    ensures var w := Windowed(q, Candidates(q, docs));
            Evaluated(q.(limit := Some(n), limitType := First), docs) == if |w| <= n then w else w[..n]
  {
    var p := q.(limit := Some(n), limitType := First);
    assert Started(p, Candidates(p, docs)) == Started(q, Candidates(q, docs));
  }

  lemma UnlimitedIsTheWindow(q: Query, docs: seq<Document>)
    ensures Evaluated(q.(limit := None), docs) == Windowed(q, Candidates(q, docs))
  {
    var u := q.(limit := None);
    assert Started(u, Candidates(u, docs)) == Started(q, Candidates(q, docs));
  }

  function Flat<T>(pages: seq<seq<T>>): seq<T> {
    if pages == [] then [] else pages[0] + Flat(pages[1..])
  }

  lemma OneMorePage(n: nat, k: nat)
    ensures n * (k + 1) == n * k + n
  {}

  lemma PagesUnfold(q: Query, docs: seq<Document>, n: nat) returns (page: seq<Document>, next: Query)
    requires n > 0 && Sound(q, docs) && ExactBound(q.startAt) && ExactBound(q.endAt)
    requires Windowed(q, Candidates(q, docs)) != []
    ensures Sound(next, docs) && ExactBound(next.startAt) && ExactBound(next.endAt)
    ensures 0 < |page| <= n && Pages(q, docs, n) == [page] + Pages(next, docs, n)
    ensures var w, rest := Windowed(q, Candidates(q, docs)), Windowed(next, Candidates(next, docs));
            w == page + rest && (rest != [] ==> |page| == n)
  {
    hide Windowed, Candidates, Evaluated, Sound, ExactBound;
    page := Evaluated(q.(limit := Some(n), limitType := First), docs);
    PageIsAPrefix(q, docs, n);
    next := After(q, page[|page|-1]);
    AfterIsSound(q, docs, page[|page|-1]);
    NextWindow(q, docs, |page|);
    assert ExactBound(next.endAt);
  }

  /** Paging loses and repeats nothing: the pages, none of them empty, concatenate to the unlimited result,
      and there are as few of them as pages of `n` allow. */
  lemma {:induction false} PagesRebuildTheResult(q: Query, docs: seq<Document>, n: nat)
    requires n > 0 && Sound(q, docs) && ExactBound(q.startAt) && ExactBound(q.endAt)
    ensures var pages, whole := Pages(q, docs, n), Evaluated(q.(limit := None), docs);
            && Flat(pages) == whole
            && (forall page | page in pages :: 0 < |page| <= n)
            && |whole| <= n * |pages| < |whole| + n
    decreases |Windowed(q, Candidates(q, docs))|
  {
    hide Windowed, Candidates, Evaluated, Sound, ExactBound;
    UnlimitedIsTheWindow(q, docs);
    if Windowed(q, Candidates(q, docs)) == [] {
      PageIsAPrefix(q, docs, n);
    } else {
      var page, next := PagesUnfold(q, docs, n);
      hide Pages;
      UnlimitedIsTheWindow(next, docs);
      PagesRebuildTheResult(next, docs, n);
      var pages := Pages(q, docs, n);
      assert pages[0] == page && pages[1..] == Pages(next, docs, n);
      OneMorePage(n, |pages| - 1);
    }
  }

  // ----- Pages by document -----

  lemma {:induction false} LastColumn(orders: seq<OrderBy>, a: seq<Value>, b: seq<Value>, last: OrderBy, k: nat)
    requires |a| == |b| == |orders| + 1 && k <= |orders|
    ensures ComparedRows(orders + [last], a, b, k) ==
            Then(ComparedRows(orders, a[..|orders|], b[..|orders|], k),
                Directed(last, Compared(a[|orders|], b[|orders|])))
    decreases |orders| - k
  {
    if k < |orders| {
      LastColumn(orders, a, b, last, k + 1);
    } else {
      assert ComparedRows(orders + [last], a, b, k + 1) == Equal;
    }
  }

  /** A document's own cursor names it by reference, which every id, compared as a string, precedes. */
  lemma DocumentCursorComparison(earlier: seq<OrderBy>, last: OrderBy, x: Document, d: Document, database: DatabaseId)
    requires forall o | o in earlier :: o.field != DOCUMENT_ID
    requires last.field == DOCUMENT_ID && CursorValues(earlier + [last], d, database).Ok?
    ensures ComparedToBound(earlier + [last], x, CursorValues(earlier + [last], d, database).value)
            == Then(ComparedBy(earlier, x, d), if last.descending then Greater else Less)
    ensures ComparedBy(earlier + [last], x, d) ==
            Then(ComparedBy(earlier, x, d), Directed(last, OfText(Join(x.key, '/'), Join(d.key, '/'))))
  {
    var orders := earlier + [last];
    var values, n := CursorValues(orders, d, database).value, |earlier|;
    forall i | 0 <= i < n ensures orders[i] == earlier[i] && orders[i].field != DOCUMENT_ID {
      assert earlier[i] in earlier;
    }
    assert RowOf(orders, x)[..n] == RowOf(earlier, x) && RowOf(orders, d)[..n] == RowOf(earlier, d);
    assert values[..n] == RowOf(earlier, d);
    LastColumn(earlier, RowOf(orders, x), values, last, 0);
    LastColumn(earlier, RowOf(orders, x), RowOf(orders, d), last, 0);
  }

  /** Asking for what comes after a document in the result yields exactly the rest of it if and only if
      ids ascend and no later document ties with it on the other fields: later ties are skipped, and
      under descending ids the document itself comes back. */
  lemma StartAfterDocumentIff(q: Query, docs: seq<Document>, earlier: seq<OrderBy>, last: OrderBy, p: nat,
      database: DatabaseId)
    requires Sound(q, docs) && q.orders == earlier + [last] && last.field == DOCUMENT_ID
    requires forall o | o in earlier :: o.field != DOCUMENT_ID
    requires p < |Candidates(q, docs)| && CursorValues(q.orders, Candidates(q, docs)[p], database).Ok?
    ensures var s := Candidates(q, docs);
            var cursor := Bound(CursorValues(q.orders, s[p], database).value, false);
            Retained(q.orders, FromStart(cursor), s) == s[p+1..]
            <==> !last.descending && forall k | p < k < |s| :: ComparedBy(earlier, s[k], s[p]) != Equal
  {
    CandidatesAscend(q, docs);
    var s := Candidates(q, docs);
    var test := FromStart(Bound(CursorValues(q.orders, s[p], database).value, false));
    forall k | 0 <= k < |s| ensures Keeps(q.orders, test, s[k]) <==>
      Then(ComparedBy(earlier, s[k], s[p]), if last.descending then Greater else Less) == Greater
    {
      DocumentCursorComparison(earlier, last, s[k], s[p], database);
    }
    if last.descending {
      StartsWithItself(q, s, earlier, last, p, test);
    } else {
      StartsPastTies(q, s, earlier, last, p, test, database);
    }
  }

  lemma StartsWithItself(q: Query, s: seq<Document>, earlier: seq<OrderBy>, last: OrderBy, p: nat, test: Test)
    requires StrictlyAscending(q.orders, s) && p < |s|
    requires Keeps(q.orders, test, s[p]) <==> Then(ComparedBy(earlier, s[p], s[p]), Greater) == Greater
    ensures Retained(q.orders, test, s) != s[p+1..]
  {
    RowsReverse(earlier, RowOf(earlier, s[p]), RowOf(earlier, s[p]), 0);
    RetainedIsPart(q.orders, test, s);
    assert s[p] in Retained(q.orders, test, s);
    if s[p] in s[p+1..] { NotFirst(q.orders, s[p..], s[p]); }
  }

  lemma StartsPastTies(q: Query, s: seq<Document>, earlier: seq<OrderBy>, last: OrderBy, p: nat, test: Test,
      database: DatabaseId)
    requires StrictlyAscending(q.orders, s) && p < |s| && q.orders == earlier + [last]
    requires last.field == DOCUMENT_ID && !last.descending && forall o | o in earlier :: o.field != DOCUMENT_ID
    requires CursorValues(q.orders, s[p], database).Ok?
    requires forall k | 0 <= k < |s| :: Keeps(q.orders, test, s[k]) <==>
             Then(ComparedBy(earlier, s[k], s[p]), Less) == Greater
    ensures Retained(q.orders, test, s) == s[p+1..] <==>
            forall k | p < k < |s| :: ComparedBy(earlier, s[k], s[p]) != Equal
  {
    hide Retained, Keeps, ComparedRows, CursorValues;
    forall k | 0 <= k < |s| ensures OnTheRightSide(earlier, s, p, k) {
      SidesOf(q.orders, s, earlier, last, p, k, database);
    }
    RetainedIsPart(q.orders, test, s);
    if k :| p < k < |s| && ComparedBy(earlier, s[k], s[p]) == Equal {
      assert s[p+1..][k-p-1] == s[k];
      assert s[k] in s[p+1..] && s[k] !in Retained(q.orders, test, s);
    } else {
      forall k | 0 <= k < |s| ensures Keeps(q.orders, test, s[k]) <==> k >= p + 1 {
        assert OnTheRightSide(earlier, s, p, k);
      }
      CutAt(q.orders, test, s, p + 1);
    }
  }

  lemma CutAt(orders: seq<OrderBy>, test: Test, s: seq<Document>, cut: nat)
    requires cut <= |s| && forall k | 0 <= k < |s| :: Keeps(orders, test, s[k]) <==> k >= cut
    ensures Retained(orders, test, s) == s[cut..]
  {
    hide Keeps;
    assert s == s[..cut] + s[cut..];
    RetainedSplit(orders, test, s[..cut], s[cut..]);
    RetainsNone(orders, test, s[..cut]);
    RetainsAll(orders, test, s[cut..]);
  }

  predicate OnTheRightSide(earlier: seq<OrderBy>, s: seq<Document>, p: nat, k: nat)
    requires p < |s| && k < |s|
  {
    ComparedBy(earlier, s[k], s[p]) != if k <= p then Greater else Less
  }

  lemma SidesOf(orders: seq<OrderBy>, s: seq<Document>, earlier: seq<OrderBy>, last: OrderBy, p: nat, k: nat,
      database: DatabaseId)
    requires StrictlyAscending(orders, s) && p < |s| && k < |s| && orders == earlier + [last]
    requires last.field == DOCUMENT_ID && forall o | o in earlier :: o.field != DOCUMENT_ID
    requires CursorValues(orders, s[p], database).Ok?
    ensures OnTheRightSide(earlier, s, p, k)
  {
    hide ComparedRows;
    DocumentCursorComparison(earlier, last, s[k], s[p], database);
    RowsReverse(orders, RowOf(orders, s[p]), RowOf(orders, s[k]), 0);
    RowsReverse(earlier, RowOf(earlier, s[p]), RowOf(earlier, s[p]), 0);
  }
}

/** What the tree editors mean: the leaves after each edit, which reads an edit can affect, and
    exactly when the two editors agree. */
module TreeLaws {
  import opened Wrappers
  import opened Json
  import opened TreeEditors
  import opened Text

  /** One path lies at or below the other: the test by which listeners are picked. */
  predicate PathsRelated(a: Path, b: Path) {
    a <= b || b <= a
  }

  lemma StillUnrelated(short: Path, long: Path, p: Path)
    requires short <= long && !PathsRelated(short, p)
    ensures !PathsRelated(long, p)
  {
    if p <= long { PrefixesCompare(p, short, long); }
  }

  lemma PrefixesCompare(p: Path, l: Path, q: Path)
    requires p <= q && l <= q
    ensures PathsRelated(p, l)
  {}

  // ----- Paths and leaves, one segment at a time -----

  lemma LeafStep(v: Json, q: Path)
    requires q != []
    ensures Leaf(v, q) == Leaf(ChildOf(v, q[0]), q[1..])
  {}

  lemma PrefixStep(p: Path, q: Path)
    requires p != [] && q != []
    ensures p <= q <==> p[0] == q[0] && p[1..] <= q[1..]
    ensures p < q <==> p[0] == q[0] && p[1..] < q[1..]
  {
    assert p == [p[0]] + p[1..] && q == [q[0]] + q[1..];
    if p[0] == q[0] && p[1..] <= q[1..] {
      forall i | 0 <= i < |p| ensures p[i] == q[i] {
        if i > 0 { assert p[i] == p[1..][i-1] && q[i] == q[1..][i-1]; }
      }
    }
    if p <= q {
      forall i | 0 <= i < |p| - 1 ensures p[1..][i] == q[1..][i] {
        assert p[i+1] == q[i+1];
      }
    }
  }

  // ----- The leaves after an edit -----

  /** A write at `p` puts the leaves of `value` at and below `p`, wipes every leaf above `p` (except
      that a removal spares the immediate parent), and leaves all others alone. */
  lemma {:induction false} WrittenLeaf(root: Json, p: Path, value: Json, q: Path)
    ensures Leaf(Written(root, p, value), q) ==
            if p <= q then Leaf(value, q[|p|..])
            else if q < p && !(value.Null? && |q| + 1 == |p|) then Null
            else Leaf(root, q)
    decreases |p|
  {
    if p != [] && q != [] {
      PrefixStep(p, q);
      PrefixStep(q, p);
      LeafStep(root, q);
      LeafStep(Written(root, p, value), q);
      if p[0] == q[0] && |p| > 1 {
        WrittenLeaf(EntryOr(root, p[0]), p[1..], value, q[1..]);
        assert p <= q ==> q[|p|..] == q[1..][|p[1..]|..];
      } else if p[0] == q[0] {
        assert q[|p|..] == q[1..];
      }
    }
  }

  lemma {:induction false} SetLeaf(root: Json, p: Path, value: Json, q: Path)
    ensures Leaf(SetAt(root, p, value), q) ==
            if p <= q then Leaf(value, q[|p|..])
            else if q < p then Null
            else Leaf(root, q)
    decreases |p|
  {
    if p != [] && q != [] {
      PrefixStep(p, q);
      PrefixStep(q, p);
      LeafStep(root, q);
      LeafStep(SetAt(root, p, value), q);
      if p[0] == q[0] && |p| > 1 {
        SetLeaf(EntryOr(root, p[0]), p[1..], value, q[1..]);
        assert p <= q ==> q[|p|..] == q[1..][|p[1..]|..];
      } else if p[0] == q[0] {
        assert q[|p|..] == q[1..];
      }
    }
  }

  lemma {:induction false} DeletedLeaf(root: Json, p: Path, q: Path)
    ensures Leaf(DeletedAt(root, p), q) == if p <= q then Null else Leaf(root, q)
    decreases |p|
  {
    if p != [] && q != [] {
      PrefixStep(p, q);
      LeafStep(root, q);
      LeafStep(DeletedAt(root, p), q);
      if p[0] == q[0] && |p| > 1 && root.Obj? && p[0] in root.fields {
        DeletedLeaf(root.fields[p[0]], p[1..], q[1..]);
      }
    }
  }

  /** A read at `p` returns exactly the leaves of the tree below `p`. */
  lemma {:induction false} GetLeaf(root: Json, p: Path, q: Path)
    ensures Leaf(GetAt(root, p), q) == Leaf(root, p + q)
    decreases |p|
  {
    if p == [] {
      assert p + q == q;
    } else {
      assert (p + q)[0] == p[0] && (p + q)[1..] == p[1..] + q;
      LeafStep(root, p + q);
      if root.Obj? && p[0] in root.fields {
        GetLeaf(root.fields[p[0]], p[1..], q);
      }
    }
  }

  // ----- When the two editors agree -----

  /** The trees hold the same data at and below `l`; at `l == []` this is `SameLeaves`. */
  ghost predicate AgreeBelow(a: Json, b: Json, l: Path) {
    forall q | l <= q :: Leaf(a, q) == Leaf(b, q)
  }

  lemma AgreeAtRoot(a: Json, b: Json)
    ensures AgreeBelow(a, b, []) <==> SameLeaves(a, b)
  {
    if AgreeBelow(a, b, []) {
      forall p: Path ensures Leaf(a, p) == Leaf(b, p) {
        assert [] <= p;
      }
    }
  }

  /** Storing a null under a leaf wipes the leaf in the backend, not in the mirror. At and below `l` it
      takes a leaf there to tell. */
  predicate SetGuard(data: Json, l: Path, p: Path, value: Json) {
    value.Null? && p != [] && l <= p[..|p|-1] ==> Leaf(data, p[..|p|-1]).Null?
  }

  /** Removing below a leaf wipes the leaf in the mirror, not in the backend, unless the leaf is the
      immediate parent. At and below `l` it takes a leaf there to tell. */
  predicate RemoveGuard(data: Json, l: Path, p: Path) {
    forall n: nat | n + 1 < |p| && l <= p[..n] :: Leaf(data, p[..n]).Null?
  }

  lemma StrictPrefix(q: Path, p: Path)
    requires q < p
    ensures q == p[..|q|]
  {}

  lemma SetKeepsAgreement(mirror: Json, data: Json, l: Path, p: Path, value: Json)
    requires AgreeBelow(mirror, data, l) && SetGuard(data, l, p, value)
    ensures AgreeBelow(Written(mirror, p, value), SetAt(data, p, value), l)
  {
    forall q | l <= q
      ensures Leaf(Written(mirror, p, value), q) == Leaf(SetAt(data, p, value), q)
    {
      WrittenLeaf(mirror, p, value, q);
      SetLeaf(data, p, value, q);
      if q < p { StrictPrefix(q, p); }
    }
  }

  lemma RemoveKeepsAgreement(mirror: Json, data: Json, l: Path, p: Path)
    requires AgreeBelow(mirror, data, l) && RemoveGuard(data, l, p)
    ensures AgreeBelow(Written(mirror, p, Null), DeletedAt(data, p), l)
  {
    forall q | l <= q
      ensures Leaf(Written(mirror, p, Null), q) == Leaf(DeletedAt(data, p), q)
    {
      WrittenLeaf(mirror, p, Null, q);
      DeletedLeaf(data, p, q);
      if q < p { StrictPrefix(q, p); }
    }
  }

  /** Where mirror and backend agree, a set keeps them so exactly under `SetGuard`. */
  lemma SetAgreesIff(mirror: Json, data: Json, l: Path, p: Path, value: Json)
    requires AgreeBelow(mirror, data, l)
    ensures AgreeBelow(Written(mirror, p, value), SetAt(data, p, value), l) <==> SetGuard(data, l, p, value)
  {
    if SetGuard(data, l, p, value) {
      SetKeepsAgreement(mirror, data, l, p, value);
    } else {
      var q := p[..|p|-1];
      WrittenLeaf(mirror, p, value, q);
      SetLeaf(data, p, value, q);
    }
  }

  /** Where mirror and backend agree, a removal keeps them so exactly under `RemoveGuard`. */
  lemma RemoveAgreesIff(mirror: Json, data: Json, l: Path, p: Path)
    requires AgreeBelow(mirror, data, l)
    ensures AgreeBelow(Written(mirror, p, Null), DeletedAt(data, p), l) <==> RemoveGuard(data, l, p)
  {
    if RemoveGuard(data, l, p) {
      RemoveKeepsAgreement(mirror, data, l, p);
    } else {
      var n: nat :| n + 1 < |p| && l <= p[..n] && !Leaf(data, p[..n]).Null?;
      WrittenLeaf(mirror, p, Null, p[..n]);
      DeletedLeaf(data, p, p[..n]);
    }
  }

  lemma SeedKeepsAgreement(mirror: Json, data: Json, l: Path, p: Path)
    requires AgreeBelow(mirror, data, l) || p <= l
    requires RemoveGuard(data, l, p)
    ensures AgreeBelow(Written(mirror, p, GetAt(data, p)), data, l)
  {
    var seed := GetAt(data, p);
    forall q | l <= q
      ensures Leaf(Written(mirror, p, seed), q) == Leaf(data, q)
    {
      WrittenLeaf(mirror, p, seed, q);
      if p <= q {
        GetLeaf(data, p, q[|p|..]);
        assert p + q[|p|..] == q;
      } else if q < p {
        StrictPrefix(q, p);
        if |q| + 1 == |p| && !seed.Null? {
          NothingBelowALeaf(data, q, p);
        }
      }
    }
  }

  /** Seeding `p` with what the backend holds there brings the mirror in line below `p`, wherever it was
      before. Elsewhere it keeps them in line exactly under `RemoveGuard`. */
  lemma SeedAgreesIff(mirror: Json, data: Json, l: Path, p: Path)
    requires AgreeBelow(mirror, data, l) || p <= l
    ensures AgreeBelow(Written(mirror, p, GetAt(data, p)), data, l) <==> RemoveGuard(data, l, p)
  {
    if RemoveGuard(data, l, p) {
      SeedKeepsAgreement(mirror, data, l, p);
    } else {
      var n: nat :| n + 1 < |p| && l <= p[..n] && !Leaf(data, p[..n]).Null?;
      WrittenLeaf(mirror, p, GetAt(data, p), p[..n]);
    }
  }

  /** Below a leaf there is nothing to read. */
  lemma {:induction false} NothingBelowALeaf(data: Json, q: Path, p: Path)
    requires q < p && !GetAt(data, p).Null?
    ensures Leaf(data, q).Null?
    decreases |q|
  {
    if q != [] {
      PrefixStep(q, p);
      LeafStep(data, q);
      NothingBelowALeaf(data.fields[p[0]], q[1..], p[1..]);
    }
  }

  // ----- Reads -----

  /** On a tree without arrays and wrappers the two readers return the same value. */
  lemma {:induction false} ReadersAgree(root: Json, p: Path)
    requires Tame(root)
    ensures ValueAt(root, p) == GetAt(root, p) == Lookup(root, p)
    ensures Tame(GetAt(root, p))
    decreases |p|
  {
    if p != [] && root.Obj? && p[0] in root.fields {
      ReadersAgree(root.fields[p[0]], p[1..]);
    }
  }

  /** A stored value reads back, whatever the tree held before; at the root without its wrapper. */
  lemma ReadBack(root: Json, p: Path, value: Json)
    requires !value.Null?
    ensures ValueAt(Written(root, p, value), p) == if p == [] then ExtractData(value) else value
  {
    if p != [] { LookupBack(root, p, value); }
  }

  lemma {:induction false} LookupBack(root: Json, p: Path, value: Json)
    requires p != [] && !value.Null?
    ensures Lookup(Written(root, p, value), p) == value
    decreases |p|
  {
    var after := Written(root, p, value);
    assert Lookup(after, p) == Lookup(after.fields[p[0]], p[1..]);
    if |p| > 1 {
      LookupBack(EntryOr(root, p[0]), p[1..], value);
    } else {
      assert p[1..] == [];
    }
  }

  /** The node at `p` reached through object members alone. */
  function PlainNode(root: Json, p: Path): Option<Json>
    decreases |p|
  {
    if p == [] then Some(root)
    else if root.Obj? && p[0] in root.fields then PlainNode(root.fields[p[0]], p[1..])
    else None
  }

  /** The length of the longest common prefix. */
  function Fork(p: Path, q: Path): nat
    ensures Fork(p, q) <= |p| && Fork(p, q) <= |q|
  {
    if p != [] && q != [] && p[0] == q[0] then 1 + Fork(p[1..], q[1..]) else 0
  }

  lemma {:induction false} UnrelatedFork(p: Path, q: Path)
    requires !PathsRelated(p, q)
    ensures Fork(p, q) < |p| && Fork(p, q) < |q|
    decreases |p|
  {
    if p[0] == q[0] {
      PrefixStep(p, q);
      PrefixStep(q, p);
      UnrelatedFork(p[1..], q[1..]);
    }
  }

  /** The write at `p` does not replace a node through which `q` was being read: nothing was read
      there, or the paths part at a member of an object, or the write is a removal that stops at
      the node where they part. */
  predicate Undisturbed(root: Json, p: Path, value: Json, q: Path) {
    var n := Fork(p, q);
    var node := PlainNode(root, p[..n]);
    Lookup(root, q).Null? || (node.Some? && (node.value.Obj? || (value.Null? && |p| == n + 1)))
  }

  /** Exactly when it is right not to look at a listener on an unrelated path. */
  lemma {:induction false} UnrelatedReadIff(root: Json, p: Path, value: Json, q: Path)
    requires !PathsRelated(p, q) && TamePath(p)
    ensures ValueAt(Written(root, p, value), q) == ValueAt(root, q) <==> Undisturbed(root, p, value, q)
    decreases |p|
  {
    UnrelatedFork(p, q);
    if p[0] == q[0] {
      PrefixStep(p, q);
      PrefixStep(q, p);
      ReadsOneStepDown(root, p, value, q);
      UndisturbedStep(root, p, value, q);
      hide Written, Undisturbed, Lookup, PathsRelated, StepInto;
      UnrelatedReadIff(EntryOr(root, p[0]), p[1..], value, q[1..]);
    } else {
      PartingRead(root, p, value, q);
    }
  }

  lemma ReadsOneStepDown(root: Json, p: Path, value: Json, q: Path)
    requires |p| > 1 && q != [] && p[0] == q[0]
    ensures Lookup(Written(root, p, value), q) == Lookup(Written(EntryOr(root, p[0]), p[1..], value), q[1..])
  {
    var child := EntryOr(root, p[0]);
    assert Written(root, p, value) == Obj(FieldsOf(root)[p[0] := Written(child, p[1..], value)]);
  }

  lemma PartingRead(root: Json, p: Path, value: Json, q: Path)
    requires p != [] && q != [] && p[0] != q[0] && p[0] != VALUE_KEY
    ensures Lookup(Written(root, p, value), q) == Lookup(root, q) <==> Undisturbed(root, p, value, q)
  {
    assert p[..0] == [];
    var after := Written(root, p, value);
    if root.Obj? {
      assert StepInto(after, q[0]) == StepInto(root, q[0]);
    } else if |p| > 1 || !value.Null? {
      assert StepInto(after, q[0]) == None;
    }
  }

  lemma UndisturbedStep(root: Json, p: Path, value: Json, q: Path)
    requires !PathsRelated(p, q) && p != [] && q != [] && p[0] == q[0]
    ensures Lookup(EntryOr(root, p[0]), q[1..]).Null? ==> Undisturbed(EntryOr(root, p[0]), p[1..], value, q[1..])
    ensures root.Obj? && p[0] in root.fields ==>
              (Undisturbed(root, p, value, q) <==> Undisturbed(root.fields[p[0]], p[1..], value, q[1..]))
              && Lookup(root, q) == Lookup(root.fields[p[0]], q[1..])
    ensures !(root.Obj? && p[0] in root.fields) ==>
              (Undisturbed(root, p, value, q) <==> Lookup(root, q).Null?)
              && Lookup(EntryOr(root, p[0]), q[1..]).Null?
  {
    var n := Fork(p, q);
    assert p[..n][0] == p[0] && p[..n][1..] == p[1..][..n-1];
    PrefixStep(q, p);
    PrefixStep(p, q);
    UnrelatedFork(p[1..], q[1..]);
  }

  /** Without arrays and wrappers it always is. */
  lemma {:induction false} UnrelatedReadUnchanged(root: Json, p: Path, value: Json, q: Path)
    requires !PathsRelated(p, q) && TamePath(p) && Tame(root)
    ensures ValueAt(Written(root, p, value), q) == ValueAt(root, q)
    decreases |p|
  {
    UnrelatedFork(p, q);
    UnrelatedReadIff(root, p, value, q);
    TameUndisturbed(root, p, value, q);
  }

  lemma {:induction false} TameUndisturbed(root: Json, p: Path, value: Json, q: Path)
    requires !PathsRelated(p, q) && Tame(root)
    ensures Undisturbed(root, p, value, q)
    decreases |p|
  {
    UnrelatedFork(p, q);
    if p[0] == q[0] {
      PrefixStep(p, q);
      PrefixStep(q, p);
      UndisturbedStep(root, p, value, q);
      if root.Obj? && p[0] in root.fields {
        TameUndisturbed(root.fields[p[0]], p[1..], value, q[1..]);
      }
    } else {
      assert p[..0] == [];
    }
  }

  /** An array makes the skip wrong: a write below one element turns the array into an object, and
      a listener on another element is not told. */
  lemma ArrayWriteGoesUnnoticed()
    ensures var root := Obj(map["a" := Arr([Num(1.0), Num(2.0)])]);
            var after := Written(root, ["a", "0"], Num(5.0));
            !PathsRelated(["a", "0"], ["a", "1"])
            && ValueAt(root, ["a", "1"]) == Num(2.0) && ValueAt(after, ["a", "1"]) == Null
  {
    var items := Arr([Num(1.0), Num(2.0)]);
    var root := Obj(map["a" := items]);
    var p, q := ["a", "0"], ["a", "1"];
    assert p[1] == "0" && q[1] == "1" && p[1..] == ["0"] && q[1..] == ["1"];
    assert ParseIndex("1") == Some(1) by {
      assert IsDigit("1"[0]) && "1"[..0] == "" && Decimal("1") == 1;
    }
    assert StepInto(items, "1") == Some(Num(2.0)) && q[1..][1..] == [];
    assert Lookup(root, q) == Lookup(items, q[1..]) == Lookup(Num(2.0), []);
    var after := Written(root, p, Num(5.0));
    assert after.fields["a"] == Written(items, p[1..], Num(5.0)) == Obj(map["0" := Num(5.0)]);
    assert StepInto(after.fields["a"], "1") == None;
    assert Lookup(after, q) == Lookup(after.fields["a"], q[1..]);
  }

  // ----- Edits keep trees tame -----

  lemma {:induction false} WrittenTame(root: Json, p: Path, value: Json)
    requires Tame(root) && Tame(value) && TamePath(p)
    ensures Tame(Written(root, p, value))
    decreases |p|
  {
    if p != [] {
      assert p[0] in p;
      if |p| > 1 {
        assert forall s | s in p[1..] :: s in p;
        WrittenTame(EntryOr(root, p[0]), p[1..], value);
      }
    }
  }

  lemma {:induction false} SetTame(root: Json, p: Path, value: Json)
    requires Tame(root) && Tame(value) && TamePath(p)
    ensures Tame(SetAt(root, p, value))
    decreases |p|
  {
    if p != [] {
      assert p[0] in p;
      if |p| > 1 {
        assert forall s | s in p[1..] :: s in p;
        SetTame(EntryOr(root, p[0]), p[1..], value);
      }
    }
  }

  lemma {:induction false} DeletedTame(root: Json, p: Path)
    requires Tame(root)
    ensures Tame(DeletedAt(root, p))
    decreases |p|
  {
    if |p| > 1 && root.Obj? && p[0] in root.fields {
      DeletedTame(root.fields[p[0]], p[1..]);
    }
  }

  // ----- Algebra of writes -----

  /** Writes at unrelated paths commute. */
  lemma {:induction false} UnrelatedWritesCommute(root: Json, p: Path, v: Json, q: Path, w: Json)
    requires !PathsRelated(p, q)
    ensures Written(Written(root, p, v), q, w) == Written(Written(root, q, w), p, v)
    decreases |p|
  {
    if p[0] == q[0] {
      PrefixStep(p, q);
      PrefixStep(q, p);
      var child := EntryOr(root, p[0]);
      UnrelatedWritesCommute(child, p[1..], v, q[1..], w);
      WriteTwice(root, p, v, q, w);
      WriteTwice(root, q, w, p, v);
    } else {
      PartingWritesCommute(root, p, v, q, w);
    }
  }

  lemma WriteTwice(root: Json, p: Path, v: Json, q: Path, w: Json)
    requires |p| > 1 && |q| > 1 && p[0] == q[0]
    ensures Written(Written(root, p, v), q, w)
         == Obj(FieldsOf(root)[p[0] := Written(Written(EntryOr(root, p[0]), p[1..], v), q[1..], w)])
  {
    var first := Written(EntryOr(root, p[0]), p[1..], v);
    assert Written(root, p, v) == Obj(FieldsOf(root)[p[0] := first]);
    assert FieldsOf(root)[p[0] := first][p[0] := Written(first, q[1..], w)]
        == FieldsOf(root)[p[0] := Written(first, q[1..], w)];
  }

  /** The members of `root` after a write through `p`, and whether it becomes an object. */
  lemma WrittenMembers(root: Json, p: Path, v: Json)
    requires p != []
    ensures Written(root, p, v).Obj? <==> root.Obj? || |p| > 1 || !v.Null?
    ensures !Written(root, p, v).Obj? ==> Written(root, p, v) == root
    ensures forall k | k != p[0] :: k in FieldsOf(Written(root, p, v)) <==> k in FieldsOf(root)
    ensures forall k | k != p[0] && k in FieldsOf(root) :: FieldsOf(Written(root, p, v))[k] == FieldsOf(root)[k]
    ensures |p| == 1 && v.Null? ==> p[0] !in FieldsOf(Written(root, p, v))
    ensures |p| == 1 && !v.Null? ==> p[0] in FieldsOf(Written(root, p, v)) && FieldsOf(Written(root, p, v))[p[0]] == v
    ensures |p| > 1 ==> p[0] in FieldsOf(Written(root, p, v))
    ensures |p| > 1 ==> FieldsOf(Written(root, p, v))[p[0]] == Written(EntryOr(root, p[0]), p[1..], v)
  {}

  lemma PlacedCommute(root: Json, k: string, m: Option<Json>, j: string, n: Option<Json>)
    requires k != j
    ensures Placed(Placed(root, k, m), j, n) == Placed(Placed(root, j, n), k, m)
  {
    var f := FieldsOf(root);
    match (m, n)
    case (Some(c), Some(d)) => assert f[k := c][j := d] == f[j := d][k := c];
    case (Some(c), None) => assert f[k := c] - {j} == (f - {j})[k := c];
    case (None, Some(d)) => assert f[j := d] - {k} == (f - {k})[j := d];
    case (None, None) => assert f - {k} - {j} == f - {j} - {k};
  }

  /** What a write through `p` puts at its first segment. */
  function MemberFor(root: Json, p: Path, v: Json): Option<Json>
    requires p != []
  {
    if |p| > 1 then Some(Written(EntryOr(root, p[0]), p[1..], v))
    else if v.Null? then None
    else Some(v)
  }

  lemma MemberUnaffected(root: Json, p: Path, v: Json, k: string, m: Option<Json>)
    requires p != [] && k != p[0]
    ensures MemberFor(Placed(root, k, m), p, v) == MemberFor(root, p, v)
  {
    assert EntryOr(Placed(root, k, m), p[0]) == EntryOr(root, p[0]);
  }

  lemma WrittenPlaces(root: Json, p: Path, v: Json)
    requires p != []
    ensures Written(root, p, v) == Placed(root, p[0], MemberFor(root, p, v))
  {}

  lemma PartingWritesCommute(root: Json, p: Path, v: Json, q: Path, w: Json)
    requires p != [] && q != [] && p[0] != q[0]
    ensures Written(Written(root, p, v), q, w) == Written(Written(root, q, w), p, v)
  {
    var m, n := MemberFor(root, p, v), MemberFor(root, q, w);
    WrittenPlaces(root, p, v);
    WrittenPlaces(root, q, w);
    MemberUnaffected(root, q, w, p[0], m);
    MemberUnaffected(root, p, v, q[0], n);
    WrittenPlaces(Placed(root, p[0], m), q, w);
    WrittenPlaces(Placed(root, q[0], n), p, v);
    PlacedCommute(root, p[0], m, q[0], n);
  }

  lemma SameMembers(a: Json, b: Json)
    requires a.Obj? <==> b.Obj?
    requires !a.Obj? ==> a == b
    requires forall k :: k in FieldsOf(a) <==> k in FieldsOf(b)
    requires forall k | k in FieldsOf(a) :: FieldsOf(a)[k] == FieldsOf(b)[k]
    ensures a == b
  {
    assert FieldsOf(a) == FieldsOf(b);
  }

  /** The node whose member a write at `p` sets or removes. */
  function Landing(root: Json, p: Path): Json
    requires p != []
    decreases |p|
  {
    if |p| == 1 then root else Landing(EntryOr(root, p[0]), p[1..])
  }

  lemma AbsorbsAtOneStep(root: Json, p: Path, v: Json, q: Path, w: Json)
    requires |p| == 1 && p <= q
    ensures Written(Written(root, q, w), p, v) == Written(root, p, v) <==>
            !v.Null? || root.Obj? || (q == p && w.Null?)
  {
    hide Written, Placed;
    assert |q| == 1 ==> p == q;
    var first, later := Written(root, q, w), Written(root, p, v);
    WrittenMembers(root, q, w);
    WrittenMembers(first, p, v);
    WrittenMembers(root, p, v);
    if root.Obj? || !v.Null? || !first.Obj? {
      SameMembers(Written(first, p, v), later);
    }
  }

  lemma AbsorbsOneStepDown(root: Json, p: Path, v: Json, q: Path, w: Json)
    requires |p| > 1 && p <= q
    ensures var child := EntryOr(root, p[0]);
            Written(Written(root, q, w), p, v) == Written(root, p, v) <==>
            Written(Written(child, q[1..], w), p[1..], v) == Written(child, p[1..], v)
  {
    var child := EntryOr(root, p[0]);
    var a, b := Written(Written(root, q, w), p, v), Written(root, p, v);
    WriteTwice(root, q, w, p, v);
    assert a.fields[p[0]] == Written(Written(child, q[1..], w), p[1..], v);
    assert b.fields[p[0]] == Written(child, p[1..], v);
  }

  /** A write absorbs an earlier one at or below its path, except for a removal whose parent was no
      object before the earlier write made it one. */
  lemma {:induction false} LaterWriteAbsorbsIff(root: Json, p: Path, v: Json, q: Path, w: Json)
    requires p <= q
    ensures Written(Written(root, q, w), p, v) == Written(root, p, v) <==>
            !v.Null? || p == [] || Landing(root, p).Obj? || (q == p && w.Null?)
    decreases |p|
  {
    if |p| == 1 {
      AbsorbsAtOneStep(root, p, v, q, w);
    } else if p != [] {
      AbsorbsOneStepDown(root, p, v, q, w);
      PrefixStep(p, q);
      hide Written;
      LaterWriteAbsorbsIff(EntryOr(root, p[0]), p[1..], v, q[1..], w);
      assert q[1..] == p[1..] <==> q == p by {
        assert p == [p[0]] + p[1..] && q == [q[0]] + q[1..];
      }
    }
  }

  // ----- Arrays and wrappers -----

  /** The mirror's reader goes into arrays by index and past the end finds nothing; it looks through a
      `.value` wrapper. */
  lemma ReadsLookInside(items: seq<Json>, i: nat, v: Json, key: string, q: Path)
    requires i < 0x1_0000_0000_0000_0000
    requires (v.Obj? ==> ".value" !in v.fields) && key != ".value"
    ensures ValueAt(Arr(items), [DigitsOf(i)] + q) == if i < |items| then Lookup(items[i], q) else Null
    ensures ValueAt(Obj(map[".value" := v]), []) == v
    ensures ValueAt(Obj(map[".value" := v]), [key] + q) == ValueAt(v, [key] + q)
  {
    IndexReadsBack(i);
    assert ([DigitsOf(i)] + q)[1..] == q && ([key] + q)[1..] == q;
  }

  // ----- What is found at a written path -----

  /** At and below `path` the tree has the leaves of `value`. */
  ghost predicate Shows(tree: Json, path: Path, value: Json) {
    forall q :: Leaf(tree, path + q) == Leaf(value, q)
  }

  lemma WrittenShows(root: Json, path: Path, value: Json)
    ensures Shows(Written(root, path, value), path, value)
  {
    forall q ensures Leaf(Written(root, path, value), path + q) == Leaf(value, q) {
      WrittenLeaf(root, path, value, path + q);
      assert (path + q)[|path|..] == q;
    }
  }

  /** Away from `path` both trees read the same. */
  ghost predicate SameElsewhere(was: Json, after: Json, path: Path) {
    forall q: Path | !(path <= q) && !(q <= path) :: GetAt(after, q) == GetAt(was, q)
  }

  lemma SetElsewhere(root: Json, path: Path, value: Json)
    ensures SameElsewhere(root, SetAt(root, path, value), path)
    ensures SameElsewhere(root, DeletedAt(root, path), path)
  {
    forall q: Path | !(path <= q) && !(q <= path)
      ensures GetAt(SetAt(root, path, value), q) == GetAt(DeletedAt(root, path), q) == GetAt(root, q)
    {
      GetAfterUnrelatedSet(root, path, value, q);
      GetAfterUnrelatedDelete(root, path, q);
    }
  }

  // ----- The backend's reads after its writes -----

  lemma {:induction false} GetAfterSet(data: Json, p: Path, v: Json)
    ensures GetAt(SetAt(data, p, v), p) == v
    decreases |p|
  {
    if |p| > 1 {
      GetAfterSet(EntryOr(data, p[0]), p[1..], v);
    } else if |p| == 1 {
      assert p[1..] == [];
    }
  }

  lemma {:induction false} GetAfterUnrelatedSet(data: Json, p: Path, v: Json, q: Path)
    requires !PathsRelated(p, q)
    ensures GetAt(SetAt(data, p, v), q) == GetAt(data, q)
    decreases |p|
  {
    if p[0] == q[0] {
      PrefixStep(p, q);
      PrefixStep(q, p);
      GetAfterUnrelatedSet(EntryOr(data, p[0]), p[1..], v, q[1..]);
    }
  }

  lemma {:induction false} GetAfterDelete(data: Json, p: Path)
    ensures GetAt(DeletedAt(data, p), p) == Null
    decreases |p|
  {
    if |p| > 1 && data.Obj? && p[0] in data.fields { GetAfterDelete(data.fields[p[0]], p[1..]); }
  }

  lemma {:induction false} GetAfterUnrelatedDelete(data: Json, p: Path, q: Path)
    requires !PathsRelated(p, q)
    ensures GetAt(DeletedAt(data, p), q) == GetAt(data, q)
    decreases |p|
  {
    if p[0] == q[0] {
      PrefixStep(p, q);
      PrefixStep(q, p);
      if data.Obj? && p[0] in data.fields {
        GetAfterUnrelatedDelete(data.fields[p[0]], p[1..], q[1..]);
      }
    }
  }

  // ----- Merges -----

  datatype Write = Write(path: Path, value: Json)

  /** A run of writes, first to last. */
  function WrittenAll(root: Json, ws: seq<Write>): Json
    decreases |ws|
  {
    if ws == [] then root else WrittenAll(Written(root, ws[0].path, ws[0].value), ws[1..])
  }

  ghost predicate PairwiseUnrelated(ws: seq<Write>) {
    forall i, j | 0 <= i < j < |ws| :: !PathsRelated(ws[i].path, ws[j].path)
  }

  /** After unrelated writes each path has the leaves of its own value, and paths unrelated to them all
      have theirs as before. */
  lemma {:induction false} WrittenAllLeaf(root: Json, ws: seq<Write>, q: Path)
    requires PairwiseUnrelated(ws)
    ensures forall i | 0 <= i < |ws| && ws[i].path <= q ::
            Leaf(WrittenAll(root, ws), q) == Leaf(ws[i].value, q[|ws[i].path|..])
    ensures (forall w | w in ws :: !PathsRelated(w.path, q)) ==> Leaf(WrittenAll(root, ws), q) == Leaf(root, q)
    decreases |ws|
  {
    if ws != [] {
      WrittenAllLeaf(Written(root, ws[0].path, ws[0].value), ws[1..], q);
      WrittenLeaf(root, ws[0].path, ws[0].value, q);
      if ws[0].path <= q {
        forall w | w in ws[1..] ensures !PathsRelated(w.path, q) { StillUnrelated(ws[0].path, q, w.path); }
      }
    }
  }

  /** A write unrelated to all before it can be done first. */
  lemma {:induction false} MoveToFront(root: Json, ws: seq<Write>, k: nat)
    requires k < |ws| && PairwiseUnrelated(ws)
    ensures WrittenAll(root, ws) == WrittenAll(Written(root, ws[k].path, ws[k].value), ws[..k] + ws[k+1..])
    decreases k
  {
    if k == 0 {
      assert ws[..0] + ws[1..] == ws[1..];
    } else {
      var rest := ws[..k] + ws[k+1..];
      MoveToFront(Written(root, ws[0].path, ws[0].value), ws[1..], k - 1);
      assert rest[1..] == ws[1..][..k-1] + ws[1..][k..];
      UnrelatedWritesCommute(root, ws[0].path, ws[0].value, ws[k].path, ws[k].value);
    }
  }

  /** A merge of pairwise unrelated keys does not depend on the order in which they are applied. */
  lemma {:induction false} MergeOrderIrrelevant(root: Json, a: seq<Write>, b: seq<Write>)
    requires PairwiseUnrelated(a) && multiset(a) == multiset(b)
    ensures WrittenAll(root, a) == WrittenAll(root, b)
    decreases |b|
  {
    assert |a| == |multiset(a)| && |b| == |multiset(b)|;
    if b != [] {
      assert b[0] in multiset(b);
      var k :| 0 <= k < |a| && a[k] == b[0];
      var rest := a[..k] + a[k+1..];
      MoveToFront(root, a, k);
      RestOfPermutation(a, b, k);
      MergeOrderIrrelevant(Written(root, b[0].path, b[0].value), rest, b[1..]);
    }
  }

  lemma WithoutOne<T>(s: seq<T>, k: nat)
    requires k < |s|
    ensures multiset(s[..k] + s[k+1..]) + multiset{s[k]} == multiset(s)
  {
    assert s == s[..k] + ([s[k]] + s[k+1..]);
  }

  lemma RestOfPermutation<T>(a: seq<T>, b: seq<T>, k: nat)
    requires multiset(a) == multiset(b) && b != [] && k < |a| && a[k] == b[0]
    ensures multiset(a[..k] + a[k+1..]) == multiset(b[1..])
  {
    WithoutOne(a, k);
    WithoutOne(b, 0);
    assert b[..0] + b[1..] == b[1..];
    Cancel(multiset(a[..k] + a[k+1..]), multiset(b[1..]), a[k]);
  }

  lemma Cancel<T>(a: multiset<T>, b: multiset<T>, x: T)
    requires a + multiset{x} == b + multiset{x}
    ensures a == b
  {
    assert a == (a + multiset{x}) - multiset{x} && b == (b + multiset{x}) - multiset{x};
  }
}

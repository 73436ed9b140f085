/** Calls of several writes, done to the mirror and to the server's tree: when the two trees, equal below
    a path before the call, are equal there after it. A later write of a call can mend what an earlier
    one broke. */
module ManyWrites {
  import opened Wrappers
  import opened Json
  import opened TreeEditors
  import opened TreeLaws
  import opened ServerValue
  import opened Backend

  /** How the server performs the writes of a call: an update sets, nulls included; of the writes of a
      merge the nulls remove. */
  datatype Manner = Setting | Putting

  function Stores(data: Json, w: Write, how: Manner): Json {
    if how.Setting? then SetAt(data, w.path, w.value) else Put(data, w.path, w.value)
  }

  function StoresAll(data: Json, ws: seq<Write>, how: Manner): Json
    decreases |ws|
  {
    if ws == [] then data else StoresAll(Stores(data, ws[0], how), ws[1..], how)
  }

  ghost predicate TameWrites(ws: seq<Write>) {
    forall w | w in ws :: TamePath(w.path) && Tame(w.value)
  }

  // ----- One node -----

  /** The write is a null below the leaf at `q`, which only one of the two trees loses: a set loses the
      leaf to a null directly below where the mirror spares it, a removal never does where the mirror
      loses it to a null further below. */
  predicate Breaks(data: Json, w: Write, q: Path, how: Manner) {
    w.value.Null? && q < w.path && !Leaf(data, q).Null? && (how.Setting? <==> |q| + 1 == |w.path|)
  }

  /** Both trees have the same at `q` after the write, whatever they had there. */
  predicate Mends(w: Write, q: Path, how: Manner) {
    w.path <= q || (q < w.path && (!w.value.Null? || (how.Setting? && |q| + 1 < |w.path|)))
  }

  predicate Mended(ws: seq<Write>, q: Path, how: Manner) {
    exists i | 0 <= i < |ws| :: Mends(ws[i], q, how)
  }

  /** What a write breaks at `q` a later one mends. */
  predicate NodeClear(data: Json, ws: seq<Write>, q: Path, how: Manner)
    decreases |ws|
  {
    ws == [] ||
    ((Breaks(data, ws[0], q, how) ==> Mended(ws[1..], q, how))
     && NodeClear(Stores(data, ws[0], how), ws[1..], q, how))
  }

  /** How the trees differ at `q` once broken: a set wiped the leaf of the server's tree, or a removal that
      of the mirror. */
  predicate Broken(mirror: Json, data: Json, q: Path, how: Manner) {
    if how.Setting? then !Leaf(mirror, q).Null? && Leaf(data, q).Null?
    else Leaf(mirror, q).Null? && !Leaf(data, q).Null?
  }

  lemma NodeStep(mirror: Json, data: Json, w: Write, q: Path, how: Manner)
    requires Leaf(mirror, q) == Leaf(data, q) || Broken(mirror, data, q, how)
    ensures var mirror', data' := Written(mirror, w.path, w.value), Stores(data, w, how);
            if Breaks(data, w, q, how) || (Broken(mirror, data, q, how) && !Mends(w, q, how))
            then Broken(mirror', data', q, how)
            else Leaf(mirror', q) == Leaf(data', q)
  {
    WrittenLeaf(mirror, w.path, w.value, q);
    SetLeaf(data, w.path, w.value, q);
    DeletedLeaf(data, w.path, q);
  }

  lemma MendedOneMore(w: Write, rest: seq<Write>, q: Path, how: Manner)
    ensures Mended([w] + rest, q, how) <==> Mends(w, q, how) || Mended(rest, q, how)
  {
    var ws := [w] + rest;
    assert ws[0] == w && forall i | 0 <= i < |rest| :: ws[i+1] == rest[i];
  }

  lemma {:induction false} NodeAgreesIff(mirror: Json, data: Json, ws: seq<Write>, q: Path, how: Manner)
    requires Leaf(mirror, q) == Leaf(data, q) || Broken(mirror, data, q, how)
    ensures Leaf(WrittenAll(mirror, ws), q) == Leaf(StoresAll(data, ws, how), q) <==>
            NodeClear(data, ws, q, how) && (Broken(mirror, data, q, how) ==> Mended(ws, q, how))
    decreases |ws|
  {
    if ws != [] {
      var mirror', data' := Written(mirror, ws[0].path, ws[0].value), Stores(data, ws[0], how);
      NodeStep(mirror, data, ws[0], q, how);
      NodeAgreesIff(mirror', data', ws[1..], q, how);
      MendedOneMore(ws[0], ws[1..], q, how);
      assert ws == [ws[0]] + ws[1..];
      hide Leaf, Written, Stores, WrittenAll, StoresAll, Mended;
    }
  }

  // ----- All nodes below the watched paths -----

  /** `p` lies at or below a watched path. */
  ghost predicate Under(watched: set<Path>, p: Path) {
    exists l | l in watched :: l <= p
  }

  /** Whatever a write of the call breaks where somebody watches, a later one mends. */
  ghost predicate WritesClear(data: Json, watched: set<Path>, ws: seq<Write>, how: Manner)
    decreases |ws|
  {
    ws == [] ||
    (var p := ws[0].path;
     (forall n: nat | n < |p| && Under(watched, p[..n]) && Breaks(data, ws[0], p[..n], how) ::
        Mended(ws[1..], p[..n], how))
     && WritesClear(Stores(data, ws[0], how), watched, ws[1..], how))
  }

  lemma {:induction false} NodesClear(data: Json, watched: set<Path>, ws: seq<Write>, how: Manner)
    ensures WritesClear(data, watched, ws, how) <==> forall q | Under(watched, q) :: NodeClear(data, ws, q, how)
    decreases |ws|
  {
    hide Mended, Leaf, Under;
    if ws != [] {
      NodesClear(Stores(data, ws[0], how), watched, ws[1..], how);
      forall q | Breaks(data, ws[0], q, how) ensures q == ws[0].path[..|q|] && |q| < |ws[0].path| {}
    }
  }

  lemma ClearMeansUnder(l: Path, q: Path)
    ensures Under({l}, q) <==> l <= q
  {
    assert l in {l};
  }

  /** Where the trees agree, a call of several writes keeps them so exactly if it mends what it breaks. */
  lemma WritesAgreeIff(mirror: Json, data: Json, l: Path, ws: seq<Write>, how: Manner)
    requires AgreeBelow(mirror, data, l)
    ensures AgreeBelow(WrittenAll(mirror, ws), StoresAll(data, ws, how), l) <==> WritesClear(data, {l}, ws, how)
  {
    NodesClear(data, {l}, ws, how);
    forall q
      ensures Under({l}, q) <==> l <= q
      ensures l <= q ==> (Leaf(WrittenAll(mirror, ws), q) == Leaf(StoresAll(data, ws, how), q) <==>
                          NodeClear(data, ws, q, how))
    {
      ClearMeansUnder(l, q);
      if l <= q { NodeAgreesIff(mirror, data, ws, q, how); }
    }
  }

  /** What is not clear shows at some watched path. */
  lemma NotClearSomewhere(data: Json, watched: set<Path>, ws: seq<Write>, how: Manner) returns (l: Path)
    requires !WritesClear(data, watched, ws, how)
    ensures l in watched && !WritesClear(data, {l}, ws, how)
  {
    hide WritesClear, NodeClear;
    NodesClear(data, watched, ws, how);
    var q :| Under(watched, q) && !NodeClear(data, ws, q, how);
    l :| l in watched && l <= q;
    NodesClear(data, {l}, ws, how);
    ClearMeansUnder(l, q);
  }

  /** Less is asked where less is watched. */
  lemma ClearForFewer(data: Json, watched: set<Path>, fewer: set<Path>, ws: seq<Write>, how: Manner)
    requires WritesClear(data, watched, ws, how)
    requires forall l | l in fewer :: Under(watched, l)
    ensures WritesClear(data, fewer, ws, how)
  {
    hide WritesClear, NodeClear;
    NodesClear(data, watched, ws, how);
    NodesClear(data, fewer, ws, how);
    forall q | Under(fewer, q) ensures Under(watched, q) {
      var l :| l in fewer && l <= q;
      var m :| m in watched && m <= l;
      assert m <= q;
    }
  }

  // ----- Updates resolve their writes one by one -----

  lemma {:induction false} UpdateStores(data: Json, ws: seq<Write>, now: nat)
    requires UpdateAll(data, ws, now).stored.Ok?
    ensures UpdateAll(data, ws, now).data == StoresAll(data, UpdateAll(data, ws, now).stored.value, Setting)
    decreases |ws|
  {
    if ws != [] {
      var w := Write(ws[0].path, Stored(data, ws[0].path, ws[0].value, now).value);
      UpdateStores(Stores(data, w, Setting), ws[1..], now);
      var rest := UpdateAll(Stores(data, w, Setting), ws[1..], now).stored.value;
      assert ([w] + rest)[1..] == rest;
    }
  }

  lemma {:induction false} StoredAreTame(data: Json, ws: seq<Write>, now: nat)
    requires TameWrites(ws)
    ensures UpdateAll(data, ws, now).stored.Ok? ==> TameWrites(UpdateAll(data, ws, now).stored.value)
    ensures Tame(data) ==> Tame(UpdateAll(data, ws, now).data)
    decreases |ws|
  {
    if ws != [] {
      assert ws[0] in ws;
      var stored := Stored(data, ws[0].path, ws[0].value, now);
      if stored.Ok? {
        ResolvedTame(ws[0].value, Some(ExtractData(GetAt(data, ws[0].path))), now);
        if Tame(data) { SetTame(data, ws[0].path, stored.value); }
        StoredAreTame(SetAt(data, ws[0].path, stored.value), ws[1..], now);
      }
    }
  }

  lemma PutTame(data: Json, p: Path, value: Json)
    requires Tame(data) && Tame(value) && TamePath(p)
    ensures Tame(Put(data, p, value))
  {
    if value.Null? { DeletedTame(data, p); } else { SetTame(data, p, value); }
  }

  lemma {:induction false} MergedTame(data: Json, ws: seq<Write>)
    requires Tame(data) && TameWrites(ws)
    ensures Tame(StoresAll(data, ws, Putting))
    decreases |ws|
  {
    if ws != [] {
      assert ws[0] in ws;
      PutTame(data, ws[0].path, ws[0].value);
      MergedTame(Put(data, ws[0].path, ws[0].value), ws[1..]);
    }
  }
}

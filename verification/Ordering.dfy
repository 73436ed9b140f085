/** Strings in character order, and the sorted list of a finite set of keys. */
module Ordering {
  predicate StringLess(a: string, b: string) {
    b != [] && (a == [] || a[0] < b[0] || (a[0] == b[0] && StringLess(a[1..], b[1..])))
  }

  lemma {:induction false} StringTrichotomy(a: string, b: string)
    ensures a != b ==> (StringLess(a, b) <==> !StringLess(b, a))
    ensures !StringLess(a, a)
  {
    if a != [] {
      StringTrichotomy(a[1..], if b == [] then [] else b[1..]);
      if b != [] {
        assert a == [a[0]] + a[1..] && b == [b[0]] + b[1..];
      }
    }
  }

  lemma {:induction false} StringLessTransitive(a: string, b: string, c: string)
    requires StringLess(a, b) && StringLess(b, c)
    ensures StringLess(a, c)
  {
    if a != [] && a[0] == b[0] == c[0] {
      StringLessTransitive(a[1..], b[1..], c[1..]);
    }
  }

  ghost predicate Sorted(keys: seq<string>) {
    forall i, j | 0 <= i < j < |keys| :: StringLess(keys[i], keys[j])
  }

  /** `keys` lists `s` in order, each key once. */
  ghost predicate Lists(keys: seq<string>, s: set<string>) {
    Sorted(keys) && forall k :: k in keys <==> k in s
  }

  function InsertKey(keys: seq<string>, k: string): seq<string> {
    if keys == [] || StringLess(k, keys[0]) then [k] + keys else [keys[0]] + InsertKey(keys[1..], k)
  }

  lemma {:induction false} InsertKeySorts(keys: seq<string>, k: string)
    requires Sorted(keys) && k !in keys
    ensures Sorted(InsertKey(keys, k))
    ensures forall x :: x in InsertKey(keys, k) <==> x == k || x in keys
  {
    if keys != [] {
      if StringLess(k, keys[0]) {
        forall j | 0 <= j < |keys| ensures StringLess(k, keys[j]) {
          if j > 0 { StringLessTransitive(k, keys[0], keys[j]); }
        }
      } else {
        StringTrichotomy(k, keys[0]);
        assert keys == [keys[0]] + keys[1..];
        InsertKeySorts(keys[1..], k);
        var rest := InsertKey(keys[1..], k);
        forall j | 0 <= j < |rest| ensures StringLess(keys[0], rest[j]) {
          assert rest[j] in rest;
          if rest[j] != k {
            var i :| 0 <= i < |keys[1..]| && keys[1..][i] == rest[j];
            assert keys[i+1] == rest[j];
          }
        }
      }
    }
  }

  /** A set has only one sorted list. */
  lemma {:induction false} ListsUnique(a: seq<string>, b: seq<string>, s: set<string>)
    requires Lists(a, s) && Lists(b, s)
    ensures a == b
    decreases |a|
  {
    if a == [] {
      assert forall k :: k !in s;
      assert forall i | 0 <= i < |b| :: b[i] in b;
    } else {
      assert a[0] in a;
      var j :| 0 <= j < |b| && b[j] == a[0];
      assert b[0] in b;
      var i :| 0 <= i < |a| && a[i] == b[0];
      if i > 0 && j > 0 {
        StringTrichotomy(a[0], b[0]);
      }
      assert a[0] == b[0];
      TailLists(a, s);
      TailLists(b, s);
      ListsUnique(a[1..], b[1..], s - {a[0]});
      assert a == [a[0]] + a[1..] && b == [b[0]] + b[1..];
    }
  }

  lemma TailLists(a: seq<string>, s: set<string>)
    requires Lists(a, s) && a != []
    ensures Lists(a[1..], s - {a[0]})
  {
    assert a == [a[0]] + a[1..];
    StringTrichotomy(a[0], a[0]);
    forall j | 0 < j < |a| ensures a[j] != a[0] {
      assert StringLess(a[0], a[j]);
    }
  }

  /** The sorted list of a set of keys. */
  ghost function SortedKeys(s: set<string>): (keys: seq<string>)
    ensures Lists(keys, s)
  {
    if s == {} then []
    else
      var k :| k in s;
      var rest := SortedKeys(s - {k});
      InsertKeySorts(rest, k);
      InsertKey(rest, k)
  }

  method SortKeys(s: set<string>) returns (keys: seq<string>)
    ensures keys == SortedKeys(s)
  {
    keys := [];
    var todo := s;
    while todo != {}
      invariant todo <= s && Lists(keys, s - todo)
    {
      var k :| k in todo;
      InsertKeySorts(keys, k);
      keys, todo := InsertKey(keys, k), todo - {k};
    }
    ListsUnique(keys, SortedKeys(s), s);
  }
}

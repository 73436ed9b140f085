/** Splitting, joining and trimming of strings. */
module Text {
  /** The first position of `c`, or the length when it does not occur. */
  method Find(s: string, c: char) returns (i: nat)
    ensures i <= |s| && forall k | 0 <= k < i :: s[k] != c
    ensures i < |s| ==> s[i] == c
  {
    i := 0;
    while i < |s| && s[i] != c
      invariant i <= |s| && forall k | 0 <= k < i :: s[k] != c
    {
      i := i + 1;
    }
  }

  /** The pieces between occurrences of `sep`; always at least one. */
  function Split(s: string, sep: char): (pieces: seq<string>)
    ensures pieces != []
  {
    if s == [] then [""]
    else
      var rest := Split(s[1..], sep);
      if s[0] == sep then [""] + rest else [[s[0]] + rest[0]] + rest[1..]
  }

  function Join(pieces: seq<string>, sep: char): string {
    if pieces == [] then "" else if |pieces| == 1 then pieces[0] else pieces[0] + [sep] + Join(pieces[1..], sep)
  }

  lemma {:induction false} SplitFirst(a: string, sep: char, b: string)
    requires forall k | 0 <= k < |a| :: a[k] != sep
    ensures Split(a + [sep] + b, sep) == [a] + Split(b, sep)
  {
    var s := a + [sep] + b;
    if a == [] {
      assert s[1..] == b;
    } else {
      assert s[1..] == a[1..] + [sep] + b;
      SplitFirst(a[1..], sep, b);
      assert [s[0]] + a[1..] == a;
    }
  }

  lemma {:induction false} SplitWhole(a: string, sep: char)
    requires forall k | 0 <= k < |a| :: a[k] != sep
    ensures Split(a, sep) == [a]
  {
    if a != [] {
      SplitWhole(a[1..], sep);
      assert [a[0]] + a[1..] == a;
    }
  }

  lemma {:induction false} SplitOfJoin(pieces: seq<string>, sep: char)
    requires pieces != [] && forall piece | piece in pieces :: sep !in piece
    ensures Split(Join(pieces, sep), sep) == pieces
  {
    var first := pieces[0];
    assert first in pieces;
    assert forall k | 0 <= k < |first| :: first[k] in first;
    if |pieces| == 1 {
      SplitWhole(first, sep);
    } else {
      assert forall piece | piece in pieces[1..] :: piece in pieces;
      SplitOfJoin(pieces[1..], sep);
      SplitFirst(first, sep, Join(pieces[1..], sep));
      assert pieces == [first] + pieces[1..];
    }
  }

  lemma {:induction false} JoinOfSplit(s: string, sep: char)
    ensures Join(Split(s, sep), sep) == s
    ensures forall piece | piece in Split(s, sep) :: sep !in piece
  {
    if s != [] {
      var rest := Split(s[1..], sep);
      JoinOfSplit(s[1..], sep);
      assert s == [s[0]] + s[1..] && rest[0] in rest;
      if s[0] == sep {
        assert ([""] + rest)[1..] == rest;
      } else {
        var pieces := [[s[0]] + rest[0]] + rest[1..];
        assert pieces[1..] == rest[1..];
        assert |rest| > 1 ==>
          pieces[0] + [sep] + Join(rest[1..], sep) == [s[0]] + (rest[0] + [sep] + Join(rest[1..], sep));
      }
    }
  }

  /** What a trim takes off both ends. */
  datatype Trimming = Slashes | WhiteSpace

  predicate Drops(t: Trimming, c: char) {
    match t
    case Slashes => c == '/'
    case WhiteSpace =>
      c == ' ' || '\t' <= c <= '\r' || c == '\U{85}' || c == '\U{A0}' || c == '\U{1680}'
      || '\U{2000}' <= c <= '\U{200A}' || c == '\U{2028}' || c == '\U{2029}' || c == '\U{202F}'
      || c == '\U{205F}' || c == '\U{3000}'
  }

  function TrimStart(s: string, t: Trimming): string {
    if s != [] && Drops(t, s[0]) then TrimStart(s[1..], t) else s
  }

  function TrimEnd(s: string, t: Trimming): string {
    if s != [] && Drops(t, s[|s|-1]) then TrimEnd(s[..|s|-1], t) else s
  }

  function Trim(s: string, t: Trimming): string {
    TrimEnd(TrimStart(s, t), t)
  }

  lemma TrimNothing(s: string, t: Trimming)
    requires s == [] || (!Drops(t, s[0]) && !Drops(t, s[|s|-1]))
    ensures Trim(s, t) == s
  {}

  lemma {:induction false} TrimStartIsSuffix(s: string, t: Trimming) returns (a: nat)
    ensures a <= |s| && TrimStart(s, t) == s[a..]
    ensures (forall k | 0 <= k < a :: Drops(t, s[k])) && (a < |s| ==> !Drops(t, s[a]))
  {
    if s != [] && Drops(t, s[0]) {
      a := TrimStartIsSuffix(s[1..], t);
      assert forall k | 0 < k < a + 1 :: s[k] == s[1..][k-1];
      a := a + 1;
    } else {
      a := 0;
    }
  }

  lemma {:induction false} TrimEndIsPrefix(s: string, t: Trimming) returns (b: nat)
    ensures b <= |s| && TrimEnd(s, t) == s[..b]
    ensures (forall k | b <= k < |s| :: Drops(t, s[k])) && (b > 0 ==> !Drops(t, s[b-1]))
  {
    if s != [] && Drops(t, s[|s|-1]) {
      b := TrimEndIsPrefix(s[..|s|-1], t);
    } else {
      b := |s|;
    }
  }

  /** Trimming takes off exactly the droppable characters at both ends. */
  lemma TrimIsMiddle(s: string, t: Trimming) returns (a: nat, b: nat)
    ensures a <= b <= |s| && Trim(s, t) == s[a..b]
    ensures forall k | 0 <= k < |s| && !(a <= k < b) :: Drops(t, s[k])
    ensures a < b ==> !Drops(t, s[a]) && !Drops(t, s[b-1])
  {
    a := TrimStartIsSuffix(s, t);
    b := TrimEndIsPrefix(s[a..], t);
    forall k | a + b <= k < |s| ensures Drops(t, s[k]) { assert s[k] == s[a..][k-a]; }
    b := a + b;
  }

  lemma TrimsToNothing(s: string, t: Trimming)
    ensures Trim(s, t) == "" <==> forall c | c in s :: Drops(t, c)
  {
    var a, b := TrimIsMiddle(s, t);
  }

  lemma {:induction false} TrimFront(front: string, rest: string, t: Trimming)
    requires (forall c | c in front :: Drops(t, c)) && (rest != "" ==> !Drops(t, rest[0]))
    ensures TrimStart(front + rest, t) == rest
  {
    if front != "" {
      assert front[0] in front && (front + rest)[1..] == front[1..] + rest;
      TrimFront(front[1..], rest, t);
    } else {
      assert front + rest == rest;
    }
  }

  lemma {:induction false} TrimBack(rest: string, back: string, t: Trimming)
    requires (forall c | c in back :: Drops(t, c)) && (rest != "" ==> !Drops(t, rest[|rest|-1]))
    ensures TrimEnd(rest + back, t) == rest
  {
    if back != "" {
      assert back[|back|-1] in back && (rest + back)[..|rest + back|-1] == rest + back[..|back|-1];
      TrimBack(rest, back[..|back|-1], t);
    } else {
      assert rest + back == rest;
    }
  }

  /** Trimming gets back to what was padded. */
  lemma TrimPadded(front: string, core: string, back: string, t: Trimming)
    requires (forall c | c in front :: Drops(t, c)) && (forall c | c in back :: Drops(t, c))
    requires core != "" ==> !Drops(t, core[0]) && !Drops(t, core[|core|-1])
    ensures Trim(front + core + back, t) == core
  {
    if core == "" {
      assert forall c | c in front + core + back :: c in front || c in back;
      TrimsToNothing(front + core + back, t);
    } else {
      assert front + core + back == front + (core + back) && (core + back)[0] == core[0];
      TrimFront(front, core + back, t);
      TrimBack(core, back, t);
    }
  }

  // ----- Numbers in decimal -----

  predicate IsDigit(c: char) { '0' <= c <= '9' }

  function Decimal(s: string): nat
    requires forall i | 0 <= i < |s| :: IsDigit(s[i])
  {
    if s == [] then 0 else assert IsDigit(s[|s|-1]); 10 * Decimal(s[..|s|-1]) + (s[|s|-1] as int - '0' as int)
  }

  function DigitsOf(n: nat): (s: string)
    ensures s != []
  {
    var last := [('0' as int + n % 10) as char];
    if n < 10 then last else DigitsOf(n / 10) + last
  }

  /** Only digits, no leading zero, and they read back as the number. */
  lemma {:induction false} DigitsReadBack(n: nat)
    ensures forall i | 0 <= i < |DigitsOf(n)| :: IsDigit(DigitsOf(n)[i])
    ensures Decimal(DigitsOf(n)) == n && (n > 0 ==> DigitsOf(n)[0] != '0')
  {
    var last := [('0' as int + n % 10) as char];
    assert last[..0] == "" && Decimal(last) == n % 10;
    if n >= 10 {
      DigitsReadBack(n / 10);
      assert (DigitsOf(n / 10) + last)[..|DigitsOf(n / 10)|] == DigitsOf(n / 10);
    }
  }
}

/** Iteration order of the host's associative containers: identities by unsigned bytes, tokens by value. */
module Ordering {
  import opened Base

  /** Lexicographic order on bytes taken as unsigned values; a proper prefix sorts first. */
  predicate BytesLess(a: Bytes, b: Bytes) {
    if b == [] then false
    else if a == [] then true
    else if a[0] != b[0] then a[0] < b[0]
    else BytesLess(a[1..], b[1..])
  }

  /** `a` is a proper prefix of `b`, or has the smaller unsigned byte where they first differ. */
  ghost predicate SortsFirst(a: Bytes, b: Bytes) {
    exists k | 0 <= k <= |a| && k < |b| :: a[..k] == b[..k] && (k == |a| || (a[k] as int) < (b[k] as int))
  }

  lemma {:induction false} LessIsFirstDifference(a: Bytes, b: Bytes)
    ensures BytesLess(a, b) <==> SortsFirst(a, b)
  {
    if b != [] && a == [] {
      assert a[..0] == b[..0];
    } else if b != [] && a[0] != b[0] {
      assert a[..0] == b[..0];
      forall k | 0 < k <= |a| && k <= |b| ensures a[..k] != b[..k] {
        assert a[..k][0] != b[..k][0];
      }
    } else if b != [] {
      LessIsFirstDifference(a[1..], b[1..]);
      SortsFirstTail(a, b);
    }
  }

  lemma SortsFirstTail(a: Bytes, b: Bytes)
    requires a != [] && b != [] && a[0] == b[0]
    ensures SortsFirst(a, b) <==> SortsFirst(a[1..], b[1..])
  {
    if SortsFirst(a[1..], b[1..]) {
      var k :| 0 <= k <= |a[1..]| && k < |b[1..]| && a[1..][..k] == b[1..][..k] && (k == |a[1..]| || (a[1..][k] as int) < (b[1..][k] as int));
      assert a[..k + 1] == [a[0]] + a[1..][..k] && b[..k + 1] == [b[0]] + b[1..][..k];
      assert k + 1 == |a| || (a[k + 1] as int) < (b[k + 1] as int);
    }
    if SortsFirst(a, b) {
      var k :| 0 <= k <= |a| && k < |b| && a[..k] == b[..k] && (k == |a| || (a[k] as int) < (b[k] as int));
      if k != 0 {
        assert a[1..][..k - 1] == a[..k][1..] && b[1..][..k - 1] == b[..k][1..];
        assert k - 1 == |a[1..]| || (a[1..][k - 1] as int) < (b[1..][k - 1] as int);
      }
    }
  }

  lemma {:induction false} LessIrreflexive(a: Bytes)
    ensures !BytesLess(a, a)
  {
    if a != [] { LessIrreflexive(a[1..]); }
  }

  lemma {:induction false} LessTransitive(a: Bytes, b: Bytes, c: Bytes)
    requires BytesLess(a, b) && BytesLess(b, c)
    ensures BytesLess(a, c)
  {
    if a != [] && a[0] == b[0] && b[0] == c[0] { LessTransitive(a[1..], b[1..], c[1..]); }
  }

  lemma {:induction false} LessTotal(a: Bytes, b: Bytes)
    ensures a == b || BytesLess(a, b) || BytesLess(b, a)
  {
    if a != [] && b != [] && a[0] == b[0] {
      LessTotal(a[1..], b[1..]);
      if a[1..] == b[1..] { assert a == [a[0]] + a[1..] && b == [b[0]] + b[1..]; }
    }
  }

  lemma LessAsymmetric(a: Bytes, b: Bytes)
    requires BytesLess(a, b)
    ensures !BytesLess(b, a) && a != b
  {
    if BytesLess(b, a) { LessTransitive(a, b, a); }
    LessIrreflexive(a);
  }

  predicate IsLeast(m: Bytes, s: set<Bytes>) {
    m in s && forall x | x in s && x != m :: BytesLess(m, x)
  }

  lemma LeastExists(s: set<Bytes>)
    requires s != {}
    ensures exists m :: IsLeast(m, s)
  {
    var x :| x in s;
    var rest := s - {x};
    if rest == {} {
      assert s == {x};
      assert IsLeast(x, s);
    } else {
      LeastExists(rest);
      var m :| IsLeast(m, rest);
      LessTotal(x, m);
      if BytesLess(m, x) {
        assert IsLeast(m, s);
      } else {
        forall y | y in rest && y != m ensures BytesLess(x, y) { LessTransitive(x, m, y); }
        assert IsLeast(x, s);
      }
    }
  }

  function Least(s: set<Bytes>): (m: Bytes)
    requires s != {}
    ensures IsLeast(m, s)
  {
    LeastExists(s);
    LeastUnique(s);
    var m :| IsLeast(m, s);
    m
  }

  lemma LeastUnique(s: set<Bytes>)
    ensures forall m, n | IsLeast(m, s) && IsLeast(n, s) :: m == n
  {
    forall m, n | IsLeast(m, s) && IsLeast(n, s) ensures m == n {
      if m != n { LessAsymmetric(m, n); }
    }
  }

  /** The elements of a set of identities in ascending order: how the registry is walked. */
  function Ascending(s: set<Bytes>): (r: seq<Bytes>)
    ensures forall x :: x in r <==> x in s
    ensures forall i, j | 0 <= i < j < |r| :: BytesLess(r[i], r[j])
    ensures forall i, j | 0 <= i < j < |r| :: r[i] != r[j]
  {
    if s == {} then []
    else
      var m := Least(s);
      var rest := Ascending(s - {m});
      assert forall j | 0 <= j < |rest| :: rest[j] in s - {m};
      [m] + rest
  }

  predicate IsLeastToken(m: nat, s: set<nat>) {
    m in s && forall x | x in s :: m <= x
  }

  function LeastToken(s: set<nat>): (m: nat)
    requires s != {}
    ensures IsLeastToken(m, s)
  {
    LeastTokenExists(s);
    var m :| IsLeastToken(m, s);
    m
  }

  lemma LeastTokenExists(s: set<nat>)
    requires s != {}
    ensures exists m :: IsLeastToken(m, s)
  {
    var x :| x in s;
    var rest := s - {x};
    if rest == {} {
      assert s == {x};
      assert IsLeastToken(x, s);
    } else {
      LeastTokenExists(rest);
      var m :| IsLeastToken(m, rest);
      assert forall y | y in s :: y == x || y in rest;
      assert IsLeastToken(if m < x then m else x, s);
    }
  }

  /** Tokens in ascending order: how the lease, watch and subscription tables are walked. */
  function AscendingTokens(s: set<nat>): (r: seq<nat>)
    ensures forall x :: x in r <==> x in s
    ensures forall i, j | 0 <= i < j < |r| :: r[i] < r[j]
  {
    if s == {} then []
    else
      var m := LeastToken(s);
      var rest := AscendingTokens(s - {m});
      assert forall j | 0 <= j < |rest| :: rest[j] in s - {m};
      [m] + rest
  }
}

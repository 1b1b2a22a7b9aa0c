/** Sequences cut into parts and put back together. */
module Seqs {

  function Concat<T>(parts: seq<seq<T>>): seq<T> {
    if parts == [] then [] else Concat(parts[..|parts| - 1]) + parts[|parts| - 1]
  }

  predicate Even<T>(parts: seq<seq<T>>, n: nat) { forall r | 0 <= r < |parts| :: |parts[r]| == n }

  lemma InPrefix<T>(l: seq<T>, q: seq<T>, o: nat, n: nat)
    requires |l| <= |q| && l == q[..|l|] && o + n <= |l|
    ensures l[o..o + n] == q[o..o + n]
  {}

  lemma InSuffix<T>(l: seq<T>, r: seq<T>, o: nat, n: nat)
    requires o + n <= |r|
    ensures (l + r)[|l| + o..|l| + o + n] == r[o..o + n]
  {
    var u, v := (l + r)[|l| + o..|l| + o + n], r[o..o + n];
    forall i | 0 <= i < n ensures u[i] == v[i] { assert u[i] == (l + r)[|l| + (o + i)] == r[o + i]; }
  }

  lemma SliceJoin<T>(s: seq<T>, a: nat, m: nat, n: nat)
    requires a + m + n <= |s|
    ensures s[a..a + m] + s[a + m..a + m + n] == s[a..a + m + n]
  {
    var u, v, t := s[a..a + m], s[a + m..a + m + n], s[a..a + m + n];
    forall i | 0 <= i < m + n ensures (u + v)[i] == t[i] {
      if i < m { assert u[i] == s[a + i]; } else { assert v[i - m] == s[a + m + (i - m)]; }
    }
  }

  lemma SliceOfSlice<T>(s: seq<T>, a: nat, m: nat, o: nat, n: nat)
    requires a + m <= |s| && o + n <= m
    ensures s[a..a + m][o..o + n] == s[a + o..a + o + n]
  {
    var u := s[a..a + m];
    var v, t := u[o..o + n], s[a + o..a + o + n];
    forall i | 0 <= i < n ensures v[i] == t[i] { assert v[i] == u[o + i] == s[a + (o + i)]; }
  }

  predicate Ascending(s: seq<int>) { forall i, j | 0 <= i < j < |s| :: s[i] < s[j] }

  /** Insertion into an ascending sequence, keeping its elements distinct. */
  function Insert(s: seq<int>, x: int): (r: seq<int>)
    ensures forall y :: y in r <==> y in s || y == x
    ensures Ascending(s) ==> Ascending(r)
  {
    if s == [] then [x]
    else if x < s[0] then [x] + s
    else if x == s[0] then s
    else
      assert s == [s[0]] + s[1..];
      var rest := Insert(s[1..], x);
      assert Ascending(s) ==> Ascending([s[0]] + rest) by { if Ascending(s) { Cons(s[0], rest); } }
      [s[0]] + rest
  }

  lemma Cons(h: int, rest: seq<int>)
    requires Ascending(rest) && forall y | y in rest :: h < y
    ensures Ascending([h] + rest)
  {
    var r := [h] + rest;
    forall i, j | 0 <= i < j < |r| ensures r[i] < r[j] {
      assert r[j] == rest[j - 1] && rest[j - 1] in rest;
      assert i > 0 ==> r[i] == rest[i - 1];
    }
  }
}

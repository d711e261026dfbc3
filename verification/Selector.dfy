/** Which member serves a key: the sorted member list, indexed by the key modulo its length. */
module Selector {
  import opened Options

  function Least(s: set<int>): (m: int)
    requires s != {}
    ensures m in s && forall x | x in s :: m <= x
  {
    LeastExists(s);
    var m :| m in s && forall x | x in s :: m <= x;
    m
  }

  lemma {:induction false} LeastExists(s: set<int>)
    requires s != {}
    ensures exists m :: m in s && forall x | x in s :: m <= x
  {
    assert (forall y :: y !in s) ==> s == {};
    var y :| y in s;
    if exists z :: z in s && z < y {
      var z :| z in s && z < y;
      assert z in s - {y};
      LeastExists(s - {y});
      var m :| m in s - {y} && forall x | x in s - {y} :: m <= x;
      forall x | x in s ensures m <= x {
        assert x == y || x in s - {y};
      }
    } else {
      assert y in s && forall x | x in s :: y <= x;
    }
  }

  function SortedList(s: set<int>): (r: seq<int>)
    ensures |r| == |s| && forall x :: x in r <==> x in s
    ensures forall i, j | 0 <= i < j < |r| :: r[i] < r[j]
  {
    if s == {} then []
    else
      var m := Least(s);
      var rest := SortedList(s - {m});
      assert forall x | x in rest :: m < x;
      [m] + rest
  }

  /** Java's remainder: it takes the sign of the dividend. */
  function JavaRem(a: int, n: nat): int
    requires n > 0
  {
    if a >= 0 then a % n else -((-a) % n)
  }

  /** None stands for the exceptions: division by an empty set's size, or a negative index. */
  function Select(key: int, servers: set<int>): (r: Option<int>)
    ensures r.Some? ==> r.value in servers
  {
    if servers == {} then None
    else
      var index := JavaRem(key, |servers|);
      if 0 <= index < |servers| then Some(SortedList(servers)[index]) else None
  }

  /** Select fails exactly on an empty set and on negative keys that are no multiple of its size; other
      negative keys go to the first member. */
  lemma SelectsUnlessNegative(key: int, servers: set<int>)
    ensures Select(key, servers).Some? <==> servers != {} && (key >= 0 || (-key) % |servers| == 0)
    ensures key < 0 && Select(key, servers).Some? ==> forall x | x in servers :: Select(key, servers).value <= x
  {
  }

  /** How many of the `m` keys from `a` on are served by `x`. */
  function Share(a: nat, m: nat, servers: set<int>, x: int): nat {
    if m == 0 then 0
    else Share(a, m - 1, servers, x) + if Select(a + m - 1, servers) == Some(x) then 1 else 0
  }

  /** How many of the `m` numbers from `a` on leave remainder `i`. */
  function Residues(a: nat, m: nat, n: nat, i: nat): nat
    requires n > 0
  {
    if m == 0 then 0
    else Residues(a, m - 1, n, i) + if (a + m - 1) % n == i then 1 else 0
  }

  ghost predicate ServesResidue(servers: set<int>, x: int, n: nat, i: nat)
    requires n > 0
  {
    forall key: nat :: Select(key, servers) == Some(x) <==> key % n == i
  }

  lemma {:induction false} CountsResidues(a: nat, m: nat, servers: set<int>, x: int, n: nat, i: nat)
    requires n > 0 && ServesResidue(servers, x, n, i)
    ensures Share(a, m, servers, x) == Residues(a, m, n, i)
  {
    if m > 0 {
      CountsResidues(a, m - 1, servers, x, n, i);
      assert Select(a + m - 1, servers) == Some(x) <==> (a + m - 1) % n == i;
    }
  }

  lemma ShareIsResidues(a: nat, m: nat, servers: set<int>, x: int) returns (i: nat)
    requires x in servers
    ensures i < |servers| && Share(a, m, servers, x) == Residues(a, m, |servers|, i)
  {
    i :| 0 <= i < |servers| && SortedList(servers)[i] == x;
    forall key: nat
      ensures Select(key, servers) == Some(x) <==> key % |servers| == i
    {
      ServesItsResidue(key, servers, i);
    }
    CountsResidues(a, m, servers, x, |servers|, i);
  }

  /** `x` at position `i` of the sorted list serves exactly the keys congruent to `i`. */
  lemma ServesItsResidue(key: nat, servers: set<int>, i: nat)
    requires i < |servers|
    ensures Select(key, servers) == Some(SortedList(servers)[i]) <==> key % |servers| == i
  {
    var sorted, j := SortedList(servers), key % |servers|;
    assert Select(key, servers) == Some(sorted[j]);
    assert i < j ==> sorted[i] < sorted[j];
    assert j < i ==> sorted[j] < sorted[i];
  }

  // ---------------------------------------------------------------- Counting remainders

  lemma MulAtLeast(n: nat, d: nat)
    requires d >= 1
    ensures n * d >= n
  {
  }

  lemma QuotientAtMost(a: int, n: nat, q: int, r: int, q': int, r': int)
    requires n > 0 && a == n * q + r && a == n * q' + r' && 0 <= r < n && 0 <= r' < n
    ensures q <= q'
  {
    if q > q' {
      assert n * q == n * q' + n * (q - q');
      MulAtLeast(n, q - q');
    }
  }

  lemma DivisionUnique(a: int, n: nat, q: int, r: int)
    requires n > 0 && a == n * q + r && 0 <= r < n
    ensures a % n == r && a / n == q
  {
    assert a == n * (a / n) + a % n;
    QuotientAtMost(a, n, q, r, a / n, a % n);
    QuotientAtMost(a, n, a / n, a % n, q, r);
  }

  /** Shifting the window by one drops one number and adds one with the same remainder. */
  lemma NextHasSameResidue(a: nat, n: nat)
    requires n > 0
    ensures (a + n) % n == a % n && (a + n) / n == a / n + 1
  {
    assert a == n * (a / n) + a % n;
    assert n * (a / n + 1) == n * (a / n) + n;
    DivisionUnique(a + n, n, a / n + 1, a % n);
  }

  lemma {:induction false} ResiduesFromBelow(a: nat, m: nat, n: nat, i: nat)
    requires n > 0 && m > 0
    ensures Residues(a, m, n, i) == (if a % n == i then 1 else 0) + Residues(a + 1, m - 1, n, i)
  {
    if m > 1 {
      ResiduesFromBelow(a, m - 1, n, i);
    }
  }

  lemma {:induction false} SmallAreTheirOwnResidue(m: nat, n: nat, i: nat)
    requires m <= n && n > 0
    ensures Residues(0, m, n, i) == if i < m then 1 else 0
  {
    if m > 0 {
      SmallAreTheirOwnResidue(m - 1, n, i);
      DivisionUnique(m - 1, n, 0, m - 1);
    }
  }

  /** Among any `n` consecutive numbers each remainder occurs once. */
  lemma {:induction false} EachResidueOnce(a: nat, n: nat, i: nat)
    requires i < n
    ensures Residues(a, n, n, i) == 1
  {
    if a == 0 {
      SmallAreTheirOwnResidue(n, n, i);
    } else {
      EachResidueOnce(a - 1, n, i);
      ResiduesFromBelow(a - 1, n, n, i);
      NextHasSameResidue(a - 1, n);
    }
  }

  lemma {:induction false} ResiduesSplit(a: nat, m: nat, l: nat, n: nat, i: nat)
    requires n > 0
    ensures Residues(a, m + l, n, i) == Residues(a, m, n, i) + Residues(a + m, l, n, i)
  {
    if l > 0 {
      ResiduesSplit(a, m, l - 1, n, i);
    }
  }

  lemma {:induction false} ResiduesAreEven(a: nat, m: nat, n: nat, i: nat)
    requires i < n
    ensures m / n <= Residues(a, m, n, i) <= m / n + 1
    decreases m
  {
    EachResidueOnce(a, n, i);
    if m < n {
      ResiduesSplit(a, m, n - m, n, i);
      DivisionUnique(m, n, 0, m);
    } else {
      ResiduesSplit(a, n, m - n, n, i);
      ResiduesAreEven(a + n, m - n, n, i);
      NextHasSameResidue(m - n, n);
    }
  }

  // ---------------------------------------------------------------- Balance

  /** Any |servers| consecutive keys visit each member exactly once. */
  lemma OnceAround(a: nat, servers: set<int>, x: int)
    requires x in servers
    ensures Share(a, |servers|, servers, x) == 1
  {
    var i := ShareIsResidues(a, |servers|, servers, x);
    EachResidueOnce(a, |servers|, i);
  }

  /** Routing balance: over any run of consecutive keys the members' shares differ by at most one. */
  lemma SharesAreBalanced(a: nat, m: nat, servers: set<int>, x: int, y: int)
    requires x in servers && y in servers
    ensures -1 <= Share(a, m, servers, x) - Share(a, m, servers, y) <= 1
  {
    var i := ShareIsResidues(a, m, servers, x);
    var j := ShareIsResidues(a, m, servers, y);
    ResiduesAreEven(a, m, |servers|, i);
    ResiduesAreEven(a, m, |servers|, j);
  }
}

/** Folds of one column: the three allreduce orders are one value when the op is associative and
    commutative.  The tree needs associativity only. */
module Folds {
  import opened Common
  import opened Chunks
  import Ring
  import Tree

  ghost predicate Regroups<T(!new)>(f: (T, T) -> T, x: T, y: T, z: T) {
    f(f(x, y), z) == f(x, f(y, z))
  }

  ghost predicate Associative<T(!new)>(f: (T, T) -> T) {
    forall x, y, z :: Regroups(f, x, y, z)
  }

  ghost predicate Commutative<T(!new)>(f: (T, T) -> T) {
    forall x, y :: f(x, y) == f(y, x)
  }

  /** The rank-order fold of a non-empty column. */
  function All<T>(f: (T, T) -> T, s: seq<T>): T
    requires s != []
  {
    Fold(f, s[0], s[1..])
  }

  lemma AllSnoc<T>(f: (T, T) -> T, s: seq<T>, x: T)
    requires s != []
    ensures All(f, s + [x]) == f(All(f, s), x)
  {
    var t := (s + [x])[1..];
    assert t[..|t| - 1] == s[1..];
  }

  lemma {:induction false} AllSplit<T(!new)>(f: (T, T) -> T, a: seq<T>, b: seq<T>)
    requires a != [] && b != [] && Associative(f)
    ensures All(f, a + b) == f(All(f, a), All(f, b))
    decreases |b|
  {
    var n := |b| - 1;
    var x := b[n];
    assert a + b == (a + b[..n]) + [x];
    AllSnoc(f, a + b[..n], x);
    if n > 0 {
      AllSplit(f, a, b[..n]);
      assert b == b[..n] + [x];
      AllSnoc(f, b[..n], x);
      assert Regroups(f, All(f, a), All(f, b[..n]), x);
    } else {
      assert a + b[..n] == a;
    }
  }

  lemma AllRotate<T(!new)>(f: (T, T) -> T, a: seq<T>, b: seq<T>)
    requires a + b != [] && Associative(f) && Commutative(f)
    ensures All(f, a + b) == All(f, b + a)
  {
    if a == [] || b == [] {
      assert a + b == b + a;
    } else {
      AllSplit(f, a, b);
      AllSplit(f, b, a);
    }
  }

  // ---------------------------------------------------------------- ring

  function Rotated<T>(col: seq<T>, c: nat): seq<T>
    requires c < |col|
  {
    col[c..] + col[..c]
  }

  lemma {:induction false} NestedIsPrefix<T(!new)>(f: (T, T) -> T, col: seq<T>, c: nat, i: nat)
    requires Commutative(f) && c < |col| && i < |col|
    ensures Ring.Nested(f, col, c, i) == All(f, Rotated(col, c)[..i + 1])
    decreases i
  {
    var rot := Rotated(col, c);
    if i > 0 {
      NestedIsPrefix(f, col, c, i - 1);
      assert rot[..i + 1] == rot[..i] + [rot[i]];
      AllSnoc(f, rot[..i], rot[i]);
    }
  }

  lemma RingIsAll<T(!new)>(f: (T, T) -> T, col: seq<T>, c: nat)
    requires Associative(f) && Commutative(f) && c < |col|
    ensures Ring.Nested(f, col, c, |col| - 1) == All(f, col)
  {
    NestedIsPrefix(f, col, c, |col| - 1);
    assert Rotated(col, c)[..|col|] == col[c..] + col[..c];
    AllRotate(f, col[..c], col[c..]);
    assert col[..c] + col[c..] == col;
  }

  // ---------------------------------------------------------------- tree

  lemma RangeSplit<T(!new)>(f: (T, T) -> T, col: seq<T>, a: nat, b: nat, c: nat)
    requires Associative(f) && a < b < c <= |col|
    ensures All(f, col[a..c]) == f(All(f, col[a..b]), All(f, col[b..c]))
  {
    AllSplit(f, col[a..b], col[b..c]);
    assert col[a..c] == col[a..b] + col[b..c];
  }

  /** Ranks r .. min(r + m, world) - 1. */
  function Ranks<T>(col: seq<T>, r: nat, m: nat): (s: seq<T>)
    requires r < |col| && m >= 1
    ensures s != []
  {
    col[r..Min(r + m, |col|)]
  }

  lemma RanksDouble<T(!new)>(f: (T, T) -> T, col: seq<T>, r: nat, m: nat)
    requires Associative(f) && r < |col| && m >= 1
    ensures All(f, Ranks(col, r, 2 * m))
         == if r + m < |col| then f(All(f, Ranks(col, r, m)), All(f, Ranks(col, r + m, m)))
            else All(f, Ranks(col, r, m))
  {
    if r + m < |col| { RangeSplit(f, col, r, r + m, Min(r + 2 * m, |col|)); }
  }

  /** From level `k` to the next, `F` takes in the subtree whose root is 2^k ranks on, if there is one. */
  ghost predicate DoublesAt<T(!new)>(f: (T, T) -> T, col: seq<T>, F: (nat, nat) -> T, r: nat, k: nat) {
    F(r, k + 1) == if r + Pow2(k) < |col| then f(F(r, k), F(r + Pow2(k), k)) else F(r, k)
  }

  /** `F(r, k)` starts at the ranks' own elements and doubles as the tree does. */
  ghost predicate Doubles<T(!new)>(f: (T, T) -> T, col: seq<T>, F: (nat, nat) -> T) {
    && (forall r: nat :: r < |col| ==> F(r, 0) == col[r])
    && (forall r: nat, k: nat :: r < |col| ==> DoublesAt(f, col, F, r, k))
  }

  lemma {:induction false} SubtreeBy<T(!new)>(f: (T, T) -> T, col: seq<T>, F: (nat, nat) -> T, r: nat, k: nat)
    requires r < |col| && Doubles(f, col, F)
    ensures Tree.Subtree(f, col, r, k) == F(r, k)
    decreases k
  {
    if k == 0 {
      assert F(r, 0) == col[r];
    } else {
      var m := Pow2(k - 1);
      assert DoublesAt(f, col, F, r, k - 1);
      SubtreeBy(f, col, F, r, k - 1);
      if r + m < |col| { SubtreeBy(f, col, F, r + m, k - 1); }
    }
  }

  ghost function RanksFold<T(!new)>(f: (T, T) -> T, col: seq<T>): (nat, nat) -> T
    requires col != []
  {
    (r: nat, k: nat) => if r < |col| then All(f, Ranks(col, r, Pow2(k))) else col[0]
  }

  lemma OneRank<T(!new)>(f: (T, T) -> T, col: seq<T>, r: nat)
    requires r < |col|
    ensures RanksFold(f, col)(r, 0) == col[r]
  {
    assert Ranks(col, r, 1) == [col[r]];
  }

  lemma TwiceTheRanks<T(!new)>(f: (T, T) -> T, col: seq<T>, r: nat, k: nat)
    requires Associative(f) && r < |col|
    ensures DoublesAt(f, col, RanksFold(f, col), r, k)
  {
    RanksDouble(f, col, r, Pow2(k));
  }

  lemma RanksFoldDoubles<T(!new)>(f: (T, T) -> T, col: seq<T>, F: (nat, nat) -> T)
    requires Associative(f) && col != [] && F == RanksFold(f, col)
    ensures Doubles(f, col, F)
  {
    forall r: nat | r < |col| ensures F(r, 0) == col[r] {
      OneRank(f, col, r);
    }
    forall r: nat, k: nat | r < |col| ensures DoublesAt(f, col, F, r, k) {
      TwiceTheRanks(f, col, r, k);
    }
  }

  /** In order, and associativity is enough. */
  lemma SubtreeIsRange<T(!new)>(f: (T, T) -> T, col: seq<T>, r: nat, k: nat)
    requires Associative(f) && r < |col|
    ensures Tree.Subtree(f, col, r, k) == All(f, Ranks(col, r, Pow2(k)))
  {
    var F := RanksFold(f, col);
    RanksFoldDoubles(f, col, F);
    SubtreeBy(f, col, F, r, k);
    assert F(r, k) == All(f, Ranks(col, r, Pow2(k)));
  }

  lemma TreeIsAll<T(!new)>(f: (T, T) -> T, col: seq<T>)
    requires Associative(f) && col != []
    ensures Tree.Subtree(f, col, 0, Tree.Levels(|col|)) == All(f, col)
  {
    SubtreeIsRange(f, col, 0, Tree.Levels(|col|));
    assert Ranks(col, 0, Pow2(Tree.Levels(|col|))) == col;
  }

  // ---------------------------------------------------------------- butterfly

  lemma ButterflyIsAll<T(!new)>(f: (T, T) -> T, col: seq<T>, c: nat)
    requires Associative(f) && Commutative(f) && c < |col|
    ensures Fold(f, col[c], Others(col, c)) == All(f, col)
  {
    var a, x, b := col[..c], [col[c]], col[c + 1..];
    assert (x + a + b)[1..] == Others(col, c);
    assert col == a + x + b;
    AllRotate(f, x, a);
    if b == [] {
      assert x + a + b == x + a && a + x + b == a + x;
    } else {
      AllSplit(f, x + a, b);
      AllSplit(f, a + x, b);
    }
  }
}

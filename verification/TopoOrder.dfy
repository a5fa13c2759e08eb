/** Orders that respect dependencies: what it means to be the least one, when there is none,
    and why picking the least ready node at every step finds it. */
module TopoOrder {

  type Deps<!T> = map<T, set<T>>

  ghost predicate TotalOrder<T(!new)>(le: (T, T) -> bool, s: set<T>) {
    (forall a, b :: a in s && b in s ==> le(a, b) || le(b, a)) &&
    (forall a, b :: a in s && b in s && le(a, b) && le(b, a) ==> a == b) &&
    (forall a, b, c :: a in s && b in s && c in s && le(a, b) && le(b, c) ==> le(a, c))
  }

  ghost function Elements<T>(s: seq<T>): set<T> {
    set x | x in s
  }

  ghost predicate Distinct<T>(s: seq<T>) {
    forall i, j :: 0 <= i < j < |s| ==> s[i] != s[j]
  }

  /** The nodes that may come next after `done`. */
  ghost function Available<T>(deps: Deps<T>, done: seq<T>): set<T> {
    set n | n in deps && n !in done && deps[n] <= Elements(done)
  }

  /** `r` lists every node once, each after all it depends on. */
  ghost predicate IsTopo<T>(deps: Deps<T>, r: seq<T>) {
    Distinct(r) && Elements(r) == deps.Keys &&
    forall i :: 0 <= i < |r| ==> deps[r[i]] <= Elements(r[..i])
  }

  ghost predicate LeastOf<T(!new)>(le: (T, T) -> bool, x: T, s: set<T>) {
    x in s && forall y :: y in s ==> le(x, y)
  }

  ghost predicate IsGreedy<T(!new)>(deps: Deps<T>, le: (T, T) -> bool, r: seq<T>) {
    forall i :: 0 <= i < |r| ==> LeastOf(le, r[i], Available(deps, r[..i]))
  }

  /** `r` comes strictly before `t` in the order of lists. */
  ghost predicate Precedes<T>(le: (T, T) -> bool, r: seq<T>, t: seq<T>) {
    exists i :: 0 <= i < |r| && i < |t| && (forall k :: 0 <= k < i ==> r[k] == t[k]) && r[i] != t[i] && le(r[i], t[i])
  }

  ghost predicate LeastTopo<T(!new)>(deps: Deps<T>, le: (T, T) -> bool, r: seq<T>) {
    IsTopo(deps, r) && forall t :: IsTopo(deps, t) ==> t == r || Precedes(le, r, t)
  }

  /** A walk along dependencies that returns to its start. */
  ghost predicate Cycle<T>(deps: Deps<T>, p: seq<T>) {
    |p| >= 2 && p[0] == p[|p| - 1] &&
    forall i :: 0 <= i < |p| - 1 ==> p[i] in deps && p[i + 1] in deps[p[i]]
  }

  ghost predicate Cyclic<T(!new)>(deps: Deps<T>) {
    exists p :: Cycle(deps, p)
  }

  // ----- greedy orders ----------------------------------------------------------------------

  lemma GreedyIsDistinct<T(!new)>(deps: Deps<T>, le: (T, T) -> bool, r: seq<T>)
    requires IsGreedy(deps, le, r)
    ensures Distinct(r) && Elements(r) <= deps.Keys
    ensures forall i :: 0 <= i < |r| ==> r[i] in deps && deps[r[i]] <= Elements(r[..i])
  {
    forall i | 0 <= i < |r|
      ensures r[i] in deps && deps[r[i]] <= Elements(r[..i]) && r[i] !in r[..i]
    {
      assert LeastOf(le, r[i], Available(deps, r[..i]));
    }
    forall i, j | 0 <= i < j < |r| ensures r[i] != r[j] {
      assert r[..j][i] == r[i];
    }
  }

  lemma GreedyAppend<T(!new)>(deps: Deps<T>, le: (T, T) -> bool, r: seq<T>, x: T)
    requires IsGreedy(deps, le, r) && LeastOf(le, x, Available(deps, r))
    ensures IsGreedy(deps, le, r + [x])
  {
    var t := r + [x];
    forall i | 0 <= i < |t| ensures LeastOf(le, t[i], Available(deps, t[..i])) {
      assert t[..i] == r[..i];
      if i == |r| { assert r[..i] == r; }
    }
  }

  lemma SameElementsSameLength<T>(a: seq<T>, b: seq<T>)
    requires Distinct(a) && Distinct(b) && Elements(a) == Elements(b)
    ensures |a| == |b|
  {
    DistinctLength(a);
    DistinctLength(b);
  }

  lemma {:induction false} DistinctLength<T>(a: seq<T>)
    requires Distinct(a)
    ensures |Elements(a)| == |a|
    decreases |a|
  {
    if a != [] {
      var front, last := a[..|a| - 1], a[|a| - 1];
      DistinctLength(front);
      assert a == front + [last];
      assert Elements(a) == Elements(front) + {last};
      assert last !in front;
    }
  }

  /** A greedy list that takes every node is the least topological order. */
  lemma GreedyIsLeast<T(!new)>(deps: Deps<T>, le: (T, T) -> bool, r: seq<T>)
    requires IsGreedy(deps, le, r) && Elements(r) == deps.Keys
    ensures LeastTopo(deps, le, r)
  {
    GreedyIsDistinct(deps, le, r);
    forall t | IsTopo(deps, t) && t != r ensures Precedes(le, r, t) {
      SameElementsSameLength(r, t);
      var i := FirstDifference(r, t);
      TopoIsAvailable(deps, t, i);
      assert LeastOf(le, r[i], Available(deps, r[..i]));
      assert le(r[i], t[i]);
    }
  }

  lemma TopoIsAvailable<T>(deps: Deps<T>, t: seq<T>, i: nat)
    requires IsTopo(deps, t) && i < |t|
    ensures t[i] in Available(deps, t[..i])
  {
    assert t[i] in Elements(t);
    forall j | 0 <= j < i ensures t[..i][j] != t[i] { }
  }

  lemma FirstDifference<T>(r: seq<T>, t: seq<T>) returns (i: nat)
    requires |r| == |t| && r != t
    ensures i < |r| && r[..i] == t[..i] && r[i] != t[i]
    ensures forall k :: 0 <= k < i ==> r[k] == t[k]
  {
    i := 0;
    while r[i] == t[i]
      invariant i < |r| && r[..i] == t[..i] && forall k :: 0 <= k < i ==> r[k] == t[k]
      invariant exists j :: i <= j < |r| && r[j] != t[j]
      decreases |r| - i
    {
      assert r[..i + 1] == r[..i] + [r[i]] && t[..i + 1] == t[..i] + [t[i]];
      i := i + 1;
    }
  }

  /** There is one greedy list that cannot go on: the result is a function of the graph and
      the order, whatever list or dict they were read from. */
  lemma GreedyIsUnique<T(!new)>(deps: Deps<T>, le: (T, T) -> bool, r: seq<T>, t: seq<T>)
    requires TotalOrder(le, deps.Keys)
    requires IsGreedy(deps, le, r) && Available(deps, r) == {}
    requires IsGreedy(deps, le, t) && Available(deps, t) == {}
    ensures r == t
  {
    var n: nat, m: nat := |r|, |t|;
    GreedyAgree(deps, le, r, t, if n < m then n else m);
    assert |r| <= |t| ==> t[..|r|] == r[..|r|] == r;
    assert |t| <= |r| ==> r[..|t|] == t[..|t|] == t;
    if n < m { PrefixGoesOn(deps, le, t, n); }
    if m < n { PrefixGoesOn(deps, le, r, m); }
  }

  lemma PrefixGoesOn<T(!new)>(deps: Deps<T>, le: (T, T) -> bool, t: seq<T>, n: nat)
    requires IsGreedy(deps, le, t) && n < |t|
    ensures Available(deps, t[..n]) != {}
  {
    assert LeastOf(le, t[n], Available(deps, t[..n]));
  }

  lemma {:induction false} GreedyAgree<T(!new)>(deps: Deps<T>, le: (T, T) -> bool, r: seq<T>, t: seq<T>, n: nat)
    requires TotalOrder(le, deps.Keys) && IsGreedy(deps, le, r) && IsGreedy(deps, le, t)
    requires n <= |r| && n <= |t|
    ensures r[..n] == t[..n]
  {
    if n > 0 {
      GreedyAgree(deps, le, r, t, n - 1);
      assert LeastOf(le, r[n - 1], Available(deps, r[..n - 1]));
      assert LeastOf(le, t[n - 1], Available(deps, t[..n - 1]));
      assert r[n - 1] == t[n - 1];
      assert r[..n] == r[..n - 1] + [r[n - 1]] && t[..n] == t[..n - 1] + [t[n - 1]];
    }
  }

  lemma PrecedesIsStrict<T(!new)>(le: (T, T) -> bool, on: set<T>, a: seq<T>, b: seq<T>)
    requires TotalOrder(le, on) && Elements(a) <= on && Elements(b) <= on && Precedes(le, a, b)
    ensures !Precedes(le, b, a)
  {
    var i :| 0 <= i < |a| && i < |b| && (forall k :: 0 <= k < i ==> a[k] == b[k]) && a[i] != b[i] && le(a[i], b[i]);
    assert a[i] in Elements(a) && b[i] in Elements(b);
    forall j | 0 <= j < |b| && j < |a| && (forall k :: 0 <= k < j ==> b[k] == a[k]) && b[j] != a[j]
      ensures !le(b[j], a[j]) { }
  }

  // ----- cycles -------------------------------------------------------------------------------

  ghost function IndexIn<T>(r: seq<T>, x: T): (i: nat)
    requires x in r
    ensures i < |r| && r[i] == x
  {
    var i :| 0 <= i < |r| && r[i] == x; i
  }

  lemma {:induction false} CycleGoesDown<T>(deps: Deps<T>, r: seq<T>, p: seq<T>, k: nat)
    requires IsTopo(deps, r) && Cycle(deps, p) && k < |p|
    ensures p[0] in r && p[k] in r && IndexIn(r, p[k]) + k <= IndexIn(r, p[0])
  {
    assert p[0] in Elements(r);
    if k > 0 {
      CycleGoesDown(deps, r, p, k - 1);
      var i := IndexIn(r, p[k - 1]);
      assert p[k] in deps[p[k - 1]] && p[k] in Elements(r[..i]);
      var j :| 0 <= j < i && r[..i][j] == p[k];
      assert IndexIn(r, p[k]) == j;
    }
  }

  /** A graph with a cycle has no order. */
  lemma CycleHasNoOrder<T(!new)>(deps: Deps<T>, p: seq<T>, r: seq<T>)
    requires Cycle(deps, p)
    ensures !IsTopo(deps, r)
  {
    if IsTopo(deps, r) { CycleGoesDown(deps, r, p, |p| - 1); }
  }

  ghost predicate Walk<T>(deps: Deps<T>, rest: set<T>, p: seq<T>) {
    p != [] && Distinct(p) && Elements(p) <= rest &&
    forall i :: 0 <= i < |p| - 1 ==> p[i] in deps && p[i + 1] in deps[p[i]]
  }

  /** Where every node of `rest` depends on another one in `rest`, a walk meets itself. */
  lemma {:induction false} WalkFindsCycle<T>(deps: Deps<T>, rest: set<T>, p: seq<T>) returns (c: seq<T>)
    requires Walk(deps, rest, p)
    requires forall n :: n in rest ==> n in deps && deps[n] * rest != {}
    ensures Cycle(deps, c) && Elements(c) <= rest
    decreases |rest| - |p|
  {
    DistinctLength(p);
    SubsetSize(Elements(p), rest);
    var last := p[|p| - 1];
    assert last in Elements(p);
    var x :| x in deps[last] * rest;
    if x in p {
      var i :| 0 <= i < |p| && p[i] == x;
      c := p[i..] + [x];
      forall j | 0 <= j < |c| - 1 ensures c[j] in deps && c[j + 1] in deps[c[j]] {
        assert c[j] == p[i + j];
      }
    } else {
      var q := p + [x];
      DistinctLength(q);
      SubsetSize(Elements(q), rest);
      c := WalkFindsCycle(deps, rest, q);
    }
  }

  lemma {:induction false} SubsetSize<T>(a: set<T>, b: set<T>)
    requires a <= b
    ensures |a| <= |b|
    decreases |a|
  {
    if a != {} {
      var x :| x in a;
      SubsetSize(a - {x}, b - {x});
    }
  }

  lemma StuckNode<T(!new)>(deps: Deps<T>, r: seq<T>, n: T)
    requires n in deps && deps[n] <= deps.Keys && n !in r && n !in Available(deps, r)
    ensures deps[n] * (deps.Keys - Elements(r)) != {}
  {
    var d :| d in deps[n] && d !in Elements(r);
    assert d in deps[n] * (deps.Keys - Elements(r));
  }

  /** A list that cannot go on and misses a node leaves a cycle among those it misses. */
  lemma StuckHasCycle<T(!new)>(deps: Deps<T>, r: seq<T>, x: T) returns (c: seq<T>)
    requires forall n :: n in deps ==> deps[n] <= deps.Keys
    requires Available(deps, r) == {} && x in deps && x !in r
    ensures Cycle(deps, c) && Elements(c) <= deps.Keys - Elements(r)
  {
    var rest := deps.Keys - Elements(r);
    forall n | n in rest ensures n in deps && deps[n] * rest != {} { StuckNode(deps, r, n); }
    assert Elements([x]) <= rest;
    c := WalkFindsCycle(deps, rest, [x]);
  }

  /** The whole account of a greedy list that cannot go on: it is the least order, or there is
      a cycle and no order at all. */
  lemma GreedyDecides<T(!new)>(deps: Deps<T>, le: (T, T) -> bool, r: seq<T>)
    requires forall n :: n in deps ==> deps[n] <= deps.Keys
    requires IsGreedy(deps, le, r) && Available(deps, r) == {}
    ensures |r| == |deps| <==> !Cyclic(deps)
    ensures |r| == |deps| ==> LeastTopo(deps, le, r)
    ensures |r| != |deps| ==> forall t :: !IsTopo(deps, t)
  {
    GreedyIsDistinct(deps, le, r);
    DistinctLength(r);
    if |r| == |deps| {
      EqualSize(Elements(r), deps.Keys);
      GreedyIsLeast(deps, le, r);
      forall p ensures !Cycle(deps, p) {
        if Cycle(deps, p) { CycleHasNoOrder(deps, p, r); }
      }
    } else {
      var x := Missed(Elements(r), deps.Keys);
      var c := StuckHasCycle(deps, r, x);
      forall t ensures !IsTopo(deps, t) { CycleHasNoOrder(deps, c, t); }
    }
  }

  lemma EqualSize<T>(a: set<T>, b: set<T>)
    requires a <= b && |a| == |b|
    ensures a == b
  {
    forall x | x in b ensures x in a {
      if x !in a { SubsetSize(a, b - {x}); }
    }
  }

  lemma Missed<T>(a: set<T>, b: set<T>) returns (x: T)
    requires a <= b && |a| != |b|
    ensures x in b && x !in a
  {
    assert b == a + (b - a) && a + {} == a;
    x :| x in b - a;
  }

  // ----- what the least order decides between two nodes ----------------------------------------

  /** `r` with the node at `j` moved up to `i`. */
  ghost function Promote<T>(r: seq<T>, i: nat, j: nat): seq<T>
    requires i < j < |r|
  {
    r[..i] + [r[j]] + r[i..j] + r[j + 1..]
  }

  /** Where the node at `m` stands once the one at `j` has moved up to `i`. */
  ghost function MovedTo(i: nat, j: nat, m: nat): nat {
    if m < i || m > j then m else if m == j then i else m + 1
  }

  lemma PromotedAt<T>(r: seq<T>, i: nat, j: nat, m: nat)
    requires i < j < |r| && m < |r|
    ensures |Promote(r, i, j)| == |r| && MovedTo(i, j, m) < |r| && Promote(r, i, j)[MovedTo(i, j, m)] == r[m]
  {
  }

  /** Every place is taken by the node of one place. */
  ghost function MovedFrom(i: nat, j: nat, k: nat): nat
    requires i < j
    ensures MovedTo(i, j, MovedFrom(i, j, k)) == k
  {
    if k < i || k > j then k else if k == i then j else k - 1
  }

  lemma PromotedElements<T>(r: seq<T>, i: nat, j: nat)
    requires i < j < |r|
    ensures Elements(Promote(r, i, j)) == Elements(r)
    ensures Distinct(r) ==> Distinct(Promote(r, i, j))
  {
    var t := Promote(r, i, j);
    forall x | x in r ensures x in t {
      var m :| 0 <= m < |r| && r[m] == x;
      PromotedAt(r, i, j, m);
      assert t[MovedTo(i, j, m)] == x;
    }
    forall k | 0 <= k < |t| ensures t[k] == r[MovedFrom(i, j, k)] && t[k] in r {
      PromotedAt(r, i, j, MovedFrom(i, j, k));
    }
  }

  /** What stands before a node still does, unless it is the one that moved. */
  lemma PromotedBefore<T>(r: seq<T>, i: nat, j: nat, k: nat)
    requires i < j < |r| && k < |r|
    ensures MovedFrom(i, j, k) < |r| && Promote(r, i, j)[k] == r[MovedFrom(i, j, k)]
    ensures forall x :: x in r[..if k == i then i else MovedFrom(i, j, k)] ==> x in Promote(r, i, j)[..k]
  {
    var t, m := Promote(r, i, j), MovedFrom(i, j, k);
    PromotedAt(r, i, j, m);
    var before := r[..if k == i then i else m];
    forall x | x in before ensures x in t[..k] {
      var n: nat :| n < |before| && before[n] == x;
      PromotedAt(r, i, j, n);
      assert t[..k][MovedTo(i, j, n)] == x;
    }
  }

  lemma PromotedIsTopo<T>(deps: Deps<T>, r: seq<T>, i: nat, j: nat)
    requires IsTopo(deps, r) && i < j < |r| && deps[r[j]] <= Elements(r[..i])
    ensures IsTopo(deps, Promote(r, i, j))
  {
    var t := Promote(r, i, j);
    PromotedElements(r, i, j);
    forall k | 0 <= k < |t| ensures deps[t[k]] <= Elements(t[..k]) {
      PromotedBefore(r, i, j, k);
      var before := r[..if k == i then i else MovedFrom(i, j, k)];
      assert deps[t[k]] <= Elements(before);
    }
  }

  /** A node that could have come where an earlier one stands does not come before that one. */
  lemma LeastDecides<T(!new)>(deps: Deps<T>, le: (T, T) -> bool, r: seq<T>, i: nat, j: nat)
    requires LeastTopo(deps, le, r) && i < j < |r| && deps[r[j]] <= Elements(r[..i])
    ensures le(r[i], r[j])
  {
    var t := Promote(r, i, j);
    PromotedIsTopo(deps, r, i, j);
    forall k | 0 <= k < i ensures r[k] == t[k] { PromotedAt(r, i, j, k); }
    PromotedAt(r, i, j, j);
    assert t[i] == r[j] && r[i] != t[i];
    PrecedesAt(le, r, t, i);
  }

  /** Two lists that agree up to `i` and differ there are in the order of what stands there. */
  lemma PrecedesAt<T(!new)>(le: (T, T) -> bool, r: seq<T>, t: seq<T>, i: nat)
    requires Precedes(le, r, t) && i < |r| && i < |t| && r[i] != t[i]
    requires forall k :: 0 <= k < i ==> r[k] == t[k]
    ensures le(r[i], t[i])
  {
    var n :| 0 <= n < |r| && n < |t| && (forall k :: 0 <= k < n ==> r[k] == t[k]) && r[n] != t[n] && le(r[n], t[n]);
    assert n == i;
  }
}

/** Python's `sorted` and `list.sort`, and the order of its strings. */
module Sorting {
  import opened TopoOrder

  ghost predicate Ascending<T(!new)>(le: (T, T) -> bool, s: seq<T>) {
    forall i, j :: 0 <= i < j < |s| ==> le(s[i], s[j])
  }

  function Insert<T(!new)>(le: (T, T) -> bool, x: T, s: seq<T>): seq<T> {
    if s == [] || le(x, s[0]) then [x] + s else [s[0]] + Insert(le, x, s[1..])
  }

  lemma {:induction false} InsertMembers<T(!new)>(le: (T, T) -> bool, x: T, s: seq<T>)
    ensures forall y :: y in Insert(le, x, s) <==> y == x || y in s
    decreases |s|
  {
    if s != [] && !le(x, s[0]) {
      InsertMembers(le, x, s[1..]);
      assert s == [s[0]] + s[1..];
    }
  }

  function Sorted<T(!new)>(le: (T, T) -> bool, s: seq<T>): seq<T> {
    if s == [] then [] else Insert(le, s[0], Sorted(le, s[1..]))
  }

  lemma {:induction false} InsertSorts<T(!new)>(le: (T, T) -> bool, x: T, s: seq<T>, on: set<T>)
    requires TotalOrder(le, on) && x in on && (forall y :: y in s ==> y in on) && Ascending(le, s)
    ensures Ascending(le, Insert(le, x, s))
    decreases |s|
  {
    if s == [] {
    } else if le(x, s[0]) {
      assert s[0] in s;
      forall i | 0 <= i < |s| ensures le(x, s[i]) { assert s[i] in s && (i > 0 ==> le(s[0], s[i])); }
      AscendingCons(le, x, s);
    } else {
      var rest := s[1..];
      assert s == [s[0]] + rest && s[0] in s;
      InsertSorts(le, x, rest, on);
      InsertMembers(le, x, rest);
      var tail := Insert(le, x, rest);
      forall i | 0 <= i < |tail| ensures le(s[0], tail[i]) {
        assert tail[i] in tail;
        if tail[i] != x {
          var j :| 0 <= j < |rest| && rest[j] == tail[i];
          assert rest[j] == s[j + 1];
        }
      }
      AscendingCons(le, s[0], tail);
    }
  }

  lemma AscendingCons<T(!new)>(le: (T, T) -> bool, x: T, s: seq<T>)
    requires Ascending(le, s) && forall i :: 0 <= i < |s| ==> le(x, s[i])
    ensures Ascending(le, [x] + s)
  {
  }

  lemma {:induction false} InsertKeeps<T(!new)>(le: (T, T) -> bool, x: T, s: seq<T>)
    ensures multiset(Insert(le, x, s)) == multiset(s) + multiset{x}
    decreases |s|
  {
    if s != [] && !le(x, s[0]) {
      InsertKeeps(le, x, s[1..]);
      assert s == [s[0]] + s[1..];
    }
  }

  lemma {:induction false} SortedSorts<T(!new)>(le: (T, T) -> bool, s: seq<T>, on: set<T>)
    requires TotalOrder(le, on) && forall y :: y in s ==> y in on
    ensures Ascending(le, Sorted(le, s)) && multiset(Sorted(le, s)) == multiset(s)
    decreases |s|
  {
    if s != [] {
      var rest := s[1..];
      assert s == [s[0]] + rest && s[0] in s;
      assert forall y :: y in rest ==> y in s;
      SortedSorts(le, rest, on);
      assert forall y :: y in Sorted(le, rest) ==> y in multiset(Sorted(le, rest));
      InsertSorts(le, s[0], Sorted(le, rest), on);
      InsertKeeps(le, s[0], Sorted(le, rest));
    }
  }

  lemma SortedKeepsElements<T(!new)>(le: (T, T) -> bool, s: seq<T>, on: set<T>)
    requires TotalOrder(le, on) && forall y :: y in s ==> y in on
    ensures Elements(Sorted(le, s)) == Elements(s) && |Sorted(le, s)| == |s|
    ensures Distinct(s) ==> Distinct(Sorted(le, s))
  {
    SortedSorts(le, s, on);
    var t := Sorted(le, s);
    forall y ensures y in s <==> y in t { assert y in multiset(s) <==> y in multiset(t); }
    assert |multiset(s)| == |s| && |multiset(t)| == |t|;
    if Distinct(s) {
      forall i, j | 0 <= i < j < |t| ensures t[i] != t[j] {
        if t[i] == t[j] {
          Twice(t, i, j);
          Once(s, t[i]);
        }
      }
    }
  }

  lemma Twice<T>(t: seq<T>, i: nat, j: nat)
    requires i < j < |t| && t[i] == t[j]
    ensures multiset(t)[t[i]] >= 2
  {
    assert t == t[..i] + [t[i]] + t[i + 1..j] + [t[j]] + t[j + 1..];
  }

  lemma Once<T>(s: seq<T>, x: T)
    requires Distinct(s)
    ensures multiset(s)[x] <= 1
  {
    if multiset(s)[x] > 0 {
      assert x in s;
      var i :| 0 <= i < |s| && s[i] == x;
      assert s == s[..i] + [x] + s[i + 1..];
      assert x !in s[..i] && x !in s[i + 1..];
    }
  }

  /** How often `x` stands in `s`. */
  function Count<T(==)>(s: seq<T>, x: T): nat {
    if s == [] then 0 else (if s[0] == x then 1 else 0) + Count(s[1..], x)
  }

  lemma {:induction false} CountConcat<T>(a: seq<T>, b: seq<T>, x: T)
    ensures Count(a + b, x) == Count(a, x) + Count(b, x)
    decreases |a|
  {
    if a == [] {
      assert a + b == b;
    } else {
      assert (a + b)[1..] == a[1..] + b;
      CountConcat(a[1..], b, x);
    }
  }

  lemma CountSnoc<T>(a: seq<T>, y: T, x: T)
    ensures Count(a + [y], x) == Count(a, x) + if x == y then 1 else 0
  {
    CountConcat(a, [y], x);
    assert Count([y], x) == (if y == x then 1 else 0) + Count([y][1..], x);
  }

  lemma {:induction false} CountIn<T>(s: seq<T>, x: T)
    ensures Count(s, x) > 0 <==> x in s
    decreases |s|
  {
    if s != [] {
      CountIn(s[1..], x);
      assert s == [s[0]] + s[1..];
    }
  }

  lemma {:induction false} InsertCounts<T(!new)>(le: (T, T) -> bool, y: T, s: seq<T>, x: T)
    ensures Count(Insert(le, y, s), x) == Count(s, x) + if x == y then 1 else 0
    decreases |s|
  {
    if s == [] || le(y, s[0]) {
      assert ([y] + s)[1..] == s;
    } else {
      InsertCounts(le, y, s[1..], x);
      assert ([s[0]] + Insert(le, y, s[1..]))[1..] == Insert(le, y, s[1..]);
    }
  }

  lemma {:induction false} SortedKeepsCounts<T(!new)>(le: (T, T) -> bool, s: seq<T>, x: T)
    ensures Count(Sorted(le, s), x) == Count(s, x)
    decreases |s|
  {
    if s != [] {
      SortedKeepsCounts(le, s[1..], x);
      InsertCounts(le, s[0], Sorted(le, s[1..]), x);
    }
  }

  /** The first of an ascending list is the least of its elements. */
  lemma FirstIsLeast<T(!new)>(le: (T, T) -> bool, s: seq<T>, on: set<T>)
    requires s != [] && Ascending(le, s) && TotalOrder(le, on) && forall y :: y in s ==> y in on
    ensures LeastOf(le, s[0], Elements(s))
  {
    assert s[0] in s;
    forall y | y in Elements(s) ensures le(s[0], y) {
      var i :| 0 <= i < |s| && s[i] == y;
    }
  }

  /** A name; two names are one when their texts are. */
  datatype Name = Name(text: string)

  predicate NameLe(a: Name, b: Name) {
    TextLe(a.text, b.text)
  }

  lemma NamesAreTotal(on: set<Name>)
    ensures TotalOrder(NameLe, on)
  {
    forall a, b ensures NameLe(a, b) || NameLe(b, a)
      ensures NameLe(a, b) && NameLe(b, a) ==> a == b
    {
      TextLeIsTotal(a.text, b.text);
    }
    forall a, b, c | NameLe(a, b) && NameLe(b, c) ensures NameLe(a, c) {
      TextLeIsTransitive(a.text, b.text, c.text);
    }
  }

  /** How Python compares two strings. */
  predicate TextLe(a: string, b: string) {
    a == "" || (b != "" && (a[0] < b[0] || (a[0] == b[0] && TextLe(a[1..], b[1..]))))
  }

  lemma {:induction false} TextLeIsTotal(a: string, b: string)
    ensures TextLe(a, b) || TextLe(b, a)
    ensures TextLe(a, b) && TextLe(b, a) ==> a == b
  {
    if a != "" && b != "" {
      TextLeIsTotal(a[1..], b[1..]);
      assert a == [a[0]] + a[1..] && b == [b[0]] + b[1..];
    }
  }

  lemma {:induction false} TextLeIsTransitive(a: string, b: string, c: string)
    requires TextLe(a, b) && TextLe(b, c)
    ensures TextLe(a, c)
  {
    if a != "" && a[0] == b[0] && b[0] == c[0] { TextLeIsTransitive(a[1..], b[1..], c[1..]); }
  }

  /** The texts first differ at `k`. */
  ghost predicate DifferAt(a: string, b: string, k: int) {
    0 <= k < |a| && k < |b| && a[..k] == b[..k] && a[k] != b[k]
  }

  lemma SameHead(a: string, b: string, k: nat)
    requires 0 < k <= |a| && k <= |b| && a[..k] == b[..k]
    ensures a[0] == b[0]
  {
    assert a[0] == a[..k][0] && b[0] == b[..k][0];
  }

  /** One text is no greater than another exactly if it is a prefix of it, or has the smaller
      character where they first differ. */
  lemma {:induction false} TextLeExactly(a: string, b: string)
    ensures TextLe(a, b) <==> a <= b || exists k :: DifferAt(a, b, k) && a[k] < b[k]
    decreases |a|
  {
    if a != "" && b != "" {
      var c, d := a[1..], b[1..];
      assert a == [a[0]] + c && b == [b[0]] + d;
      TextLeExactly(c, d);
      if a[0] != b[0] {
        assert DifferAt(a, b, 0);
        forall k | DifferAt(a, b, k) ensures k == 0 {
          if k > 0 { SameHead(a, b, k); }
        }
      } else {
        assert a <= b <==> c <= d;
        forall k | DifferAt(c, d, k) ensures DifferAt(a, b, k + 1) {
          assert a[..k + 1] == [a[0]] + c[..k] && b[..k + 1] == [b[0]] + d[..k];
        }
        forall k | DifferAt(a, b, k) ensures DifferAt(c, d, k - 1) {
          assert c[..k - 1] == a[..k][1..] && d[..k - 1] == b[..k][1..];
        }
      }
    }
  }
}

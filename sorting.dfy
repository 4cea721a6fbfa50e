/** The sort both list pages apply: `Array.prototype.sort` with a comparator
    that orders records by one key in one direction. The model sorts with a
    stable insertion sort; ECMAScript requires `sort` to be stable, so for a
    consistent comparator this is exactly the order the browser produces. */
module Sorting {
  import opened Text

  datatype Dir = Asc | Desc

  /** A sort key: a number (`price`, `total`) or a string (every other field). */
  datatype Key = Num(n: real) | Str(s: string)

  /** The order on keys: numbers by value, strings lexicographically. Each page
      sorts by one field, so a number never meets a string; putting numbers
      first only makes the order total. */
  predicate KeyLe(a: Key, b: Key) {
    match (a, b)
    case (Num(x), Num(y)) => x <= y
    case (Str(x), Str(y)) => StrLe(x, y)
    case (Num(_), Str(_)) => true
    case (Str(_), Num(_)) => false
  }

  lemma KeyLeTotal(a: Key, b: Key)
    ensures KeyLe(a, b) || KeyLe(b, a)
  {
    if a.Str? && b.Str? { StrLeTotal(a.s, b.s); }
  }

  lemma KeyLeTransitive(a: Key, b: Key, c: Key)
    requires KeyLe(a, b) && KeyLe(b, c)
    ensures KeyLe(a, c)
  {
    if a.Str? && b.Str? && c.Str? { StrLeTransitive(a.s, b.s, c.s); }
  }

  lemma KeyLeAntisymmetric(a: Key, b: Key)
    requires KeyLe(a, b) && KeyLe(b, a)
    ensures a == b
  {
    if a.Str? && b.Str? { StrLeAntisymmetric(a.s, b.s); }
  }

  /** Key `a` may stand before key `b` in a list sorted in direction `dir`. */
  predicate Before(dir: Dir, a: Key, b: Key) {
    match dir
    case Asc => KeyLe(a, b)
    case Desc => KeyLe(b, a)
  }

  lemma BeforeTotal(dir: Dir, a: Key, b: Key)
    ensures Before(dir, a, b) || Before(dir, b, a)
  {
    KeyLeTotal(a, b);
  }

  lemma BeforeTransitive(dir: Dir, a: Key, b: Key, c: Key)
    requires Before(dir, a, b) && Before(dir, b, c)
    ensures Before(dir, a, c)
  {
    if dir == Asc { KeyLeTransitive(a, b, c); } else { KeyLeTransitive(c, b, a); }
  }

  lemma BeforeAntisymmetric(dir: Dir, a: Key, b: Key)
    requires Before(dir, a, b) && Before(dir, b, a)
    ensures a == b
  {
    KeyLeAntisymmetric(a, b);
  }

  /** Every earlier element may stand before every later one. */
  ghost predicate Sorted<T>(s: seq<T>, key: T -> Key, dir: Dir) {
    forall i, j :: 0 <= i < j < |s| ==> Before(dir, key(s[i]), key(s[j]))
  }

  /** Inserts `x` in front of the first element it may stand before, so it
      lands ahead of every element with an equal key. */
  function Insert<T>(x: T, s: seq<T>, key: T -> Key, dir: Dir): (r: seq<T>)
    ensures multiset(r) == multiset(s) + multiset{x}
    decreases |s|
  {
    if s == [] then [x]
    else if Before(dir, key(x), key(s[0])) then [x] + s
    else
      assert s == [s[0]] + s[1..];
      [s[0]] + Insert(x, s[1..], key, dir)
  }

  /** `records.sort(comparator)`: a stable insertion sort by `key` in
      direction `dir`. The result is a permutation of the input. */
  function SortBy<T>(s: seq<T>, key: T -> Key, dir: Dir): (r: seq<T>)
    ensures multiset(r) == multiset(s)
    decreases |s|
  {
    if s == [] then []
    else
      assert s == [s[0]] + s[1..];
      Insert(s[0], SortBy(s[1..], key, dir), key, dir)
  }

  lemma {:induction false} InsertSorted<T>(x: T, s: seq<T>, key: T -> Key, dir: Dir)
    requires Sorted(s, key, dir)
    ensures Sorted(Insert(x, s, key, dir), key, dir)
    decreases |s|
  {
    var r := Insert(x, s, key, dir);
    if s == [] {
    } else if Before(dir, key(x), key(s[0])) {
      forall i, j | 0 <= i < j < |r| ensures Before(dir, key(r[i]), key(r[j])) {
        if i == 0 && j > 1 {
          BeforeTransitive(dir, key(x), key(s[0]), key(s[j - 1]));
        }
      }
    } else {
      BeforeTotal(dir, key(x), key(s[0]));
      var t := Insert(x, s[1..], key, dir);
      assert Sorted(s[1..], key, dir) by {
        forall i, j | 0 <= i < j < |s[1..]| ensures Before(dir, key(s[1..][i]), key(s[1..][j])) {
          assert s[1..][i] == s[i + 1] && s[1..][j] == s[j + 1];
        }
      }
      InsertSorted(x, s[1..], key, dir);
      assert r == [s[0]] + t;
      forall j | 1 <= j < |r| ensures Before(dir, key(s[0]), key(r[j])) {
        assert r[j] in multiset(t);
        assert r[j] == x || r[j] in multiset(s[1..]);
        if r[j] != x {
          var k :| 0 <= k < |s[1..]| && s[1..][k] == r[j];
          assert s[k + 1] == r[j];
        }
      }
      forall i, j | 0 <= i < j < |r| ensures Before(dir, key(r[i]), key(r[j])) {
        if i > 0 { assert r[i] == t[i - 1] && r[j] == t[j - 1]; }
      }
    }
  }

  /** The result of `SortBy` is sorted. */
  lemma {:induction false} SortBySorted<T>(s: seq<T>, key: T -> Key, dir: Dir)
    ensures Sorted(SortBy(s, key, dir), key, dir)
    decreases |s|
  {
    if s != [] {
      SortBySorted(s[1..], key, dir);
      InsertSorted(s[0], SortBy(s[1..], key, dir), key, dir);
    }
  }

  /** Equal keys only for equal records (no two different records tie). */
  ghost predicate KeysIdentify<T>(s: seq<T>, key: T -> Key) {
    forall i, j :: 0 <= i < |s| && 0 <= j < |s| && key(s[i]) == key(s[j]) ==> s[i] == s[j]
  }

  lemma KeysIdentifyPermutation<T>(a: seq<T>, b: seq<T>, key: T -> Key)
    requires multiset(a) == multiset(b) && KeysIdentify(a, key)
    ensures KeysIdentify(b, key)
  {
    forall i, j | 0 <= i < |b| && 0 <= j < |b| && key(b[i]) == key(b[j]) ensures b[i] == b[j] {
      assert b[i] in multiset(a) && b[j] in multiset(a);
      var k :| 0 <= k < |a| && a[k] == b[i];
      var l :| 0 <= l < |a| && a[l] == b[j];
    }
  }

  lemma SortedTail<T>(s: seq<T>, key: T -> Key, dir: Dir)
    requires s != [] && Sorted(s, key, dir)
    ensures Sorted(s[1..], key, dir)
  {
    forall i, j | 0 <= i < j < |s[1..]| ensures Before(dir, key(s[1..][i]), key(s[1..][j])) {
      assert s[1..][i] == s[i + 1] && s[1..][j] == s[j + 1];
    }
  }

  lemma KeysIdentifyTail<T>(s: seq<T>, key: T -> Key)
    requires s != [] && KeysIdentify(s, key)
    ensures KeysIdentify(s[1..], key)
  {
    forall i, j | 0 <= i < |s[1..]| && 0 <= j < |s[1..]| && key(s[1..][i]) == key(s[1..][j])
      ensures s[1..][i] == s[1..][j]
    {
      assert s[1..][i] == s[i + 1] && s[1..][j] == s[j + 1];
    }
  }

  /** Two sorted permutations of the same records start with the same record. */
  lemma SortedSameHead<T>(a: seq<T>, b: seq<T>, key: T -> Key, dir: Dir)
    requires a != [] && Sorted(a, key, dir) && Sorted(b, key, dir)
    requires multiset(a) == multiset(b)
    requires KeysIdentify(a, key)
    ensures b != [] && a[0] == b[0]
  {
    assert a[0] in multiset(b);
    assert b != [];
    assert b[0] in multiset(a);
    var k :| 0 <= k < |b| && b[k] == a[0];
    var m :| 0 <= m < |a| && a[m] == b[0];
    if k != 0 && m != 0 {
      BeforeAntisymmetric(dir, key(a[0]), key(b[0]));
    }
  }

  /** When no two different records share a key, there is only one sorted
      order: any two sorted permutations of the same records coincide. */
  lemma {:induction false} SortedUnique<T>(a: seq<T>, b: seq<T>, key: T -> Key, dir: Dir)
    requires Sorted(a, key, dir) && Sorted(b, key, dir)
    requires multiset(a) == multiset(b)
    requires KeysIdentify(a, key)
    ensures a == b
    decreases |a|
  {
    if a == [] {
      assert |b| == |multiset(b)| == 0;
    } else {
      SortedSameHead(a, b, key, dir);
      assert a == [a[0]] + a[1..] && b == [b[0]] + b[1..];
      assert multiset(a[1..]) == multiset(a) - multiset{a[0]};
      assert multiset(b[1..]) == multiset(b) - multiset{b[0]};
      SortedTail(a, key, dir);
      SortedTail(b, key, dir);
      KeysIdentifyTail(a, key);
      SortedUnique(a[1..], b[1..], key, dir);
    }
  }

  /** `s` back to front. */
  function Reverse<T>(s: seq<T>): (r: seq<T>)
    ensures |r| == |s|
    ensures forall i :: 0 <= i < |s| ==> r[i] == s[|s| - 1 - i]
  {
    seq(|s|, i requires 0 <= i < |s| => s[|s| - 1 - i])
  }

  lemma {:induction false} ReverseMultiset<T>(s: seq<T>)
    ensures multiset(Reverse(s)) == multiset(s)
    decreases |s|
  {
    if s != [] {
      var n := |s| - 1;
      ReverseMultiset(s[..n]);
      assert Reverse(s) == [s[n]] + Reverse(s[..n]);
      assert s == s[..n] + [s[n]];
    }
  }

  /** For records whose keys differ, the descending order is the ascending
      order reversed. */
  lemma DescendingIsReversedAscending<T>(s: seq<T>, key: T -> Key)
    requires KeysIdentify(s, key)
    ensures SortBy(s, key, Desc) == Reverse(SortBy(s, key, Asc))
  {
    var up := SortBy(s, key, Asc);
    var down := Reverse(up);
    SortBySorted(s, key, Asc);
    SortBySorted(s, key, Desc);
    ReverseMultiset(up);
    KeysIdentifyPermutation(s, SortBy(s, key, Desc), key);
    ReverseAscendingIsDescending(up, key);
    SortedUnique(SortBy(s, key, Desc), down, key, Desc);
  }

  /** An ascending sequence read back to front is descending. */
  lemma ReverseAscendingIsDescending<T>(up: seq<T>, key: T -> Key)
    requires Sorted(up, key, Asc)
    ensures Sorted(Reverse(up), key, Desc)
  {
    var down := Reverse(up);
    forall i, j | 0 <= i < j < |down| ensures Before(Desc, key(down[i]), key(down[j])) {
      assert down[i] == up[|up| - 1 - i] && down[j] == up[|up| - 1 - j];
      assert Before(Asc, key(up[|up| - 1 - j]), key(up[|up| - 1 - i]));
    }
  }

  /** The click on a sort control: the same field flips the direction,
      another field becomes the sort field in ascending order. */
  function ToggleSort<F(==)>(field: F, dir: Dir, f: F): (r: (F, Dir))
    ensures r.0 == f
    ensures field == f ==> r.1 != dir
    ensures field != f ==> r.1 == Asc
  {
    if field == f then (field, if dir == Asc then Desc else Asc) else (f, Asc)
  }

  /** Clicking the current sort field twice gives back the original state. */
  lemma ToggleSortTwice<F>(field: F, dir: Dir)
    ensures var (g, d) := ToggleSort(field, dir, field); ToggleSort(g, d, field) == (field, dir)
  {
  }
}

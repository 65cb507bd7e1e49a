/**
 * Enumerable.OrderBy over a string key: a stable sort, ascending. Keys are compared
 * with the comparer OrderBy is given, here Comparer<string>.Default, whose order
 * depends on the current culture. The model takes that comparer as a parameter `le`
 * (`le(a, b)`: a sorts before b or ties with it) and asks of it only what every
 * culture's comparer provides: it is reflexive, total and transitive. Two different
 * strings may tie.
 */
module Sorting {

  /** A string comparer, as the relation "sorts before or ties with". */
  type StringOrder = (string, string) -> bool

  /** A comparer OrderBy can sort with: a total preorder. */
  ghost predicate IsTotalPreorder(le: StringOrder) {
    && (forall a :: le(a, a))
    && (forall a, b :: le(a, b) || le(b, a))
    && (forall a, b, c :: le(a, b) && le(b, c) ==> le(a, c))
  }

  /** Ordinal order on strings (character code by character code, a proper prefix first). */
  predicate StringLe(a: string, b: string) {
    |a| == 0 || (|b| > 0 && (a[0] < b[0] || (a[0] == b[0] && StringLe(a[1..], b[1..]))))
  }

  /** The ordinal comparer is one that OrderBy can sort with. */
  lemma OrdinalIsTotalPreorder()
    ensures IsTotalPreorder(StringLe)
  {
    forall a {
      StringLeReflexive(a);
    }
    forall a, b {
      StringLeTotal(a, b);
    }
    forall a, b, c | StringLe(a, b) && StringLe(b, c) {
      StringLeTransitive(a, b, c);
    }
  }

  lemma {:induction false} StringLeReflexive(a: string)
    ensures StringLe(a, a)
  {
    if |a| > 0 {
      StringLeReflexive(a[1..]);
    }
  }

  lemma {:induction false} StringLeTotal(a: string, b: string)
    ensures StringLe(a, b) || StringLe(b, a)
  {
    if |a| > 0 && |b| > 0 && a[0] == b[0] {
      StringLeTotal(a[1..], b[1..]);
    }
  }

  lemma {:induction false} StringLeTransitive(a: string, b: string, c: string)
    requires StringLe(a, b) && StringLe(b, c)
    ensures StringLe(a, c)
  {
    if |a| > 0 && a[0] == b[0] && b[0] == c[0] {
      StringLeTransitive(a[1..], b[1..], c[1..]);
    }
  }

  /** s is in ascending order of key. */
  predicate SortedBy<T>(s: seq<T>, key: T -> string, le: StringOrder) {
    forall i, j :: 0 <= i < j < |s| ==> le(key(s[i]), key(s[j]))
  }

  /** The comparer ties a with b: each sorts before or with the other. */
  predicate Ties(le: StringOrder, a: string, b: string) {
    le(a, b) && le(b, a)
  }

  /** The elements of s whose key ties with k, in their order in s. */
  function TiedWith<T>(s: seq<T>, key: T -> string, le: StringOrder, k: string): (r: seq<T>)
    ensures |r| <= |s|
  {
    if |s| == 0 then []
    else TiedWith(s[..|s| - 1], key, le, k) + (if Ties(le, key(s[|s| - 1]), k) then [s[|s| - 1]] else [])
  }

  /**
   * x placed into the sorted r after every element whose key does not sort after
   * its own, so that it follows the elements it ties with.
   */
  function Insert<T>(r: seq<T>, x: T, key: T -> string, le: StringOrder): (q: seq<T>)
    ensures |q| == |r| + 1
  {
    if |r| == 0 || le(key(r[|r| - 1]), key(x)) then r + [x]
    else Insert(r[..|r| - 1], x, key, le) + [r[|r| - 1]]
  }

  /** OrderBy(key): insertion sort from the front, each element after the ones it ties with. */
  function SortBy<T>(s: seq<T>, key: T -> string, le: StringOrder): (r: seq<T>)
    ensures |r| == |s|
  {
    if |s| == 0 then [] else Insert(SortBy(s[..|s| - 1], key, le), s[|s| - 1], key, le)
  }

  lemma {:induction false} InsertPermutation<T>(r: seq<T>, x: T, key: T -> string, le: StringOrder)
    ensures multiset(Insert(r, x, key, le)) == multiset(r) + multiset{x}
    decreases |r|
  {
    if |r| > 0 && !le(key(r[|r| - 1]), key(x)) {
      InsertPermutation(r[..|r| - 1], x, key, le);
      assert r == r[..|r| - 1] + [r[|r| - 1]];
    }
  }

  /** OrderBy only reorders: the result holds the same elements as often as the input. */
  lemma {:induction false} SortByPermutation<T>(s: seq<T>, key: T -> string, le: StringOrder)
    ensures multiset(SortBy(s, key, le)) == multiset(s)
  {
    if |s| > 0 {
      var p, x := s[..|s| - 1], s[|s| - 1];
      SortByPermutation(p, key, le);
      InsertPermutation(SortBy(p, key, le), x, key, le);
      assert SortBy(s, key, le) == Insert(SortBy(p, key, le), x, key, le);
      assert s == p + [x];
      assert multiset(s) == multiset(p) + multiset{x};
    }
  }

  lemma {:induction false} InsertSorted<T>(r: seq<T>, x: T, key: T -> string, le: StringOrder)
    requires IsTotalPreorder(le) && SortedBy(r, key, le)
    ensures SortedBy(Insert(r, x, key, le), key, le)
    decreases |r|
  {
    var q := Insert(r, x, key, le);
    if |r| == 0 || le(key(r[|r| - 1]), key(x)) {
      forall i, j | 0 <= i < j < |q|
        ensures le(key(q[i]), key(q[j]))
      {
        if j == |r| && i < |r| - 1 {
          assert le(key(r[i]), key(r[|r| - 1]));
        }
      }
    } else {
      var p := r[..|r| - 1];
      var last := r[|r| - 1];
      InsertSorted(p, x, key, le);
      var ins := Insert(p, x, key, le);
      assert le(key(x), key(last));
      InsertBounded(p, x, key, le, key(last));
      forall i, j | 0 <= i < j < |q|
        ensures le(key(q[i]), key(q[j]))
      {
        if j == |q| - 1 {
          assert q[i] == ins[i];
        }
      }
    }
  }

  /** Every element of Insert(r, x) sorts before or with bound when x and all of r do. */
  lemma {:induction false} InsertBounded<T>(r: seq<T>, x: T, key: T -> string, le: StringOrder, bound: string)
    requires forall i :: 0 <= i < |r| ==> le(key(r[i]), bound)
    requires le(key(x), bound)
    ensures forall i :: 0 <= i < |Insert(r, x, key, le)| ==> le(key(Insert(r, x, key, le)[i]), bound)
    decreases |r|
  {
    if |r| > 0 && !le(key(r[|r| - 1]), key(x)) {
      InsertBounded(r[..|r| - 1], x, key, le, bound);
    }
  }

  /** OrderBy's result is in ascending order of key. */
  lemma {:induction false} SortBySorted<T>(s: seq<T>, key: T -> string, le: StringOrder)
    requires IsTotalPreorder(le)
    ensures SortedBy(SortBy(s, key, le), key, le)
  {
    if |s| > 0 {
      SortBySorted(s[..|s| - 1], key, le);
      InsertSorted(SortBy(s[..|s| - 1], key, le), s[|s| - 1], key, le);
    }
  }

  lemma {:induction false} TiedWithAppend<T>(a: seq<T>, b: seq<T>, key: T -> string, le: StringOrder, k: string)
    ensures TiedWith(a + b, key, le, k) == TiedWith(a, key, le, k) + TiedWith(b, key, le, k)
    decreases |b|
  {
    if |b| == 0 {
      assert a + b == a;
    } else {
      assert (a + b)[..|a + b| - 1] == a + b[..|b| - 1];
      TiedWithAppend(a, b[..|b| - 1], key, le, k);
    }
  }

  /** Inserting x appends it to the elements that tie with its key; the others keep theirs. */
  lemma {:induction false} TiedWithInsert<T>(r: seq<T>, x: T, key: T -> string, le: StringOrder, k: string)
    requires IsTotalPreorder(le)
    ensures TiedWith(Insert(r, x, key, le), key, le, k) ==
              TiedWith(r, key, le, k) + (if Ties(le, key(x), k) then [x] else [])
    decreases |r|
  {
    if |r| == 0 || le(key(r[|r| - 1]), key(x)) {
      TiedWithAppend(r, [x], key, le, k);
    } else {
      var p, last := r[..|r| - 1], r[|r| - 1];
      var X := if Ties(le, key(x), k) then [x] else [];
      var L := if Ties(le, key(last), k) then [last] else [];
      // A last element tied with k would sort before or with x, by transitivity.
      assert Ties(le, key(x), k) ==> L == [];
      assert Insert(r, x, key, le) == Insert(p, x, key, le) + [last];
      assert r == p + [last];
      calc {
        TiedWith(Insert(p, x, key, le) + [last], key, le, k);
        { TiedWithAppend(Insert(p, x, key, le), [last], key, le, k); }
        TiedWith(Insert(p, x, key, le), key, le, k) + TiedWith([last], key, le, k);
        { TiedWithInsert(p, x, key, le, k); }
        TiedWith(p, key, le, k) + X + L;
        { assert X + L == L + X; }
        TiedWith(p, key, le, k) + L + X;
        { TiedWithAppend(p, [last], key, le, k); }
        TiedWith(p + [last], key, le, k) + X;
      }
    }
  }

  /** OrderBy is stable: elements whose keys tie keep their relative order. */
  lemma {:induction false} SortByStable<T>(s: seq<T>, key: T -> string, le: StringOrder, k: string)
    requires IsTotalPreorder(le)
    ensures TiedWith(SortBy(s, key, le), key, le, k) == TiedWith(s, key, le, k)
  {
    if |s| > 0 {
      SortByStable(s[..|s| - 1], key, le, k);
      TiedWithInsert(SortBy(s[..|s| - 1], key, le), s[|s| - 1], key, le, k);
    }
  }
}

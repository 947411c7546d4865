/** Lexicographic keys and the stable sort by key. A key is a sequence of numbers; a name is its code points. */
module Ordering {

  type Key = seq<real>

  /** a <= b, as for tuples and strings: a proper prefix comes first. */
  predicate Lex(a: Key, b: Key) {
    a == [] || (b != [] && (a[0] < b[0] || (a[0] == b[0] && Lex(a[1..], b[1..]))))
  }

  function Codes(name: string): Key {
    seq(|name|, k requires 0 <= k < |name| => name[k] as int as real)
  }

  lemma CodesInjective(a: string, b: string)
    requires Codes(a) == Codes(b)
    ensures a == b
  {
    assert |Codes(a)| == |a| && |Codes(b)| == |b|;
    forall k | 0 <= k < |a| ensures a[k] == b[k] {
      assert Codes(a)[k] == Codes(b)[k];
    }
  }

  lemma {:induction false} LexTotal(a: Key, b: Key)
    ensures Lex(a, b) || Lex(b, a)
    ensures Lex(a, b) && Lex(b, a) ==> a == b
    ensures Lex(a, a)
  {
    if a != [] && b != [] {
      LexTotal(a[1..], b[1..]);
      assert a == [a[0]] + a[1..] && b == [b[0]] + b[1..];
    }
    LexReflexive(a);
  }

  lemma {:induction false} LexReflexive(a: Key)
    ensures Lex(a, a)
  {
    if a != [] {
      LexReflexive(a[1..]);
    }
  }

  lemma {:induction false} LexTransitive(a: Key, b: Key, c: Key)
    requires Lex(a, b) && Lex(b, c)
    ensures Lex(a, c)
  {
    if a != [] && b != [] && c != [] && a[0] == b[0] == c[0] {
      LexTransitive(a[1..], b[1..], c[1..]);
    }
  }

  /** Keys of equal length in front decide, unless they are equal. */
  lemma {:induction false} LexConcat(a: Key, b: Key, x: Key, y: Key)
    requires |a| == |b|
    ensures Lex(a + x, b + y) <==> if a == b then Lex(x, y) else Lex(a, b)
  {
    if a == [] {
      assert a + x == x && b + y == y;
    } else {
      LexConcat(a[1..], b[1..], x, y);
      assert (a + x)[1..] == a[1..] + x && (b + y)[1..] == b[1..] + y;
      assert a == [a[0]] + a[1..] && b == [b[0]] + b[1..];
    }
  }

  // ---------------------------------------------------------------- sorting

  function Insert<T>(x: T, xs: seq<T>, key: T -> Key): seq<T> {
    if xs == [] then [x] else if Lex(key(x), key(xs[0])) then [x] + xs else [xs[0]] + Insert(x, xs[1..], key)
  }

  /** `sorted(xs, key=...)` */
  function Sorted<T>(xs: seq<T>, key: T -> Key): seq<T> {
    if xs == [] then [] else Insert(xs[0], Sorted(xs[1..], key), key)
  }

  predicate Ascending<T>(xs: seq<T>, key: T -> Key) {
    forall j, k | 0 <= j <= k < |xs| :: Lex(key(xs[j]), key(xs[k]))
  }

  lemma PrependAscending<T>(x: T, xs: seq<T>, key: T -> Key)
    requires Ascending(xs, key) && (forall y | y in xs :: Lex(key(x), key(y)))
    ensures Ascending([x] + xs, key)
  {
    LexReflexive(key(x));
    hide Lex;
    var all := [x] + xs;
    forall j, k | 0 <= j <= k < |all| ensures Lex(key(all[j]), key(all[k])) {
      if j > 0 {
        assert all[j] == xs[j - 1] && all[k] == xs[k - 1];
      }
    }
  }

  lemma {:induction false} InsertElements<T>(x: T, xs: seq<T>, key: T -> Key)
    ensures multiset(Insert(x, xs, key)) == multiset(xs) + multiset{x}
  {
    hide Lex;
    if xs != [] {
      InsertElements(x, xs[1..], key);
      assert xs == [xs[0]] + xs[1..];
    }
  }

  lemma {:induction false} InsertAscending<T>(x: T, xs: seq<T>, key: T -> Key)
    requires Ascending(xs, key)
    ensures Ascending(Insert(x, xs, key), key)
  {
    if xs == [] {
      PrependAscending(x, [], key);
      assert [x] + [] == [x];
    } else if Lex(key(x), key(xs[0])) {
      forall y | y in xs ensures Lex(key(x), key(y)) {
        LexTransitive(key(x), key(xs[0]), key(y));
      }
      PrependAscending(x, xs, key);
    } else {
      LexTotal(key(x), key(xs[0]));
      hide Lex;
      InsertAscending(x, xs[1..], key);
      forall y | y in Insert(x, xs[1..], key) ensures Lex(key(xs[0]), key(y)) {
        InsertElements(x, xs[1..], key);
        assert y in multiset(Insert(x, xs[1..], key));
        assert y == x || y in xs[1..];
      }
      PrependAscending(xs[0], Insert(x, xs[1..], key), key);
    }
  }

  lemma {:induction false} SortedAscending<T>(xs: seq<T>, key: T -> Key)
    ensures Ascending(Sorted(xs, key), key)
    ensures multiset(Sorted(xs, key)) == multiset(xs)
  {
    if xs != [] {
      SortedAscending(xs[1..], key);
      InsertAscending(xs[0], Sorted(xs[1..], key), key);
      InsertElements(xs[0], Sorted(xs[1..], key), key);
      hide Lex, Insert, Ascending;
      assert xs == [xs[0]] + xs[1..];
    }
  }

  ghost predicate Injective<T>(xs: seq<T>, key: T -> Key) {
    forall x, y | x in xs && y in xs && key(x) == key(y) :: x == y
  }

  lemma SameFirst<T>(xs: seq<T>, ys: seq<T>, key: T -> Key)
    requires Ascending(xs, key) && Ascending(ys, key) && multiset(xs) == multiset(ys) && Injective(xs, key)
    requires xs != [] && ys != []
    ensures xs[0] == ys[0]
  {
    assert xs[0] in multiset(ys) && ys[0] in multiset(xs);
    var j :| 0 <= j < |ys| && ys[j] == xs[0];
    var k :| 0 <= k < |xs| && xs[k] == ys[0];
    assert Lex(key(xs[0]), key(xs[k])) && Lex(key(ys[0]), key(ys[j]));
    LexTotal(key(xs[0]), key(ys[0]));
  }

  lemma SameTails<T>(xs: seq<T>, ys: seq<T>)
    requires xs != [] && ys != [] && xs[0] == ys[0] && multiset(xs) == multiset(ys)
    ensures multiset(xs[1..]) == multiset(ys[1..])
    ensures xs[1..] == ys[1..] ==> xs == ys
  {
    assert xs == [xs[0]] + xs[1..] && ys == [ys[0]] + ys[1..];
    assert multiset(xs[1..]) == multiset(xs) - multiset{xs[0]};
    assert multiset(ys[1..]) == multiset(ys) - multiset{ys[0]};
  }

  /** Two ascending arrangements of the same elements under an injective key are one. */
  lemma {:induction false} AscendingUnique<T>(xs: seq<T>, ys: seq<T>, key: T -> Key)
    requires Ascending(xs, key) && Ascending(ys, key) && multiset(xs) == multiset(ys) && Injective(xs, key)
    ensures xs == ys
  {
    assert |multiset(xs)| == |xs| && |multiset(ys)| == |ys|;
    if xs != [] {
      SameFirst(xs, ys, key);
      hide Lex;
      SameTails(xs, ys);
      assert Ascending(xs[1..], key) && Ascending(ys[1..], key);
      assert forall x | x in xs[1..] :: x in xs;
      AscendingUnique(xs[1..], ys[1..], key);
    }
  }

  /** Sorting by an injective key forgets the order of the input. */
  lemma SortedForgetsOrder<T>(xs: seq<T>, ys: seq<T>, key: T -> Key)
    requires multiset(xs) == multiset(ys) && Injective(xs, key)
    ensures Sorted(xs, key) == Sorted(ys, key)
  {
    SortedAscending(xs, key);
    SortedAscending(ys, key);
    forall x | x in Sorted(xs, key) ensures x in xs {
      assert x in multiset(xs);
    }
    AscendingUnique(Sorted(xs, key), Sorted(ys, key), key);
  }
}

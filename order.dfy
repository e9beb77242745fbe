/**
 * Python's ordering of strings and its stable `sort(key=..., reverse=True)`,
 * as used to list dates and notes newest first.
 */
module Order {

  /** Python's `a <= b` on strings: lexicographic by code point. */
  predicate StrLe(a: string, b: string)
    decreases |a|
  {
    |a| == 0 || (|b| > 0 && (a[0] < b[0] || (a[0] == b[0] && StrLe(a[1..], b[1..]))))
  }

  lemma {:induction false} StrLeTotal(a: string, b: string)
    ensures StrLe(a, b) || StrLe(b, a)
    decreases |a|
  {
    if |a| > 0 && |b| > 0 && a[0] == b[0] {
      StrLeTotal(a[1..], b[1..]);
    }
  }

  lemma {:induction false} StrLeTransitive(a: string, b: string, c: string)
    requires StrLe(a, b) && StrLe(b, c)
    ensures StrLe(a, c)
    decreases |a|
  {
    if |a| > 0 && a[0] == b[0] && b[0] == c[0] {
      StrLeTransitive(a[1..], b[1..], c[1..]);
    }
  }

  lemma {:induction false} StrLeAntisymmetric(a: string, b: string)
    requires StrLe(a, b) && StrLe(b, a)
    ensures a == b
    decreases |a|
  {
    if |a| > 0 {
      StrLeAntisymmetric(a[1..], b[1..]);
      assert a == [a[0]] + a[1..] && b == [b[0]] + b[1..];
    }
  }

  function Identity(s: string): string { s }

  /** `s` is in descending order of `key`. */
  predicate SortedDesc<T>(s: seq<T>, key: T -> string) {
    forall i, j :: 0 <= i < j < |s| ==> StrLe(key(s[j]), key(s[i]))
  }

  /**
   * Puts `x` after every element whose key is at least its own, so that
   * elements with equal keys keep the order in which they were inserted.
   */
  function InsertDesc<T>(x: T, s: seq<T>, key: T -> string): seq<T>
    decreases |s|
  {
    if |s| == 0 then [x]
    else if StrLe(key(x), key(s[0])) then [s[0]] + InsertDesc(x, s[1..], key)
    else [x] + s
  }

  /** Python's `list.sort(key=key, reverse=True)`: insertion from the left. */
  function SortDesc<T>(s: seq<T>, key: T -> string): seq<T>
    decreases |s|
  {
    if |s| == 0 then [] else InsertDesc(s[|s| - 1], SortDesc(s[..|s| - 1], key), key)
  }

  lemma {:induction false} InsertDescPermutes<T>(x: T, s: seq<T>, key: T -> string)
    ensures multiset(InsertDesc(x, s, key)) == multiset(s) + multiset{x}
    decreases |s|
  {
    if |s| > 0 && StrLe(key(x), key(s[0])) {
      InsertDescPermutes(x, s[1..], key);
      assert s == [s[0]] + s[1..];
    }
  }

  lemma {:induction false} InsertDescSorted<T>(x: T, s: seq<T>, key: T -> string)
    requires SortedDesc(s, key)
    ensures SortedDesc(InsertDesc(x, s, key), key)
    decreases |s|
  {
    if |s| == 0 {
    } else if StrLe(key(x), key(s[0])) {
      InsertDescSorted(x, s[1..], key);
      var t := InsertDesc(x, s[1..], key);
      InsertDescPermutes(x, s[1..], key);
      forall j | 0 <= j < |t|
        ensures StrLe(key(t[j]), key(s[0]))
      {
        assert t[j] in multiset(t);
        if t[j] != x {
          assert t[j] in multiset(s[1..]);
          var k :| 0 <= k < |s[1..]| && s[1..][k] == t[j];
          assert s[k + 1] == t[j];
        }
      }
    } else {
      StrLeTotal(key(x), key(s[0]));
      forall j | 0 <= j < |s|
        ensures StrLe(key(s[j]), key(x))
      {
        if j > 0 {
          StrLeTransitive(key(s[j]), key(s[0]), key(x));
        }
      }
    }
  }

  /** In a descending sequence every element after position `n` is at most every one before it. */
  lemma SplitDominates<T>(s: seq<T>, n: nat, key: T -> string)
    requires SortedDesc(s, key) && n <= |s|
    ensures SortedDesc(s[..n], key)
    ensures forall e, r :: e in s[n..] && r in s[..n] ==> StrLe(key(e), key(r))
  {
    forall e, r | e in s[n..] && r in s[..n]
      ensures StrLe(key(e), key(r))
    {
      var j :| 0 <= j < |s[n..]| && s[n..][j] == e;
      var k :| 0 <= k < |s[..n]| && s[..n][k] == r;
      assert s[n + j] == e && s[k] == r;
    }
  }

  /** The stable descending sort is sorted and a permutation of its input. */
  lemma {:induction false} SortDescCorrect<T>(s: seq<T>, key: T -> string)
    ensures SortedDesc(SortDesc(s, key), key)
    ensures multiset(SortDesc(s, key)) == multiset(s)
    decreases |s|
  {
    if |s| > 0 {
      var init := s[..|s| - 1];
      SortDescCorrect(init, key);
      InsertDescSorted(s[|s| - 1], SortDesc(init, key), key);
      InsertDescPermutes(s[|s| - 1], SortDesc(init, key), key);
      assert s == init + [s[|s| - 1]];
    }
  }

  /** The elements of `s` whose key is `k`, in their order in `s`. */
  function WithKey<T>(s: seq<T>, key: T -> string, k: string): seq<T>
    decreases |s|
  {
    if |s| == 0 then [] else (if key(s[0]) == k then [s[0]] else []) + WithKey(s[1..], key, k)
  }

  lemma {:induction false} WithKeyConcat<T>(a: seq<T>, b: seq<T>, key: T -> string, k: string)
    ensures WithKey(a + b, key, k) == WithKey(a, key, k) + WithKey(b, key, k)
    decreases |a|
  {
    if |a| > 0 {
      WithKeyConcat(a[1..], b, key, k);
      assert (a + b)[1..] == a[1..] + b;
    } else {
      assert a + b == b;
    }
  }

  lemma {:induction false} WithKeyNone<T>(s: seq<T>, key: T -> string, k: string)
    requires forall j :: 0 <= j < |s| ==> key(s[j]) != k
    ensures WithKey(s, key, k) == []
    decreases |s|
  {
    if |s| > 0 {
      WithKeyNone(s[1..], key, k);
    }
  }

  lemma {:induction false} StrLeReflexive(a: string)
    ensures StrLe(a, a)
    decreases |a|
  {
    if |a| > 0 {
      StrLeReflexive(a[1..]);
    }
  }

  /** The elements with key `k` of a sequence with a given first element. */
  lemma WithKeyCons<T>(y: T, r: seq<T>, key: T -> string, k: string)
    ensures WithKey([y] + r, key, k) == (if key(y) == k then [y] else []) + WithKey(r, key, k)
  {
    assert ([y] + r)[1..] == r;
  }

  /** Inserting into a descending sequence puts `x` after every element with the same key. */
  lemma {:induction false} WithKeyInsert<T>(x: T, t: seq<T>, key: T -> string, k: string)
    requires SortedDesc(t, key)
    ensures WithKey(InsertDesc(x, t, key), key, k) == WithKey(t, key, k) + (if key(x) == k then [x] else [])
    decreases |t|
  {
    var own := if key(x) == k then [x] else [];
    if |t| == 0 {
      WithKeyCons(x, [], key, k);
      assert WithKey(InsertDesc(x, t, key), key, k) == own + [];
    } else if StrLe(key(x), key(t[0])) {
      var head := if key(t[0]) == k then [t[0]] else [];
      var r := InsertDesc(x, t[1..], key);
      assert SortedDesc(t[1..], key) by {
        forall i, j | 0 <= i < j < |t[1..]|
          ensures StrLe(key(t[1..][j]), key(t[1..][i]))
        {
          assert t[1..][j] == t[j + 1] && t[1..][i] == t[i + 1];
        }
      }
      WithKeyInsert(x, t[1..], key, k);
      assert InsertDesc(x, t, key) == [t[0]] + r;
      WithKeyCons(t[0], r, key, k);
      WithKeyCons(t[0], t[1..], key, k);
      assert t == [t[0]] + t[1..];
      assert WithKey(InsertDesc(x, t, key), key, k) == head + (WithKey(t[1..], key, k) + own);
    } else {
      assert InsertDesc(x, t, key) == [x] + t;
      WithKeyCons(x, t, key, k);
      if key(x) == k {
        forall j | 0 <= j < |t|
          ensures key(t[j]) != k
        {
          if j == 0 {
            StrLeReflexive(key(t[0]));
          }
          assert StrLe(key(t[j]), key(t[0]));
        }
        WithKeyNone(t, key, k);
      }
    }
  }

  /**
   * The sort is stable: for every key, the elements with that key come
   * out in the order they went in.
   */
  lemma {:induction false} SortDescStable<T>(s: seq<T>, key: T -> string, k: string)
    ensures WithKey(SortDesc(s, key), key, k) == WithKey(s, key, k)
    decreases |s|
  {
    if |s| > 0 {
      var init := s[..|s| - 1];
      var x := s[|s| - 1];
      SortDescStable(init, key, k);
      SortDescCorrect(init, key);
      WithKeyInsert(x, SortDesc(init, key), key, k);
      assert s == init + [x];
      WithKeyConcat(init, [x], key, k);
      assert WithKey([x], key, k) == (if key(x) == k then [x] else []) + WithKey([], key, k);
    }
  }
}

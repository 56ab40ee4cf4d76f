/** The canonical order of a variations list: Python's string order, and the
    stable sort `url_list.sort(key=get_stub)` performs. The sort is stated for
    any key function; the variations list uses the stub. */
module StubOrder {

  /** Python's `a <= b` on str: code point by code point, a proper prefix
      first. */
  predicate LessEq(a: string, b: string)
    decreases |a|
  {
    a == [] || (b != [] && (a[0] < b[0] || (a[0] == b[0] && LessEq(a[1..], b[1..]))))
  }

  lemma {:induction false} LessEqReflexive(a: string)
    ensures LessEq(a, a)
    decreases |a|
  {
    if a != [] {
      LessEqReflexive(a[1..]);
    }
  }

  lemma {:induction false} LessEqTotal(a: string, b: string)
    ensures LessEq(a, b) || LessEq(b, a)
    decreases |a|
  {
    if a != [] && b != [] && a[0] == b[0] {
      LessEqTotal(a[1..], b[1..]);
    }
  }

  lemma {:induction false} LessEqAntisymmetric(a: string, b: string)
    requires LessEq(a, b) && LessEq(b, a)
    ensures a == b
    decreases |a|
  {
    if a != [] && b != [] {
      LessEqAntisymmetric(a[1..], b[1..]);
      assert a == [a[0]] + a[1..] && b == [b[0]] + b[1..];
    }
  }

  lemma {:induction false} LessEqTransitive(a: string, b: string, c: string)
    requires LessEq(a, b) && LessEq(b, c)
    ensures LessEq(a, c)
    decreases |a|
  {
    if a != [] && a[0] == b[0] && b[0] == c[0] {
      LessEqTransitive(a[1..], b[1..], c[1..]);
    }
  }

  /** Non-decreasing by key. */
  predicate SortedBy(s: seq<string>, key: string -> string) {
    forall i, j :: 0 <= i < j < |s| ==> LessEq(key(s[i]), key(s[j]))
  }

  /** Inserts x before the first element whose key is not below x's key. */
  function Insert(x: string, s: seq<string>, key: string -> string): (r: seq<string>)
    ensures multiset(r) == multiset(s) + multiset{x}
  {
    if s == [] then [x]
    else if LessEq(key(x), key(s[0])) then [x] + s
    else
      assert s == [s[0]] + s[1..];
      [s[0]] + Insert(x, s[1..], key)
  }

  /** Every entry of `Insert(x, s, key)` is x or an entry of s. */
  lemma InsertMember(x: string, s: seq<string>, key: string -> string, y: string)
    requires y in Insert(x, s, key)
    ensures y == x || y in s
  {
    assert y in multiset(Insert(x, s, key));
  }

  lemma {:induction false} InsertSorted(x: string, s: seq<string>, key: string -> string)
    requires SortedBy(s, key)
    ensures SortedBy(Insert(x, s, key), key)
  {
    if s == [] {
    } else if LessEq(key(x), key(s[0])) {
      forall y | y in s
        ensures LessEq(key(x), key(y))
      {
        var k :| 0 <= k < |s| && s[k] == y;
        if k > 0 {
          LessEqTransitive(key(x), key(s[0]), key(y));
        }
      }
      SortedCons(x, s, key);
    } else {
      var tail := s[1..];
      assert SortedBy(tail, key);
      InsertSorted(x, tail, key);
      var t := Insert(x, tail, key);
      assert Insert(x, s, key) == [s[0]] + t;
      LessEqTotal(key(x), key(s[0]));
      forall y | y in t
        ensures LessEq(key(s[0]), key(y))
      {
        InsertMember(x, tail, key, y);
        if y != x {
          var k :| 0 <= k < |tail| && tail[k] == y;
          assert s[k + 1] == y;
        }
      }
      SortedCons(s[0], t, key);
    }
  }

  /** Prepending an element whose key is at most every key keeps the order. */
  lemma SortedCons(x: string, t: seq<string>, key: string -> string)
    requires SortedBy(t, key)
    requires forall y :: y in t ==> LessEq(key(x), key(y))
    ensures SortedBy([x] + t, key)
  {
    var r := [x] + t;
    forall i, j | 0 <= i < j < |r|
      ensures LessEq(key(r[i]), key(r[j]))
    {
      assert r[j] == t[j - 1];
      if i > 0 {
        assert r[i] == t[i - 1];
      } else {
        assert t[j - 1] in t;
      }
    }
  }

  /** `list.sort(key=key)`: a stable sort by key. */
  function SortBy(s: seq<string>, key: string -> string): (r: seq<string>)
    ensures multiset(r) == multiset(s)
    ensures SortedBy(r, key)
  {
    if s == [] then []
    else
      var rest := SortBy(s[1..], key);
      InsertSorted(s[0], rest, key);
      assert s == [s[0]] + s[1..];
      Insert(s[0], rest, key)
  }

  /** The entries of s whose key is k, in their order in s. */
  function WithKey(s: seq<string>, key: string -> string, k: string): seq<string> {
    if s == [] then []
    else (if key(s[0]) == k then [s[0]] else []) + WithKey(s[1..], key, k)
  }

  lemma {:induction false} WithKeyMember(s: seq<string>, key: string -> string, k: string, x: string)
    requires x in WithKey(s, key, k)
    ensures x in s && key(x) == k
  {
    if s != [] {
      if x != s[0] || key(s[0]) != k {
        WithKeyMember(s[1..], key, k, x);
      }
    }
  }

  /** WithKey of a list with a known head. */
  lemma WithKeyCons(h: string, t: seq<string>, key: string -> string, k: string)
    ensures WithKey([h] + t, key, k) == (if key(h) == k then [h] else []) + WithKey(t, key, k)
  {
    assert ([h] + t)[0] == h;
    assert ([h] + t)[1..] == t;
  }

  lemma {:induction false} InsertWithKey(x: string, s: seq<string>, key: string -> string, k: string)
    ensures WithKey(Insert(x, s, key), key, k) == (if key(x) == k then [x] else []) + WithKey(s, key, k)
  {
    if s == [] {
      WithKeyCons(x, [], key, k);
    } else if LessEq(key(x), key(s[0])) {
      WithKeyCons(x, s, key, k);
    } else {
      InsertWithKey(x, s[1..], key, k);
      InsertPastHeadWithKey(x, s, key, k);
    }
  }

  /** The step of InsertWithKey where x goes past the head of s. */
  lemma InsertPastHeadWithKey(x: string, s: seq<string>, key: string -> string, k: string)
    requires s != [] && !LessEq(key(x), key(s[0]))
    requires WithKey(Insert(x, s[1..], key), key, k) ==
             (if key(x) == k then [x] else []) + WithKey(s[1..], key, k)
    ensures WithKey(Insert(x, s, key), key, k) == (if key(x) == k then [x] else []) + WithKey(s, key, k)
  {
    LessEqReflexive(key(x));
    var rest := Insert(x, s[1..], key);
    assert Insert(x, s, key) == [s[0]] + rest;
    WithKeyCons(s[0], rest, key, k);
    assert s == [s[0]] + s[1..];
    WithKeyCons(s[0], s[1..], key, k);
    var w := WithKey(s[1..], key, k);
    var ins := WithKey(Insert(x, s, key), key, k);
    if key(x) == k {
      assert key(s[0]) != k;
      assert ins == [] + ([x] + w);
      assert [] + ([x] + w) == [x] + w;
      assert WithKey(s, key, k) == [] + w;
      assert [] + w == w;
    } else if key(s[0]) == k {
      assert ins == [s[0]] + ([] + w);
      assert [] + w == w;
      assert WithKey(s, key, k) == [s[0]] + w;
    } else {
      assert ins == [] + ([] + w);
      assert [] + w == w;
      assert WithKey(s, key, k) == [] + w;
    }
  }

  /** The sort is stable: for every key, the entries with that key keep
      their relative order. */
  lemma {:induction false} SortStable(s: seq<string>, key: string -> string, k: string)
    ensures WithKey(SortBy(s, key), key, k) == WithKey(s, key, k)
  {
    if s != [] {
      SortStable(s[1..], key, k);
      InsertWithKey(s[0], SortBy(s[1..], key), key, k);
    }
  }

  /** When a list sorted by key has an entry with key k, its first key is at
      most k. */
  lemma FirstWithKeyBounds(s: seq<string>, key: string -> string, k: string, y: string)
    requires SortedBy(s, key) && s != []
    requires y in WithKey(s, key, k)
    ensures LessEq(key(s[0]), k)
  {
    WithKeyMember(s, key, k, y);
    var j :| 0 <= j < |s| && s[j] == y;
    if j == 0 {
      LessEqReflexive(k);
    }
  }

  /** The head of a non-empty list is the first entry with its own key. */
  lemma WithKeyOfHead(s: seq<string>, key: string -> string)
    requires s != []
    ensures WithKey(s, key, key(s[0])) == [s[0]] + WithKey(s[1..], key, key(s[0]))
  {
  }

  /** A stable sort has exactly one possible outcome: two lists sorted by key
      with the same entries per key, in the same order, are equal. So the
      insertion sort above and Python's sort give the same list. */
  lemma {:induction false} StableSortUnique(a: seq<string>, b: seq<string>, key: string -> string)
    requires SortedBy(a, key) && SortedBy(b, key)
    requires forall k :: WithKey(a, key, k) == WithKey(b, key, k)
    ensures a == b
    decreases |a| + |b|
  {
    if a == [] && b != [] {
      WithKeyOfHead(b, key);
      assert false;
    } else if a != [] && b == [] {
      WithKeyOfHead(a, key);
      assert false;
    } else if a != [] && b != [] {
      var ka, kb := key(a[0]), key(b[0]);
      assert WithKey(a, key, ka)[0] == a[0];
      assert WithKey(b, key, kb)[0] == b[0];
      assert WithKey(a, key, ka) == WithKey(b, key, ka);
      assert WithKey(a, key, kb) == WithKey(b, key, kb);
      FirstWithKeyBounds(b, key, ka, a[0]);
      FirstWithKeyBounds(a, key, kb, b[0]);
      LessEqAntisymmetric(ka, kb);
      assert WithKey(b, key, ka)[0] == b[0];
      forall k
        ensures WithKey(a[1..], key, k) == WithKey(b[1..], key, k)
      {
        assert WithKey(a, key, k) == WithKey(b, key, k);
        if k == ka {
          var ta, tb := WithKey(a[1..], key, k), WithKey(b[1..], key, k);
          assert WithKey(a, key, k) == [a[0]] + ta;
          assert WithKey(b, key, k) == [b[0]] + tb;
          assert ([a[0]] + ta)[1..] == ta && ([b[0]] + tb)[1..] == tb;
        } else {
          assert key(a[0]) != k && key(b[0]) != k;
          assert WithKey(a, key, k) == WithKey(a[1..], key, k);
          assert WithKey(b, key, k) == WithKey(b[1..], key, k);
        }
      }
      assert SortedBy(a[1..], key) && SortedBy(b[1..], key);
      StableSortUnique(a[1..], b[1..], key);
      assert a == [a[0]] + a[1..] && b == [b[0]] + b[1..];
    }
  }

  /** Sorting a list that is already in key order leaves it unchanged. */
  lemma SortSortedIsIdentity(s: seq<string>, key: string -> string)
    requires SortedBy(s, key)
    ensures SortBy(s, key) == s
  {
    forall k
      ensures WithKey(SortBy(s, key), key, k) == WithKey(s, key, k)
    {
      SortStable(s, key, k);
    }
    StableSortUnique(SortBy(s, key), s, key);
  }
}

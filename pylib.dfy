/** The few Python built-ins the memory engine leans on, with the exact
    semantics the engine relies on: prefix slicing (`s[:n]`, negative `n`
    counting from the end), `list.remove`, first-occurrence de-duplication
    (dict and Counter key order), the stable `sorted(..., reverse=True)`,
    and a handful of string tests. */
module PyLib {

  datatype Option<+T> = None | Some(value: T)

  datatype Result<+T, +E> = Ok(value: T) | Err(error: E)

  function Min(a: int, b: int): int { if a < b then a else b }

  function Max(a: int, b: int): int { if a < b then b else a }

  function Get<K, V>(m: map<K, V>, k: K, default: V): V
  {
    if k in m then m[k] else default
  }

  /** `s[:n]` */
  function Take<T>(s: seq<T>, n: int): (r: seq<T>)
    ensures |r| <= |s| && r == s[..|r|]
    ensures 0 <= n ==> |r| == Min(n, |s|)
    ensures n < 0 ==> |r| == Max(0, |s| + n)
  {
    if 0 <= n then (if n < |s| then s[..n] else s)
    else if |s| + n > 0 then s[..|s| + n]
    else []
  }

  /** `s[-n:]` for a positive `n` */
  function Last<T>(s: seq<T>, n: nat): (r: seq<T>)
    requires 0 < n
    ensures |r| == Min(n, |s|) && r == s[|s| - |r|..]
  {
    if n < |s| then s[|s| - n..] else s
  }

  /** Number of occurrences of `x` in `s`. */
  function Count<T(==)>(s: seq<T>, x: T): nat
  {
    if s == [] then 0
    else Count(s[..|s| - 1], x) + (if s[|s| - 1] == x then 1 else 0)
  }

  lemma {:induction false} CountAppend<T>(a: seq<T>, b: seq<T>, x: T)
    ensures Count(a + b, x) == Count(a, x) + Count(b, x)
    decreases |b|
  {
    if b == [] {
      assert a + b == a;
    } else {
      assert (a + b)[..|a + b| - 1] == a + b[..|b| - 1];
      CountAppend(a, b[..|b| - 1], x);
    }
  }

  lemma {:induction false} CountPositive<T>(s: seq<T>, x: T)
    ensures x in s <==> Count(s, x) > 0
    decreases |s|
  {
    if s != [] {
      CountPositive(s[..|s| - 1], x);
      assert s == s[..|s| - 1] + [s[|s| - 1]];
    }
  }

  predicate NoDups<T(==)>(s: seq<T>)
  {
    forall i, j | 0 <= i < j < |s| :: s[i] != s[j]
  }

  lemma {:induction false} NoDupsCount<T>(s: seq<T>, x: T)
    requires NoDups(s)
    ensures Count(s, x) == if x in s then 1 else 0
    decreases |s|
  {
    if s != [] {
      var init := s[..|s| - 1];
      NoDupsCount(init, x);
      assert s == init + [s[|s| - 1]];
      if s[|s| - 1] == x {
        forall i | 0 <= i < |init| ensures init[i] != x {
          assert init[i] == s[i];
        }
      }
    }
  }

  /** The distinct elements of `s` in order of first occurrence: the key
      order of a dict or Counter filled from `s`. */
  function Distinct<T(==,!new)>(s: seq<T>): (r: seq<T>)
    ensures NoDups(r)
    ensures forall x :: x in r <==> x in s
  {
    if s == [] then []
    else
      var d := Distinct(s[..|s| - 1]);
      assert forall x :: x in s <==> x in s[..|s| - 1] || x == s[|s| - 1] by {
        assert s == s[..|s| - 1] + [s[|s| - 1]];
      }
      if s[|s| - 1] in d then d else d + [s[|s| - 1]]
  }

  /** `list.remove(x)` when `x` is present: drops the first occurrence. */
  function RemoveFirst<T(==,!new)>(s: seq<T>, x: T): (r: seq<T>)
    ensures x in s ==> |r| == |s| - 1
    ensures x !in s ==> r == s
    ensures forall y :: y != x ==> Count(r, y) == Count(s, y)
  {
    if s == [] then []
    else if s[0] == x then
      ConsCount(s, x);
      s[1..]
    else
      var rest := RemoveFirst(s[1..], x);
      var r := [s[0]] + rest;
      assert s == [s[0]] + s[1..];
      assert forall y :: y != x ==> Count(r, y) == Count(s, y) by {
        forall y | y != x ensures Count(r, y) == Count(s, y) {
          CountAppend([s[0]], rest, y);
          CountAppend([s[0]], s[1..], y);
        }
      }
      r
  }

  lemma ConsCount<T>(s: seq<T>, x: T)
    requires s != [] && s[0] == x
    ensures forall y :: y != x ==> Count(s[1..], y) == Count(s, y)
  {
    assert s == [s[0]] + s[1..];
    forall y | y != x ensures Count(s[1..], y) == Count(s, y) {
      CountAppend([s[0]], s[1..], y);
    }
  }

  /** A list without repeats has as many elements as the set of them. */
  lemma {:induction false} NoDupsCard<T>(s: seq<T>)
    requires NoDups(s)
    ensures |set x | x in s| == |s|
    decreases |s|
  {
    if s != [] {
      NoDupsTail(s);
      NoDupsCard(s[1..]);
      assert (set x | x in s) == {s[0]} + (set x | x in s[1..]) by {
        assert s == [s[0]] + s[1..];
      }
    }
  }

  lemma NoDupsTail<T>(s: seq<T>)
    requires s != [] && NoDups(s)
    ensures NoDups(s[1..]) && s[0] !in s[1..]
  {
    forall i | 0 <= i < |s[1..]| ensures s[1..][i] != s[0] {
      assert s[1..][i] == s[i + 1];
    }
  }

  /** On a list without duplicates, `remove` takes `x` out entirely and
      keeps every other element. */
  lemma {:induction false} RemoveFirstNoDups<T(!new)>(s: seq<T>, x: T)
    requires NoDups(s)
    ensures NoDups(RemoveFirst(s, x)) && x !in RemoveFirst(s, x)
    ensures forall y :: y in RemoveFirst(s, x) <==> y in s && y != x
    decreases |s|
  {
    if s != [] {
      NoDupsTail(s);
      if s[0] != x {
        var rest := RemoveFirst(s[1..], x);
        RemoveFirstNoDups(s[1..], x);
        var r := [s[0]] + rest;
        assert RemoveFirst(s, x) == r;
        assert s == [s[0]] + s[1..];
        forall i, j | 0 <= i < j < |r| ensures r[i] != r[j] {
          if i > 0 {
            assert r[i] == rest[i - 1] && r[j] == rest[j - 1];
          } else {
            assert r[j] in rest;
          }
        }
      }
    }
  }

  predicate StartsWith(s: string, prefix: string)
  {
    |prefix| <= |s| && s[..|prefix|] == prefix
  }

  predicate EndsWith(s: string, suffix: string)
  {
    |suffix| <= |s| && s[|s| - |suffix|..] == suffix
  }

  /** Python's `w in s` on strings. */
  predicate Contains(s: string, w: string)
    decreases |s|
  {
    StartsWith(s, w) || (s != [] && Contains(s[1..], w))
  }

  /** `sep.join(parts)` */
  function Join(sep: string, parts: seq<string>): string
  {
    if parts == [] then ""
    else if |parts| == 1 then parts[0]
    else parts[0] + sep + Join(sep, parts[1..])
  }

  /** The characters `str.strip()` removes: those Python's `str.isspace`
      accepts, the ASCII whitespace, the separators U+001C to U+001F,
      U+0085, U+00A0 and the Unicode space separators. */
  predicate IsSpace(c: char)
  {
    var n := c as int;
    || (9 <= n <= 13) || (0x1c <= n <= 0x20) || n == 0x85 || n == 0xa0 || n == 0x1680
    || (0x2000 <= n <= 0x200a) || n == 0x2028 || n == 0x2029 || n == 0x202f || n == 0x205f || n == 0x3000
  }

  function StripLeft(s: string): (r: string)
    ensures |r| <= |s| && r == s[|s| - |r|..]
    ensures r == [] || !IsSpace(r[0])
    ensures forall k | 0 <= k < |s| - |r| :: IsSpace(s[k])
    decreases |s|
  {
    if s != [] && IsSpace(s[0]) then StripLeft(s[1..]) else s
  }

  function StripRight(s: string): (r: string)
    ensures |r| <= |s| && r == s[..|r|]
    ensures r == [] || !IsSpace(r[|r| - 1])
    ensures forall k | |r| <= k < |s| :: IsSpace(s[k])
    decreases |s|
  {
    if s != [] && IsSpace(s[|s| - 1]) then StripRight(s[..|s| - 1]) else s
  }

  /** `str.strip()` */
  function Strip(s: string): (r: string)
    ensures r == [] || (!IsSpace(r[0]) && !IsSpace(r[|r| - 1]))
  {
    var l := StripLeft(s);
    var r := StripRight(l);
    assert r == [] || r[0] == l[0] by {
      if r != [] { assert r == l[..|r|]; }
    }
    r
  }

  /** Decimal rendering of a natural number, zero-padded to `width`. */
  function Digits(n: nat): string
    decreases n
  {
    if n < 10 then [('0' as int + n) as char]
    else Digits(n / 10) + [('0' as int + n % 10) as char]
  }

  function PadLeft(s: string, width: nat): (r: string)
    ensures |r| == Max(width, |s|)
    decreases width - |s|
  {
    if |s| < width then PadLeft(['0'] + s, width) else s
  }

  function IntToString(n: int): string
  {
    if n < 0 then "-" + Digits(-n) else Digits(n)
  }

  // ---------------------------------------------------------------
  // sorted(s, key=key, reverse=True): a stable descending sort.
  // ---------------------------------------------------------------

  predicate SortedDesc<T>(s: seq<T>, key: T -> real)
  {
    forall i, j | 0 <= i < j < |s| :: key(s[i]) >= key(s[j])
  }

  /** Insert `x` into a descending list in front of every element whose
      key is not larger: `x` stays ahead of the equal keys that follow it
      in the input, which is what makes the sort stable. */
  function Insert<T>(x: T, t: seq<T>, key: T -> real): (r: seq<T>)
    ensures |r| == |t| + 1
  {
    if t == [] || key(x) >= key(t[0]) then [x] + t
    else [t[0]] + Insert(x, t[1..], key)
  }

  function SortDesc<T>(s: seq<T>, key: T -> real): (r: seq<T>)
    ensures |r| == |s|
  {
    if s == [] then [] else Insert(s[0], SortDesc(s[1..], key), key)
  }

  /** The elements of `s` whose key is `k`, in order. */
  function WithKey<T>(s: seq<T>, key: T -> real, k: real): seq<T>
  {
    if s == [] then []
    else (if key(s[0]) == k then [s[0]] else []) + WithKey(s[1..], key, k)
  }

  lemma {:induction false} WithKeyAppend<T>(a: seq<T>, b: seq<T>, key: T -> real, k: real)
    ensures WithKey(a + b, key, k) == WithKey(a, key, k) + WithKey(b, key, k)
    decreases |a|
  {
    if a != [] {
      assert (a + b)[1..] == a[1..] + b;
      WithKeyAppend(a[1..], b, key, k);
    } else {
      assert a + b == b;
    }
  }

  lemma {:induction false} InsertBound<T>(x: T, t: seq<T>, key: T -> real, b: real)
    requires key(x) <= b && forall i | 0 <= i < |t| :: key(t[i]) <= b
    ensures forall i | 0 <= i < |Insert(x, t, key)| :: key(Insert(x, t, key)[i]) <= b
    decreases |t|
  {
    if t != [] && key(x) < key(t[0]) {
      InsertBound(x, t[1..], key, b);
    }
  }

  lemma {:induction false} InsertSorted<T>(x: T, t: seq<T>, key: T -> real)
    requires SortedDesc(t, key)
    ensures SortedDesc(Insert(x, t, key), key)
    decreases |t|
  {
    if t != [] && key(x) < key(t[0]) {
      var rest := Insert(x, t[1..], key);
      InsertSorted(x, t[1..], key);
      InsertBound(x, t[1..], key, key(t[0]));
      var r := [t[0]] + rest;
      assert Insert(x, t, key) == r;
      forall i, j | 0 <= i < j < |r| ensures key(r[i]) >= key(r[j]) {
        if i == 0 {
          assert r[j] == rest[j - 1];
        } else {
          assert r[i] == rest[i - 1] && r[j] == rest[j - 1];
        }
      }
    }
  }

  lemma {:induction false} InsertMultiset<T>(x: T, t: seq<T>, key: T -> real)
    ensures multiset(Insert(x, t, key)) == multiset([x] + t)
    decreases |t|
  {
    if t != [] && key(x) < key(t[0]) {
      InsertMultiset(x, t[1..], key);
      assert t == [t[0]] + t[1..];
    }
  }

  lemma WithKeyCons<T>(y: T, s: seq<T>, key: T -> real, k: real)
    ensures WithKey([y] + s, key, k) == (if key(y) == k then [y] else []) + WithKey(s, key, k)
  {
    assert ([y] + s)[1..] == s;
  }

  lemma {:induction false} InsertStable<T>(x: T, t: seq<T>, key: T -> real, k: real)
    requires SortedDesc(t, key)
    ensures WithKey(Insert(x, t, key), key, k) == WithKey([x] + t, key, k)
    decreases |t|
  {
    if t != [] && key(x) < key(t[0]) {
      var rest := Insert(x, t[1..], key);
      assert SortedDesc(t[1..], key);
      var head := if key(t[0]) == k then [t[0]] else [];
      var xs := if key(x) == k then [x] else [];
      var w := WithKey(t[1..], key, k);
      assert t == [t[0]] + t[1..];
      calc {
        WithKey(Insert(x, t, key), key, k);
        { assert Insert(x, t, key) == [t[0]] + rest; }
        WithKey([t[0]] + rest, key, k);
        { WithKeyCons(t[0], rest, key, k); }
        head + WithKey(rest, key, k);
        { InsertStable(x, t[1..], key, k); WithKeyCons(x, t[1..], key, k); }
        head + (xs + w);
        { if head == [] { assert head + (xs + w) == xs + w; } else { assert xs == []; assert xs + (head + w) == head + w; } }
        xs + (head + w);
        { WithKeyCons(t[0], t[1..], key, k); }
        xs + WithKey(t, key, k);
        { WithKeyCons(x, t, key, k); }
        WithKey([x] + t, key, k);
      }
    }
  }

  /** The sort is descending, a permutation, and stable: the elements
      sharing one key keep their input order. */
  lemma {:induction false} SortDescCorrect<T>(s: seq<T>, key: T -> real)
    ensures SortedDesc(SortDesc(s, key), key)
    ensures multiset(SortDesc(s, key)) == multiset(s)
    ensures forall k :: WithKey(SortDesc(s, key), key, k) == WithKey(s, key, k)
    decreases |s|
  {
    if s != [] {
      SortDescCorrect(s[1..], key);
      InsertSorted(s[0], SortDesc(s[1..], key), key);
      InsertMultiset(s[0], SortDesc(s[1..], key), key);
      assert s == [s[0]] + s[1..];
      forall k ensures WithKey(SortDesc(s, key), key, k) == WithKey(s, key, k) {
        InsertStable(s[0], SortDesc(s[1..], key), key, k);
        WithKeyAppend([s[0]], SortDesc(s[1..], key), key, k);
        WithKeyAppend([s[0]], s[1..], key, k);
      }
    }
  }

  /** The first `n` of a descending sort hold `min(n, |s|)` elements, and
      an element of `s` left out of them is outscored by each of the `n`
      kept ones. */
  lemma TakeSortDesc<T>(s: seq<T>, key: T -> real, n: nat, x: T)
    requires x in s
    ensures var top := Take(SortDesc(s, key), n);
      && |top| == Min(n, |s|)
      && (x in top || (|top| == n && forall i | 0 <= i < |top| :: key(x) <= key(top[i])))
  {
    var sorted := SortDesc(s, key);
    SortDescCorrect(s, key);
    assert |sorted| == |multiset(sorted)| == |s|;
    assert x in multiset(sorted);
    var j :| 0 <= j < |sorted| && sorted[j] == x;
    var top := Take(sorted, n);
    if j < |top| {
      assert top[j] == x;
    } else {
      forall i | 0 <= i < |top| ensures key(x) <= key(top[i]) {
        assert top[i] == sorted[i];
      }
    }
  }

  /** A subset is no larger than its superset, and strictly smaller when
      it is a proper subset. */
  lemma {:induction false} SubsetCard<T>(a: set<T>, b: set<T>)
    requires a <= b
    ensures |a| <= |b|
    ensures a < b ==> |a| < |b|
    decreases |b|
  {
    if a != {} {
      var x :| x in a;
      SubsetCard(a - {x}, b - {x});
      assert |a| == |a - {x}| + 1 && |b| == |b - {x}| + 1;
      if a < b {
        var y :| y in b && y !in a;
        assert y in b - {x} && y !in a - {x};
      }
    } else if b != {} {
      var y :| y in b;
      assert |b| > 0;
    }
  }

  /** The share of a non-empty set that a subset of it makes up is a
      fraction, and it is 1 exactly when the subset is the whole set. */
  lemma SubsetFraction<T>(a: set<T>, b: set<T>)
    requires a <= b && b != {}
    ensures 0.0 <= (|a| as real) / (|b| as real) <= 1.0
    ensures (|a| as real) / (|b| as real) == 1.0 <==> a == b
  {
    SubsetCard(a, b);
    var x := |a| as real;
    var y := |b| as real;
    assert 0.0 < y;
    if a != b {
      assert a < b;
      assert x < y;
    }
  }
}

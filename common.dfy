/** Small value types and sequence/string helpers shared by the bots' models. */
module Common {

  datatype Option<+T> = None | Some(value: T)

  /** The outcome of a command that changes nothing or fails with an error. */
  datatype Outcome<+E> = Pass | Fail(error: E)

  datatype Result<+R, +E> = Ok(value: R) | Err(error: E)

  // ---------------------------------------------------------------------------
  // Decimal rendering of naturals (Python f"{n}", JavaScript `${n}`)

  function DigitChar(d: nat): (c: char)
    requires d < 10
    ensures '0' <= c <= '9'
  {
    "0123456789"[d]
  }

  predicate AllDigits(s: string) {
    forall i :: 0 <= i < |s| ==> '0' <= s[i] <= '9'
  }

  /** The decimal digits of `n`, most significant first, with no leading zero. */
  function NatToString(n: nat): (s: string)
    ensures |s| >= 1 && AllDigits(s)
    ensures (|s| > 1) == (n >= 10)
    ensures |s| > 1 ==> s[0] != '0'
  {
    if n < 10 then [DigitChar(n)] else NatToString(n / 10) + [DigitChar(n % 10)]
  }

  // ---------------------------------------------------------------------------
  // Substrings (Python `t in s`, JavaScript `s.includes(t)`)

  predicate IsSubstringAt(s: string, t: string, i: int) {
    0 <= i && i + |t| <= |s| && s[i..i + |t|] == t
  }

  predicate Contains(s: string, t: string) {
    exists i | 0 <= i <= |s| - |t| :: IsSubstringAt(s, t, i)
  }

  lemma PrefixContains(t: string, rest: string)
    ensures Contains(t + rest, t)
  {
    assert IsSubstringAt(t + rest, t, 0);
  }

  // ---------------------------------------------------------------------------
  // Joining lines with a separator (Python "sep".join, JavaScript .join(sep))

  function Join(lines: seq<string>, sep: string): (s: string)
    ensures lines == [] ==> s == []
    ensures |lines| == 1 ==> s == lines[0]
  {
    if lines == [] then []
    else if |lines| == 1 then lines[0]
    else lines[0] + sep + Join(lines[1..], sep)
  }

  /** The last `n` elements (Python `xs[-n:]`, JavaScript `xs.slice(-n)`). */
  function LastN<T>(xs: seq<T>, n: nat): (r: seq<T>)
    ensures |r| == if |xs| < n then |xs| else n
    ensures xs == xs[..|xs| - |r|] + r
  {
    if |xs| <= n then xs else xs[|xs| - n..]
  }

  /** Elements of `xs` that satisfy `p`, in their original order. */
  function Filter<T(==)>(xs: seq<T>, p: T -> bool): (r: seq<T>)
    ensures |r| <= |xs|
    ensures forall x :: x in r ==> x in xs && p(x)
    ensures forall x :: x in xs && p(x) ==> x in r
  {
    if xs == [] then []
    else if p(xs[0]) then [xs[0]] + Filter(xs[1..], p)
    else Filter(xs[1..], p)
  }

  predicate NoDuplicates<T(==)>(xs: seq<T>) {
    forall i, j :: 0 <= i < j < |xs| ==> xs[i] != xs[j]
  }

  lemma NoDuplicatesCons<T>(x: T, xs: seq<T>)
    requires x !in xs && NoDuplicates(xs)
    ensures NoDuplicates([x] + xs)
  {
    var s := [x] + xs;
    forall i, j | 0 <= i < j < |s| ensures s[i] != s[j] {
      assert s[j] == xs[j - 1];
      if i > 0 {
        assert s[i] == xs[i - 1];
      }
    }
  }

  /** `order` lists every key of `m` exactly once and nothing else: the insertion order
      of a dict or of a JavaScript object with non-index keys. */
  ghost predicate KeysInOrder<K(!new), V>(m: map<K, V>, order: seq<K>) {
    && NoDuplicates(order)
    && (forall k {:trigger k in m} :: k in m <==> k in order)
  }

  /** Overwriting an existing key keeps the order. */
  lemma KeysInOrderStore<K(!new), V>(m: map<K, V>, order: seq<K>, k: K, v: V)
    requires KeysInOrder(m, order) && k in m
    ensures KeysInOrder(m[k := v], order)
  {
  }

  /** A new key goes to the end of the order. */
  lemma KeysInOrderAdd<K(!new), V>(m: map<K, V>, order: seq<K>, k: K, v: V)
    requires KeysInOrder(m, order) && k !in m
    ensures KeysInOrder(m[k := v], order + [k])
  {
    var o := order + [k];
    forall k' ensures k' in m[k := v] <==> k' in o {
      assert k' in o <==> k' in order || k' == k;
    }
    forall i, j | 0 <= i < j < |o| ensures o[i] != o[j] {
      if j == |order| {
        assert o[i] == order[i];
      }
    }
  }

  /** The entries of `m` in the order `order` lists its keys (Python `d.items()`, JavaScript
      `Object.entries(o)`): every stored entry exactly once, keyed in insertion order. */
  function Entries<K(!new), V>(m: map<K, V>, order: seq<K>): (r: seq<(K, V)>)
    requires KeysInOrder(m, order)
    ensures forall k :: k in m ==> (k, m[k]) in r
    ensures forall e :: e in r ==> e.0 in m && e.1 == m[e.0]
    ensures forall i, j :: 0 <= i < j < |r| ==> r[i].0 != r[j].0
    ensures |r| == |order| && forall i :: 0 <= i < |r| ==> r[i].0 == order[i]
  {
    var r := seq(|order|, i requires 0 <= i < |order| => (order[i], m[order[i]]));
    forall k | k in m ensures (k, m[k]) in r {
      var i :| 0 <= i < |order| && order[i] == k;
      assert r[i] == (k, m[k]);
    }
    r
  }

  // ---------------------------------------------------------------------------
  // Stable sort by a key, greatest key first (Python sorted(..., reverse=True),
  // JavaScript Array.prototype.sort with comparator b - a), and its top-n slice.

  predicate SortedDesc<T>(s: seq<T>, key: T -> int) {
    forall i, j :: 0 <= i < j < |s| ==> key(s[i]) >= key(s[j])
  }

  /** Inserts `x` before the first element whose key is not greater than its own. */
  function InsertDesc<T>(x: T, s: seq<T>, key: T -> int): seq<T> {
    if s == [] || key(x) >= key(s[0]) then [x] + s
    else [s[0]] + InsertDesc(x, s[1..], key)
  }

  function SortDesc<T>(s: seq<T>, key: T -> int): seq<T> {
    if s == [] then [] else InsertDesc(s[0], SortDesc(s[1..], key), key)
  }

  lemma {:induction false} InsertDescPerm<T>(x: T, s: seq<T>, key: T -> int)
    ensures multiset(InsertDesc(x, s, key)) == multiset(s) + multiset{x}
    ensures |InsertDesc(x, s, key)| == |s| + 1
  {
    if s != [] && key(x) < key(s[0]) {
      InsertDescPerm(x, s[1..], key);
      assert s == [s[0]] + s[1..];
    }
  }

  lemma {:induction false} InsertDescBound<T>(x: T, s: seq<T>, key: T -> int, b: int)
    requires b >= key(x)
    requires forall j :: 0 <= j < |s| ==> b >= key(s[j])
    ensures forall j :: 0 <= j < |InsertDesc(x, s, key)| ==> b >= key(InsertDesc(x, s, key)[j])
  {
    if s != [] && key(x) < key(s[0]) {
      InsertDescBound(x, s[1..], key, b);
    }
  }

  lemma {:induction false} InsertDescSorted<T>(x: T, s: seq<T>, key: T -> int)
    requires SortedDesc(s, key)
    ensures SortedDesc(InsertDesc(x, s, key), key)
    ensures multiset(InsertDesc(x, s, key)) == multiset(s) + multiset{x}
  {
    InsertDescPerm(x, s, key);
    if s != [] && key(x) < key(s[0]) {
      InsertDescSorted(x, s[1..], key);
      InsertDescBound(x, s[1..], key, key(s[0]));
    }
  }

  /** Sorting yields a permutation of the input, greatest key first. */
  lemma {:induction false} SortDescSorted<T>(s: seq<T>, key: T -> int)
    ensures SortedDesc(SortDesc(s, key), key)
    ensures multiset(SortDesc(s, key)) == multiset(s)
    ensures |SortDesc(s, key)| == |s|
  {
    if s != [] {
      SortDescSorted(s[1..], key);
      InsertDescSorted(s[0], SortDesc(s[1..], key), key);
      assert s == [s[0]] + s[1..];
    }
  }

  /** The first `n` entries of `s` sorted by key, greatest first. */
  function TopN<T>(s: seq<T>, n: nat, key: T -> int): seq<T> {
    var sorted := SortDesc(s, key);
    sorted[..if n < |sorted| then n else |sorted|]
  }

  lemma SortedSplit<T>(t: seq<T>, k: nat, key: T -> int)
    requires SortedDesc(t, key) && k <= |t|
    ensures forall x, y :: x in t[k..] && y in t[..k] ==> key(x) <= key(y)
  {
    forall x, y | x in t[k..] && y in t[..k] ensures key(x) <= key(y) {
      var j :| 0 <= j < |t[k..]| && t[k..][j] == x;
      var i :| 0 <= i < |t[..k]| && t[..k][i] == y;
      assert t[k + j] == x && t[i] == y;
    }
  }

  lemma SplitMultiset<T>(t: seq<T>, k: nat)
    requires k <= |t|
    ensures multiset(t[..k]) <= multiset(t)
    ensures multiset(t) - multiset(t[..k]) == multiset(t[k..])
  {
    assert t == t[..k] + t[k..];
  }

  /** The top-n slice has min(n, |s|) entries drawn from `s`, greatest key first, and no
      entry it leaves out has a greater key than an entry it shows. */
  lemma TopNIsTop<T>(s: seq<T>, n: nat, key: T -> int)
    ensures var r := TopN(s, n, key);
      && |r| == (if n < |s| then n else |s|)
      && SortedDesc(r, key)
      && multiset(r) <= multiset(s)
      && forall x, y :: x in multiset(s) - multiset(r) && y in r ==> key(x) <= key(y)
  {
    var sorted := SortDesc(s, key);
    SortDescSorted(s, key);
    var k := if n < |sorted| then n else |sorted|;
    var r := sorted[..k];
    var rest := sorted[k..];
    SplitMultiset(sorted, k);
    SortedSplit(sorted, k, key);
    forall x, y | x in multiset(s) - multiset(r) && y in r
      ensures key(x) <= key(y)
    {
      assert x in rest;
    }
  }
}

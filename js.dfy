/** The JavaScript built-ins the route handlers lean on, stated over sequences.
    Array callbacks of the form `e => key(e) == x` are written with a key
    function `key` and the value `x` it is compared with. */
module Js {

  /** A value that may be `undefined`. */
  datatype Option<T> = None | Some(value: T)

  /** JavaScript truthiness of a request field that is a string or `undefined`:
      `undefined` and the empty string are falsy, every other string is truthy. */
  predicate Truthy(v: Option<string>): (b: bool)
    ensures b <==> v != None && v != Some("")
  {
    v.Some? && v.value != ""
  }

  /** `s.map(key)` */
  function Project<T, K>(s: seq<T>, key: T -> K): (r: seq<K>)
    ensures |r| == |s|
    ensures forall i :: 0 <= i < |s| ==> r[i] == key(s[i])
  {
    seq(|s|, i requires 0 <= i < |s| => key(s[i]))
  }

  lemma ProjectTail<T, K>(s: seq<T>, key: T -> K)
    requires |s| > 0
    ensures Project(s[1..], key) == Project(s, key)[1..]
  {
  }

  /** Replacing an element by one with the same key leaves the keys as they were. */
  lemma ProjectUpdate<T, K>(s: seq<T>, k: nat, y: T, key: T -> K)
    requires k < |s| && key(y) == key(s[k])
    ensures Project(s[k := y], key) == Project(s, key)
  {
  }

  /** `s.indexOf(x)`: the first position holding `x`, or -1 when there is none. */
  function IndexOf<T(==)>(s: seq<T>, x: T): (r: int)
    ensures -1 <= r < |s|
    ensures r == -1 <==> x !in s
    ensures 0 <= r ==> s[r] == x && forall j :: 0 <= j < r ==> s[j] != x
    decreases |s|
  {
    if |s| == 0 then -1
    else if s[0] == x then 0
    else
      var k := IndexOf(s[1..], x);
      assert x in s[1..] ==> x in s;
      assert x in s ==> x == s[0] || x in s[1..];
      if k == -1 then -1 else k + 1
  }

  /** The position `splice(start, ...)` begins at: a negative start counts back
      from the end, and the result is clamped to `0..len` (ECMAScript,
      Array.prototype.splice, relative start). */
  function SpliceStart(len: nat, start: int): (k: nat)
    ensures k <= len
  {
    if start < 0 then (if len + start < 0 then 0 else len + start)
    else if start < len then start
    else len
  }

  /** The array left behind by `s.splice(start, 1)`: the element at the
      clamped start is taken out when there is one, and nothing otherwise. */
  function Splice1<T>(s: seq<T>, start: int): (r: seq<T>)
    ensures SpliceStart(|s|, start) < |s| ==> |r| == |s| - 1
    ensures SpliceStart(|s|, start) == |s| ==> r == s
    ensures forall i :: 0 <= i < SpliceStart(|s|, start) && i < |r| ==> r[i] == s[i]
    ensures forall i :: SpliceStart(|s|, start) <= i < |r| ==> r[i] == s[i + 1]
  {
    var k := SpliceStart(|s|, start);
    if k < |s| then
      assert s == s[..k] + [s[k]] + s[k + 1..];
      s[..k] + s[k + 1..]
    else s
  }

  /** `s.filter(e => key(e) == x)` */
  function FilterBy<T, K(==)>(s: seq<T>, key: T -> K, x: K): (r: seq<T>)
    ensures |r| <= |s|
    ensures forall e :: e in r ==> e in s && key(e) == x
    ensures |r| == 0 <==> forall i :: 0 <= i < |s| ==> key(s[i]) != x
    decreases |s|
  {
    if |s| == 0 then []
    else
      var rest := FilterBy(s[1..], key, x);
      assert forall i :: 1 <= i < |s| ==> s[i] == s[1..][i - 1];
      (if key(s[0]) == x then [s[0]] else []) + rest
  }

  /** An element whose key is `x` is kept by the filter by `x`. */
  lemma {:induction false} FilterByHas<T, K>(s: seq<T>, key: T -> K, x: K, k: nat)
    requires k < |s| && key(s[k]) == x
    ensures s[k] in FilterBy(s, key, x)
    decreases k
  {
    if k > 0 {
      FilterByHas(s[1..], key, x, k - 1);
    }
  }

  /** `s.find(e => key(e) === x)`: the first element whose key is `x`. */
  function FindBy<T, K(==)>(s: seq<T>, key: T -> K, x: K): (r: Option<T>)
    ensures r.None? <==> x !in Project(s, key)
    ensures r.Some? ==> r.value == s[IndexOf(Project(s, key), x)]
    decreases |s|
  {
    if |s| == 0 then None
    else if key(s[0]) == x then Some(s[0])
    else
      ProjectTail(s, key);
      FindBy(s[1..], key, x)
  }

  /** Reference definition: `s` with its first element whose key is `x` taken
      out, and `s` itself when no element has that key. */
  function RemoveFirstBy<T, K(==)>(s: seq<T>, key: T -> K, x: K): (r: seq<T>)
    ensures x in Project(s, key) ==> |r| == |s| - 1
    ensures x !in Project(s, key) ==> r == s
    decreases |s|
  {
    if |s| == 0 then []
    else if key(s[0]) == x then s[1..]
    else
      ProjectTail(s, key);
      [s[0]] + RemoveFirstBy(s[1..], key, x)
  }

  /** The removal takes elements out and never puts one in: the result is a
      sub-multiset of the input. */
  lemma {:induction false} RemoveFirstByShrinks<T, K>(s: seq<T>, key: T -> K, x: K)
    ensures multiset(RemoveFirstBy(s, key, x)) <= multiset(s)
    decreases |s|
  {
    if |s| > 0 {
      assert s == [s[0]] + s[1..];
      if key(s[0]) != x {
        RemoveFirstByShrinks(s[1..], key, x);
      }
    }
  }

  /** Removing the first match is cutting the sequence at the first position whose key is `x`. */
  lemma {:induction false} RemoveFirstByAt<T, K>(s: seq<T>, key: T -> K, x: K, k: nat)
    requires k < |s| && key(s[k]) == x
    requires forall j :: 0 <= j < k ==> key(s[j]) != x
    ensures RemoveFirstBy(s, key, x) == s[..k] + s[k + 1..]
    decreases k
  {
    if k == 0 {
      assert s[..k] + s[k + 1..] == s[1..];
    } else {
      var t := s[1..];
      assert RemoveFirstBy(s, key, x) == [s[0]] + RemoveFirstBy(t, key, x) by {
        assert key(s[0]) != x;
      }
      assert RemoveFirstBy(t, key, x) == t[..k - 1] + t[k..] by {
        forall j | 0 <= j < k - 1 ensures key(t[j]) != x {
          assert t[j] == s[j + 1];
        }
        RemoveFirstByAt(t, key, x, k - 1);
      }
      ConsCut(s, k);
    }
  }

  /** Putting the head back in front of a cut tail is cutting the whole sequence. */
  lemma ConsCut<T>(s: seq<T>, k: nat)
    requires 0 < k < |s|
    ensures [s[0]] + (s[1..][..k - 1] + s[1..][k..]) == s[..k] + s[k + 1..]
  {
    assert s[1..][..k - 1] == s[1..k] && s[1..][k..] == s[k + 1..];
    assert [s[0]] + s[1..k] == s[..k];
  }

  /** Removing the first match is cutting at the position `indexOf` reports
      for its key, and changes nothing when `indexOf` reports -1. */
  lemma {:induction false} RemoveFirstByIndexOf<T, K>(s: seq<T>, key: T -> K, x: K)
    ensures var k := IndexOf(Project(s, key), x);
      (0 <= k ==> RemoveFirstBy(s, key, x) == s[..k] + s[k + 1..]) &&
      (k < 0 ==> RemoveFirstBy(s, key, x) == s)
  {
    var keys := Project(s, key);
    var k := IndexOf(keys, x);
    if 0 <= k {
      forall j | 0 <= j < k ensures key(s[j]) != x {
        assert keys[j] != x;
      }
      RemoveFirstByAt(s, key, x, k);
    }
  }

  /** The same, for a position already known to be the one `indexOf` reports. */
  lemma RemoveFirstByCut<T, K>(s: seq<T>, key: T -> K, x: K, k: int)
    requires k == IndexOf(Project(s, key), x) && 0 <= k
    ensures RemoveFirstBy(s, key, x) == s[..k] + s[k + 1..]
  {
    RemoveFirstByIndexOf(s, key, x);
  }

  /** What is left once position `k` is cut out of `s`: the elements before
      `k` in place, the elements after `k` one position down. */
  lemma CutAt<T>(s: seq<T>, k: nat, r: seq<T>)
    requires k < |s| && r == s[..k] + s[k + 1..]
    ensures |r| == |s| - 1
    ensures forall i :: 0 <= i < k ==> r[i] == s[i]
    ensures forall i :: k <= i < |r| ==> r[i] == s[i + 1]
  {
  }

  /** No two elements of `s` share a key. */
  predicate DistinctKeys<T, K(==)>(s: seq<T>, key: T -> K) {
    forall i, j :: 0 <= i < j < |s| ==> key(s[i]) != key(s[j])
  }

  /** Cutting position `t` out of a sequence with distinct keys loses the key
      at `t`, and the keys left are still distinct. */
  lemma {:induction false} CutKeys<T, K>(s: seq<T>, key: T -> K, t: nat)
    requires DistinctKeys(s, key) && t < |s|
    ensures key(s[t]) !in Project(s[..t] + s[t + 1..], key)
    ensures DistinctKeys(s[..t] + s[t + 1..], key)
  {
    var c := s[..t] + s[t + 1..];
    CutAt(s, t, c);
    forall i | 0 <= i < |c| ensures Project(c, key)[i] != key(s[t]) {
      assert c[i] == s[if i < t then i else i + 1];
    }
    forall i, j | 0 <= i < j < |c| ensures key(c[i]) != key(c[j]) {
      assert c[i] == s[if i < t then i else i + 1];
      assert c[j] == s[if j < t then j else j + 1];
    }
  }

  /** Taking out the first element with a given key keeps the keys distinct. */
  lemma {:induction false} RemoveFirstByKeepsKeysDistinct<T, K>(s: seq<T>, key: T -> K, x: K)
    requires DistinctKeys(s, key)
    ensures DistinctKeys(RemoveFirstBy(s, key, x), key)
  {
    var k := IndexOf(Project(s, key), x);
    RemoveFirstByIndexOf(s, key, x);
    if 0 <= k {
      CutKeys(s, key, k);
    }
  }

  /** Cutting position `t` out of a sequence keeps every key other than the
      one at `t` exactly where it was present. */
  lemma {:induction false} CutKeepsOtherKeys<T, K>(s: seq<T>, key: T -> K, t: nat, other: K)
    requires t < |s| && other != key(s[t])
    ensures other in Project(s[..t] + s[t + 1..], key) <==> other in Project(s, key)
  {
    var c := s[..t] + s[t + 1..];
    CutAt(s, t, c);
    var ids, cids := Project(s, key), Project(c, key);
    if other in ids {
      var j :| 0 <= j < |ids| && ids[j] == other;
      assert cids[if j < t then j else j - 1] == other;
    }
    if other in cids {
      var j :| 0 <= j < |cids| && cids[j] == other;
      assert ids[if j < t then j else j + 1] == other;
    }
  }

  /** The handlers' idiom `s.splice(s.map(key).indexOf(x), 1)`, when some element
      has key `x`: exactly the first such element goes, the rest keep their order. */
  lemma SpliceAtIndexOfPresent<T, K>(s: seq<T>, key: T -> K, x: K)
    requires x in Project(s, key)
    ensures 0 <= IndexOf(Project(s, key), x)
    ensures Splice1(s, IndexOf(Project(s, key), x)) == RemoveFirstBy(s, key, x)
  {
    var k := IndexOf(Project(s, key), x);
    RemoveFirstByAt(s, key, x, k);
  }

  /** The same idiom when no element has key `x`: `indexOf` gives -1 and
      `splice(-1, 1)` drops the LAST element of a non-empty array. */
  lemma SpliceAtIndexOfAbsent<T, K>(s: seq<T>, key: T -> K, x: K)
    requires x !in Project(s, key)
    ensures |s| == 0 ==> Splice1(s, IndexOf(Project(s, key), x)) == s
    ensures |s| > 0 ==> Splice1(s, IndexOf(Project(s, key), x)) == s[..|s| - 1]
  {
  }

  /** Filtering distributes over concatenation. */
  lemma {:induction false} FilterByAppend<T, K>(s: seq<T>, t: seq<T>, key: T -> K, x: K)
    ensures FilterBy(s + t, key, x) == FilterBy(s, key, x) + FilterBy(t, key, x)
    decreases |s|
  {
    if |s| == 0 {
      assert s + t == t;
    } else {
      var st := s + t;
      assert st[0] == s[0] && st[1..] == s[1..] + t;
      FilterByAppend(s[1..], t, key, x);
    }
  }

  /** Overwriting one element with another of the same key changes no filter
      by any other key and no filter's length. */
  lemma FilterByReplace<T, K>(s: seq<T>, k: nat, y: T, key: T -> K, x: K)
    requires k < |s| && key(y) == key(s[k])
    ensures |FilterBy(s[k := y], key, x)| == |FilterBy(s, key, x)|
    ensures x != key(y) ==> FilterBy(s[k := y], key, x) == FilterBy(s, key, x)
  {
    assert s == s[..k] + [s[k]] + s[k + 1..];
    assert s[k := y] == s[..k] + [y] + s[k + 1..];
    FilterByAppend(s[..k] + [s[k]], s[k + 1..], key, x);
    FilterByAppend(s[..k], [s[k]], key, x);
    FilterByAppend(s[..k] + [y], s[k + 1..], key, x);
    FilterByAppend(s[..k], [y], key, x);
  }

  /** Taking out the first element with key `x` takes exactly one element out of
      the filter by `x` (if there was one) and leaves every other filter as it was. */
  lemma {:induction false} FilterByRemoveFirstBy<T, K>(s: seq<T>, key: T -> K, x: K, v: K)
    ensures v != x ==> FilterBy(RemoveFirstBy(s, key, x), key, v) == FilterBy(s, key, v)
    ensures v == x && x in Project(s, key) ==>
      |FilterBy(RemoveFirstBy(s, key, x), key, v)| == |FilterBy(s, key, v)| - 1
    decreases |s|
  {
    if |s| > 0 {
      ProjectTail(s, key);
      if key(s[0]) != x {
        FilterByRemoveFirstBy(s[1..], key, x, v);
        assert ([s[0]] + RemoveFirstBy(s[1..], key, x))[1..] == RemoveFirstBy(s[1..], key, x);
      }
    }
  }
}

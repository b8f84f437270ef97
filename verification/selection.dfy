/** The capped selection toggle that three evidence pages share: clicking
    an item that is selected removes it (by filtering out every entry with
    its key), clicking one that is not appends it while fewer than `cap`
    are selected, and does nothing once `cap` are. The pages differ only in
    the cap, in what they compare (the id itself, or the `id` field of an
    evidence record) and in what they do around the list, which their own
    modules model. */
module Selection {

  /** The keys of a list, in order. */
  function Keys<T, K>(s: seq<T>, key: T -> K): seq<K>
  {
    seq(|s|, i requires 0 <= i < |s| => key(s[i]))
  }

  /** `s.some(e => key(e) === k)`. */
  predicate HasKey<T, K(==)>(s: seq<T>, k: K, key: T -> K)
  {
    k in Keys(s, key)
  }

  /** No two entries share a key. */
  predicate DistinctKeys<T, K(==)>(s: seq<T>, key: T -> K)
  {
    forall i, j :: 0 <= i < j < |s| ==> key(s[i]) != key(s[j])
  }

  /** `s.filter(e => key(e) !== k)`. */
  function WithoutKey<T, K(==)>(s: seq<T>, k: K, key: T -> K): seq<T>
    decreases |s|
  {
    if |s| == 0 then []
    else (if key(s[0]) == k then [] else [s[0]]) + WithoutKey(s[1..], k, key)
  }

  /** The toggle. */
  function ToggleBy<T, K(==)>(s: seq<T>, x: T, key: T -> K, cap: nat): seq<T>
  {
    if HasKey(s, key(x), key) then WithoutKey(s, key(x), key)
    else if |s| < cap then s + [x]
    else s
  }

  /** The key function of lists compared by value. */
  function Self<T>(x: T): T
  {
    x
  }

  /** On lists compared by value, "has key" is membership. */
  lemma HasSelf<T>(s: seq<T>, x: T)
    ensures HasKey(s, x, Self) <==> x in s
  {
    var ks := Keys(s, Self);
    assert forall i :: 0 <= i < |s| ==> ks[i] == s[i];
    if x in s {
      var i :| 0 <= i < |s| && s[i] == x;
      assert ks[i] == x;
    }
    if x in ks {
      var i :| 0 <= i < |ks| && ks[i] == x;
      assert s[i] == x;
    }
  }

  /** `WithoutKey` keeps exactly the entries whose key differs, and never
      grows the list. */
  lemma {:induction false} WithoutKeyMembers<T, K>(s: seq<T>, k: K, key: T -> K)
    ensures forall y :: y in WithoutKey(s, k, key) ==> y in s && key(y) != k
    ensures forall y :: y in s && key(y) != k ==> y in WithoutKey(s, k, key)
    ensures !HasKey(WithoutKey(s, k, key), k, key)
    ensures |WithoutKey(s, k, key)| <= |s|
    decreases |s|
  {
    if |s| > 0 {
      WithoutKeyMembers(s[1..], k, key);
      var r := WithoutKey(s, k, key);
      var head := if key(s[0]) == k then [] else [s[0]];
      assert r == head + WithoutKey(s[1..], k, key);
      assert forall y :: y in s <==> y == s[0] || y in s[1..];
      assert forall y :: y in r <==> y in head || y in WithoutKey(s[1..], k, key);
      forall i | 0 <= i < |r|
        ensures Keys(r, key)[i] != k
      {
        var y := r[i];
        assert y in r;
        if y in head {
          assert key(s[0]) != k;
          assert y == s[0];
        } else {
          assert y in WithoutKey(s[1..], k, key);
          assert key(y) != k;
        }
        assert Keys(r, key)[i] == key(y);
      }
    }
  }

  /** Filtering distributes over concatenation. */
  lemma {:induction false} WithoutKeyConcat<T, K>(a: seq<T>, b: seq<T>, k: K, key: T -> K)
    ensures WithoutKey(a + b, k, key) == WithoutKey(a, k, key) + WithoutKey(b, k, key)
    decreases |a|
  {
    if |a| > 0 {
      assert (a + b)[1..] == a[1..] + b;
      WithoutKeyConcat(a[1..], b, k, key);
    } else {
      assert a + b == b;
    }
  }

  /** Filtering out a key no entry has changes nothing. */
  lemma {:induction false} WithoutAbsentKey<T, K>(s: seq<T>, k: K, key: T -> K)
    requires !HasKey(s, k, key)
    ensures WithoutKey(s, k, key) == s
    decreases |s|
  {
    if |s| > 0 {
      assert Keys(s, key)[0] == key(s[0]);
      assert Keys(s[1..], key) == Keys(s, key)[1..];
      WithoutAbsentKey(s[1..], k, key);
    }
  }

  /** In a list without shared keys, filtering out the key of entry `i`
      deletes exactly that entry and keeps the rest in order. */
  lemma {:induction false} WithoutKeyAt<T, K>(s: seq<T>, i: int, key: T -> K)
    requires DistinctKeys(s, key) && 0 <= i < |s|
    ensures WithoutKey(s, key(s[i]), key) == s[..i] + s[i + 1..]
    decreases i
  {
    var k := key(s[i]);
    var t := s[1..];
    assert DistinctKeys(t, key) by {
      forall a, b | 0 <= a < b < |t|
        ensures key(t[a]) != key(t[b])
      {
        assert t[a] == s[a + 1] && t[b] == s[b + 1];
      }
    }
    if i == 0 {
      forall j | 0 <= j < |t|
        ensures Keys(t, key)[j] != k
      {
        assert t[j] == s[j + 1];
      }
      WithoutAbsentKey(t, k, key);
    } else {
      assert t[i - 1] == s[i];
      WithoutKeyAt(t, i - 1, key);
      assert s[..i] + s[i + 1..] == [s[0]] + (t[..i - 1] + t[i..]);
    }
  }

  /** Deleting one entry keeps the keys distinct. */
  lemma DeleteKeepsDistinct<T, K>(s: seq<T>, i: int, key: T -> K)
    requires DistinctKeys(s, key) && 0 <= i < |s|
    ensures DistinctKeys(s[..i] + s[i + 1..], key)
  {
    var r := s[..i] + s[i + 1..];
    forall a, b | 0 <= a < b < |r|
      ensures key(r[a]) != key(r[b])
    {
      var a' := if a < i then a else a + 1;
      var b' := if b < i then b else b + 1;
      assert r[a] == s[a'] && r[b] == s[b'];
    }
  }

  /** The entry with key `k` in a list that has it. */
  lemma KeyIndex<T, K>(s: seq<T>, k: K, key: T -> K) returns (i: int)
    requires HasKey(s, k, key)
    ensures 0 <= i < |s| && key(s[i]) == k
  {
    i :| 0 <= i < |Keys(s, key)| && Keys(s, key)[i] == k;
  }

  /** Toggling a selected item removes every entry with its key and keeps
      the others in order; in a list without shared keys that is exactly
      one entry. */
  lemma ToggleRemoves<T, K>(s: seq<T>, x: T, key: T -> K, cap: nat)
    requires HasKey(s, key(x), key)
    ensures ToggleBy(s, x, key, cap) == WithoutKey(s, key(x), key)
    ensures !HasKey(ToggleBy(s, x, key, cap), key(x), key)
    ensures forall y :: y in ToggleBy(s, x, key, cap) <==> y in s && key(y) != key(x)
    ensures DistinctKeys(s, key) ==> |ToggleBy(s, x, key, cap)| == |s| - 1
    ensures DistinctKeys(s, key) ==>
              (exists i :: 0 <= i < |s| && key(s[i]) == key(x) && ToggleBy(s, x, key, cap) == s[..i] + s[i + 1..])
  {
    WithoutKeyMembers(s, key(x), key);
    var i := KeyIndex(s, key(x), key);
    if DistinctKeys(s, key) {
      WithoutKeyAt(s, i, key);
    }
  }

  /** Toggling an unselected item below the cap appends it. */
  lemma ToggleAppends<T, K>(s: seq<T>, x: T, key: T -> K, cap: nat)
    requires !HasKey(s, key(x), key) && |s| < cap
    ensures ToggleBy(s, x, key, cap) == s + [x]
  {
  }

  /** Toggling an unselected item at the cap changes nothing. */
  lemma ToggleAtCap<T, K>(s: seq<T>, x: T, key: T -> K, cap: nat)
    requires !HasKey(s, key(x), key) && |s| >= cap
    ensures ToggleBy(s, x, key, cap) == s
  {
  }

  /** A list without shared keys and within the cap stays so. */
  lemma ToggleKeepsInvariant<T, K>(s: seq<T>, x: T, key: T -> K, cap: nat)
    requires DistinctKeys(s, key) && |s| <= cap
    ensures DistinctKeys(ToggleBy(s, x, key, cap), key) && |ToggleBy(s, x, key, cap)| <= cap
  {
    if HasKey(s, key(x), key) {
      var i := KeyIndex(s, key(x), key);
      WithoutKeyAt(s, i, key);
      DeleteKeepsDistinct(s, i, key);
    } else if |s| < cap {
      var r := s + [x];
      forall a, b | 0 <= a < b < |r|
        ensures key(r[a]) != key(r[b])
      {
        if b == |s| {
          assert Keys(s, key)[a] == key(s[a]);
        }
      }
    }
  }

  /** Toggling the same unselected item twice, below the cap, restores the
      list. */
  lemma ToggleRoundTrip<T, K>(s: seq<T>, x: T, key: T -> K, cap: nat)
    requires !HasKey(s, key(x), key) && |s| < cap
    ensures ToggleBy(ToggleBy(s, x, key, cap), x, key, cap) == s
  {
    var t := s + [x];
    assert Keys(t, key)[|s|] == key(x);
    WithoutKeyConcat(s, [x], key(x), key);
    WithoutAbsentKey(s, key(x), key);
    assert WithoutKey([x], key(x), key) == [];
  }
}

/**
 * Order-preserving list operations shared by the store, the upload list and
 * the expanded-weeks list: `Array.prototype.filter`, and the
 * "drop every entry whose key is k" filter that all three use for removal.
 */
module Lists {

  /** The elements of `s` for which `keep` holds, in their original order. */
  function Filter<T(!new)>(s: seq<T>, keep: T -> bool): (r: seq<T>)
    ensures |r| <= |s|
    ensures forall x :: x in r <==> x in s && keep(x)
  {
    if s == [] then []
    else
      assert s == [s[0]] + s[1..];
      (if keep(s[0]) then [s[0]] else []) + Filter(s[1..], keep)
  }

  /** Filtering a concatenation filters each part: the relative order is kept. */
  lemma {:induction false} FilterConcat<T(!new)>(a: seq<T>, b: seq<T>, keep: T -> bool)
    ensures Filter(a + b, keep) == Filter(a, keep) + Filter(b, keep)
  {
    if a == [] {
      assert a + b == b;
    } else {
      assert (a + b)[0] == a[0];
      assert (a + b)[1..] == a[1..] + b;
      FilterConcat(a[1..], b, keep);
    }
  }

  /** A filter that rejects nothing returns its input unchanged. */
  lemma {:induction false} FilterKeepsAll<T(!new)>(s: seq<T>, keep: T -> bool)
    requires forall x :: x in s ==> keep(x)
    ensures Filter(s, keep) == s
  {
    if s != [] {
      assert s[0] in s;
      assert forall x :: x in s[1..] ==> x in s;
      FilterKeepsAll(s[1..], keep);
    }
  }

  /** A filter that keeps nothing returns the empty sequence. */
  lemma {:induction false} FilterKeepsNone<T(!new)>(s: seq<T>, keep: T -> bool)
    requires forall x :: x in s ==> !keep(x)
    ensures Filter(s, keep) == []
  {
    if s != [] {
      assert s[0] in s;
      assert forall x :: x in s[1..] ==> x in s;
      FilterKeepsNone(s[1..], keep);
    }
  }

  /** No element occurs twice. */
  predicate Distinct<T(==)>(s: seq<T>) {
    forall i, j :: 0 <= i < j < |s| ==> s[i] != s[j]
  }

  /** Filtering a list without repeats gives a list without repeats. */
  lemma {:induction false} FilterDistinct<T(!new)>(s: seq<T>, keep: T -> bool)
    requires Distinct(s)
    ensures Distinct(Filter(s, keep))
  {
    if s != [] {
      var tail := Filter(s[1..], keep);
      assert Distinct(s[1..]) by {
        forall i, j | 0 <= i < j < |s[1..]| ensures s[1..][i] != s[1..][j] {
          assert s[1..][i] == s[i + 1] && s[1..][j] == s[j + 1];
        }
      }
      FilterDistinct(s[1..], keep);
      assert s[0] !in s[1..] by {
        forall j | 0 <= j < |s[1..]| ensures s[1..][j] != s[0] {
          assert s[1..][j] == s[j + 1];
        }
      }
      assert s[0] !in tail;
    }
  }

  /** The predicate "the key of x is not `key`". */
  function KeyIsNot<T(!new), K(==)>(key: K, keyOf: T -> K): T -> bool {
    x => keyOf(x) != key
  }

  /** Every entry whose key differs from `key`, in their original order. */
  function RemoveAll<T(!new), K(==)>(s: seq<T>, key: K, keyOf: T -> K): (r: seq<T>)
    ensures |r| <= |s|
    ensures forall x :: x in r <==> x in s && keyOf(x) != key
  {
    Filter(s, KeyIsNot(key, keyOf))
  }

  /** Removal distributes over concatenation, so the survivors keep their order. */
  lemma {:induction false} RemoveAllConcat<T(!new), K>(a: seq<T>, b: seq<T>, key: K, keyOf: T -> K)
    ensures RemoveAll(a + b, key, keyOf) == RemoveAll(a, key, keyOf) + RemoveAll(b, key, keyOf)
  {
    FilterConcat(a, b, KeyIsNot(key, keyOf));
  }

  /** Removing a key that no entry carries changes nothing. */
  lemma {:induction false} RemoveAllAbsent<T(!new), K>(s: seq<T>, key: K, keyOf: T -> K)
    requires forall x :: x in s ==> keyOf(x) != key
    ensures RemoveAll(s, key, keyOf) == s
  {
    FilterKeepsAll(s, KeyIsNot(key, keyOf));
  }

  /** Removing the same key twice is the same as removing it once. */
  lemma {:induction false} RemoveAllIdempotent<T(!new), K>(s: seq<T>, key: K, keyOf: T -> K)
    ensures RemoveAll(RemoveAll(s, key, keyOf), key, keyOf) == RemoveAll(s, key, keyOf)
  {
    RemoveAllAbsent(RemoveAll(s, key, keyOf), key, keyOf);
  }

  /** Appending an entry with a fresh key and then removing that key restores the list. */
  lemma {:induction false} RemoveAllUndoesAppend<T(!new), K>(s: seq<T>, x: T, keyOf: T -> K)
    requires forall y :: y in s ==> keyOf(y) != keyOf(x)
    ensures RemoveAll(s + [x], keyOf(x), keyOf) == s
  {
    RemoveAllConcat(s, [x], keyOf(x), keyOf);
    RemoveAllAbsent(s, keyOf(x), keyOf);
    assert RemoveAll([x], keyOf(x), keyOf) == [];
  }
}

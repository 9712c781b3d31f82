/**
 * Ordered in-memory lists of records that carry an integer id, and the three
 * list transforms both dashboard components apply to them: filtering out an
 * id, replacing the records that carry an id (a `map` with a conditional), and
 * appending one record. `key` extracts a record's id.
 */
module Records {

  /** Some record of `s` carries the id `k`. */
  predicate HasId<T>(s: seq<T>, key: T -> int, k: int) {
    exists i :: 0 <= i < |s| && key(s[i]) == k
  }

  /** No two records of `s` carry the same id. */
  predicate DistinctIds<T>(s: seq<T>, key: T -> int) {
    forall i, j :: 0 <= i < j < |s| ==> key(s[i]) != key(s[j])
  }

  /** `s` without the records whose id is `k`, the others in their original order. */
  function Without<T>(s: seq<T>, key: T -> int, k: int): (r: seq<T>)
    ensures |r| <= |s|
    ensures forall i :: 0 <= i < |r| ==> r[i] in s && key(r[i]) != k
    ensures forall i :: 0 <= i < |s| && key(s[i]) != k ==> s[i] in r
    ensures !HasId(r, key, k)
    decreases |s|
  {
    if s == [] then []
    else if key(s[0]) == k then Without(s[1..], key, k)
    else [s[0]] + Without(s[1..], key, k)
  }

  /** `s` with every record whose id is `k` replaced by `f` of it; the others stay in place. */
  function ReplaceWhere<T>(s: seq<T>, key: T -> int, k: int, f: T -> T): (r: seq<T>)
    ensures |r| == |s|
    ensures forall i :: 0 <= i < |s| ==> r[i] == if key(s[i]) == k then f(s[i]) else s[i]
    decreases |s|
  {
    if s == [] then []
    else [if key(s[0]) == k then f(s[0]) else s[0]] + ReplaceWhere(s[1..], key, k, f)
  }

  /**
   * The reference behaviour of an id-keyed store's upsert: replace the record
   * carrying `x`'s id in place, or append `x` when no record carries it.
   */
  function Upsert<T>(s: seq<T>, key: T -> int, x: T): (r: seq<T>)
    ensures |r| == if HasId(s, key, key(x)) then |s| else |s| + 1
    ensures x in r
  {
    if HasId(s, key, key(x)) then ReplaceWhere(s, key, key(x), _ => x) else s + [x]
  }

  lemma {:induction false} HasIdCons<T>(x: T, s: seq<T>, key: T -> int, k: int)
    ensures HasId([x] + s, key, k) <==> key(x) == k || HasId(s, key, k)
  {
    if key(x) == k {
      assert ([x] + s)[0] == x;
    }
    if HasId(s, key, k) {
      var i :| 0 <= i < |s| && key(s[i]) == k;
      assert ([x] + s)[i + 1] == s[i];
    }
    if HasId([x] + s, key, k) && key(x) != k {
      var i :| 0 <= i < |[x] + s| && key(([x] + s)[i]) == k;
      assert i != 0 && s[i - 1] == ([x] + s)[i];
      assert key(s[i - 1]) == k;
    }
  }

  lemma {:induction false} DistinctCons<T>(x: T, s: seq<T>, key: T -> int)
    ensures DistinctIds([x] + s, key) <==> !HasId(s, key, key(x)) && DistinctIds(s, key)
  {
    var t := [x] + s;
    HasIdCons(x, s, key, key(x));
    if DistinctIds(t, key) {
      forall i, j | 0 <= i < j < |s| ensures key(s[i]) != key(s[j]) {
        assert s[i] == t[i + 1] && s[j] == t[j + 1];
      }
      forall i | 0 <= i < |s| ensures key(s[i]) != key(x) {
        assert t[0] == x && t[i + 1] == s[i];
      }
    }
    if !HasId(s, key, key(x)) && DistinctIds(s, key) {
      forall i, j | 0 <= i < j < |t| ensures key(t[i]) != key(t[j]) {
        assert t[j] == s[j - 1];
        if i > 0 {
          assert t[i] == s[i - 1];
        }
      }
    }
  }

  /** Appending keeps the ids distinct exactly when the new record's id is not taken. */
  lemma {:induction false} DistinctAppend<T>(s: seq<T>, x: T, key: T -> int)
    ensures DistinctIds(s + [x], key) <==> DistinctIds(s, key) && !HasId(s, key, key(x))
  {
    var t := s + [x];
    if DistinctIds(t, key) {
      forall i, j | 0 <= i < j < |s| ensures key(s[i]) != key(s[j]) {
        assert s[i] == t[i] && s[j] == t[j];
      }
      forall i | 0 <= i < |s| ensures key(s[i]) != key(x) {
        assert t[i] == s[i] && t[|s|] == x;
      }
    }
    if DistinctIds(s, key) && !HasId(s, key, key(x)) {
      forall i, j | 0 <= i < j < |t| ensures key(t[i]) != key(t[j]) {
        assert t[i] == s[i];
        if j < |s| {
          assert t[j] == s[j];
        }
      }
    }
  }

  /** Filtering distributes over concatenation: the kept records keep their relative order. */
  lemma {:induction false} WithoutConcat<T>(a: seq<T>, b: seq<T>, key: T -> int, k: int)
    ensures Without(a + b, key, k) == Without(a, key, k) + Without(b, key, k)
    decreases |a|
  {
    if a == [] {
      assert a + b == b;
    } else {
      assert (a + b)[0] == a[0];
      assert (a + b)[1..] == a[1..] + b;
      WithoutConcat(a[1..], b, key, k);
    }
  }

  /** Filtering keeps every record whose id differs as often as it occurred, and no record with the id. */
  lemma {:induction false} WithoutMultiset<T>(s: seq<T>, key: T -> int, k: int)
    ensures forall x :: multiset(Without(s, key, k))[x] == if key(x) == k then 0 else multiset(s)[x]
    decreases |s|
  {
    if s != [] {
      assert s == [s[0]] + s[1..];
      assert multiset(s) == multiset{s[0]} + multiset(s[1..]);
      WithoutMultiset(s[1..], key, k);
      if key(s[0]) != k {
        assert multiset(Without(s, key, k)) == multiset{s[0]} + multiset(Without(s[1..], key, k));
      }
    }
  }

  /** Filtering out an id no record carries changes nothing. */
  lemma {:induction false} WithoutAbsent<T>(s: seq<T>, key: T -> int, k: int)
    requires !HasId(s, key, k)
    ensures Without(s, key, k) == s
    decreases |s|
  {
    if s != [] {
      assert s == [s[0]] + s[1..];
      HasIdCons(s[0], s[1..], key, k);
      WithoutAbsent(s[1..], key, k);
    }
  }

  /** Filtering out the same id twice is filtering it out once. */
  lemma WithoutIdempotent<T>(s: seq<T>, key: T -> int, k: int)
    ensures Without(Without(s, key, k), key, k) == Without(s, key, k)
  {
    WithoutAbsent(Without(s, key, k), key, k);
  }

  /** Filtering never makes two records share an id. */
  lemma {:induction false} WithoutKeepsDistinct<T>(s: seq<T>, key: T -> int, k: int)
    requires DistinctIds(s, key)
    ensures DistinctIds(Without(s, key, k), key)
    decreases |s|
  {
    if s != [] {
      assert s == [s[0]] + s[1..];
      DistinctCons(s[0], s[1..], key);
      WithoutKeepsDistinct(s[1..], key, k);
      if key(s[0]) != k {
        var rest := Without(s[1..], key, k);
        forall i | 0 <= i < |rest| ensures key(rest[i]) != key(s[0]) {
          assert rest[i] in s[1..];
          var j :| 0 <= j < |s[1..]| && s[1..][j] == rest[i];
          assert key(s[1..][j]) != key(s[0]);
        }
        DistinctCons(s[0], rest, key);
      }
    }
  }

  /** With distinct ids, a filter removes exactly one record when the id is present and none otherwise. */
  lemma {:induction false} WithoutDistinctLength<T>(s: seq<T>, key: T -> int, k: int)
    requires DistinctIds(s, key)
    ensures |Without(s, key, k)| == if HasId(s, key, k) then |s| - 1 else |s|
    decreases |s|
  {
    if s != [] {
      assert s == [s[0]] + s[1..];
      DistinctCons(s[0], s[1..], key);
      HasIdCons(s[0], s[1..], key, k);
      if key(s[0]) == k {
        WithoutAbsent(s[1..], key, k);
      } else {
        WithoutDistinctLength(s[1..], key, k);
      }
    }
  }

  /** Replacing an id no record carries changes nothing: the map never appends. */
  lemma ReplaceAbsent<T>(s: seq<T>, key: T -> int, k: int, f: T -> T)
    requires !HasId(s, key, k)
    ensures ReplaceWhere(s, key, k, f) == s
  {
    var r := ReplaceWhere(s, key, k, f);
    forall i | 0 <= i < |s| ensures r[i] == s[i] {
      assert key(s[i]) != k;
    }
  }

  /**
   * A replacement that keeps the id of what it replaces keeps every position's
   * id, hence the set of ids present and their distinctness.
   */
  lemma ReplaceKeepsIds<T>(s: seq<T>, key: T -> int, k: int, f: T -> T)
    requires forall x :: key(x) == k ==> key(f(x)) == k
    ensures forall i :: 0 <= i < |s| ==> key(ReplaceWhere(s, key, k, f)[i]) == key(s[i])
    ensures forall k' :: HasId(ReplaceWhere(s, key, k, f), key, k') <==> HasId(s, key, k')
    ensures DistinctIds(ReplaceWhere(s, key, k, f), key) <==> DistinctIds(s, key)
  {
    var r := ReplaceWhere(s, key, k, f);
    assert forall i :: 0 <= i < |s| ==> key(r[i]) == key(s[i]);
    forall k' ensures HasId(r, key, k') <==> HasId(s, key, k') {
      if HasId(r, key, k') {
        var i :| 0 <= i < |r| && key(r[i]) == k';
        assert key(s[i]) == k';
      }
      if HasId(s, key, k') {
        var i :| 0 <= i < |s| && key(s[i]) == k';
        assert key(r[i]) == k';
      }
    }
  }

  /** With distinct ids, upsert keeps them distinct, and the ids present gain exactly `x`'s. */
  lemma UpsertKeepsDistinct<T>(s: seq<T>, key: T -> int, x: T)
    requires DistinctIds(s, key)
    ensures DistinctIds(Upsert(s, key, x), key)
    ensures forall k :: HasId(Upsert(s, key, x), key, k) <==> HasId(s, key, k) || k == key(x)
  {
    if HasId(s, key, key(x)) {
      ReplaceKeepsIds(s, key, key(x), _ => x);
    } else {
      DistinctAppend(s, x, key);
      forall k ensures HasId(s + [x], key, k) <==> HasId(s, key, k) || k == key(x) {
        if HasId(s, key, k) {
          var i :| 0 <= i < |s| && key(s[i]) == k;
          assert (s + [x])[i] == s[i];
        }
        if HasId(s + [x], key, k) && k != key(x) {
          var i :| 0 <= i < |s + [x]| && key((s + [x])[i]) == k;
          assert i < |s| && s[i] == (s + [x])[i];
        }
        assert (s + [x])[|s|] == x;
      }
    }
  }
}

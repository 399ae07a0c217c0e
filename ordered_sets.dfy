/**
 * A JavaScript `Set` as a sequence without duplicates: iteration follows insertion order,
 * adding a member that is already there keeps its place, deleting reports whether the
 * member was there.
 */
module OrderedSets {

  predicate NoDuplicates<T(==)>(s: seq<T>) {
    forall i, j :: 0 <= i < j < |s| ==> s[i] != s[j]
  }

  /** A prefix one longer is the shorter prefix and the next element. */
  lemma PrefixSnoc<T>(s: seq<T>, k: nat)
    requires k < |s|
    ensures s[..k + 1] == s[..k] + [s[k]]
  {
  }

  /** `set.add(x)`. */
  function Insert<T(==)>(s: seq<T>, x: T): (r: seq<T>)
    ensures x in r
    ensures forall k :: 0 <= k < |s| ==> s[k] in r
    ensures forall k :: 0 <= k < |r| ==> r[k] in s || r[k] == x
    ensures x in s ==> r == s
    ensures x !in s ==> r == s + [x]
    ensures NoDuplicates(s) ==> NoDuplicates(r)
  {
    if x in s then s else s + [x]
  }

  /** `set.delete(x)`, the remaining members in their order. */
  function Without<T(==)>(s: seq<T>, x: T): (r: seq<T>)
    ensures x !in r
    ensures forall k :: 0 <= k < |s| ==> s[k] != x ==> s[k] in r
    ensures forall k :: 0 <= k < |r| ==> r[k] in s && r[k] != x
    ensures x !in s ==> r == s
    ensures |r| <= |s|
    ensures NoDuplicates(s) ==> NoDuplicates(r)
  {
    if s == [] then []
    else
      var rest := Without(s[1..], x);
      if s[0] == x then
        WithoutHead(s, x, rest);
        rest
      else
        WithoutKeep(s, x, rest);
        [s[0]] + rest
  }

  /** What `Without` promises of `r`, spelled out for its two recursive cases below. */
  predicate WithoutOf<T(==)>(s: seq<T>, x: T, r: seq<T>) {
    && x !in r
    && (forall k :: 0 <= k < |s| ==> s[k] != x ==> s[k] in r)
    && (forall k :: 0 <= k < |r| ==> r[k] in s && r[k] != x)
    && (x !in s ==> r == s)
    && |r| <= |s|
    && (NoDuplicates(s) ==> NoDuplicates(r))
  }

  /** Deleting the first member: the rest without it is the answer. */
  lemma WithoutHead<T>(s: seq<T>, x: T, rest: seq<T>)
    requires |s| > 0 && s[0] == x && WithoutOf(s[1..], x, rest)
    ensures WithoutOf(s, x, rest)
  {
    forall k | 0 < k < |s|
      ensures s[k] == s[1..][k - 1]
    {
    }
  }

  /** Keeping the first member in front of the rest without `x`. */
  lemma WithoutKeep<T>(s: seq<T>, x: T, rest: seq<T>)
    requires |s| > 0 && s[0] != x && WithoutOf(s[1..], x, rest)
    ensures WithoutOf(s, x, [s[0]] + rest)
  {
    var r := [s[0]] + rest;
    forall k | 0 < k < |s|
      ensures s[k] == s[1..][k - 1]
    {
    }
    forall k | 0 < k < |r|
      ensures r[k] == rest[k - 1]
    {
    }
    if x !in s {
      assert s == [s[0]] + s[1..];
    }
    if NoDuplicates(s) {
      assert s[0] !in s[1..];
    }
  }

  /** Deleting twice is deleting once. */
  lemma WithoutTwice<T>(s: seq<T>, x: T)
    ensures Without(Without(s, x), x) == Without(s, x)
  {
  }

  /** Deleting what was just added to a set that lacked it gives the set back. */
  lemma {:induction false} WithoutInsert<T>(s: seq<T>, x: T)
    requires x !in s
    ensures Without(Insert(s, x), x) == s
  {
    if s != [] {
      assert (s + [x])[0] == s[0] && (s + [x])[1..] == s[1..] + [x];
      WithoutInsert(s[1..], x);
    }
  }
}

/** Shared vocabulary: optional values, the JavaScript truthiness tests the
    handlers apply to request fields, push-notification requests, and the
    generic sequence helpers (first match, filter, deduplication, ordering)
    that stand in for the query layer's `findOne`, `where` and `order` clauses. */
module Common {

  datatype Option<T> = None | Some(value: T)

  /** User identities are UUID strings. */
  type UserId = string

  /** A request field that may be absent. `None` stands for `undefined` and
      `null`; a present string is truthy exactly when it is non-empty. */
  predicate Truthy(s: Option<string>) {
    s.Some? && s.value != ""
  }

  /** A numeric field is truthy when present and non-zero. */
  predicate TruthyInt(n: Option<int>) {
    n.Some? && n.value != 0
  }

  /** `a || fallback` on a string field. */
  function OrElse(a: Option<string>, fallback: string): (r: string)
    ensures Truthy(a) ==> r == a.value
    ensures !Truthy(a) ==> r == fallback
  {
    if Truthy(a) then a.value else fallback
  }

  /** A request handed to the push-notification service. */
  datatype Push = Push(token: string, title: string, body: string, data: seq<(string, string)>)

  /** What happened to a file attached to a request: none was attached, the
      object store returned its URL, or the upload threw. */
  datatype Upload = NoFile | Stored(url: string, mimetype: string) | StoreFailed(message: string)

  /** The position of the first element satisfying `p`, as `findOne` returns
      the first matching row. */
  function FindIndex<T>(s: seq<T>, p: T -> bool): (r: Option<nat>)
    ensures r.Some? ==> r.value < |s| && p(s[r.value])
    ensures r.Some? ==> forall j :: 0 <= j < r.value ==> !p(s[j])
    ensures r.None? <==> forall j :: 0 <= j < |s| ==> !p(s[j])
  {
    if s == [] then None
    else if p(s[0]) then Some(0)
    else match FindIndex(s[1..], p)
      case None => None
      case Some(k) => Some(k + 1)
  }

  /** The first match depends only on which positions match. */
  lemma {:induction false} FindIndexSamePositions<T, U>(s: seq<T>, p: T -> bool, t: seq<U>, q: U -> bool)
    requires |s| == |t|
    requires forall j :: 0 <= j < |s| ==> p(s[j]) == q(t[j])
    ensures FindIndex(s, p) == FindIndex(t, q)
  {
    if s != [] {
      FindIndexSamePositions(s[1..], p, t[1..], q);
    }
  }

  /** The elements satisfying `p`, in their original order (a `where` clause). */
  function Filter<T(!new)>(s: seq<T>, p: T -> bool): (r: seq<T>)
    ensures |r| <= |s|
    ensures forall x :: x in r <==> x in s && p(x)
    ensures forall i :: 0 <= i < |r| ==> p(r[i])
  {
    if s == [] then []
    else if p(s[0]) then [s[0]] + Filter(s[1..], p)
    else Filter(s[1..], p)
  }

  lemma {:induction false} FilterCount<T(!new)>(s: seq<T>, p: T -> bool, x: T)
    ensures multiset(Filter(s, p))[x] == if p(x) then multiset(s)[x] else 0
  {
    if s != [] {
      FilterCount(s[1..], p, x);
      assert s == [s[0]] + s[1..];
    }
  }

  /** Filtering a sequence extended by one element. */
  lemma {:induction false} FilterAppend<T(!new)>(s: seq<T>, x: T, p: T -> bool)
    ensures Filter(s + [x], p) == Filter(s, p) + (if p(x) then [x] else [])
  {
    if s != [] {
      assert (s + [x])[1..] == s[1..] + [x];
      FilterAppend(s[1..], x, p);
    }
  }

  /** Filtering depends only on the predicate's verdict on the elements. */
  lemma {:induction false} FilterSamePredicate<T(!new)>(s: seq<T>, p: T -> bool, q: T -> bool)
    requires forall j :: 0 <= j < |s| ==> p(s[j]) == q(s[j])
    ensures Filter(s, p) == Filter(s, q)
  {
    if s != [] {
      FilterSamePredicate(s[1..], p, q);
    }
  }

  /** A filter and its complement `q` split the sequence. */
  lemma {:induction false} FilterSplit<T(!new)>(s: seq<T>, p: T -> bool, q: T -> bool)
    requires forall j :: 0 <= j < |s| ==> q(s[j]) == !p(s[j])
    ensures |Filter(s, p)| + |Filter(s, q)| == |s|
  {
    if s != [] {
      FilterSplit(s[1..], p, q);
    }
  }

  /** An empty filter means no element was selected. */
  lemma NoneSelected<T(!new)>(s: seq<T>, p: T -> bool)
    requires |Filter(s, p)| == 0
    ensures forall x :: x in s ==> !p(x)
  {
    assert forall x :: x in s && p(x) ==> x in Filter(s, p);
  }

  predicate NoDups<T(==)>(s: seq<T>) {
    forall i, j :: 0 <= i < j < |s| ==> s[i] != s[j]
  }

  /** Keeps the first occurrence of every element, in order, as
      `[...new Set(s)]` does. */
  function Dedup<T(==,!new)>(s: seq<T>): (r: seq<T>)
    ensures forall x :: x in r <==> x in s
    ensures NoDups(r)
    ensures |r| <= |s|
  {
    if s == [] then []
    else
      var d := Dedup(s[..|s| - 1]);
      var x := s[|s| - 1];
      assert forall y :: y in s <==> y in s[..|s| - 1] || y == x by {
        assert s == s[..|s| - 1] + [x];
      }
      if x in d then d else d + [x]
  }

  /** A no-duplicate sequence whose elements all lie in `c` is no longer than `c`. */
  lemma {:induction false} NoDupsWithin<T>(s: seq<T>, c: set<T>)
    requires NoDups(s)
    requires forall x :: x in s ==> x in c
    ensures |s| <= |c|
  {
    if s != [] {
      var t := s[1..];
      assert forall x :: x in t ==> x in c - {s[0]} by {
        forall x | x in t ensures x in c - {s[0]} {
          var k :| 0 <= k < |t| && t[k] == x;
          assert s[k + 1] == x;
        }
      }
      NoDupsWithin(t, c - {s[0]});
    }
  }

  /** Sorted by `key`, largest first (`ORDER BY key DESC`). */
  predicate SortedDesc<T>(s: seq<T>, key: T -> int) {
    forall i, j :: 0 <= i < j < |s| ==> key(s[i]) >= key(s[j])
  }

  function InsertDesc<T>(x: T, s: seq<T>, key: T -> int): (r: seq<T>)
    requires SortedDesc(s, key)
    ensures multiset(r) == multiset(s) + multiset{x}
    ensures SortedDesc(r, key)
    ensures |r| == |s| + 1
  {
    if s == [] then [x]
    else if key(x) >= key(s[0]) then [x] + s
    else
      assert SortedDesc(s[1..], key);
      var rest := InsertDesc(x, s[1..], key);
      HeadDominates(x, s, key, rest);
      assert s == [s[0]] + s[1..];
      [s[0]] + rest
  }

  /** The head of a sorted sequence bounds the tail with a smaller element
      inserted. */
  lemma HeadDominates<T>(x: T, s: seq<T>, key: T -> int, rest: seq<T>)
    requires s != [] && SortedDesc(s, key) && key(x) < key(s[0])
    requires multiset(rest) == multiset(s[1..]) + multiset{x}
    ensures forall i :: 0 <= i < |rest| ==> key(s[0]) >= key(rest[i])
  {
    forall i | 0 <= i < |rest| ensures key(s[0]) >= key(rest[i]) {
      var y := rest[i];
      assert y in multiset(rest);
      if y != x {
        assert y in multiset(s[1..]);
        var k :| 0 <= k < |s[1..]| && s[1..][k] == y;
        assert s[k + 1] == y;
      }
    }
  }

  /** The rows of `s` newest first: a permutation of `s` ordered by `key`. */
  function SortDesc<T(!new)>(s: seq<T>, key: T -> int): (r: seq<T>)
    ensures multiset(r) == multiset(s)
    ensures forall x :: x in r <==> x in s
    ensures SortedDesc(r, key)
  {
    if s == [] then []
    else
      assert s == [s[0]] + s[1..];
      var r := InsertDesc(s[0], SortDesc(s[1..], key), key);
      assert forall x :: x in r <==> x in s by {
        forall x ensures x in r <==> x in s {
          assert x in r <==> x in multiset(r);
          assert x in s <==> x in multiset(s);
        }
      }
      r
  }

  /** `haystack` begins with `needle`. */
  predicate StartsWith(haystack: string, needle: string) {
    |needle| <= |haystack| && haystack[..|needle|] == needle
  }

  /** `haystack.includes(needle)`: searched position by position. */
  function Includes(haystack: string, needle: string): bool {
    StartsWith(haystack, needle) || (haystack != [] && Includes(haystack[1..], needle))
  }

  /** `needle` occurs in `haystack` starting at position `i`. */
  predicate OccursAt(haystack: string, needle: string, i: nat) {
    i + |needle| <= |haystack| && haystack[i..i + |needle|] == needle
  }

  lemma {:induction false} OccursImpliesIncludes(haystack: string, needle: string, i: nat)
    requires OccursAt(haystack, needle, i)
    ensures Includes(haystack, needle)
    decreases i
  {
    if i == 0 {
      assert StartsWith(haystack, needle);
    } else {
      var tail := haystack[1..];
      assert tail[i - 1..i - 1 + |needle|] == haystack[i..i + |needle|];
      OccursImpliesIncludes(tail, needle, i - 1);
    }
  }

  lemma {:induction false} IncludesWitness(haystack: string, needle: string) returns (i: nat)
    requires Includes(haystack, needle)
    ensures OccursAt(haystack, needle, i)
  {
    if StartsWith(haystack, needle) {
      i := 0;
    } else {
      var tail := haystack[1..];
      var j := IncludesWitness(tail, needle);
      assert haystack[j + 1..j + 1 + |needle|] == tail[j..j + |needle|];
      i := j + 1;
    }
  }

  /** The position-by-position search agrees with the definition of a substring. */
  lemma {:induction false} IncludesIff(haystack: string, needle: string)
    ensures Includes(haystack, needle) <==> exists i: nat :: OccursAt(haystack, needle, i)
  {
    if Includes(haystack, needle) {
      var i := IncludesWitness(haystack, needle);
    }
    forall i: nat | OccursAt(haystack, needle, i) ensures Includes(haystack, needle) {
      OccursImpliesIncludes(haystack, needle, i);
    }
  }
}

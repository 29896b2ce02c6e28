/**
 * The list operations the application performs on arrays and query results:
 * `filter`, `map` replacing matching elements, the first matching row of a
 * query, and `[...new Set(xs)]`, with the order and uniqueness facts about them.
 */
module Lists {
  import opened Wrappers

  /** No element occurs twice. */
  predicate NoDups<T(==)>(s: seq<T>) {
    forall i, j :: 0 <= i < j < |s| ==> s[i] != s[j]
  }

  /** `r` is `s` with some elements deleted, the rest in their original order. */
  predicate Subseq<T(==)>(r: seq<T>, s: seq<T>)
    decreases |s|
  {
    if s == [] then r == []
    else (r != [] && r[0] == s[0] && Subseq(r[1..], s[1..])) || Subseq(r, s[1..])
  }

  lemma {:induction false} SubseqMembers<T>(r: seq<T>, s: seq<T>, x: T)
    requires Subseq(r, s) && x in r
    ensures x in s
    decreases |s|
  {
    if s != [] {
      if r != [] && r[0] == s[0] && Subseq(r[1..], s[1..]) {
        if x != r[0] {
          assert x in r[1..];
          SubseqMembers(r[1..], s[1..], x);
        }
      } else {
        SubseqMembers(r, s[1..], x);
      }
    }
  }

  /** Deleting elements cannot create a duplicate. */
  lemma {:induction false} SubseqNoDups<T>(r: seq<T>, s: seq<T>)
    requires Subseq(r, s) && NoDups(s)
    ensures NoDups(r)
    decreases |s|
  {
    if s != [] {
      assert NoDups(s[1..]);
      if r != [] && r[0] == s[0] && Subseq(r[1..], s[1..]) {
        SubseqNoDups(r[1..], s[1..]);
        forall j | 0 < j < |r|
          ensures r[0] != r[j]
        {
          assert r[j] in r[1..];
          SubseqMembers(r[1..], s[1..], r[j]);
        }
      } else {
        SubseqNoDups(r, s[1..]);
      }
    }
  }

  /** `s.filter(keep)` */
  function Filter<T(!new)>(s: seq<T>, keep: T -> bool): (r: seq<T>)
    ensures |r| <= |s|
    ensures forall x :: x in r <==> x in s && keep(x)
    ensures forall x :: multiset(r)[x] == if keep(x) then multiset(s)[x] else 0
    decreases |s|
  {
    if s == [] then []
    else
      assert s == [s[0]] + s[1..];
      if keep(s[0]) then [s[0]] + Filter(s[1..], keep)
      else Filter(s[1..], keep)
  }

  /** `filter` keeps the surviving elements in their original order. */
  lemma {:induction false} FilterIsSubseq<T(!new)>(s: seq<T>, keep: T -> bool)
    ensures Subseq(Filter(s, keep), s)
    decreases |s|
  {
    if s != [] {
      FilterIsSubseq(s[1..], keep);
      if keep(s[0]) {
        assert ([s[0]] + Filter(s[1..], keep))[1..] == Filter(s[1..], keep);
      }
    }
  }

  /** `s.map(e => hit(e) ? x : e)` */
  function ReplaceWhere<T>(s: seq<T>, hit: T -> bool, x: T): (r: seq<T>)
    ensures |r| == |s|
    ensures forall i :: 0 <= i < |s| ==> r[i] == (if hit(s[i]) then x else s[i])
  {
    seq(|s|, i requires 0 <= i < |s| => if hit(s[i]) then x else s[i])
  }

  /** The first element satisfying `p` (a query's `rows[0]`), if any. */
  function First<T>(s: seq<T>, p: T -> bool): (r: Option<T>)
    ensures r.None? <==> forall i :: 0 <= i < |s| ==> !p(s[i])
    ensures r.Some? ==> exists i :: 0 <= i < |s| && s[i] == r.value && p(s[i])
                                    && forall j :: 0 <= j < i ==> !p(s[j])
    decreases |s|
  {
    if s == [] then None
    else if p(s[0]) then Some(s[0])
    else
      var r := First(s[1..], p);
      assert r.Some? ==> exists i :: 0 < i < |s| && s[i] == r.value && p(s[i])
                                    && forall j :: 0 <= j < i ==> !p(s[j]) by {
        if r.Some? {
          var k :| 0 <= k < |s[1..]| && s[1..][k] == r.value && p(s[1..][k])
                   && forall j :: 0 <= j < k ==> !p(s[1..][j]);
          assert forall j :: 0 <= j < k + 1 ==> !p(s[j]) by {
            forall j | 0 <= j < k + 1 ensures !p(s[j]) {
              if j > 0 { assert s[j] == s[1..][j - 1]; }
            }
          }
        }
      }
      r
  }

  /** The element at the first index where `p` holds is the one `First` returns. */
  lemma FirstAt<T>(s: seq<T>, p: T -> bool, k: nat)
    requires k < |s| && p(s[k]) && forall j :: 0 <= j < k ==> !p(s[j])
    ensures First(s, p) == Some(s[k])
  {
    var r := First(s, p);
    var m :| 0 <= m < |s| && s[m] == r.value && p(s[m]) && forall j :: 0 <= j < m ==> !p(s[j]);
    assert !(m < k) && !(k < m);
  }

  /** The position of the first occurrence of `x` in `s`. */
  function IndexOf<T(==)>(s: seq<T>, x: T): (k: nat)
    requires x in s
    ensures k < |s| && s[k] == x && x !in s[..k]
  {
    if s[0] == x then 0
    else
      var k := IndexOf(s[1..], x);
      assert s[..k + 1] == [s[0]] + s[1..][..k];
      k + 1
  }

  /** A position holding `x` with no `x` before it is the first occurrence. */
  lemma IndexOfUnique<T>(s: seq<T>, x: T, k: nat)
    requires k < |s| && s[k] == x && x !in s[..k]
    ensures IndexOf(s, x) == k
  {
    var j := IndexOf(s, x);
    assert forall i :: 0 <= i < k ==> s[..k][i] == s[i];
    assert forall i :: 0 <= i < j ==> s[..j][i] == s[i];
  }

  /** Appending an element leaves the first occurrences of the earlier ones where they were. */
  lemma IndexOfAppend<T>(s: seq<T>, y: T, x: T)
    requires x in s
    ensures IndexOf(s + [y], x) == IndexOf(s, x)
  {
    var k := IndexOf(s, x);
    assert (s + [y])[..k] == s[..k];
    IndexOfUnique(s + [y], x, k);
  }

  /**
   * `[...new Set(s)]`: every element once, ordered by where it first occurs
   * in `s`.
   */
  function Dedup<T(==,!new)>(s: seq<T>): (r: seq<T>)
    ensures NoDups(r)
    ensures forall x :: x in r <==> x in s
    ensures forall i, j :: 0 <= i < j < |r| ==> IndexOf(s, r[i]) < IndexOf(s, r[j])
    decreases |s|
  {
    if s == [] then []
    else
      var init := s[..|s| - 1];
      var last := s[|s| - 1];
      var d := Dedup(init);
      assert s == init + [last];
      assert forall x :: x in s <==> x in init || x == last;
      assert forall x :: x in init ==> IndexOf(s, x) == IndexOf(init, x) by {
        forall x | x in init ensures IndexOf(s, x) == IndexOf(init, x) {
          IndexOfAppend(init, last, x);
        }
      }
      if last in d then d
      else
        assert IndexOf(s, last) == |s| - 1 by {
          IndexOfUnique(s, last, |s| - 1);
        }
        d + [last]
  }

  /** A list that already has no duplicates is its own `[...new Set(s)]`. */
  lemma {:induction false} DedupOfNoDups<T(!new)>(s: seq<T>)
    requires NoDups(s)
    ensures Dedup(s) == s
    decreases |s|
  {
    if s != [] {
      var init := s[..|s| - 1];
      assert NoDups(init);
      DedupOfNoDups(init);
      assert s[|s| - 1] !in init by {
        forall i | 0 <= i < |init| ensures init[i] != s[|s| - 1] {
          assert init[i] == s[i];
        }
      }
      assert init + [s[|s| - 1]] == s;
    }
  }

  /** `[...new Set([...s, x])]` on a duplicate-free list: append `x` only if it is new. */
  lemma AppendUnique<T(!new)>(s: seq<T>, x: T)
    requires NoDups(s)
    ensures Dedup(s + [x]) == if x in s then s else s + [x]
  {
    assert (s + [x])[..|s + [x]| - 1] == s;
    DedupOfNoDups(s);
  }
}

/**
 * Go compares strings byte by byte, and sort.Strings orders a slice of
 * strings by that comparison. For valid UTF-8 the byte order agrees with
 * the order of the code points, so here a string is a sequence of
 * characters compared character by character.
 */
module StringOrder {

  /** a sorts strictly before b: a is a proper prefix of b, or the first
      character where they differ is smaller in a. */
  predicate Less(a: string, b: string)
    decreases |a|
  {
    if |a| == 0 then |b| != 0
    else if |b| == 0 then false
    else a[0] < b[0] || (a[0] == b[0] && Less(a[1..], b[1..]))
  }

  predicate LessEq(a: string, b: string)
  {
    a == b || Less(a, b)
  }

  /** Ascending order, as sort.Strings leaves a slice. */
  predicate Sorted(s: seq<string>)
  {
    forall j, k :: 0 <= j < k < |s| ==> LessEq(s[j], s[k])
  }

  /** Ascending order without repetitions. */
  predicate StrictlySorted(s: seq<string>)
  {
    forall j, k :: 0 <= j < k < |s| ==> Less(s[j], s[k])
  }

  lemma {:induction false} LessIrreflexive(a: string)
    ensures !Less(a, a)
    decreases |a|
  {
    if |a| != 0 {
      LessIrreflexive(a[1..]);
    }
  }

  lemma {:induction false} LessTransitive(a: string, b: string, c: string)
    requires Less(a, b) && Less(b, c)
    ensures Less(a, c)
    decreases |a|
  {
    if |a| != 0 && a[0] == b[0] && b[0] == c[0] {
      LessTransitive(a[1..], b[1..], c[1..]);
    }
  }

  /** Any two different strings are ordered one way or the other. */
  lemma {:induction false} LessTotal(a: string, b: string)
    requires a != b
    ensures Less(a, b) || Less(b, a)
    decreases |a|
  {
    if |a| != 0 && |b| != 0 && a[0] == b[0] {
      assert a == [a[0]] + a[1..] && b == [b[0]] + b[1..];
      LessTotal(a[1..], b[1..]);
    }
  }

  lemma LessAsymmetric(a: string, b: string)
    requires Less(a, b)
    ensures !Less(b, a)
  {
    if Less(b, a) {
      LessTransitive(a, b, a);
      LessIrreflexive(a);
    }
  }

  lemma LessEqTransitive(a: string, b: string, c: string)
    requires LessEq(a, b) && LessEq(b, c)
    ensures LessEq(a, c)
  {
    if Less(a, b) && Less(b, c) {
      LessTransitive(a, b, c);
    }
  }

  /** A value that occurs at two positions occurs at least twice. */
  lemma Repeated(s: seq<string>, j: int, k: int)
    requires 0 <= j < k < |s| && s[j] == s[k]
    ensures multiset(s)[s[j]] >= 2
  {
    assert s == s[..k] + s[k..];
    assert s[..k][j] == s[j];
    assert s[k..][0] == s[j];
    assert multiset(s) == multiset(s[..k]) + multiset(s[k..]);
  }

  /** A sorted listing of the elements of a set, each once, has no two
      equal neighbours anywhere: it is strictly sorted. */
  lemma SortedListingIsStrict(s: seq<string>, names: set<string>)
    requires Sorted(s) && multiset(s) == multiset(names)
    ensures StrictlySorted(s)
  {
    forall j, k | 0 <= j < k < |s|
      ensures Less(s[j], s[k])
    {
      if s[j] == s[k] {
        Repeated(s, j, k);
        assert false;
      }
    }
  }

  /** There is only one strictly sorted arrangement of a collection of
      names: a listing that sort.Strings produces is determined by the
      names alone, whatever order they were gathered in. */
  lemma {:induction false} StrictlySortedUnique(s: seq<string>, t: seq<string>)
    requires StrictlySorted(s) && StrictlySorted(t)
    requires multiset(s) == multiset(t)
    ensures s == t
    decreases |s|
  {
    if s == [] {
      assert |t| == |multiset(t)| == 0;
    } else {
      assert s[0] in multiset(t);
      assert t != [];
      if s[0] != t[0] {
        assert t[0] in multiset(s);
        var k :| 0 <= k < |t| && t[k] == s[0];
        var j :| 0 <= j < |s| && s[j] == t[0];
        assert Less(t[0], s[0]);
        assert Less(s[0], t[0]);
        LessAsymmetric(s[0], t[0]);
        assert false;
      }
      assert s == [s[0]] + s[1..] && t == [t[0]] + t[1..];
      assert multiset(s[1..]) == multiset(s) - multiset{s[0]};
      assert multiset(t[1..]) == multiset(t) - multiset{t[0]};
      StrictlySortedUnique(s[1..], t[1..]);
    }
  }

  /** The position of a least element of a[from..]. */
  method MinIndex(a: array<string>, from: nat) returns (m: nat)
    requires from < a.Length
    ensures from <= m < a.Length
    ensures forall k :: from <= k < a.Length ==> LessEq(a[m], a[k])
  {
    m := from;
    var j := from + 1;
    while j < a.Length
      invariant from <= m < j <= a.Length
      invariant forall k :: from <= k < j ==> LessEq(a[m], a[k])
    {
      if Less(a[j], a[m]) {
        forall k | from <= k < j
          ensures LessEq(a[j], a[k])
        {
          LessEqTransitive(a[j], a[m], a[k]);
        }
        m := j;
      } else if a[j] != a[m] {
        LessTotal(a[j], a[m]);
      }
      j := j + 1;
    }
  }

  /** Exchanges two elements of the array. */
  method Swap(a: array<string>, i: nat, j: nat)
    requires i < a.Length && j < a.Length
    modifies a
    ensures a[..] == old(a[..])[i := old(a[j])][j := old(a[i])]
    ensures multiset(a[..]) == old(multiset(a[..]))
  {
    a[i], a[j] := a[j], a[i];
  }

  /** Placing a least element of s[i..] at position i extends the sorted
      prefix by one, given that s[..i] is sorted and below s[i..]. */
  lemma SelectionStep(s: seq<string>, t: seq<string>, i: nat, m: nat)
    requires i <= m < |s| && t == s[i := s[m]][m := s[i]]
    requires forall j, k :: 0 <= j < k < i ==> LessEq(s[j], s[k])
    requires forall j, k :: 0 <= j < i <= k < |s| ==> LessEq(s[j], s[k])
    requires forall k :: i <= k < |s| ==> LessEq(s[m], s[k])
    ensures forall j, k :: 0 <= j < k < i + 1 ==> LessEq(t[j], t[k])
    ensures forall j, k :: 0 <= j < i + 1 <= k < |t| ==> LessEq(t[j], t[k])
  {
    forall j, k | 0 <= j < i + 1 <= k < |t|
      ensures LessEq(t[j], t[k])
    {
      var k' := if k == m then i else k;
      assert t[k] == s[k'];
    }
  }

  /** sort.Strings: sorts the array in place into ascending order. */
  method SortStrings(a: array<string>)
    modifies a
    ensures Sorted(a[..])
    ensures multiset(a[..]) == old(multiset(a[..]))
  {
    var i := 0;
    while i < a.Length
      invariant 0 <= i <= a.Length
      invariant forall j, k :: 0 <= j < k < i ==> LessEq(a[j], a[k])
      invariant forall j, k :: 0 <= j < i <= k < a.Length ==> LessEq(a[j], a[k])
      invariant multiset(a[..]) == old(multiset(a[..]))
    {
      var m := MinIndex(a, i);
      ghost var before := a[..];
      Swap(a, i, m);
      SelectionStep(before, a[..], i, m);
      i := i + 1;
    }
  }
}

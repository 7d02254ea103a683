/** What a directory listing shows: the children that are not hidden
    (File.listFiles with a filter rejecting File.isHidden), sorted by the
    natural order of File (Collections.sort). */
module Listings {
  import opened FileOrder

  /** Every earlier entry sorts no later than every later one. */
  predicate Sorted(s: seq<Path>) {
    forall i, j :: 0 <= i < j < |s| ==> PathLe(s[i], s[j])
  }

  /** The children that pass the "not hidden" filter, in listing order. */
  function Visible(files: seq<Path>, hidden: set<Path>): (r: seq<Path>)
    ensures forall p :: p in r <==> p in files && p !in hidden
    ensures forall p :: multiset(r)[p] == if p in hidden then 0 else multiset(files)[p]
    ensures |r| <= |files|
  {
    if files == [] then []
    else
      assert files == [files[0]] + files[1..];
      if files[0] in hidden then Visible(files[1..], hidden)
      else [files[0]] + Visible(files[1..], hidden)
  }

  lemma HeadIsLeast(s: seq<Path>)
    requires Sorted(s) && s != []
    ensures forall p :: p in s ==> PathLe(s[0], p)
  {
    forall p | p in s
      ensures PathLe(s[0], p)
    {
      var k :| 0 <= k < |s| && s[k] == p;
      if k == 0 {
        PathLeReflexive(p);
      }
    }
  }

  lemma PrependLeast(x: Path, s: seq<Path>)
    requires Sorted(s)
    requires forall p :: p in s ==> PathLe(x, p)
    ensures Sorted([x] + s)
  {
  }

  /** Inserts x into a sorted sequence, after the entries that sort before it. */
  function Insert(x: Path, s: seq<Path>): (r: seq<Path>)
    requires Sorted(s)
    ensures Sorted(r)
    ensures multiset(r) == multiset(s) + multiset{x}
  {
    if s == [] then [x]
    else if PathLe(x, s[0]) then
      HeadIsLeast(s);
      LeastByTransitivity(x, s);
      PrependLeast(x, s);
      [x] + s
    else
      assert s == [s[0]] + s[1..];
      var t := Insert(x, s[1..]);
      PathLeTotal(x, s[0]);
      HeadBoundsInsert(x, s, t);
      PrependLeast(s[0], t);
      [s[0]] + t
  }

  lemma LeastByTransitivity(x: Path, s: seq<Path>)
    requires s != [] && PathLe(x, s[0])
    requires forall p :: p in s ==> PathLe(s[0], p)
    ensures forall p :: p in s ==> PathLe(x, p)
  {
    forall p | p in s
      ensures PathLe(x, p)
    {
      PathLeTransitive(x, s[0], p);
    }
  }

  lemma HeadBoundsInsert(x: Path, s: seq<Path>, t: seq<Path>)
    requires Sorted(s) && s != [] && PathLe(s[0], x)
    requires multiset(t) == multiset(s[1..]) + multiset{x}
    ensures forall p :: p in t ==> PathLe(s[0], p)
  {
    HeadIsLeast(s);
    forall p | p in t
      ensures PathLe(s[0], p)
    {
      assert p in multiset(t);
      if p != x {
        assert p in multiset(s[1..]);
        assert p in s;
      }
    }
  }

  /** The listing in File order: a sorted permutation of its input. */
  function Sort(s: seq<Path>): (r: seq<Path>)
    ensures Sorted(r)
    ensures multiset(r) == multiset(s)
  {
    if s == [] then []
    else
      assert s == [s[0]] + s[1..];
      Insert(s[0], Sort(s[1..]))
  }

  /** A sorted permutation is unique: whatever algorithm sorts the listing,
      the result is the one Sort gives. */
  lemma {:induction false} SortedUnique(a: seq<Path>, b: seq<Path>)
    requires Sorted(a) && Sorted(b)
    requires multiset(a) == multiset(b)
    ensures a == b
  {
    assert |a| == |multiset(a)| == |multiset(b)| == |b|;
    if a != [] {
      assert a[0] in multiset(b) && b[0] in multiset(a);
      HeadIsLeast(a);
      HeadIsLeast(b);
      PathLeAntisymmetric(a[0], b[0]);
      assert a == [a[0]] + a[1..];
      assert b == [b[0]] + b[1..];
      assert a[0] == b[0];
      assert multiset(a[1..]) == multiset(a) - multiset{a[0]};
      assert multiset(b[1..]) == multiset(b) - multiset{b[0]};
      SortedUnique(a[1..], b[1..]);
    }
  }

  lemma SortIsTheSortedPermutation(s: seq<Path>, r: seq<Path>)
    requires Sorted(r) && multiset(r) == multiset(s)
    ensures Sort(s) == r
  {
    SortedUnique(Sort(s), r);
  }
}

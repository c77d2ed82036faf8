/**
 Strings in code-point order, and sequences of entries sorted by a string key. Sorting entries
 whose keys are distinct has only one possible result.
 */
module Ordering {

  predicate Less(a: string, b: string) {
    b != [] && (a == [] || a[0] < b[0] || (a[0] == b[0] && Less(a[1..], b[1..])))
  }

  lemma {:induction false} LessIsTotal(a: string, b: string)
    ensures Less(a, b) || a == b || Less(b, a)
    ensures !(Less(a, b) && Less(b, a)) && !Less(a, a)
    decreases |a|
  {
    if a != [] && b != [] {
      LessIsTotal(a[1..], b[1..]);
    }
    if a != [] {
      LessIsTotal(a[1..], a[1..]);
    }
    assert a != [] && b != [] && a[0] == b[0] && a[1..] == b[1..] ==> a == b by {
      assert a != [] ==> a == [a[0]] + a[1..];
      assert b != [] ==> b == [b[0]] + b[1..];
    }
  }

  lemma {:induction false} LessIsTransitive(a: string, b: string, c: string)
    requires Less(a, b) && Less(b, c)
    ensures Less(a, c)
    decreases |a|
  {
    if a != [] && a[0] == b[0] && b[0] == c[0] {
      LessIsTransitive(a[1..], b[1..], c[1..]);
    }
  }

  type Entries<T> = seq<(string, T)>

  ghost predicate Ascending<T>(s: Entries<T>) {
    forall i, k :: 0 <= i < k < |s| ==> Less(s[i].0, s[k].0)
  }

  ghost predicate DistinctKeys<T>(s: Entries<T>) {
    forall i, k :: 0 <= i < k < |s| ==> s[i].0 != s[k].0
  }

  ghost predicate SameEntries<T(!new)>(a: Entries<T>, b: Entries<T>) {
    forall e :: e in a <==> e in b
  }

  function Insert<T>(e: (string, T), s: Entries<T>): (r: Entries<T>) {
    if s == [] || Less(e.0, s[0].0) then [e] + s else [s[0]] + Insert(e, s[1..])
  }

  function Sort<T>(s: Entries<T>): (r: Entries<T>) {
    if s == [] then [] else Insert(s[0], Sort(s[1..]))
  }

  lemma {:induction false} InsertKeepsEntries<T(!new)>(e: (string, T), s: Entries<T>)
    ensures |Insert(e, s)| == |s| + 1
    ensures forall x :: x in Insert(e, s) <==> x == e || x in s
    ensures Ascending(s) && (forall x :: x in s ==> x.0 != e.0) ==> Ascending(Insert(e, s))
  {
    if s != [] && !Less(e.0, s[0].0) {
      InsertKeepsEntries(e, s[1..]);
      assert s == [s[0]] + s[1..];
      if Ascending(s) && forall x :: x in s ==> x.0 != e.0 {
        LessIsTotal(e.0, s[0].0);
        var r := Insert(e, s[1..]);
        assert forall x :: x in s[1..] ==> x in s;
        forall k | 0 <= k < |r| ensures Less(s[0].0, r[k].0) {
          assert r[k] in r;
          if r[k] != e {
            var i :| 0 <= i < |s[1..]| && s[1..][i] == r[k];
            assert s[i + 1] == r[k];
          }
        }
      }
    } else if s != [] && Ascending(s) {
      forall k | 0 <= k < |s| ensures Less(e.0, s[k].0) {
        if 0 < k { LessIsTransitive(e.0, s[0].0, s[k].0); }
      }
    }
  }

  lemma {:induction false} SortSorts<T(!new)>(s: Entries<T>)
    ensures |Sort(s)| == |s| && SameEntries(Sort(s), s)
    ensures DistinctKeys(s) ==> Ascending(Sort(s))
  {
    if s != [] {
      SortSorts(s[1..]);
      InsertKeepsEntries(s[0], Sort(s[1..]));
      assert s == [s[0]] + s[1..];
      if DistinctKeys(s) {
        forall x | x in Sort(s[1..]) ensures x.0 != s[0].0 {
          var i :| 0 <= i < |s[1..]| && s[1..][i] == x;
          assert s[i + 1] == x;
        }
      }
    }
  }

  lemma {:induction false} AscendingIsUnique<T(!new)>(a: Entries<T>, b: Entries<T>)
    requires Ascending(a) && Ascending(b) && SameEntries(a, b)
    ensures a == b
    decreases |a|
  {
    assert a != [] ==> a[0] in a && a[0] in b;
    assert b != [] ==> b[0] in b && b[0] in a;
    assert a == [] <==> b == [];
    if a != [] {
      FirstIsLeast(a, b[0]);
      FirstIsLeast(b, a[0]);
      LessIsTotal(a[0].0, b[0].0);
      RestIsSame(a, b);
      AscendingIsUnique(a[1..], b[1..]);
      assert a == [a[0]] + a[1..] && b == [b[0]] + b[1..];
    }
  }

  lemma FirstIsLeast<T(!new)>(a: Entries<T>, e: (string, T))
    requires Ascending(a) && e in a
    ensures a[0] == e || Less(a[0].0, e.0)
  {
  }

  lemma RestIsSame<T(!new)>(a: Entries<T>, b: Entries<T>)
    requires Ascending(a) && Ascending(b) && SameEntries(a, b) && a != [] && b != [] && a[0] == b[0]
    ensures SameEntries(a[1..], b[1..])
  {
    LessIsTotal(a[0].0, a[0].0);
    forall e ensures e in a[1..] <==> e in b[1..] {
      assert e in a[1..] <==> e in a && e != a[0] by { InRest(a, e); }
      assert e in b[1..] <==> e in b && e != b[0] by { InRest(b, e); }
    }
  }

  lemma InRest<T(!new)>(a: Entries<T>, e: (string, T))
    requires Ascending(a) && a != []
    ensures e in a[1..] <==> e in a && e != a[0]
  {
    LessIsTotal(a[0].0, a[0].0);
    assert a == [a[0]] + a[1..];
    if e in a[1..] {
      var i :| 0 <= i < |a[1..]| && a[1..][i] == e;
      assert a[i + 1] == e && Less(a[0].0, a[i + 1].0);
    }
  }

  /** Two lists of the same entries with distinct keys are sorted to the same list. */
  lemma SortIgnoresOrder<T(!new)>(a: Entries<T>, b: Entries<T>)
    requires DistinctKeys(a) && DistinctKeys(b) && SameEntries(a, b)
    ensures Sort(a) == Sort(b)
  {
    SortSorts(a);
    SortSorts(b);
    assert SameEntries(Sort(a), Sort(b)) by {
      forall e ensures e in Sort(a) <==> e in Sort(b) {
        assert e in a <==> e in b;
      }
    }
    AscendingIsUnique(Sort(a), Sort(b));
  }

  /** A sorted list is left alone. */
  lemma SortOfSorted<T(!new)>(s: Entries<T>)
    requires Ascending(s)
    ensures Sort(s) == s
  {
    forall i, k | 0 <= i < k < |s| ensures s[i].0 != s[k].0 {
      LessIsTotal(s[i].0, s[k].0);
    }
    SortSorts(s);
    AscendingIsUnique(Sort(s), s);
  }
}

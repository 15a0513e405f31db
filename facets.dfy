/**
 * The facet lists of the catalog page: the distinct team owners and the
 * distinct primary languages, each turned into a Set and then sorted with the
 * default order.
 */
module Facets {
  import opened Seqs
  import opened JsString
  import opened Repo

  /** new Set(arr) read back as an array: first occurrences, in their order. */
  function Dedupe(s: seq<string>): (r: seq<string>)
    ensures NoDuplicates(r)
    ensures forall x :: x in r <==> x in s
    ensures |r| <= |s|
  {
    if s == [] then []
    else
      var init := Dedupe(s[..|s| - 1]);
      var last := s[|s| - 1];
      assert s == s[..|s| - 1] + [last];
      if last in init then init else init + [last]
  }

  /** Non-decreasing in the default sort order. */
  predicate Sorted(s: seq<string>) {
    forall i, j :: 0 <= i < j < |s| ==> LexLeq(s[i], s[j])
  }

  /** Strictly increasing in the default sort order: sorted and without duplicates. */
  predicate StrictlySorted(s: seq<string>) {
    forall i, j :: 0 <= i < j < |s| ==> LexLess(s[i], s[j])
  }

  /** Insertion of x into a sorted list, before the first element not below it. */
  function Insert(x: string, t: seq<string>): seq<string> {
    if t == [] then [x]
    else if LexLeq(x, t[0]) then [x] + t
    else [t[0]] + Insert(x, t[1..])
  }

  /** Array.prototype.sort() with no comparator, modelled as an insertion sort. */
  function Sort(s: seq<string>): seq<string> {
    if s == [] then [] else Insert(s[0], Sort(s[1..]))
  }

  lemma {:induction false} InsertPermutes(x: string, t: seq<string>)
    ensures multiset(Insert(x, t)) == multiset{x} + multiset(t)
  {
    if t != [] && !LexLeq(x, t[0]) {
      InsertPermutes(x, t[1..]);
      assert t == [t[0]] + t[1..];
    }
  }

  lemma {:induction false} InsertSorted(x: string, t: seq<string>)
    requires Sorted(t)
    ensures Sorted(Insert(x, t))
  {
    if t == [] {
    } else if LexLeq(x, t[0]) {
      forall j | 0 < j < |t| ensures LexLeq(x, t[j]) {
        LexLeqTransitive(x, t[0], t[j]);
      }
    } else {
      LexLessTotal(x, t[0]);
      var rest := Insert(x, t[1..]);
      assert Sorted(t[1..]);
      InsertSorted(x, t[1..]);
      InsertPermutes(x, t[1..]);
      forall j | 0 <= j < |rest| ensures LexLeq(t[0], rest[j]) {
        assert rest[j] in multiset(rest);
        if rest[j] != x {
          assert rest[j] in t[1..];
        }
      }
      var r := [t[0]] + rest;
      forall i, j | 0 <= i < j < |r| ensures LexLeq(r[i], r[j]) {
        if i == 0 {
          assert r[j] == rest[j - 1];
        } else {
          assert r[i] == rest[i - 1] && r[j] == rest[j - 1];
        }
      }
    }
  }

  /** Sorting rearranges its input: the same values, each as often. */
  lemma {:induction false} SortPermutes(s: seq<string>)
    ensures multiset(Sort(s)) == multiset(s)
  {
    if s != [] {
      SortPermutes(s[1..]);
      InsertPermutes(s[0], Sort(s[1..]));
      assert s == [s[0]] + s[1..];
    }
  }

  /** Sorting yields a non-decreasing list. */
  lemma {:induction false} SortSorted(s: seq<string>)
    ensures Sorted(Sort(s))
  {
    if s != [] {
      SortSorted(s[1..]);
      InsertSorted(s[0], Sort(s[1..]));
    }
  }

  /** getUnique: the distinct values of arr, sorted ascending. */
  function GetUnique(arr: seq<string>): (r: seq<string>)
    ensures StrictlySorted(r)
    ensures forall x :: x in r <==> x in arr
    ensures |r| <= |arr|
  {
    var d := Dedupe(arr);
    var r := Sort(d);
    SortPermutes(d);
    SortSorted(d);
    PermutationKeepsNoDuplicates(d, r);
    assert forall x :: x in r <==> x in multiset(d);
    assert |r| == |multiset(r)| == |multiset(d)| == |d|;
    r
  }

  /** A strictly sorted list is fixed by its set of elements. */
  lemma {:induction false} StrictlySortedUnique(a: seq<string>, b: seq<string>)
    requires StrictlySorted(a) && StrictlySorted(b)
    requires forall x :: x in a <==> x in b
    ensures a == b
  {
    assert a != [] ==> a[0] in b;
    assert b != [] ==> b[0] in a;
    if a == [] || b == [] {
    } else {
      assert b[0] in a;
      assert a[0] in b;
      if a[0] != b[0] {
        var i :| 0 <= i < |a| && a[i] == b[0];
        var j :| 0 <= j < |b| && b[j] == a[0];
        assert LexLess(a[0], b[0]);
        assert LexLess(b[0], a[0]);
        LexLessAsymmetric(a[0], b[0]);
        assert false;
      }
      forall x ensures x in a[1..] <==> x in b[1..] {
        if x in a[1..] {
          var k :| 1 <= k < |a| && a[k] == x;
          assert LexLess(a[0], x);
          LexLessIrreflexive(x);
          assert x in b;
        }
        if x in b[1..] {
          var k :| 1 <= k < |b| && b[k] == x;
          assert LexLess(b[0], x);
          LexLessIrreflexive(x);
          assert x in a;
        }
      }
      StrictlySortedUnique(a[1..], b[1..]);
      assert a == [a[0]] + a[1..] && b == [b[0]] + b[1..];
    }
  }

  /** getUnique(arr) is the one strictly increasing list whose elements are those of arr. */
  lemma GetUniqueIsCanonical(arr: seq<string>, t: seq<string>)
    requires StrictlySorted(t)
    requires forall x :: x in t <==> x in arr
    ensures t == GetUnique(arr)
  {
    StrictlySortedUnique(t, GetUnique(arr));
  }

  /** repositories.map(r => r.teamOwner) */
  function TeamOwners(repos: seq<Repository>): seq<string> {
    seq(|repos|, i requires 0 <= i < |repos| => repos[i].teamOwner)
  }

  /** repositories.map(r => r.primaryLanguage) */
  function PrimaryLanguages(repos: seq<Repository>): seq<string> {
    seq(|repos|, i requires 0 <= i < |repos| => repos[i].primaryLanguage)
  }

  /** allTeams: every team that owns some repository, once each, ascending. */
  function AllTeams(repos: seq<Repository>): (r: seq<string>)
    ensures StrictlySorted(r)
    ensures forall t :: t in r <==> exists i :: 0 <= i < |repos| && repos[i].teamOwner == t
    ensures repos == [] ==> r == []
  {
    var owners := TeamOwners(repos);
    assert forall t :: t in owners <==> exists i :: 0 <= i < |repos| && repos[i].teamOwner == t by {
      forall t | t in owners ensures exists i :: 0 <= i < |repos| && repos[i].teamOwner == t {
        var i :| 0 <= i < |owners| && owners[i] == t;
        assert repos[i].teamOwner == t;
      }
      forall t | exists i :: 0 <= i < |repos| && repos[i].teamOwner == t ensures t in owners {
        var i :| 0 <= i < |repos| && repos[i].teamOwner == t;
        assert owners[i] == t;
      }
    }
    GetUnique(owners)
  }

  /** allLangs: every primary language of some repository, once each, ascending. */
  function AllLangs(repos: seq<Repository>): (r: seq<string>)
    ensures StrictlySorted(r)
    ensures forall l :: l in r <==> exists i :: 0 <= i < |repos| && repos[i].primaryLanguage == l
    ensures repos == [] ==> r == []
  {
    var langs := PrimaryLanguages(repos);
    assert forall l :: l in langs <==> exists i :: 0 <= i < |repos| && repos[i].primaryLanguage == l by {
      forall l | l in langs ensures exists i :: 0 <= i < |repos| && repos[i].primaryLanguage == l {
        var i :| 0 <= i < |langs| && langs[i] == l;
        assert repos[i].primaryLanguage == l;
      }
      forall l | exists i :: 0 <= i < |repos| && repos[i].primaryLanguage == l ensures l in langs {
        var i :| 0 <= i < |repos| && repos[i].primaryLanguage == l;
        assert langs[i] == l;
      }
    }
    GetUnique(langs)
  }

  /** Facets hold no duplicates (the other half of being strictly increasing). */
  lemma StrictlySortedHasNoDuplicates(s: seq<string>)
    requires StrictlySorted(s)
    ensures NoDuplicates(s) && Sorted(s)
  {
    forall i, j | 0 <= i < j < |s| ensures s[i] != s[j] {
      LexLessIrreflexive(s[i]);
    }
  }
}

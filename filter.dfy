/**
 * The filter of the catalog page: a repository is shown when its name or its
 * summary contains the search text (ignoring case), its team is selected (or no
 * team is), and its language is selected (or no language is).
 */
module Filter {
  import opened Seqs
  import opened JsString
  import opened Repo

  /** The filter state the user edits: search text and the two multi-select values. */
  datatype Query = Query(search: string, teamFilter: seq<string>, langFilter: seq<string>)

  /** matchesSearch */
  predicate MatchesSearch(r: Repository, search: string) {
    Includes(ToLower(r.name), ToLower(search)) || Includes(ToLower(r.summary), ToLower(search))
  }

  /** The search ignores case: search texts that agree once lower-cased match the same repositories. */
  lemma SearchIgnoresCase(r: Repository, s: string, t: string)
    requires ToLower(s) == ToLower(t)
    ensures MatchesSearch(r, s) <==> MatchesSearch(r, t)
  {
  }

  /** In particular, lower-casing the search text first changes nothing. */
  lemma SearchLowered(r: Repository, s: string)
    ensures MatchesSearch(r, s) <==> MatchesSearch(r, ToLower(s))
  {
    ToLowerIdempotent(s);
  }

  /** matchesTeam / matchesLang: an empty selection admits every value. */
  predicate Selected(selection: seq<string>, v: string) {
    |selection| == 0 || v in selection
  }

  /** The conjunction the filter callback returns. */
  predicate Matches(r: Repository, q: Query) {
    MatchesSearch(r, q.search) && Selected(q.teamFilter, r.teamOwner) && Selected(q.langFilter, r.primaryLanguage)
  }

  /** filtered: repositories.filter(repo => Matches(repo, q)). */
  function Filtered(repos: seq<Repository>, q: Query): (r: seq<Repository>)
    ensures forall x :: x in r <==> x in repos && Matches(x, q)
    ensures Subseq(r, repos)
    ensures |r| <= |repos|
  {
    if repos == [] then []
    else if Matches(repos[0], q) then [repos[0]] + Filtered(repos[1..], q)
    else Filtered(repos[1..], q)
  }

  /** A matching repository is kept as often as it occurs; any other is dropped. */
  lemma {:induction false} FilteredMultiplicity(repos: seq<Repository>, q: Query, x: Repository)
    ensures multiset(Filtered(repos, q))[x] == if Matches(x, q) then multiset(repos)[x] else 0
  {
    if repos != [] {
      FilteredMultiplicity(repos[1..], q, x);
      assert repos == [repos[0]] + repos[1..];
    }
  }

  /** Filtering a concatenation filters each part. */
  lemma {:induction false} FilteredAppend(a: seq<Repository>, b: seq<Repository>, q: Query)
    ensures Filtered(a + b, q) == Filtered(a, q) + Filtered(b, q)
  {
    if a != [] {
      assert (a + b)[0] == a[0] && (a + b)[1..] == a[1..] + b;
      FilteredAppend(a[1..], b, q);
    } else {
      assert a + b == b;
    }
  }

  /** When every repository matches, nothing is removed. */
  lemma {:induction false} FilteredAllMatch(repos: seq<Repository>, q: Query)
    requires forall i :: 0 <= i < |repos| ==> Matches(repos[i], q)
    ensures Filtered(repos, q) == repos
  {
    if repos != [] {
      FilteredAllMatch(repos[1..], q);
      assert repos == [repos[0]] + repos[1..];
    }
  }

  /** Filtering the filtered list again changes nothing. */
  lemma FilteredIdempotent(repos: seq<Repository>, q: Query)
    ensures Filtered(Filtered(repos, q), q) == Filtered(repos, q)
  {
    var f := Filtered(repos, q);
    assert forall i :: 0 <= i < |f| ==> f[i] in f;
    FilteredAllMatch(f, q);
  }

  /** With no search text and nothing selected, the catalog is shown unchanged. */
  lemma NoCriteriaKeepsAll(repos: seq<Repository>)
    ensures Filtered(repos, Query("", [], [])) == repos
  {
    assert ToLower("") == "";
    forall i | 0 <= i < |repos| ensures Matches(repos[i], Query("", [], [])) {
      IncludesEmpty(ToLower(repos[i].name));
    }
    FilteredAllMatch(repos, Query("", [], []));
  }

  /** Selecting nothing in both multi-selects leaves only the search criterion. */
  lemma {:induction false} EmptySelectionsSearchOnly(repos: seq<Repository>, search: string)
    ensures Filtered(repos, Query(search, [], [])) == SearchOnly(repos, search)
  {
    if repos != [] {
      EmptySelectionsSearchOnly(repos[1..], search);
    }
  }

  /** The repositories whose name or summary contains the search text, in order. */
  function SearchOnly(repos: seq<Repository>, search: string): (r: seq<Repository>)
    ensures forall x :: x in r <==> x in repos && MatchesSearch(x, search)
  {
    if repos == [] then []
    else if MatchesSearch(repos[0], search) then [repos[0]] + SearchOnly(repos[1..], search)
    else SearchOnly(repos[1..], search)
  }
}

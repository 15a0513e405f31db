/**
 * The state of the repository catalog page: the fetched list, the filter
 * state and the current page number, with the transitions the page performs.
 * The derived views (facets, filtered list, page count, page slice) are
 * functions of this state.
 */
module CatalogPage {
  import opened Seqs
  import opened Repo
  import Facets
  import opened Filter
  import opened Pagination

  class CatalogPage {
    var repositories: seq<Repository>
    var search: string
    var teamFilter: seq<string>
    var langFilter: seq<string>
    var page: int

    /** The page number never drops below 1. */
    ghost predicate Valid()
      reads this
    {
      1 <= page
    }

    /** The page number lies within [1, totalPages]. */
    ghost predicate InRange()
      reads this
    {
      1 <= page <= TotalPages()
    }

    function CurrentQuery(): Query
      reads this
    {
      Query(search, teamFilter, langFilter)
    }

    function AllTeams(): (r: seq<string>)
      reads this
      ensures Facets.StrictlySorted(r)
      ensures forall t :: t in r <==> exists i :: 0 <= i < |repositories| && repositories[i].teamOwner == t
    {
      Facets.AllTeams(repositories)
    }

    function AllLangs(): (r: seq<string>)
      reads this
      ensures Facets.StrictlySorted(r)
      ensures forall l :: l in r <==> exists i :: 0 <= i < |repositories| && repositories[i].primaryLanguage == l
    {
      Facets.AllLangs(repositories)
    }

    function Filtered(): (r: seq<Repository>)
      reads this
      ensures forall x :: x in r <==> x in repositories && Matches(x, CurrentQuery())
      ensures Subseq(r, repositories)
    {
      Filter.Filtered(repositories, CurrentQuery())
    }

    function TotalPages(): (t: nat)
      reads this
      ensures t >= 1
      ensures Filtered() == [] ==> t == 1
      ensures Filtered() != [] ==> (t - 1) * PageSize < |Filtered()| <= t * PageSize
    {
      Pagination.TotalPages(|Filtered()|)
    }

    function Paginated(): (r: seq<Repository>)
      reads this
      ensures |r| <= PageSize
      ensures 1 <= page <= TotalPages() && Filtered() != [] ==> r != []
    {
      Paginate(Filtered(), page)
    }

    /** The initial state: nothing fetched yet, no criteria, page 1. */
    constructor ()
      ensures Valid() && InRange()
      ensures repositories == [] && search == "" && teamFilter == [] && langFilter == [] && page == 1
    {
      repositories := [];
      search := "";
      teamFilter := [];
      langFilter := [];
      page := 1;
    }

    /** setRepositories with the fetched list: the page number is not reset. */
    method SetRepositories(repos: seq<Repository>)
      requires Valid()
      modifies this
      ensures Valid()
      ensures repositories == repos && page == old(page)
      ensures search == old(search) && teamFilter == old(teamFilter) && langFilter == old(langFilter)
      ensures page == 1 ==> InRange()
    {
      repositories := repos;
    }

    /**
     * setSearch followed by the reset effect. Setting the text it already has
     * does not re-render, so the effect does not run and the page is kept.
     */
    method SetSearch(s: string)
      requires Valid()
      modifies this
      ensures Valid()
      ensures search == s && repositories == old(repositories)
      ensures teamFilter == old(teamFilter) && langFilter == old(langFilter)
      ensures page == if s == old(search) then old(page) else 1
      ensures old(InRange()) || s != old(search) ==> InRange()
    {
      if s != search {
        search := s;
        page := 1;
      }
    }

    /** setTeamFilter followed by the reset effect; the multi-select always passes a new array. */
    method SetTeamFilter(t: seq<string>)
      requires Valid()
      modifies this
      ensures Valid() && InRange()
      ensures teamFilter == t && page == 1
      ensures repositories == old(repositories) && search == old(search) && langFilter == old(langFilter)
    {
      teamFilter := t;
      page := 1;
    }

    /** setLangFilter followed by the reset effect; the multi-select always passes a new array. */
    method SetLangFilter(l: seq<string>)
      requires Valid()
      modifies this
      ensures Valid() && InRange()
      ensures langFilter == l && page == 1
      ensures repositories == old(repositories) && search == old(search) && teamFilter == old(teamFilter)
    {
      langFilter := l;
      page := 1;
    }

    /** The Previous button. */
    method Previous()
      requires Valid()
      modifies this`page
      ensures Valid()
      ensures page == PreviousPage(old(page))
      ensures old(page) > 1 ==> page == old(page) - 1
      ensures old(InRange()) ==> InRange()
    {
      page := PreviousPage(page);
    }

    /** The Next button; afterwards the page is in range whatever it was before. */
    method Next()
      requires Valid()
      modifies this`page
      ensures Valid() && InRange()
      ensures page == NextPage(old(page), TotalPages())
      ensures old(page) < TotalPages() ==> page == old(page) + 1
    {
      page := NextPage(page, TotalPages());
    }
  }

  /** A session: the fetch, some edits of the filter state and presses of the buttons keep the page in range. */
  method SampleSession(repos: seq<Repository>, s: string, t: seq<string>)
  {
    var c := new CatalogPage();
    c.SetRepositories(repos);
    c.Next();
    c.Next();
    c.SetSearch(s);
    assert c.InRange();
    c.SetTeamFilter(t);
    assert c.page == 1;
    c.Previous();
    assert c.page == 1 && c.InRange();
    c.Next();
    assert c.InRange();
  }
}

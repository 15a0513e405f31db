/**
 * Pagination of the filtered list: eight repositories per page, at least one
 * page, and the page slice taken with Array.prototype.slice, which does not
 * clamp the page number.
 */
module Pagination {

  /** REPOS_PER_PAGE */
  const PageSize: nat := 8

  function Max(a: int, b: int): int { if a < b then b else a }
  function Min(a: int, b: int): int { if a < b then a else b }

  /** totalPages = Math.max(1, Math.ceil(n / 8)), written in integers. */
  function TotalPages(n: nat): (t: nat)
    ensures t >= 1
    ensures n == 0 ==> t == 1
    ensures n > 0 ==> (t - 1) * PageSize < n <= t * PageSize
  {
    Max(1, (n + PageSize - 1) / PageSize)
  }

  /** How Array.prototype.slice reads an index: negative counts from the end; the result lies in [0, len]. */
  function SliceIndex(k: int, len: nat): (r: nat)
    ensures r <= len
    ensures 0 <= k <= len ==> r == k
    ensures k > len ==> r == len
    ensures k < 0 ==> r == Max(len + k, 0)
  {
    if k < 0 then Max(len + k, 0) else Min(k, len)
  }

  /** Array.prototype.slice(start, end). */
  function Slice<T>(s: seq<T>, start: int, end: int): seq<T> {
    var from := SliceIndex(start, |s|);
    var to := SliceIndex(end, |s|);
    if from < to then s[from..to] else []
  }

  /** paginated = filtered.slice((page - 1) * 8, page * 8). */
  function Paginate<T>(items: seq<T>, page: int): (r: seq<T>)
    ensures |r| <= PageSize
    ensures page >= 1 ==> r == items[Min((page - 1) * PageSize, |items|)..Min(page * PageSize, |items|)]
    ensures page >= 1 && (page - 1) * PageSize >= |items| ==> r == []
  {
    Slice(items, (page - 1) * PageSize, page * PageSize)
  }

  /** Every page from the first to the last holds at least one repository when there is one. */
  lemma PageNonEmpty<T>(items: seq<T>, page: int)
    requires items != []
    requires 1 <= page <= TotalPages(|items|)
    ensures Paginate(items, page) != []
  {
  }

  /** Pages 1 to k, one after the other. */
  function Pages<T>(items: seq<T>, k: nat): seq<T> {
    if k == 0 then [] else Pages(items, k - 1) + Paginate(items, k)
  }

  lemma {:induction false} PagesPrefix<T>(items: seq<T>, k: nat)
    ensures Pages(items, k) == items[..Min(k * PageSize, |items|)]
  {
    if k > 0 {
      PagesPrefix(items, k - 1);
      var a, b := Min((k - 1) * PageSize, |items|), Min(k * PageSize, |items|);
      assert items[..b] == items[..a] + items[a..b];
    }
  }

  /** Reading pages 1 to totalPages in order gives back the whole list. */
  lemma PagesCoverList<T>(items: seq<T>)
    ensures Pages(items, TotalPages(|items|)) == items
  {
    PagesPrefix(items, TotalPages(|items|));
  }

  /** The Previous button: Math.max(1, p - 1). */
  function PreviousPage(page: int): int {
    Max(1, page - 1)
  }

  /** The Next button: Math.min(totalPages, p + 1). */
  function NextPage(page: int, total: nat): int {
    Min(total, page + 1)
  }

  datatype Nav = Previous | Next

  /** The page reached by pressing the buttons in steps, for a fixed filter state. */
  function Navigate(page: int, steps: seq<Nav>, total: nat): int
    decreases |steps|
  {
    if steps == [] then page
    else
      var p := if steps[0].Previous? then PreviousPage(page) else NextPage(page, total);
      Navigate(p, steps[1..], total)
  }

  /** From any page in range, any press of the buttons stays in range. */
  lemma {:induction false} NavigationStaysInRange(page: int, steps: seq<Nav>, total: nat)
    requires 1 <= page <= total
    ensures 1 <= Navigate(page, steps, total) <= total
    decreases |steps|
  {
    if steps != [] {
      var p := if steps[0].Previous? then PreviousPage(page) else NextPage(page, total);
      NavigationStaysInRange(p, steps[1..], total);
    }
  }

  /** Previous moves one page back, never below page 1. */
  lemma PreviousStep(page: int, total: nat)
    requires 1 <= page <= total
    ensures 1 <= PreviousPage(page) <= total
    ensures PreviousPage(page) == if page == 1 then 1 else page - 1
  {
  }

  /** Next moves one page on, never beyond the last page; from beyond the last page it goes to the last. */
  lemma NextStep(page: int, total: nat)
    requires 1 <= page && 1 <= total
    ensures 1 <= NextPage(page, total) <= total
    ensures NextPage(page, total) == if page >= total then total else page + 1
  {
  }
}

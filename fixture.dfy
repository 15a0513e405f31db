/**
 * The four records the mock repositories endpoint serves, and what the
 * catalog page derives from them.
 */
module Fixture {
  import opened Optional
  import opened Repo
  import opened JsString
  import opened Facets
  import opened Filter
  import opened Pagination

  function CodantixUi(): Repository {
    Repository("1", "codantix-ui", "Frontend UI for Codantix platform.", "Frontend", "TypeScript",
      Some("typescript.svg"), "https://github.com/company/codantix-ui",
      [Dependency("react", "18.2.0"), Dependency("next", "13.4.0"), Dependency("tailwindcss", "3.3.2")])
  }

  function CodantixBackend(): Repository {
    Repository("2", "codantix-backend", "Backend API for Codantix.", "Platform", "Python",
      Some("python.svg"), "https://github.com/company/codantix-backend",
      [Dependency("fastapi", "0.95.0"), Dependency("sqlalchemy", "1.4.0")])
  }

  function CodantixAi(): Repository {
    Repository("3", "codantix-ai", "AI chat and vector search service.", "AI Team", "Python",
      Some("python.svg"), "https://github.com/company/codantix-ai",
      [Dependency("transformers", "4.28.0"), Dependency("faiss", "1.7.3")])
  }

  function CodantixDeploy(): Repository {
    Repository("4", "codantix-deploy", "Deployment automation scripts.", "DevOps", "Shell",
      Some("shell.svg"), "https://github.com/company/codantix-deploy",
      [Dependency("ansible", "2.10.0")])
  }

  function Catalog(): seq<Repository> {
    [CodantixUi(), CodantixBackend(), CodantixAi(), CodantixDeploy()]
  }

  /** The team facet lists the four teams alphabetically. */
  lemma TeamFacetsScenario()
    ensures AllTeams(Catalog()) == ["AI Team", "DevOps", "Frontend", "Platform"]
  {
    var expected := ["AI Team", "DevOps", "Frontend", "Platform"];
    var teams := TeamOwners(Catalog());
    assert teams == ["Frontend", "Platform", "AI Team", "DevOps"];
    assert StrictlySorted(expected) by {
      assert LexLess(expected[0], expected[1]);
      assert LexLess(expected[1], expected[2]);
      assert LexLess(expected[2], expected[3]);
      forall i, j | 0 <= i < j < 4 ensures LexLess(expected[i], expected[j]) {
        if j == i + 2 {
          LexLessTransitive(expected[i], expected[i + 1], expected[j]);
        } else if j == i + 3 {
          LexLessTransitive(expected[i], expected[i + 1], expected[i + 2]);
          LexLessTransitive(expected[i], expected[i + 2], expected[j]);
        }
      }
    }
    GetUniqueIsCanonical(teams, expected);
  }

  /** The language facet lists Python once, although two repositories use it. */
  lemma LanguageFacetsScenario()
    ensures AllLangs(Catalog()) == ["Python", "Shell", "TypeScript"]
  {
    var expected := ["Python", "Shell", "TypeScript"];
    var langs := PrimaryLanguages(Catalog());
    assert langs == ["TypeScript", "Python", "Python", "Shell"];
    assert StrictlySorted(expected) by {
      assert LexLess(expected[0], expected[1]);
      assert LexLess(expected[1], expected[2]);
      LexLessTransitive(expected[0], expected[1], expected[2]);
    }
    GetUniqueIsCanonical(langs, expected);
  }

  /** Filtering four repositories keeps the matching ones, in order. */
  lemma FilteredFour(a: Repository, b: Repository, c: Repository, d: Repository, q: Query)
    ensures Filtered([a, b, c, d], q) ==
      (if Matches(a, q) then [a] else []) + (if Matches(b, q) then [b] else []) +
      (if Matches(c, q) then [c] else []) + (if Matches(d, q) then [d] else [])
  {
    forall x: Repository ensures Filtered([x], q) == if Matches(x, q) then [x] else [] {
      assert [x][1..] == [];
    }
    assert [a, b, c, d] == [a] + [b] + [c] + [d];
    FilteredAppend([a] + [b] + [c], [d], q);
    FilteredAppend([a] + [b], [c], q);
    FilteredAppend([a], [b], q);
  }

  /** The empty search text matches every repository. */
  lemma EmptySearchMatches(r: Repository)
    ensures MatchesSearch(r, "")
  {
    assert ToLower("") == "";
    IncludesEmpty(ToLower(r.name));
  }

  /** Filtering by team Platform and language Python leaves codantix-backend. */
  lemma TeamAndLanguageScenario()
    ensures Filtered(Catalog(), Query("", ["Platform"], ["Python"])) == [CodantixBackend()]
  {
    var q := Query("", ["Platform"], ["Python"]);
    EmptySearchMatches(CodantixBackend());
    assert !Matches(CodantixUi(), q) && !Matches(CodantixAi(), q) && !Matches(CodantixDeploy(), q);
    FilteredFour(CodantixUi(), CodantixBackend(), CodantixAi(), CodantixDeploy(), q);
  }

  // The searches below are proved one repository at a time, so that the
  // solver meets one record's strings at a time.

  /** No character a immediately followed by b anywhere in hay. */
  predicate NoPair(hay: string, a: char, b: char) {
    forall i :: 0 <= i < |hay| - 1 ==> hay[i] != a || hay[i + 1] != b
  }

  /** No character that lower-cases to a immediately followed by one that lower-cases to b. */
  predicate NoPairLowered(s: string, a: char, b: char) {
    forall i :: 0 <= i < |s| - 1 ==> LowerChar(s[i]) != a || LowerChar(s[i + 1]) != b
  }

  lemma NoPairNotIncludes(hay: string, a: char, b: char)
    requires NoPair(hay, a, b)
    ensures !Includes(hay, [a, b])
  {
    forall i | 0 <= i && i + 2 <= |hay| ensures !OccursAt(hay, [a, b], i) {
      assert hay[i..i + 2][0] == hay[i] && hay[i..i + 2][1] == hay[i + 1];
    }
  }

  /** A two-letter search misses a repository in whose name and summary the pair never occurs, in any letter case. */
  lemma SearchMisses(r: Repository, a: char, b: char)
    requires ToLower([a, b]) == [a, b]
    requires NoPairLowered(r.name, a, b) && NoPairLowered(r.summary, a, b)
    ensures !MatchesSearch(r, [a, b])
  {
    NoPairNotIncludes(ToLower(r.name), a, b);
    NoPairNotIncludes(ToLower(r.summary), a, b);
  }

  lemma SearchAiFindsName()
    ensures MatchesSearch(CodantixAi(), "ai")
  {
    var name := ToLower(CodantixAi().name);
    assert name[9] == 'a' && name[10] == 'i';
    assert name[9..11] == "ai";
    assert ToLower("ai") == "ai";
    assert OccursAt(name, "ai", 9);
  }

  lemma SearchAiMissesUi()
    ensures !MatchesSearch(CodantixUi(), "ai")
  {
    SearchMisses(CodantixUi(), 'a', 'i');
  }

  lemma SearchAiMissesBackend()
    ensures !MatchesSearch(CodantixBackend(), "ai")
  {
    SearchMisses(CodantixBackend(), 'a', 'i');
  }

  lemma SearchAiMissesDeploy()
    ensures !MatchesSearch(CodantixDeploy(), "ai")
  {
    SearchMisses(CodantixDeploy(), 'a', 'i');
  }

  /** Searching for "ai" finds codantix-ai by its name; no other name or summary includes "ai" in any letter case. */
  lemma SearchAiScenario()
    ensures Filtered(Catalog(), Query("ai", [], [])) == [CodantixAi()]
  {
    SearchAiFindsName();
    SearchAiMissesUi();
    SearchAiMissesBackend();
    SearchAiMissesDeploy();
    FilteredFour(CodantixUi(), CodantixBackend(), CodantixAi(), CodantixDeploy(), Query("ai", [], []));
  }

  /** Nine results make two pages; page 2 holds the ninth, and page 5 is not clamped and is empty. */
  lemma NineResultsScenario<T>(items: seq<T>)
    requires |items| == 9
    ensures TotalPages(|items|) == 2
    ensures Paginate(items, 1) == items[..8]
    ensures Paginate(items, 2) == [items[8]]
    ensures Paginate(items, 5) == []
  {
  }
}

/** The catalog's records: one repository with its dependencies. */
module Repo {
  import opened Optional

  datatype Dependency = Dependency(name: string, version: string)

  datatype Repository = Repository(
    id: string,
    name: string,
    summary: string,
    teamOwner: string,
    primaryLanguage: string,
    primaryLanguageIcon: Option<string>,
    sourceUrl: string,
    dependencies: seq<Dependency>)
}

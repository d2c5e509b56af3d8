/**
 * The records the two registries serve, as the scripts read them: Modrinth
 * versions with their dependencies, Fabric loader builds and Minecraft game
 * versions, and the union of payloads that the API clients keep in their
 * caches.
 */
module Registry {
  import opened Common

  /** Modrinth `dependency_type`. */
  datatype DependencyKind = Required | Optional | Incompatible | Embedded

  /** An entry of a Modrinth version's `dependencies`; `project_id` can be null. */
  datatype Dependency = Dependency(projectId: Option<string>, kind: DependencyKind)

  /** Modrinth `version_type`. */
  datatype VersionType = Release | Beta | Alpha

  /** A Modrinth version record; a missing `changelog` is the empty string, a missing `dependencies` the empty list. */
  datatype Version = Version(
    id: string,
    versionNumber: string,
    datePublished: string,
    gameVersions: seq<string>,
    loaders: seq<string>,
    versionType: VersionType,
    dependencies: seq<Dependency>,
    changelog: string)

  /** The `loader` object of an entry of Fabric Meta's `/versions/loader/<mc>`. */
  datatype LoaderEntry = LoaderEntry(version: string, build: int, maven: string)

  /** An entry of Fabric Meta's `/versions/game`. */
  datatype GameVersion = GameVersion(version: string, stable: bool)

  /**
   * A response body as the clients cache it. `Falsy` stands for a body that
   * JavaScript treats as false (`null`, `false`, `0`, `""`); every object and
   * every array, even an empty one, is truthy.
   */
  datatype Data =
    | Falsy
    | ProjectInfo(projectId: string, title: string)
    | VersionList(versions: seq<Version>)
    | OneVersion(version: Version)
    | LoaderList(entries: seq<LoaderEntry>)
    | GameList(games: seq<GameVersion>)
  {
    predicate Truthy() { !Falsy? }
  }

  /** JavaScript `config.x || fallback` for a numeric setting. */
  function OrDefault(configured: Option<int>, fallback: int): int {
    if configured.Some? && configured.value != 0 then configured.value else fallback
  }
}

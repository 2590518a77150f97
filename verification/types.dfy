/**
 The data model of the launcher-metadata library records: libraries, their
 downloads, rules (as data only), partial libraries and library groups.
 Integer fields of width u32 are kept as a subset type of `nat`.
 */
module Types {
  import opened Wrappers

  /** Rust's `u32`. */
  type U32 = n: nat | n < 0x1_0000_0000

  /** The errors of this file: the crate's `Error::InvalidMinecraftJavaProfile`. */
  datatype Error = InvalidMinecraftJavaProfile(profile: string)

  /** The release type of a game version. */
  datatype VersionType = Release | Snapshot | OldAlpha | OldBeta

  /** The Java runtime profile a game version needs; `Unknown` keeps any other token. */
  datatype MinecraftJavaProfile =
    | JreLegacy
    | JavaRuntimeAlpha
    | JavaRuntimeBeta
    | JavaRuntimeGamma
    | JavaRuntimeGammaSnapshot
    | MinecraftJavaExe
    | JavaRuntimeDelta
    | Unknown(value: string)

  /** Operating systems a native classifier or an OS rule can name. */
  datatype Os = Osx | OsxArm64 | Windows | WindowsArm64 | Linux | LinuxArm64 | LinuxArm32 | UnknownOs

  datatype RuleAction = Allow | Disallow

  /** Conditions on the operating system; `version` is normally a regular expression. */
  datatype OsRule = OsRule(name: Option<Os>, version: Option<string>, arch: Option<string>)

  /** Conditions on the launcher's feature toggles. */
  datatype FeatureRule = FeatureRule(
    isDemoUser: Option<bool>,
    hasCustomResolution: Option<bool>,
    hasQuickPlaysSupport: Option<bool>,
    isQuickPlaySingleplayer: Option<bool>,
    isQuickPlayMultiplayer: Option<bool>,
    isQuickPlayRealms: Option<bool>)

  /** A conditional rule, carried through merging but never evaluated here. */
  datatype Rule = Rule(action: RuleAction, os: Option<OsRule>, features: Option<FeatureRule>)

  /** One downloadable file of a library. */
  datatype LibraryDownload = LibraryDownload(path: string, sha1: string, size: U32, url: Option<string>)

  /** The primary artifact and the classifier-keyed extra files of a library. */
  datatype LibraryDownloads = LibraryDownloads(
    artifact: Option<LibraryDownload>,
    classifiers: Option<map<string, LibraryDownload>>)

  datatype LibraryExtract = LibraryExtract(exclude: Option<seq<string>>)

  /**
   A Maven coordinate `group:artifact:version[:classifier][@extension]`, kept
   as its text: its parser lives in the crate root and is not part of this model.
   */
  datatype GradleSpecifier = GradleSpecifier(coordinate: string)

  /** A library the game needs. */
  datatype Library = Library(
    downloads: Option<LibraryDownloads>,
    extract: Option<LibraryExtract>,
    name: GradleSpecifier,
    url: Option<string>,
    natives: Option<map<Os, string>>,
    rules: Option<seq<Rule>>,
    checksums: Option<seq<string>>,
    includeInClasspath: bool,
    patched: bool,
    versionHashes: Option<map<string, string>>)

  /** A sparse patch over a `Library`: every field optional, no `patched`, no `versionHashes`. */
  datatype PartialLibrary = PartialLibrary(
    downloads: Option<LibraryDownloads>,
    extract: Option<LibraryExtract>,
    name: Option<GradleSpecifier>,
    url: Option<string>,
    natives: Option<map<Os, string>>,
    rules: Option<seq<Rule>>,
    checksums: Option<seq<string>>,
    includeInClasspath: Option<bool>)

  /** The partial library that overrides nothing. */
  const EmptyPartial := PartialLibrary(None, None, None, None, None, None, None, None)

  /** A point in time (UTC); only its default value matters to the model. */
  datatype DateTime = DateTime(unixSeconds: int, nanos: nat)

  /** `DateTime::default()`: the Unix epoch. */
  const DefaultDateTime := DateTime(0, 0)

  datatype DependencyRule = Equals(version: string) | Suggests(version: string)

  datatype Dependency = Dependency(name: string, uid: string, rule: Option<DependencyRule>)

  /** A named group of libraries, such as one release of LWJGL; `requirements` is the `requires` field. */
  datatype LibraryGroup = LibraryGroup(
    id: string,
    version: string,
    uid: string,
    releaseTime: DateTime,
    versionType: VersionType,
    libraries: seq<Library>,
    requirements: Option<seq<Dependency>>,
    conflicts: Option<seq<Dependency>>,
    hasSplitNatives: Option<bool>)

  /** A library group paired with the SHA-1 of its JSON form. */
  datatype LwjglEntry = LwjglEntry(sha1: string, group: LibraryGroup)
}

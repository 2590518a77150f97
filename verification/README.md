# daedalus library metadata core, in Dafny

A model of the pure logic in `daedalus/src/minecraft.rs`, the launcher-metadata
library of daedalus. It covers four parts:

- **Resolving a library's download URL** (`Library::resolve_url`). If the library has a
  per-game-version content hash for the requested version, the URL is built in the
  content-addressed layout `{base}/v{n}/objects/{h[..2]}/{h[2..]}`. A hash shorter
  than two characters gives no URL, and in that case there is no fallback. If there
  is no hash for the version, the static `url` field is used.
- **Overlaying a `PartialLibrary` patch onto a `Library`** (`merge_partial_library`). The
  policy is set per field:
  - `extract`, `name`, `url`, `checksums` and `include_in_classpath` are replaced when the
    patch has them;
  - `downloads.classifiers` and `natives` are unioned key by key, and the patch wins on
    shared keys;
  - `rules` are appended;
  - `downloads.artifact` is replaced inside the existing downloads;
  - if the base has no downloads, the patch's downloads are taken whole;
  - the result is always marked `patched`.
- **Enumeration ↔ string tables**: `VersionType::as_str`, and `MinecraftJavaProfile::as_str`
  with its `TryFrom<&str>` inverse.
- **Group fingerprinting** (`LWJGLEntry::from_group`). This is the SHA-1 of the group's JSON
  form, taken after the group's `release_time` is reset.

Modules:

| file | module | contents |
|---|---|---|
| wrappers.dfy | `Wrappers` | `Option`, `Result` |
| types.dfy | `Types` | the data model: `Library`, `LibraryDownloads`, `LibraryDownload`, `LibraryExtract`, `Rule`/`OsRule`/`FeatureRule`, `Os`, `PartialLibrary`, `LibraryGroup`, `LwjglEntry`, the two enumerations, `Error` |
| conversions.dfy | `Conversions` | the string tables and their round trips |
| decimal.dfy | `Decimal` | decimal rendering of the CAS scheme version (Rust `{}` on `u32`) and its inverse |
| resolve.dfy | `Resolve` | `ResolveUrl`, the CAS URL layout and a parser that inverts it |
| merge.dfy | `Merge` | `MergePartialLibrary` (declarative), `MergeStepwise` (the source's sequence of field updates and loops, replayed on values), patch composition |
| fingerprint.dfy | `Fingerprint` | `FromGroup` with serialisation and digest as parameters |

Two definitions have no counterpart in the source:

- **`ParseCasUrl`** reads a CAS URL back into its scheme version and hash. It is proved to be
  a two-sided inverse of the URL layout, so different `(version, hash)` pairs can never
  share a URL.
- **`ComposePartials`** builds the single patch that equals applying two patches in
  sequence. `MergeCompose` proves that equivalence.

## Model

| member | source | states |
|---|---|---|
| Conversions.VersionTypeAsStr | daedalus/src/minecraft.rs:27-34 | every version type prints as one of `release`, `snapshot`, `old_alpha`, `old_beta` |
| Conversions.VersionTypeAsStrInjective | daedalus/src/minecraft.rs:27-34 | two version types print the same exactly when they are the same variant, so the four variants get four distinct strings |
| Conversions.JavaProfileAsStr | daedalus/src/minecraft.rs:94-109 | printing fails exactly for `Unknown(v)`, with `InvalidMinecraftJavaProfile(v)`; every other profile prints as one of the seven known tokens |
| Conversions.JavaProfileTryFrom | daedalus/src/minecraft.rs:115-128 | parsing succeeds exactly for the seven known tokens, never yields `Unknown`, and otherwise fails with `InvalidMinecraftJavaProfile` carrying the input |
| Conversions.JavaProfileRoundTrip | daedalus/src/minecraft.rs:94-128 | every non-`Unknown` profile prints, and parsing the printed token gives the profile back |
| Conversions.JavaProfileParseRoundTrip | daedalus/src/minecraft.rs:94-128 | every token that parses prints back to itself |
| Decimal.FromNat | daedalus/src/minecraft.rs:417-420 | the rendering of the scheme version is non-empty, all digits, without leading zeros, and is `"0"` exactly for zero |
| Decimal.ToNatFromNat | daedalus/src/minecraft.rs:417-420 | reading the rendered digits gives the number back |
| Decimal.FromNatToNat | daedalus/src/minecraft.rs:417-420 | every canonical digit string is the rendering of its value (the other direction of the bijection) |
| Resolve.ParseCasUrlOfCasUrl | daedalus/src/minecraft.rs:417-423 | the CAS URL built from a scheme version and a hash of length at least 2 parses back to exactly that version and hash |
| Resolve.CasUrlOfParseCasUrl | daedalus/src/minecraft.rs:417-423 | every URL the parser accepts is the CAS URL of what it reads, with a hash of length at least 2 |
| Resolve.CasUrlInjective | daedalus/src/minecraft.rs:417-423 | two CAS URLs under one base are equal only when their scheme versions and hashes are equal |
| Resolve.ResolveUrl | daedalus/src/minecraft.rs:409-429 | with no hash for the version the result is `url`; with a hash shorter than 2 it is `None` regardless of `url`; otherwise it is a URL that identifies exactly the scheme version and hash |
| Resolve.ResolveUrlBuildsCasUrl | daedalus/src/minecraft.rs:411-423 | with a hash `h` of length at least 2 the result is `base + "/v" + dec(n) + "/objects/" + h[..2] + "/" + h[2..]` |
| Resolve.ResolveUrlIgnoresUrlWhenHashed | daedalus/src/minecraft.rs:411-428 | once a hash entry exists for the version, changing `url` never changes the result: the hash takes precedence |
| Resolve.ResolveUrlFallsBack | daedalus/src/minecraft.rs:427-428 | with no `version_hashes`, or none for the version, the result is the `url` field |
| Resolve.ResolveUrlDocExample | daedalus/src/minecraft.rs:389-407 | the documented example: base `https://maven.modrinth.com`, version 0, hash `abc123def456` gives `https://maven.modrinth.com/v0/objects/ab/c123def456` |
| Resolve.ResolveUrlShortHashExample | daedalus/src/minecraft.rs:412-416 | a one-character hash gives `None` even when `url` is set |
| Merge.MergePartialLibrary | daedalus/src/minecraft.rs:491-551 | result is patched; `version_hashes` untouched; the five scalar fields come from the patch when present and from the base otherwise; natives are the key union with the patch winning; rules are base rules followed by patch rules; downloads are taken whole when the base has none, otherwise the artifact is replaced when the patch has one and classifiers are key-unioned |
| Merge.InsertAll | daedalus/src/minecraft.rs:504-506 | inserting every patch entry in any order yields the key union of base and patch, patch values on shared keys and base values on base-only keys |
| Merge.PushAll | daedalus/src/minecraft.rs:535-537 | pushing the patch rules one by one yields the base rules followed by the patch rules, in order |
| Merge.MergeDownloadsStepwise | daedalus/src/minecraft.rs:495-514 | the source's downloads branch, with its classifier loop, agrees with the declarative downloads overlay |
| Merge.MergeNativesStepwise | daedalus/src/minecraft.rs:524-532 | the source's natives branch, with its insertion loop, agrees with the declarative map overlay |
| Merge.MergeRulesStepwise | daedalus/src/minecraft.rs:533-541 | the source's rules branch, with its push loop, agrees with the declarative append |
| Merge.MergeStepwise | daedalus/src/minecraft.rs:491-551 | the source's field updates, replayed in order on values, compute exactly `MergePartialLibrary` |
| Merge.MergeEmptyPartial | daedalus/src/minecraft.rs:495-550 | an all-absent patch leaves every field as it was except that `patched` becomes true |
| Merge.MergeCompose | daedalus/src/minecraft.rs:491-551 | applying one patch and then another equals applying their composition once (later scalars win, maps union, rules concatenate) |
| Merge.MergeReapply | daedalus/src/minecraft.rs:491-551 | applying the same patch twice changes nothing beyond applying it once, except that its rules are appended a second time |
| Fingerprint.FromGroup | daedalus/src/minecraft.rs:732-746 | the entry stores the input group unchanged, release time included, and its hash equals the hash of any group that differs from it at most in release time |
| Fingerprint.FingerprintIgnoresReleaseTime | daedalus/src/minecraft.rs:735-744 | two groups that agree on every field other than `release_time` get the same fingerprint, whatever the serialiser and digest; as a corollary, groups with different fingerprints differ outside `release_time` |

## Left out

- `fetch_version_manifest`, `fetch_version_info` and `fetch_assets_index` (minecraft.rs:154-160, 750-756, 782-792) are left out. They are asynchronous network I/O through `download_file`, which is not part of this model.
- SHA-1 and `serde_json::to_vec` inside `from_group` are library code. They are passed to `Fingerprint.FromGroup` as function parameters, and nothing is assumed about them. Serialisation failure (the `expect` at line 741) is not modelled, because the serialiser parameter is total.
- Fingerprint.FingerprintIgnoresReleaseTime: the converse ("changing any library changes the fingerprint") is not claimed. It is false in general. SHA-1 can collide, and serde skips `patched` and `has_split_natives`, so those fields never reach the hash.
- Rule evaluation (allow/disallow folding over OS, architecture and features) is not modelled. This file has no evaluator. `Rule`, `OsRule` and `FeatureRule` are data that merging carries along.
- Serde wire behaviour is not modelled: field renames, defaults such as `include_in_classpath = true`, untagged variants, and skipped fields. In particular, `Os` has no catch-all attribute in the code, so nothing here claims that unknown OS tokens deserialise to `Unknown`.
- `GradleSpecifier` is kept as its coordinate text, because its parser lives in the crate root. `DateTime<Utc>` is reduced to a value with a designated default, the Unix epoch.
- The crate's `Error` enum is modelled only by its `InvalidMinecraftJavaProfile` variant, the only variant the modelled functions construct (minecraft.rs:106, 126).
- Plain data records with no behaviour are not modelled: `Version`, `VersionManifest`, `AssetIndex`, `AssetsIndex`, `VersionInfo`, `Argument`, `LoggingConfig`, `Download` and the like.
- Resolve.ResolveUrl: the hash length is counted in characters, while Rust's `len()` counts UTF-8 bytes, and slicing at byte 2 inside a multi-byte character panics. The model agrees with the source only for ASCII hashes, the only kind the metadata carries. UTF-8 is not modelled.
- Merge.InsertAll: the source iterates a `BTreeMap` in key order. The model iterates the keys in an arbitrary order and proves that the result does not depend on that order.

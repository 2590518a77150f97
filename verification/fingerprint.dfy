/**
 `LWJGLEntry::from_group`: pairs a library group with the SHA-1 of its JSON
 form, computed on a copy whose `release_time` is reset to the default so
 that the fingerprint does not depend on it. JSON serialisation and the
 SHA-1 digest are library code outside this model and are passed in as
 functions.
 */
module Fingerprint {
  import opened Types

  type Byte = b: int | 0 <= b < 256

  /** The group with its release time replaced by `DateTime::default()`. */
  function Normalized(group: LibraryGroup): LibraryGroup {
    group.(releaseTime := DefaultDateTime)
  }

  /** Field-by-field equality of two groups on everything except `releaseTime`. */
  predicate SameExceptReleaseTime(a: LibraryGroup, b: LibraryGroup) {
    && a.id == b.id
    && a.version == b.version
    && a.uid == b.uid
    && a.versionType == b.versionType
    && a.libraries == b.libraries
    && a.requirements == b.requirements
    && a.conflicts == b.conflicts
    && a.hasSplitNatives == b.hasSplitNatives
  }

  function FromGroup(group: LibraryGroup, toJson: LibraryGroup -> seq<Byte>, sha1Hex: seq<Byte> -> string)
    : (entry: LwjglEntry)
    ensures entry.group == group
    ensures forall other :: SameExceptReleaseTime(other, group) ==> entry.sha1 == sha1Hex(toJson(Normalized(other)))
  {
    LwjglEntry(sha1Hex(toJson(Normalized(group))), group)
  }

  /** Two groups that differ at most in their release time get the same fingerprint. */
  lemma FingerprintIgnoresReleaseTime(a: LibraryGroup, b: LibraryGroup,
                                      toJson: LibraryGroup -> seq<Byte>, sha1Hex: seq<Byte> -> string)
    requires SameExceptReleaseTime(a, b)
    ensures FromGroup(a, toJson, sha1Hex).sha1 == FromGroup(b, toJson, sha1Hex).sha1
  {
  }
}

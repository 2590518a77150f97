/**
 `merge_partial_library`: overlays a sparse `PartialLibrary` on a complete
 `Library`. Scalar fields are replaced when the patch has them, the
 classifier and native maps are unioned key by key with the patch winning,
 rules are appended, the download artifact is replaced inside the existing
 downloads, and the result is always marked as patched.
 */
module Merge {
  import opened Wrappers
  import opened Types

  /** `r` is `base` overlaid by `patch`: every key of either, the patch's value where it has one. */
  ghost predicate IsOverlay<K, V>(base: map<K, V>, patch: map<K, V>, r: map<K, V>) {
    && r.Keys == base.Keys + patch.Keys
    && (forall k :: k in patch ==> r[k] == patch[k])
    && (forall k :: k in base && k !in patch ==> r[k] == base[k])
  }

  /** The same overlay on optional maps: an absent patch keeps the base, an absent base takes the patch. */
  ghost predicate IsOptionalOverlay<K, V>(base: Option<map<K, V>>, patch: Option<map<K, V>>, r: Option<map<K, V>>) {
    && (patch.None? ==> r == base)
    && (patch.Some? && base.None? ==> r == patch)
    && (patch.Some? && base.Some? ==> r.Some? && IsOverlay(base.value, patch.value, r.value))
  }

  /** The patch value when present, else the base value (both optional). */
  function Latest<T>(base: Option<T>, patch: Option<T>): Option<T> {
    if patch.Some? then patch else base
  }

  /** The patch value when present, else the (required) base value. */
  function LatestOr<T>(base: T, patch: Option<T>): T {
    if patch.Some? then patch.value else base
  }

  function OverlayOptional<K, V>(base: Option<map<K, V>>, patch: Option<map<K, V>>): Option<map<K, V>> {
    match patch
    case None => base
    case Some(p) => if base.Some? then Some(base.value + p) else patch
  }

  function AppendOptional<T>(base: Option<seq<T>>, patch: Option<seq<T>>): Option<seq<T>> {
    match patch
    case None => base
    case Some(p) => if base.Some? then Some(base.value + p) else patch
  }

  /** Overlay of one `downloads` block on an existing one. */
  function MergeDownloads(base: LibraryDownloads, patch: LibraryDownloads): LibraryDownloads {
    LibraryDownloads(Latest(base.artifact, patch.artifact), OverlayOptional(base.classifiers, patch.classifiers))
  }

  /** A patch's `downloads` is taken wholesale when the base has none. */
  function MergeOptionalDownloads(base: Option<LibraryDownloads>, patch: Option<LibraryDownloads>): Option<LibraryDownloads> {
    match patch
    case None => base
    case Some(p) => if base.Some? then Some(MergeDownloads(base.value, p)) else patch
  }

  function MergePartialLibrary(partial: PartialLibrary, base: Library): (r: Library)
    ensures r.patched
    ensures r.versionHashes == base.versionHashes
    // replace-if-present fields
    ensures partial.extract.Some? ==> r.extract == partial.extract
    ensures partial.extract.None? ==> r.extract == base.extract
    ensures partial.name.Some? ==> r.name == partial.name.value
    ensures partial.name.None? ==> r.name == base.name
    ensures partial.url.Some? ==> r.url == partial.url
    ensures partial.url.None? ==> r.url == base.url
    ensures partial.checksums.Some? ==> r.checksums == partial.checksums
    ensures partial.checksums.None? ==> r.checksums == base.checksums
    ensures partial.includeInClasspath.Some? ==> r.includeInClasspath == partial.includeInClasspath.value
    ensures partial.includeInClasspath.None? ==> r.includeInClasspath == base.includeInClasspath
    // key-wise union
    ensures IsOptionalOverlay(base.natives, partial.natives, r.natives)
    // append, keeping order
    ensures partial.rules.None? ==> r.rules == base.rules
    ensures partial.rules.Some? && base.rules.None? ==> r.rules == partial.rules
    ensures partial.rules.Some? && base.rules.Some? ==>
      r.rules.Some? && |r.rules.value| == |base.rules.value| + |partial.rules.value|
      && r.rules.value[..|base.rules.value|] == base.rules.value
      && r.rules.value[|base.rules.value|..] == partial.rules.value
    // downloads: wholesale when the base has none, nested merge otherwise
    ensures partial.downloads.None? ==> r.downloads == base.downloads
    ensures partial.downloads.Some? && base.downloads.None? ==> r.downloads == partial.downloads
    ensures partial.downloads.Some? && base.downloads.Some? ==>
      && r.downloads.Some?
      && r.downloads.value.artifact
         == (if partial.downloads.value.artifact.Some? then partial.downloads.value.artifact
             else base.downloads.value.artifact)
      && IsOptionalOverlay(base.downloads.value.classifiers, partial.downloads.value.classifiers,
                           r.downloads.value.classifiers)
  {
    Library(
      MergeOptionalDownloads(base.downloads, partial.downloads),
      Latest(base.extract, partial.extract),
      LatestOr(base.name, partial.name),
      Latest(base.url, partial.url),
      OverlayOptional(base.natives, partial.natives),
      AppendOptional(base.rules, partial.rules),
      Latest(base.checksums, partial.checksums),
      LatestOr(base.includeInClasspath, partial.includeInClasspath),
      true,
      base.versionHashes)
  }

  /** The `for (k, v) in patch { base.insert(k, v) }` loop; iteration order does not matter. */
  method InsertAll<K, V>(base: map<K, V>, patch: map<K, V>) returns (r: map<K, V>)
    ensures IsOverlay(base, patch, r)
    ensures r == base + patch
  {
    r := base;
    var pending := patch.Keys;
    while pending != {}
      invariant pending <= patch.Keys
      invariant r.Keys == base.Keys + (patch.Keys - pending)
      invariant forall k :: k in patch && k !in pending ==> r[k] == patch[k]
      invariant forall k :: k in base && (k !in patch || k in pending) ==> r[k] == base[k]
      decreases pending
    {
      var k :| k in pending;
      r := r[k := patch[k]];
      pending := pending - {k};
    }
  }

  /** The `for x in extra { base.push(x) }` loop. */
  method PushAll<T>(base: seq<T>, extra: seq<T>) returns (r: seq<T>)
    ensures |r| == |base| + |extra|
    ensures r[..|base|] == base && r[|base|..] == extra
  {
    r := base;
    var i := 0;
    while i < |extra|
      invariant 0 <= i <= |extra|
      invariant r == base + extra[..i]
    {
      r := r + [extra[i]];
      i := i + 1;
    }
    assert extra[..i] == extra;
  }

  /** Lines merging `downloads`, with the classifier loop. */
  method MergeDownloadsStepwise(patch: Option<LibraryDownloads>, current: Option<LibraryDownloads>)
    returns (result: Option<LibraryDownloads>)
    ensures result == MergeOptionalDownloads(current, patch)
  {
    result := current;
    if patch.Some? {
      var downloads := patch.value;
      if result.Some? {
        var mergeDownloads := result.value;
        if downloads.artifact.Some? {
          mergeDownloads := mergeDownloads.(artifact := downloads.artifact);
        }
        if downloads.classifiers.Some? {
          if mergeDownloads.classifiers.Some? {
            var merged := InsertAll(mergeDownloads.classifiers.value, downloads.classifiers.value);
            mergeDownloads := mergeDownloads.(classifiers := Some(merged));
          } else {
            mergeDownloads := mergeDownloads.(classifiers := downloads.classifiers);
          }
        }
        result := Some(mergeDownloads);
      } else {
        result := patch;
      }
    }
  }

  /** Lines merging `natives`, with the insertion loop. */
  method MergeNativesStepwise(patch: Option<map<Os, string>>, current: Option<map<Os, string>>)
    returns (result: Option<map<Os, string>>)
    ensures result == OverlayOptional(current, patch)
  {
    result := current;
    if patch.Some? {
      if result.Some? {
        var merged := InsertAll(result.value, patch.value);
        result := Some(merged);
      } else {
        result := patch;
      }
    }
  }

  /** Lines merging `rules`, with the push loop. */
  method MergeRulesStepwise(patch: Option<seq<Rule>>, current: Option<seq<Rule>>)
    returns (result: Option<seq<Rule>>)
    ensures result == AppendOptional(current, patch)
  {
    result := current;
    if patch.Some? {
      if result.Some? {
        var merged := PushAll(result.value, patch.value);
        assert merged == result.value + patch.value;
        result := Some(merged);
      } else {
        result := patch;
      }
    }
  }

  /**
   The source's sequence of field updates, replayed on values (each step returns
   an updated copy); it agrees with `MergePartialLibrary`.
   */
  method MergeStepwise(partial: PartialLibrary, library: Library) returns (merge: Library)
    ensures merge == MergePartialLibrary(partial, library)
  {
    merge := library;
    var downloads := MergeDownloadsStepwise(partial.downloads, merge.downloads);
    merge := merge.(downloads := downloads);
    if partial.extract.Some? {
      merge := merge.(extract := partial.extract);
    }
    if partial.name.Some? {
      merge := merge.(name := partial.name.value);
    }
    if partial.url.Some? {
      merge := merge.(url := partial.url);
    }
    var natives := MergeNativesStepwise(partial.natives, merge.natives);
    merge := merge.(natives := natives);
    var rules := MergeRulesStepwise(partial.rules, merge.rules);
    merge := merge.(rules := rules);
    if partial.checksums.Some? {
      merge := merge.(checksums := partial.checksums);
    }
    if partial.includeInClasspath.Some? {
      merge := merge.(includeInClasspath := partial.includeInClasspath.value);
    }
    merge := merge.(patched := true);
  }

  /** An empty patch changes nothing but the `patched` flag. */
  lemma MergeEmptyPartial(base: Library)
    ensures MergePartialLibrary(EmptyPartial, base) == base.(patched := true)
  {
  }

  /** The single patch equivalent to applying `first` and then `second`. */
  function ComposePartials(first: PartialLibrary, second: PartialLibrary): PartialLibrary {
    PartialLibrary(
      MergeOptionalDownloads(first.downloads, second.downloads),
      Latest(first.extract, second.extract),
      Latest(first.name, second.name),
      Latest(first.url, second.url),
      OverlayOptional(first.natives, second.natives),
      AppendOptional(first.rules, second.rules),
      Latest(first.checksums, second.checksums),
      Latest(first.includeInClasspath, second.includeInClasspath))
  }

  lemma MapUnionAssociative<K, V>(a: map<K, V>, b: map<K, V>, c: map<K, V>)
    ensures (a + b) + c == a + (b + c)
  {
  }

  lemma OverlayOptionalAssociative<K, V>(a: Option<map<K, V>>, b: Option<map<K, V>>, c: Option<map<K, V>>)
    ensures OverlayOptional(OverlayOptional(a, b), c) == OverlayOptional(a, OverlayOptional(b, c))
  {
    if a.Some? && b.Some? && c.Some? {
      MapUnionAssociative(a.value, b.value, c.value);
    }
  }

  lemma MergeOptionalDownloadsAssociative(a: Option<LibraryDownloads>, b: Option<LibraryDownloads>, c: Option<LibraryDownloads>)
    ensures MergeOptionalDownloads(MergeOptionalDownloads(a, b), c) == MergeOptionalDownloads(a, MergeOptionalDownloads(b, c))
  {
    if a.Some? && b.Some? && c.Some? {
      OverlayOptionalAssociative(a.value.classifiers, b.value.classifiers, c.value.classifiers);
    }
  }

  /** Applying two patches in turn is the same as applying their composition once. */
  lemma MergeCompose(first: PartialLibrary, second: PartialLibrary, base: Library)
    ensures MergePartialLibrary(second, MergePartialLibrary(first, base))
            == MergePartialLibrary(ComposePartials(first, second), base)
  {
    MergeOptionalDownloadsAssociative(base.downloads, first.downloads, second.downloads);
    OverlayOptionalAssociative(base.natives, first.natives, second.natives);
    if base.rules.Some? && first.rules.Some? && second.rules.Some? {
      assert (base.rules.value + first.rules.value) + second.rules.value
          == base.rules.value + (first.rules.value + second.rules.value);
    }
  }

  /** Re-applying a patch changes nothing except that its rules are appended a second time. */
  lemma MergeReapply(partial: PartialLibrary, base: Library)
    ensures var once := MergePartialLibrary(partial, base);
      var twice := MergePartialLibrary(partial, once);
      && twice.(rules := once.rules) == once
      && (partial.rules.Some? ==> twice.rules == Some(once.rules.value + partial.rules.value))
  {
    var once := MergePartialLibrary(partial, base);
    if once.natives.Some? && partial.natives.Some? {
      assert once.natives.value + partial.natives.value == once.natives.value;
    }
    if once.downloads.Some? && partial.downloads.Some? {
      var c := once.downloads.value.classifiers;
      if c.Some? && partial.downloads.value.classifiers.Some? {
        assert c.value + partial.downloads.value.classifiers.value == c.value;
      }
    }
  }
}

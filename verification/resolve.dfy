/**
 `Library::resolve_url`: the download location of a library for one game
 version, taken from the content-addressed store when the library carries a
 hash for that version and from its static `url` otherwise.
 */
module Resolve {
  import opened Wrappers
  import opened Types
  import Decimal

  /** Number of leading hash characters that name the shard directory. */
  const ShardLength := 2

  /** The path segment between the scheme version and the shard directory. */
  const ObjectsSegment := "/objects/"

  /** `/objects/{hash[..2]}/{hash[2..]}`: the shard directory and the file name inside it. */
  function ShardedPath(hash: string): string
    requires |hash| >= ShardLength
  {
    ObjectsSegment + hash[..ShardLength] + "/" + hash[ShardLength..]
  }

  /** `{base}/v{version}/objects/{hash[..2]}/{hash[2..]}`. */
  function CasUrl(baseUrl: string, casVersion: nat, hash: string): string
    requires |hash| >= ShardLength
  {
    baseUrl + "/v" + Decimal.FromNat(casVersion) + ShardedPath(hash)
  }

  /** Reads the hash back from a sharded path; `None` when the text is not of that shape. */
  function ParseShardedPath(path: string): Option<string>
  {
    var shardEnd := |ObjectsSegment| + ShardLength;
    if |path| <= shardEnd || path[..|ObjectsSegment|] != ObjectsSegment || path[shardEnd] != '/' then None
    else Some(path[|ObjectsSegment|..shardEnd] + path[shardEnd + 1..])
  }

  lemma ParseShardedPathOfShardedPath(hash: string)
    requires |hash| >= ShardLength
    ensures ParseShardedPath(ShardedPath(hash)) == Some(hash)
  {
    var path := ShardedPath(hash);
    var shardEnd := |ObjectsSegment| + ShardLength;
    assert path[..|ObjectsSegment|] == ObjectsSegment;
    assert path[|ObjectsSegment|..shardEnd] == hash[..ShardLength];
    assert path[shardEnd + 1..] == hash[ShardLength..];
    assert hash[..ShardLength] + hash[ShardLength..] == hash;
  }

  lemma ShardedPathOfParseShardedPath(path: string)
    requires ParseShardedPath(path).Some?
    ensures |ParseShardedPath(path).value| >= ShardLength
    ensures ShardedPath(ParseShardedPath(path).value) == path
  {
    var shardEnd := |ObjectsSegment| + ShardLength;
    var shard := path[|ObjectsSegment|..shardEnd];
    var remainder := path[shardEnd + 1..];
    var hash := shard + remainder;
    assert hash[..ShardLength] == shard && hash[ShardLength..] == remainder;
    assert path == ObjectsSegment + shard + "/" + remainder;
  }

  /** The longest prefix of `s` made of decimal digits. */
  function DigitPrefix(s: string): (d: string)
    ensures |d| <= |s| && d == s[..|d|]
    ensures Decimal.AllDigits(d)
    ensures |d| < |s| ==> !Decimal.IsDigit(s[|d|])
  {
    if |s| > 0 && Decimal.IsDigit(s[0]) then [s[0]] + DigitPrefix(s[1..]) else []
  }

  lemma {:induction false} DigitPrefixOfDigitsThenOther(d: string, t: string)
    requires Decimal.AllDigits(d)
    requires |t| > 0 && !Decimal.IsDigit(t[0])
    ensures DigitPrefix(d + t) == d
    decreases |d|
  {
    if |d| == 0 {
      assert d + t == t;
    } else {
      assert (d + t)[1..] == d[1..] + t;
      DigitPrefixOfDigitsThenOther(d[1..], t);
    }
  }

  /**
   Reads back the scheme version and the hash from a URL under `baseUrl`
   in the content-addressed layout; `None` when the URL is not of that shape.
   */
  function ParseCasUrl(baseUrl: string, url: string): Option<(nat, string)>
  {
    var head := baseUrl + "/v";
    if |url| < |head| || url[..|head|] != head then None
    else
      var rest := url[|head|..];
      var digits := DigitPrefix(rest);
      if !Decimal.IsCanonical(digits) then None
      else
        match ParseShardedPath(rest[|digits|..])
        case None => None
        case Some(hash) => Some((Decimal.ToNat(digits), hash))
  }

  /** A content-addressed URL determines the scheme version and the hash it was built from. */
  lemma ParseCasUrlOfCasUrl(baseUrl: string, casVersion: nat, hash: string)
    requires |hash| >= ShardLength
    ensures ParseCasUrl(baseUrl, CasUrl(baseUrl, casVersion, hash)) == Some((casVersion, hash))
  {
    var head := baseUrl + "/v";
    var digits := Decimal.FromNat(casVersion);
    var path := ShardedPath(hash);
    var url := CasUrl(baseUrl, casVersion, hash);
    assert url == head + (digits + path);
    assert url[..|head|] == head;
    assert url[|head|..] == digits + path;
    assert path[0] == '/';
    DigitPrefixOfDigitsThenOther(digits, path);
    assert (digits + path)[|digits|..] == path;
    ParseShardedPathOfShardedPath(hash);
    Decimal.ToNatFromNat(casVersion);
  }

  /** Every URL the parser accepts is the content-addressed URL of what it reads. */
  lemma CasUrlOfParseCasUrl(baseUrl: string, url: string)
    requires ParseCasUrl(baseUrl, url).Some?
    ensures |ParseCasUrl(baseUrl, url).value.1| >= ShardLength
    ensures CasUrl(baseUrl, ParseCasUrl(baseUrl, url).value.0, ParseCasUrl(baseUrl, url).value.1) == url
  {
    var head := baseUrl + "/v";
    var rest := url[|head|..];
    var digits := DigitPrefix(rest);
    var path := rest[|digits|..];
    ShardedPathOfParseShardedPath(path);
    Decimal.FromNatToNat(digits);
    assert rest == digits + path;
    assert url == head + rest;
  }

  /** Distinct (scheme version, hash) pairs never share a URL. */
  lemma CasUrlInjective(baseUrl: string, v1: nat, h1: string, v2: nat, h2: string)
    requires |h1| >= ShardLength && |h2| >= ShardLength
    requires CasUrl(baseUrl, v1, h1) == CasUrl(baseUrl, v2, h2)
    ensures v1 == v2 && h1 == h2
  {
    ParseCasUrlOfCasUrl(baseUrl, v1, h1);
    ParseCasUrlOfCasUrl(baseUrl, v2, h2);
  }

  /** The hash the library records for `minecraftVersion`, if any. */
  function HashFor(lib: Library, minecraftVersion: string): Option<string>
  {
    if lib.versionHashes.Some? && minecraftVersion in lib.versionHashes.value
    then Some(lib.versionHashes.value[minecraftVersion])
    else None
  }

  function ResolveUrl(lib: Library, minecraftVersion: string, baseUrl: string, casVersion: U32): (r: Option<string>)
    ensures HashFor(lib, minecraftVersion).None? ==> r == lib.url
    ensures var h := HashFor(lib, minecraftVersion);
      h.Some? && |h.value| < ShardLength ==> r.None?
    ensures var h := HashFor(lib, minecraftVersion);
      h.Some? && |h.value| >= ShardLength ==> r.Some? && ParseCasUrl(baseUrl, r.value) == Some((casVersion as nat, h.value))
  {
    match HashFor(lib, minecraftVersion)
    case Some(hash) =>
      if |hash| < ShardLength then None
      else
        ParseCasUrlOfCasUrl(baseUrl, casVersion, hash);
        Some(CasUrl(baseUrl, casVersion, hash))
    case None => lib.url
  }

  /** With a usable hash the result is exactly the content-addressed URL. */
  lemma ResolveUrlBuildsCasUrl(lib: Library, minecraftVersion: string, baseUrl: string, casVersion: U32, hash: string)
    requires lib.versionHashes.Some? && minecraftVersion in lib.versionHashes.value
    requires lib.versionHashes.value[minecraftVersion] == hash && |hash| >= 2
    ensures ResolveUrl(lib, minecraftVersion, baseUrl, casVersion)
            == Some(baseUrl + "/v" + Decimal.FromNat(casVersion) + "/objects/" + hash[..2] + "/" + hash[2..])
  {
    var a := baseUrl + "/v" + Decimal.FromNat(casVersion);
    var b, c, d, e := "/objects/", hash[..2], "/", hash[2..];
    assert CasUrl(baseUrl, casVersion, hash) == a + (((b + c) + d) + e);
    assert a + (b + c) == (a + b) + c;
    assert a + ((b + c) + d) == ((a + b) + c) + d;
    assert a + (((b + c) + d) + e) == (((a + b) + c) + d) + e;
  }

  /** Once the library has a hash entry for the version, its `url` field no longer matters. */
  lemma ResolveUrlIgnoresUrlWhenHashed(lib: Library, minecraftVersion: string, baseUrl: string, casVersion: U32,
                                       otherUrl: Option<string>)
    requires HashFor(lib, minecraftVersion).Some?
    ensures ResolveUrl(lib.(url := otherUrl), minecraftVersion, baseUrl, casVersion)
            == ResolveUrl(lib, minecraftVersion, baseUrl, casVersion)
  {
  }

  /** A library with no hashes, or none for the version, resolves to its `url`. */
  lemma ResolveUrlFallsBack(lib: Library, minecraftVersion: string, baseUrl: string, casVersion: U32)
    requires lib.versionHashes.None? || minecraftVersion !in lib.versionHashes.value
    ensures ResolveUrl(lib, minecraftVersion, baseUrl, casVersion) == lib.url
  {
  }

  /** A library with the given url and hash table and every other field empty. */
  function SampleLibrary(url: Option<string>, hashes: Option<map<string, string>>): Library
  {
    Library(None, None, GradleSpecifier("net.fabricmc:intermediary:1.16.5"), url, None, None, None, true, false, hashes)
  }

  /** The documented example of the content-addressed layout. */
  lemma ResolveUrlDocExample()
    ensures ResolveUrl(SampleLibrary(None, Some(map["1.16.5" := "abc123def456"])),
                       "1.16.5", "https://maven.modrinth.com", 0)
            == Some("https://maven.modrinth.com/v0/objects/ab/c123def456")
  {
    var hash := "abc123def456";
    assert hash[..2] == "ab";
    assert hash[2..] == "c123def456";
    assert Decimal.FromNat(0) == "0";
    var lib := SampleLibrary(None, Some(map["1.16.5" := hash]));
    assert HashFor(lib, "1.16.5") == Some(hash);
    assert CasUrl("https://maven.modrinth.com", 0, hash)
        == "https://maven.modrinth.com" + "/v" + "0" + "/objects/" + "ab" + "/" + "c123def456";
    assert "https://maven.modrinth.com" + "/v" + "0" + "/objects/" + "ab" + "/" + "c123def456"
        == "https://maven.modrinth.com/v0/objects/ab/c123def456";
  }

  /** A one-character hash yields no URL even though the library has a static one. */
  lemma ResolveUrlShortHashExample()
    ensures ResolveUrl(SampleLibrary(Some("http://x"), Some(map["1.20" := "a"])), "1.20", "https://maven.modrinth.com", 0)
            == None
  {
  }
}

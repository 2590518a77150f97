/**
 The string forms of the version-type and Java-profile enumerations: the
 total `VersionType::as_str`, the partial `MinecraftJavaProfile::as_str`
 (fails on `Unknown`) and its inverse `TryFrom<&str>`.
 */
module Conversions {
  import opened Wrappers
  import opened Types

  /** The tokens `VersionType::as_str` can produce. */
  const VersionTypeTokens: set<string> := {"release", "snapshot", "old_alpha", "old_beta"}

  /** The seven tokens naming a known Java profile. */
  const JavaProfileTokens: set<string> := {
    "jre-legacy", "java-runtime-alpha", "java-runtime-beta", "java-runtime-gamma",
    "java-runtime-gamma-snapshot", "java-runtime-delta", "minecraft-java-exe"
  }

  function VersionTypeAsStr(t: VersionType): (s: string)
    ensures s in VersionTypeTokens
  {
    match t
    case Release => "release"
    case Snapshot => "snapshot"
    case OldAlpha => "old_alpha"
    case OldBeta => "old_beta"
  }

  /** Distinct version types have distinct names, so the four names cover the four variants. */
  lemma VersionTypeAsStrInjective(a: VersionType, b: VersionType)
    ensures VersionTypeAsStr(a) == VersionTypeAsStr(b) <==> a == b
  {
  }

  function JavaProfileAsStr(p: MinecraftJavaProfile): (r: Result<string, Error>)
    ensures r.Err? <==> p.Unknown?
    ensures p.Unknown? ==> r.error == InvalidMinecraftJavaProfile(p.value)
    ensures r.Ok? ==> r.value in JavaProfileTokens
  {
    match p
    case JreLegacy => Ok("jre-legacy")
    case JavaRuntimeAlpha => Ok("java-runtime-alpha")
    case JavaRuntimeBeta => Ok("java-runtime-beta")
    case JavaRuntimeGamma => Ok("java-runtime-gamma")
    case JavaRuntimeGammaSnapshot => Ok("java-runtime-gamma-snapshot")
    case JavaRuntimeDelta => Ok("java-runtime-delta")
    case MinecraftJavaExe => Ok("minecraft-java-exe")
    case Unknown(value) => Err(InvalidMinecraftJavaProfile(value))
  }

  function JavaProfileTryFrom(s: string): (r: Result<MinecraftJavaProfile, Error>)
    ensures r.Ok? <==> s in JavaProfileTokens
    ensures r.Ok? ==> !r.value.Unknown?
    ensures r.Err? ==> r.error == InvalidMinecraftJavaProfile(s)
  {
    if s == "jre-legacy" then Ok(JreLegacy)
    else if s == "java-runtime-alpha" then Ok(JavaRuntimeAlpha)
    else if s == "java-runtime-beta" then Ok(JavaRuntimeBeta)
    else if s == "java-runtime-gamma" then Ok(JavaRuntimeGamma)
    else if s == "java-runtime-gamma-snapshot" then Ok(JavaRuntimeGammaSnapshot)
    else if s == "java-runtime-delta" then Ok(JavaRuntimeDelta)
    else if s == "minecraft-java-exe" then Ok(MinecraftJavaExe)
    else Err(InvalidMinecraftJavaProfile(s))
  }

  /** Every known profile survives printing and parsing back. */
  lemma JavaProfileRoundTrip(p: MinecraftJavaProfile)
    requires !p.Unknown?
    ensures JavaProfileAsStr(p).Ok?
    ensures JavaProfileTryFrom(JavaProfileAsStr(p).value) == Ok(p)
  {
  }

  /** Every accepted token survives parsing and printing back. */
  lemma JavaProfileParseRoundTrip(s: string)
    requires JavaProfileTryFrom(s).Ok?
    ensures JavaProfileAsStr(JavaProfileTryFrom(s).value) == Ok(s)
  {
  }
}

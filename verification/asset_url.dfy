/** `getAssetUrl`: where the front end loads static assets from. */
module AssetUrl {
  import opened Wrappers
  import opened Numerals

  /** `AssetPackage.GOBO`, the only package there is. */
  const GoboPackage := 1

  const GoboImagesBase := "https://static.gobospinner.dankeenan.org/gobo_images/"

  /** Thrown for a package that does not exist. */
  datatype AssetError = AssetError(message: string)

  /**
   * The URL of `path` inside package `pkg`; the enum is a number at run time,
   * so any other number reaches the error branch.
   */
  function GetAssetUrl(path: string, pkg: int): (r: Result<string, AssetError>)
    ensures r.Success? <==> pkg == GoboPackage
    ensures r.Success? ==> |r.value| == |GoboImagesBase| + |path|
    ensures r.Success? ==> r.value[..|GoboImagesBase|] == GoboImagesBase
    ensures r.Success? ==> r.value[|GoboImagesBase|..] == path
    ensures r.Failure? ==> |r.error.message| > 9 && r.error.message[..9] == "Package \""
  {
    if pkg == GoboPackage then
      Success(GoboImagesBase + path)
    else
      Failure(AssetError("Package \"" + IntToString(pkg) + "\" does not exist."))
  }

  /** Distinct paths give distinct gobo URLs. */
  lemma GetAssetUrlInjective(p: string, q: string)
    ensures GetAssetUrl(p, GoboPackage) == GetAssetUrl(q, GoboPackage) ==> p == q
  {
  }
}

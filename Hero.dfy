/**
 * The logic inside the Hero section (sections/Hero.tsx): the platform string shown
 * on the page, the glibc probe it uses on Linux, the `target` of each call-to-action
 * link and the layout class chosen from the image and the placement.
 *
 * The host's `process.platform`, `process.arch` and the value returned by
 * `process.report?.getReport()` are inputs.
 */
module Hero {
  import opened Wrappers
  import JsString

  // ---- JavaScript values, as far as `isGlibc` inspects them ----

  /** A JavaScript value; objects are their own enumerable properties. */
  datatype JsValue =
    | Undefined
    | Null
    | Boolean(b: bool)
    | Number(n: real)
    | Str(s: string)
    | Function
    | Object(props: map<string, JsValue>)

  /** The `typeof` operator. */
  function TypeOf(v: JsValue): string
  {
    match v
    case Undefined => "undefined"
    case Null => "object"
    case Boolean(_) => "boolean"
    case Number(_) => "number"
    case Str(_) => "string"
    case Function => "function"
    case Object(_) => "object"
  }

  /** JavaScript truthiness (`!!v`). */
  predicate Truthy(v: JsValue)
  {
    match v
    case Undefined => false
    case Null => false
    case Boolean(b) => b
    case Number(n) => n != 0.0
    case Str(s) => s != ""
    case Function => true
    case Object(_) => true
  }

  /** The `in` operator on an object. */
  predicate HasProperty(v: JsValue, key: string)
    requires v.Object?
  {
    key in v.props
  }

  /** Property access `v[key]` on an object; a missing property reads as undefined. */
  function Property(v: JsValue, key: string): JsValue
    requires v.Object?
  {
    if key in v.props then v.props[key] else Undefined
  }

  /** `isGlibc()`, given the process report: true exactly when the report is an object
      whose `header` is an object carrying `glibcVersionRuntime`. */
  function IsGlibc(report: JsValue): (r: bool)
    ensures r <==>
      && report.Object? && "header" in report.props
      && report.props["header"].Object?
      && "glibcVersionRuntime" in report.props["header"].props
  {
    if TypeOf(report) != "object" || !Truthy(report) || !HasProperty(report, "header") then
      false
    else
      var header := Property(report, "header");
      TypeOf(header) == "object" && Truthy(header) && HasProperty(header, "glibcVersionRuntime")
  }

  // ---- currentPlatform ----

  /** The message for a combination with no prebuilt target; `os` is the name the
      platform branch chose, or "null" when no branch matched. */
  function Unsupported(os: string, platform: string, arch: string): string
  {
    "unsupported: os=" + os + " process.platform=" + platform + " process.arch=" + arch
  }

  /** `currentPlatform()`: the target triple for the host, or the unsupported message. */
  function CurrentPlatform(platform: string, arch: string, report: JsValue): (r: string)
    ensures (platform, arch) !in SupportedPairs ==> r == Unsupported(OsName(platform), platform, arch)
  {
    if platform == "android" then
      if arch == "arm" then "android-arm-eabi"
      else if arch == "arm64" then "android-arm64"
      else Unsupported("Android", platform, arch)
    else if platform == "win32" then
      if arch == "x64" then "win32-x64-msvc"
      else if arch == "arm64" then "win32-arm64-msvc"
      else if arch == "ia32" then "win32-ia32-msvc"
      else Unsupported("Windows", platform, arch)
    else if platform == "darwin" then
      if arch == "x64" then "darwin-x64"
      else if arch == "arm64" then "darwin-arm64"
      else Unsupported("macOS", platform, arch)
    else if platform == "linux" then
      if arch == "x64" || arch == "arm64" then
        if IsGlibc(report) then "linux-" + arch + "-gnu" else "linux-" + arch + "-musl"
      else if arch == "arm" then "linux-arm-gnueabihf"
      else Unsupported("Linux", platform, arch)
    else if platform == "freebsd" then
      if arch == "x64" then "freebsd-x64"
      else Unsupported("FreeBSD", platform, arch)
    else
      Unsupported("null", platform, arch)
  }

  /** The (platform, arch) combinations that have a prebuilt target. */
  const SupportedPairs: set<(string, string)> := {
    ("android", "arm"), ("android", "arm64"),
    ("win32", "x64"), ("win32", "arm64"), ("win32", "ia32"),
    ("darwin", "x64"), ("darwin", "arm64"),
    ("linux", "x64"), ("linux", "arm64"), ("linux", "arm"),
    ("freebsd", "x64")
  }

  /** Every target string `currentPlatform` can return for a supported combination. */
  const Targets: set<string> := {
    "android-arm-eabi", "android-arm64",
    "win32-x64-msvc", "win32-arm64-msvc", "win32-ia32-msvc",
    "darwin-x64", "darwin-arm64",
    "linux-x64-gnu", "linux-x64-musl", "linux-arm64-gnu", "linux-arm64-musl",
    "linux-arm-gnueabihf",
    "freebsd-x64"
  }

  /** The OS name the unsupported message carries for each platform. */
  function OsName(platform: string): string
  {
    if platform == "android" then "Android"
    else if platform == "win32" then "Windows"
    else if platform == "darwin" then "macOS"
    else if platform == "linux" then "Linux"
    else if platform == "freebsd" then "FreeBSD"
    else "null"
  }

  /** The result is a target exactly when the combination is supported; otherwise it
      is the unsupported message, which is never mistaken for a target. */
  lemma TargetIffSupported(platform: string, arch: string, report: JsValue)
    ensures CurrentPlatform(platform, arch, report) in Targets <==> (platform, arch) in SupportedPairs
  {
    if (platform, arch) in SupportedPairs {
      if platform == "linux" && arch == "x64" {
        assert "linux-" + arch + "-gnu" == "linux-x64-gnu";
        assert "linux-" + arch + "-musl" == "linux-x64-musl";
      } else if platform == "linux" && arch == "arm64" {
        assert "linux-" + arch + "-gnu" == "linux-arm64-gnu";
        assert "linux-" + arch + "-musl" == "linux-arm64-musl";
      }
    } else {
      var message := Unsupported(OsName(platform), platform, arch);
      assert message[0] == 'u';
    }
  }

  /** The fixed mappings for Android, Windows, macOS, 32-bit ARM Linux and FreeBSD,
      whatever the report says. */
  lemma FixedTargets(report: JsValue)
    ensures CurrentPlatform("android", "arm", report) == "android-arm-eabi"
    ensures CurrentPlatform("android", "arm64", report) == "android-arm64"
    ensures CurrentPlatform("win32", "x64", report) == "win32-x64-msvc"
    ensures CurrentPlatform("win32", "arm64", report) == "win32-arm64-msvc"
    ensures CurrentPlatform("win32", "ia32", report) == "win32-ia32-msvc"
    ensures CurrentPlatform("darwin", "x64", report) == "darwin-x64"
    ensures CurrentPlatform("darwin", "arm64", report) == "darwin-arm64"
    ensures CurrentPlatform("linux", "arm", report) == "linux-arm-gnueabihf"
    ensures CurrentPlatform("freebsd", "x64", report) == "freebsd-x64"
  {
  }

  /** On 64-bit Linux the C library decides: gnu with glibc, musl without. */
  lemma LinuxLibcChoice(arch: string, report: JsValue)
    requires arch == "x64" || arch == "arm64"
    ensures IsGlibc(report) ==> CurrentPlatform("linux", arch, report) == "linux-" + arch + "-gnu"
    ensures !IsGlibc(report) ==> CurrentPlatform("linux", arch, report) == "linux-" + arch + "-musl"
  {
  }

  /** The report matters only on 64-bit Linux: there a glibc report and a non-glibc
      report give different targets, and everywhere else any two reports agree. */
  lemma ReportMattersOnlyOnLinux64(platform: string, arch: string, r1: JsValue, r2: JsValue)
    ensures (platform == "linux" && (arch == "x64" || arch == "arm64") && IsGlibc(r1) != IsGlibc(r2))
      <==> CurrentPlatform(platform, arch, r1) != CurrentPlatform(platform, arch, r2)
  {
    if platform == "linux" && (arch == "x64" || arch == "arm64") && IsGlibc(r1) != IsGlibc(r2) {
      var gnu, musl := "linux-" + arch + "-gnu", "linux-" + arch + "-musl";
      assert gnu[|gnu| - 1] == 'u' && musl[|musl| - 1] == 'l';
    }
  }

  // ---- Call-to-action links ----

  /** A call-to-action link's `target`: a new tab exactly when "http" occurs anywhere
      in its href. */
  function LinkTarget(href: string): (r: string)
    ensures r == "_blank" || r == "_self"
    ensures r == "_blank" <==> exists i: nat :: JsString.OccursAt(href, "http", i)
  {
    if JsString.Includes(href, "http") then "_blank" else "_self"
  }

  // ---- Layout ----

  datatype Placement = Left | Right

  /** The `PLACEMENT` table: on small screens both stack the column with left-aligned
      text; on large screens `Left` reverses the row so the image comes after the text. */
  function PlacementClasses(placement: Placement): (r: string)
    ensures |r| >= 18 && r[..18] == "flex-col text-left"
    ensures placement == Left <==> |r| >= 8 && r[|r| - 8..] == "-reverse"
  {
    match placement
    case Left => "flex-col text-left lg:flex-row-reverse"
    case Right => "flex-col text-left lg:flex-row"
  }

  const CentredClasses := "flex-col items-center justify-center text-center"

  /** Whether the image is rendered: `image` is given and is not the empty string. */
  predicate ShowsImage(image: Option<string>)
  {
    image.Some? && image.value != ""
  }

  /** The fixed classes of the main row around the part that varies. */
  function RowClass(variant: string): string
  {
    "flex w-full xl:container xl:mx-auto py-20 mx-5 md:mx-10 z-10 " + variant
      + " lg:pt-36 lg:pb-20 gap-12 md:gap-20 items-center"
  }

  /** The class of the section's main row: the `PLACEMENT` entry for the placement
      (`Left` when none is given) when an image is shown, the centred classes otherwise. */
  function LayoutClass(image: Option<string>, placement: Option<Placement>): (r: string)
    ensures ShowsImage(image) && placement.None? ==> r == RowClass(PlacementClasses(Left))
    ensures ShowsImage(image) && placement.Some? ==> r == RowClass(PlacementClasses(placement.value))
    ensures !ShowsImage(image) ==> r == RowClass(CentredClasses)
  {
    var variant := if ShowsImage(image) then PlacementClasses(placement.GetOr(Left)) else CentredClasses;
    RowClass(variant)
  }

  /** Leaving the placement out is choosing `Left`. */
  lemma PlacementDefaultsToLeft(image: Option<string>)
    ensures LayoutClass(image, None) == LayoutClass(image, Some(Left))
  {
  }

  /** Without an image the layout is centred whatever the placement; with one, the two
      placements give different layouts, and both differ from the centred one. */
  lemma PlacementMattersOnlyWithImage(image: Option<string>, p1: Option<Placement>, p2: Option<Placement>)
    ensures !ShowsImage(image) ==> LayoutClass(image, p1) == LayoutClass(None, p2)
    ensures ShowsImage(image) ==>
      (LayoutClass(image, p1) == LayoutClass(image, p2) <==> p1.GetOr(Left) == p2.GetOr(Left))
    ensures ShowsImage(image) ==> LayoutClass(image, p1) != LayoutClass(None, p2)
  {
  }
}

/** The parsed `conanbuildinfo.json`: settings, dependencies and their name
    hints, with the defaults the C# constructors give to fields the JSON
    leaves out, and the derived settings lookups. */
module Manifest {
  import opened Common

  /** Per-generator file names of a dependency (`names`, `filenames`). */
  datatype CMakeFilenames = CMakeFilenames(
    findPackageName: string,       // "cmake_find_package"
    findPackageMultiName: string,  // "cmake_find_package_multi"
    pkgConfig: string)             // "pkg_config"

  /** The `settings` object of the manifest. */
  datatype ConanSettings = ConanSettings(
    arch: string,
    archBuild: string,
    buildType: string,
    compiler: string,
    compilerRuntime: string,
    compilerVersion: string,
    os: string,
    osBuild: string)

  /** One entry of `dependencies`. `build_modules` and `build_modules_paths`
      are opaque objects that nothing reads and are not represented. */
  datatype ConanDependency = ConanDependency(
    name: string,
    version: string,
    description: string,
    rootPath: string,
    sysRoot: string,
    includePaths: seq<string>,
    libPaths: seq<string>,
    binPaths: seq<string>,
    buildPaths: seq<string>,
    resPaths: seq<string>,
    libs: seq<string>,
    systemLibs: seq<string>,
    defines: seq<string>,
    cFlags: seq<string>,
    cxxFlags: seq<string>,
    sharedLinkFlags: seq<string>,
    exeLinkFlags: seq<string>,
    frameworks: seq<string>,
    frameworkPaths: seq<string>,
    cppFlags: seq<string>,
    names: Option<CMakeFilenames>,
    filenames: Option<CMakeFilenames>)

  /** The root of the manifest; both members may be absent (null). */
  datatype ConanBuildInfo = ConanBuildInfo(
    dependencies: Option<seq<ConanDependency>>,
    settings: Option<ConanSettings>)

  /** The resolved invocation: input directory, output directory, namespace. */
  datatype GeneratorParameters = GeneratorParameters(
    workingDirectory: string,
    outputDirectory: string,
    packageNamespace: string)

  /** The target that every generated project registers, whatever the settings say. */
  const TargetPlatform := "Platform.win64"
  const TargetDevEnv := "DevEnv.vs2022"
  const TargetOptimization := "Optimization.Debug | Optimization.Release"

  /** `new CMakeFilenames()`: every name empty. */
  function NewCMakeFilenames(): (f: CMakeFilenames)
    ensures f.findPackageName == f.findPackageMultiName == f.pkgConfig == ""
  {
    CMakeFilenames("", "", "")
  }

  /** `new ConanSettings()`: every setting empty. */
  function NewConanSettings(): (s: ConanSettings)
    ensures s.arch == s.archBuild == s.buildType == s.compiler == ""
    ensures s.compilerRuntime == s.compilerVersion == s.os == s.osBuild == ""
  {
    ConanSettings("", "", "", "", "", "", "", "")
  }

  /** `new ConanDependency()`: every string empty, every list empty and no
      name hints, so no list a consumer reads is ever null. */
  function NewConanDependency(): (d: ConanDependency)
    ensures d.name == d.version == d.description == d.rootPath == d.sysRoot == ""
    ensures d.includePaths == d.libPaths == d.binPaths == d.buildPaths == d.resPaths == []
    ensures d.libs == d.systemLibs == d.defines == d.cFlags == d.cxxFlags == []
    ensures d.sharedLinkFlags == d.exeLinkFlags == d.frameworks == d.frameworkPaths == d.cppFlags == []
    ensures d.names.None? && d.filenames.None?
  {
    ConanDependency("", "", "", "", "", [], [], [], [], [], [], [], [], [], [], [], [], [], [], [], None, None)
  }

  /** `ConanSettings.DevEnv`: the Visual Studio toolchain for the compiler
      version, or "" when no rule applies. */
  function DevEnv(s: ConanSettings): (r: string)
    ensures r != "" <==> s.compiler == "Visual Studio" && s.compilerVersion in {"15", "17", "19", "22"}
    ensures s.compiler == "Visual Studio" && s.compilerVersion == "15" ==> r == "DevEnv.vs2015"
    ensures s.compiler == "Visual Studio" && s.compilerVersion == "17" ==> r == "DevEnv.vs2017"
    ensures s.compiler == "Visual Studio" && s.compilerVersion in {"19", "22"} ==> r == "DevEnv.vs2019"
    // version 22 does not reach the toolchain that generated projects use
    ensures r != TargetDevEnv
  {
    if s.compiler == "Visual Studio" then
      match s.compilerVersion
      case "15" => "DevEnv.vs2015"
      case "17" => "DevEnv.vs2017"
      case "19" => "DevEnv.vs2019"
      case "22" => "DevEnv.vs2019"
      case _ => ""
    else ""
  }

  /** `ConanSettings.Platform`: the Windows platform for the architecture, or
      "" when no rule applies. The 32-bit rule keys on the literal "x86_86". */
  function Platform(s: ConanSettings): (r: string)
    ensures r != "" <==> s.os == "Windows" && s.arch in {"x86_64", "x86_86"}
    ensures s.os == "Windows" && s.arch == "x86_64" ==> r == "Platform.win64"
    ensures s.os == "Windows" && s.arch == "x86_86" ==> r == "Platform.win32"
    ensures s.arch == "x86" ==> r == ""
  {
    if s.os == "Windows" then
      match s.arch
      case "x86_64" => "Platform.win64"
      case "x86_86" => "Platform.win32"
      case _ => ""
    else ""
  }

  /** `ConanSettings.Optimization`: whatever the settings, both Debug and
      Release, the same selection generated projects hard-code. */
  function Optimization(s: ConanSettings): (r: string)
    ensures r == TargetOptimization
  {
    "Optimization.Debug | Optimization.Release"
  }
}

/** `Generator.Generate`: reads the manifest and the optional ignore list
    from the input directory and writes one file per dependency. */
module Driver {
  import opened Common
  import opened Manifest
  import opened Emitter
  import opened Naming

  /** The deserialised `<dir>/conanbuildinfo.json`; None when it reads as null. */
  type ManifestReader = string -> Option<ConanBuildInfo>

  /** The lines of a text file; None when the file does not exist. */
  type LineReader = string -> Option<seq<string>>

  /** The libraries to ignore: the lines of the ignore file, or none when it is absent. */
  function IgnoreList(ignoreFile: Option<seq<string>>): seq<string> {
    match ignoreFile
    case None => []
    case Some(lines) => lines
  }

  /** A dependency's file as `GenerateOne` writes it, for a fixed ignore
      list, output directory, namespace and file system. */
  function Renderer(ignore: seq<string>, outDirectory: string, ns: string, listing: Listing): ConanDependency -> Emitted {
    d => Render(d, PreferredNameOf(d), ignore, outDirectory, ns, listing)
  }

  /** The files written for `deps`, in manifest order; writing stops after the
      first file whose generation throws. */
  function Emissions(deps: seq<ConanDependency>, render: ConanDependency -> Emitted): seq<Emitted> {
    if |deps| == 0 then []
    else
      var before := Emissions(deps[..|deps| - 1], render);
      if |before| > 0 && before[|before| - 1].fault.Some? then before
      else before + [render(deps[|deps| - 1])]
  }

  /** The result of the whole run: the failure of the last file written, or
      the number of dependencies. */
  function Outcome(files: seq<Emitted>, deps: seq<ConanDependency>): Result<nat> {
    if |files| > 0 && files[|files| - 1].fault.Some? then Throws(files[|files| - 1].fault.value)
    else Ok(|deps|)
  }

  /** One file per dependency in manifest order, each the rendering of its
      dependency; only the last file written may have failed, and fewer files
      than dependencies means the last one failed. */
  lemma {:induction false} EmissionsInOrder(deps: seq<ConanDependency>, render: ConanDependency -> Emitted)
    ensures var files := Emissions(deps, render);
            && |files| <= |deps|
            && (forall k :: 0 <= k < |files| ==> files[k] == render(deps[k]))
            && (forall k :: 0 <= k < |files| - 1 ==> files[k].fault.None?)
            && (|files| < |deps| ==> |files| > 0 && files[|files| - 1].fault.Some?)
    decreases |deps|
  {
    if |deps| > 0 {
      var init := deps[..|deps| - 1];
      EmissionsInOrder(init, render);
      var before := Emissions(init, render);
      forall k | 0 <= k < |before| ensures deps[k] == init[k] { }
    }
  }

  /** When no dependency's generation throws, every dependency gets its file
      and the run reports their number. */
  lemma AllGenerated(deps: seq<ConanDependency>, render: ConanDependency -> Emitted)
    requires forall k :: 0 <= k < |deps| ==> render(deps[k]).fault.None?
    ensures |Emissions(deps, render)| == |deps|
    ensures Outcome(Emissions(deps, render), deps) == Ok(|deps|)
  {
    EmissionsInOrder(deps, render);
  }

  /** After a failed file, later dependencies are not generated. */
  lemma {:induction false} EmissionsStop(deps: seq<ConanDependency>, k: nat, render: ConanDependency -> Emitted)
    requires k <= |deps|
    requires var files := Emissions(deps[..k], render);
             |files| > 0 && files[|files| - 1].fault.Some?
    ensures Emissions(deps, render) == Emissions(deps[..k], render)
    decreases |deps| - k
  {
    if k < |deps| {
      assert deps[..k + 1][..k] == deps[..k];
      EmissionsStop(deps, k + 1, render);
    } else {
      assert deps[..k] == deps;
    }
  }

  /** The loop over the dependencies: one `GenerateOne` per dependency, in
      order, until one throws. */
  method GenerateAll(deps: seq<ConanDependency>, settings: Option<ConanSettings>, ignore: seq<string>,
                     outDirectory: string, ns: string, listing: Listing)
    returns (files: seq<Emitted>, outcome: Result<nat>)
    ensures files == Emissions(deps, Renderer(ignore, outDirectory, ns, listing))
    ensures outcome == Outcome(files, deps)
  {
    ghost var render := Renderer(ignore, outDirectory, ns, listing);
    files := [];
    for i := 0 to |deps|
      invariant files == Emissions(deps[..i], render)
      invariant forall k :: 0 <= k < |files| ==> files[k].fault.None?
    {
      var file := GenerateOne(deps[i], settings, ignore, outDirectory, ns, listing);
      EmissionsNext(deps, i, render, files, file);
      files := files + [file];
      if file.fault.Some? {
        EmissionsStop(deps, i + 1, render);
        return files, Throws(file.fault.value);
      }
    }
    assert deps[..|deps|] == deps;
    return files, Ok(|deps|);
  }

  /** After fault-free files for a prefix, the next dependency's file is appended. */
  lemma EmissionsNext(deps: seq<ConanDependency>, i: nat, render: ConanDependency -> Emitted,
                      files: seq<Emitted>, file: Emitted)
    requires i < |deps| && files == Emissions(deps[..i], render) && file == render(deps[i])
    requires forall k :: 0 <= k < |files| ==> files[k].fault.None?
    ensures Emissions(deps[..i + 1], render) == files + [file]
  {
    assert deps[..i + 1][..i] == deps[..i];
  }

  /** The driver: the manifest and ignore file are read from the working
      directory; a null manifest or a missing dependency list throws before
      any file is written; otherwise each dependency is generated in order
      and the first exception ends the run. */
  method Generate(parameters: GeneratorParameters, readManifest: ManifestReader, readLines: LineReader,
                  listing: Listing)
    returns (files: seq<Emitted>, outcome: Result<nat>)
    ensures var buildInfo := readManifest(parameters.workingDirectory + "/conanbuildinfo.json");
            && (buildInfo.None? ==> files == [] && outcome == Throws(ManifestNotJson))
            && (buildInfo.Some? && buildInfo.value.dependencies.None? ==>
                  files == [] && outcome == Throws(DependenciesMissing))
    ensures var buildInfo := readManifest(parameters.workingDirectory + "/conanbuildinfo.json");
            var ignore := IgnoreList(readLines(parameters.workingDirectory + "/ignorelibs.txt"));
            buildInfo.Some? && buildInfo.value.dependencies.Some? ==>
              var deps := buildInfo.value.dependencies.value;
              && files == Emissions(deps, Renderer(ignore, parameters.outputDirectory, parameters.packageNamespace, listing))
              && outcome == Outcome(files, deps)
  {
    var workingDirectory := parameters.workingDirectory;
    var buildInfoPath := workingDirectory + "/conanbuildinfo.json";

    // optional ignore list
    var ignoreListPath := workingDirectory + "/ignorelibs.txt";
    var ignoreListText: seq<string> := [];
    var ignoreFile := readLines(ignoreListPath);
    if ignoreFile.Some? {
      ignoreListText := ignoreFile.value;
    }

    var buildInfo := readManifest(buildInfoPath);
    if buildInfo.None? {
      return [], Throws(ManifestNotJson);
    }
    if buildInfo.value.dependencies.None? {
      return [], Throws(DependenciesMissing);
    }
    files, outcome := GenerateAll(buildInfo.value.dependencies.value, buildInfo.value.settings, ignoreListText,
                                  parameters.outputDirectory, parameters.packageNamespace, listing);
  }
}

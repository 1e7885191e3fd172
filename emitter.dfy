/** `Generator.GenerateOne`: the `<Name>.sharpmake.cs` file written for one
    dependency, modelled as the list of lines handed to the writer. */
module Emitter {
  import opened Common
  import opened Manifest
  import opened Naming

  /** `Directory.GetFiles(dir, "*.dll")`: the DLLs of a directory in listing
      order, or None when the directory does not exist (the call throws). */
  type Listing = string -> Option<seq<string>>

  /** One output file: its path, the lines written to it, and the exception
      that cut the writing short, if any. Lines written before an exception
      stay in the file. */
  datatype Emitted = Emitted(path: string, lines: seq<string>, fault: Option<Fault>)

  /** The DLLs found under a list of bin directories, and the first directory
      that could not be listed. */
  datatype Listed = Listed(files: seq<string>, missing: Option<string>)

  const IncludeHeader := "      // --- Include directives ---"
  const LibPathHeader := "      // --- Library path directives ---"
  const LibHeader := "      // --- Library file directives ---"
  const DefineHeader := "      // --- Defines ---"
  const DllHeader := "      // --- DLL Copies ---"
  const TargetLine := "       AddTargets(new Target(" + TargetPlatform + ", " + TargetDevEnv + ", " + TargetOptimization + "));"
  const Closing := ["    }", "", "  }", "", "}"]

  /** The file a dependency is written to: named after the raw `Name`. */
  function OutputPath(outDirectory: string, d: ConanDependency): string {
    outDirectory + "/" + d.name + ".sharpmake.cs"
  }

  /** The autogenerated banner, the `using` and the opening of the namespace. */
  function Preamble(ns: string): seq<string> {
    [ "/* ---       Conan Sharpmake        --- */",
      "/* --- This file is Autogenerated!  --- */",
      "",
      "using Sharpmake;",
      "",
      "namespace " + ns,
      "{",
      "" ]
  }

  /** The exported project class, its constructor and the opening of `Configure`. */
  function ClassOpening(preferredName: string): seq<string> {
    var projectName := preferredName + "Project";
    [ "  [Export]",
      "  public class " + projectName + " : Project",
      "  {",
      "",
      "    public " + projectName + "()",
      "    {",
      "       Name = \"" + preferredName + "\";",
      TargetLine,
      "    }",
      "",
      "    [Configure]",
      "    public void Configure(Configuration conf, Target target)",
      "    {" ]
  }

  /** One `conf.<collection>.Add(@"<x>");` statement. */
  function Directive(collection: string, x: string): string {
    "      conf." + collection + ".Add(@\"" + x + "\");"
  }

  /** One directive per entry, in order. */
  function Directives(collection: string, xs: seq<string>): (r: seq<string>)
    ensures |r| == |xs|
  {
    if |xs| == 0 then [] else Directives(collection, xs[..|xs| - 1]) + [Directive(collection, xs[|xs| - 1])]
  }

  /** The libraries that are not on the ignore list, in order. */
  function Kept(libs: seq<string>, ignore: seq<string>): seq<string> {
    if |libs| == 0 then []
    else Kept(libs[..|libs| - 1], ignore) + (if libs[|libs| - 1] in ignore then [] else [libs[|libs| - 1]])
  }

  /** A section present only for a non-empty list: an optional blank line, a
      header comment, one directive per entry. */
  function Section(lead: seq<string>, header: string, collection: string, xs: seq<string>): seq<string> {
    if |xs| == 0 then [] else lead + [header] + Directives(collection, xs)
  }

  /** The library section: present for a non-empty `Libs` even when every
      library is ignored. */
  function LibSection(libs: seq<string>, ignore: seq<string>): seq<string> {
    if |libs| == 0 then [] else ["", LibHeader] + Directives("LibraryFiles", Kept(libs, ignore))
  }

  /** The include, library path, library and define sections. */
  function Configuration(d: ConanDependency, ignore: seq<string>): seq<string> {
    Section([], IncludeHeader, "IncludePaths", d.includePaths)
    + Section([""], LibPathHeader, "LibraryPaths", d.libPaths)
    + LibSection(d.libs, ignore)
    + Section([""], DefineHeader, "Defines", d.defines)
  }

  /** The DLLs of the bin directories, directory by directory, up to the first
      directory that cannot be listed. */
  function DllFiles(bins: seq<string>, listing: Listing): Listed {
    if |bins| == 0 then Listed([], None)
    else
      var before := DllFiles(bins[..|bins| - 1], listing);
      if before.missing.Some? then before
      else match listing(bins[|bins| - 1])
        case None => Listed(before.files, Some(bins[|bins| - 1]))
        case Some(found) => Listed(before.files + found, None)
  }

  /** The DLL copy section: a blank line, one header, one copy per DLL found. */
  function DllSection(bins: seq<string>, listing: Listing): seq<string> {
    if |bins| == 0 then [] else ["", DllHeader] + Directives("TargetCopyFiles", DllFiles(bins, listing).files)
  }

  /** The whole file written for `d`. */
  function Render(d: ConanDependency, preferred: Result<string>, ignore: seq<string>, outDirectory: string, ns: string,
                  listing: Listing): Emitted {
    var path := OutputPath(outDirectory, d);
    match preferred
    case Throws(f) => Emitted(path, Preamble(ns), Some(f))
    case Ok(pn) =>
      var body := Preamble(ns) + ClassOpening(pn) + Configuration(d, ignore) + DllSection(d.binPaths, listing);
      var missing := DllFiles(d.binPaths, listing).missing;
      if missing.Some? then Emitted(path, body, Some(DirectoryNotFound(missing.value)))
      else Emitted(path, body + Closing, None)
  }

  /** Directives of a concatenation are the concatenated directives. */
  lemma {:induction false} DirectivesAppend(collection: string, xs: seq<string>, ys: seq<string>)
    ensures Directives(collection, xs + ys) == Directives(collection, xs) + Directives(collection, ys)
    decreases |ys|
  {
    if |ys| == 0 {
      assert xs + ys == xs;
    } else {
      var zs := xs + ys;
      assert zs[..|zs| - 1] == xs + ys[..|ys| - 1];
      DirectivesAppend(collection, xs, ys[..|ys| - 1]);
    }
  }

  /** Once a bin directory cannot be listed, later directories change nothing. */
  lemma {:induction false} DllFilesStop(bins: seq<string>, k: nat, listing: Listing)
    requires k <= |bins| && DllFiles(bins[..k], listing).missing.Some?
    ensures DllFiles(bins, listing) == DllFiles(bins[..k], listing)
    decreases |bins| - k
  {
    if k < |bins| {
      assert bins[..k + 1][..k] == bins[..k];
      DllFilesStop(bins, k + 1, listing);
    } else {
      assert bins[..k] == bins;
    }
  }

  /** Every directive starts with `      conf.`, so no directive is a blank
      line or a section header. */
  lemma DirectivePrefix(collection: string, x: string)
    ensures Directive(collection, x)[..11] == "      conf."
    ensures Directive(collection, x) !in {"", IncludeHeader, LibPathHeader, LibHeader, DefineHeader, DllHeader}
  {
    var line := Directive(collection, x);
    assert line[6] == 'c';
  }

  /** Different entries give different directive lines. */
  lemma DirectiveInjective(collection: string, x: string, y: string)
    requires Directive(collection, x) == Directive(collection, y)
    ensures x == y
  {
    var p := "      conf." + collection + ".Add(@\"";
    assert Directive(collection, x) == p + x + "\");";
    assert Directive(collection, y) == p + y + "\");";
    assert |x| == |y|;
    forall i | 0 <= i < |x| ensures x[i] == y[i] {
      assert (p + x + "\");")[|p| + i] == x[i];
      assert (p + y + "\");")[|p| + i] == y[i];
    }
  }

  /** An entry has its directive among the directives exactly when it is in the list. */
  lemma {:induction false} DirectivesMember(collection: string, xs: seq<string>, x: string)
    ensures Directive(collection, x) in Directives(collection, xs) <==> x in xs
    decreases |xs|
  {
    if |xs| > 0 {
      var init := xs[..|xs| - 1];
      DirectivesMember(collection, init, x);
      assert xs == init + [xs[|xs| - 1]];
      if Directive(collection, x) == Directive(collection, xs[|xs| - 1]) {
        DirectiveInjective(collection, x, xs[|xs| - 1]);
      }
    }
  }

  /** A library is kept exactly when it is listed and not ignored. */
  lemma {:induction false} KeptMember(libs: seq<string>, ignore: seq<string>, x: string)
    ensures x in Kept(libs, ignore) <==> x in libs && x !in ignore
    decreases |libs|
  {
    if |libs| > 0 {
      var init := libs[..|libs| - 1];
      KeptMember(init, ignore, x);
      assert libs == init + [libs[|libs| - 1]];
    }
  }

  /** Filtering keeps the original order: it distributes over concatenation. */
  lemma {:induction false} KeptAppend(a: seq<string>, b: seq<string>, ignore: seq<string>)
    ensures Kept(a + b, ignore) == Kept(a, ignore) + Kept(b, ignore)
    decreases |b|
  {
    if |b| > 0 {
      var ab := a + b;
      assert ab[..|ab| - 1] == a + b[..|b| - 1];
      KeptAppend(a, b[..|b| - 1], ignore);
    } else {
      assert a + b == a;
    }
  }

  /** With an empty ignore list every library is kept, in order. */
  lemma {:induction false} KeptAll(libs: seq<string>)
    ensures Kept(libs, []) == libs
    decreases |libs|
  {
    if |libs| > 0 {
      KeptAll(libs[..|libs| - 1]);
      assert libs == libs[..|libs| - 1] + [libs[|libs| - 1]];
    }
  }

  /** The library section: absent for no libraries; otherwise a blank line,
      the header (even when every library is ignored) and a directive for
      exactly the libraries not on the ignore list, all of them when the
      list is empty. */
  lemma LibSectionContents(libs: seq<string>, ignore: seq<string>, x: string)
    ensures |libs| == 0 <==> LibSection(libs, ignore) == []
    ensures |libs| > 0 ==> LibSection(libs, ignore)[..2] == ["", LibHeader]
    ensures Directive("LibraryFiles", x) in LibSection(libs, ignore) <==> x in libs && x !in ignore
    ensures |libs| > 0 ==> |LibSection(libs, [])| == |libs| + 2
  {
    KeptMember(libs, ignore, x);
    DirectivesMember("LibraryFiles", Kept(libs, ignore), x);
    DirectivePrefix("LibraryFiles", x);
    KeptAll(libs);
    if |libs| > 0 {
      var sec := LibSection(libs, ignore);
      assert sec == ["", LibHeader] + Directives("LibraryFiles", Kept(libs, ignore));
      assert Directive("LibraryFiles", x) in sec <==> Directive("LibraryFiles", x) in Directives("LibraryFiles", Kept(libs, ignore));
    }
  }

  /** The first directory that cannot be listed is the one reported missing;
      none is reported when every directory can be listed. */
  lemma {:induction false} DllFilesMissing(bins: seq<string>, listing: Listing)
    ensures DllFiles(bins, listing).missing.None? <==> forall i :: 0 <= i < |bins| ==> listing(bins[i]).Some?
    ensures DllFiles(bins, listing).missing.Some? ==>
              exists k :: 0 <= k < |bins| && DllFiles(bins, listing).missing.value == bins[k]
                          && listing(bins[k]).None? && forall i :: 0 <= i < k ==> listing(bins[i]).Some?
    decreases |bins|
  {
    if |bins| > 0 {
      var init := bins[..|bins| - 1];
      DllFilesMissing(init, listing);
      if DllFiles(init, listing).missing.Some? {
        var k :| 0 <= k < |init| && DllFiles(init, listing).missing.value == init[k]
                 && listing(init[k]).None? && forall i :: 0 <= i < k ==> listing(init[i]).Some?;
        assert bins[k] == init[k];
      } else {
        assert forall i :: 0 <= i < |init| ==> listing(bins[i]).Some? by {
          forall i | 0 <= i < |init| ensures listing(bins[i]).Some? { assert bins[i] == init[i]; }
        }
      }
    }
  }

  /** The DLL section: nothing for no bin directories; otherwise a blank
      line and exactly one header, before every copy line. */
  lemma DllSectionShape(bins: seq<string>, listing: Listing)
    ensures |bins| == 0 ==> DllSection(bins, listing) == []
    ensures |bins| > 0 ==> DllSection(bins, listing)[..2] == ["", DllHeader]
    ensures |bins| > 0 ==> DllSection(bins, listing)[2..] == Directives("TargetCopyFiles", DllFiles(bins, listing).files)
    ensures |bins| > 0 ==> DllHeader !in DllSection(bins, listing)[2..]
  {
    if |bins| > 0 {
      var sec := DllSection(bins, listing);
      var copies := Directives("TargetCopyFiles", DllFiles(bins, listing).files);
      assert sec[2..] == copies;
      forall line | line in copies ensures line != DllHeader {
        var i :| 0 <= i < |copies| && copies[i] == line;
        DirectivesAt("TargetCopyFiles", DllFiles(bins, listing).files, i);
        DirectivePrefix("TargetCopyFiles", DllFiles(bins, listing).files[i]);
      }
    }
  }

  /** The `i`-th directive is the directive of the `i`-th entry. */
  lemma {:induction false} DirectivesAt(collection: string, xs: seq<string>, i: nat)
    requires i < |xs|
    ensures Directives(collection, xs)[i] == Directive(collection, xs[i])
    decreases |xs|
  {
    if i < |xs| - 1 {
      DirectivesAt(collection, xs[..|xs| - 1], i);
    }
  }

  /** The file is named after the raw `Name`, and when the name cannot be
      derived it holds only the preamble. */
  lemma ProjectFileName(d: ConanDependency, preferred: Result<string>, ignore: seq<string>, outDirectory: string,
                        ns: string, listing: Listing)
    ensures Render(d, preferred, ignore, outDirectory, ns, listing).path == outDirectory + "/" + d.name + ".sharpmake.cs"
    ensures Render(d, preferred, ignore, outDirectory, ns, listing).lines[..8] == Preamble(ns)
    ensures preferred.Throws? ==>
              Render(d, preferred, ignore, outDirectory, ns, listing).lines == Preamble(ns)
              && Render(d, preferred, ignore, outDirectory, ns, listing).fault == Some(preferred.fault)
  {
    if preferred.Ok? {
      var f := Render(d, preferred, ignore, outDirectory, ns, listing);
      var pn := preferred.value;
      var rest := ClassOpening(pn) + Configuration(d, ignore) + DllSection(d.binPaths, listing);
      var tail := if f.fault.None? then Closing else [];
      assert f.lines == Preamble(ns) + (rest + tail);
    }
  }

  /** The class is the preferred name plus `Project`; its constructor sets
      `Name` to the preferred name and registers the fixed target, whatever
      the settings. */
  lemma ProjectClass(d: ConanDependency, preferred: Result<string>, ignore: seq<string>, outDirectory: string,
                     ns: string, listing: Listing)
    requires preferred.Ok?
    ensures var lines := Render(d, preferred, ignore, outDirectory, ns, listing).lines;
            var pn := preferred.value;
            && |lines| >= 21
            && lines[9] == "  public class " + pn + "Project" + " : Project"
            && lines[14] == "       Name = \"" + pn + "\";"
            && lines[15] == "       AddTargets(new Target(" + TargetPlatform + ", " + TargetDevEnv + ", " + TargetOptimization + "));"
  {
    var f := Render(d, preferred, ignore, outDirectory, ns, listing);
    var pn := preferred.value;
    var head := Preamble(ns) + ClassOpening(pn);
    var rest := Configuration(d, ignore) + DllSection(d.binPaths, listing);
    var tail := if f.fault.None? then Closing else [];
    assert f.lines == head + (rest + tail);
    assert |head| == 21;
    assert f.lines[9] == head[9] && f.lines[14] == head[14] && f.lines[15] == head[15];
  }

  /** The file is complete, ending with the closing braces, exactly when the
      name can be derived and every bin directory can be listed. */
  lemma ProjectFileComplete(d: ConanDependency, preferred: Result<string>, ignore: seq<string>,
                            outDirectory: string, ns: string, listing: Listing)
    ensures Render(d, preferred, ignore, outDirectory, ns, listing).fault.None? <==>
              preferred.Ok? && forall i :: 0 <= i < |d.binPaths| ==> listing(d.binPaths[i]).Some?
    ensures Render(d, preferred, ignore, outDirectory, ns, listing).fault.None? ==>
              var lines := Render(d, preferred, ignore, outDirectory, ns, listing).lines;
              |lines| >= 26 && lines[|lines| - 5..] == Closing
  {
    DllFilesMissing(d.binPaths, listing);
  }

  /** With `z_debug` ignored, zlib's configuration holds its include path and
      only the `z` library. */
  lemma ZlibConfiguration(d: ConanDependency)
    requires d.includePaths == ["/usr/include"] && d.libPaths == [] && d.libs == ["z", "z_debug"] && d.defines == []
    ensures Configuration(d, ["z_debug"])
            == [IncludeHeader, Directive("IncludePaths", "/usr/include"), "", LibHeader, Directive("LibraryFiles", "z")]
  {
    var libs := ["z", "z_debug"];
    assert libs[..1] == ["z"] && libs[..1][..0] == [];
    assert Kept(libs, ["z_debug"]) == ["z"];
    assert Directives("LibraryFiles", ["z"]) == [Directive("LibraryFiles", "z")];
  }

  /** A `foreach` that writes one directive per entry. */
  method WriteDirectives(lines: seq<string>, collection: string, xs: seq<string>) returns (r: seq<string>)
    ensures r == lines + Directives(collection, xs)
  {
    r := lines;
    for i := 0 to |xs|
      invariant r == lines + Directives(collection, xs[..i])
    {
      assert xs[..i + 1][..i] == xs[..i];
      r := r + [Directive(collection, xs[i])];
    }
    assert xs[..|xs|] == xs;
  }

  /** The library `foreach`: an ignored library is skipped with `continue`. */
  method WriteLibraries(lines: seq<string>, libs: seq<string>, libIgnoreList: seq<string>) returns (r: seq<string>)
    ensures r == lines + Directives("LibraryFiles", Kept(libs, libIgnoreList))
  {
    r := lines;
    for i := 0 to |libs|
      invariant r == lines + Directives("LibraryFiles", Kept(libs[..i], libIgnoreList))
    {
      assert libs[..i + 1][..i] == libs[..i];
      if libs[i] in libIgnoreList {
        assert Kept(libs[..i + 1], libIgnoreList) == Kept(libs[..i], libIgnoreList);
        continue;
      }
      assert Kept(libs[..i + 1], libIgnoreList) == Kept(libs[..i], libIgnoreList) + [libs[i]];
      DirectivesAppend("LibraryFiles", Kept(libs[..i], libIgnoreList), [libs[i]]);
      assert Directives("LibraryFiles", [libs[i]]) == [Directive("LibraryFiles", libs[i])];
      r := r + [Directive("LibraryFiles", libs[i])];
    }
    assert libs[..|libs|] == libs;
  }

  /** One more bin directory: its DLLs are appended, or it is the one missing. */
  lemma DllFilesNext(bins: seq<string>, i: nat, listing: Listing)
    requires i < |bins| && DllFiles(bins[..i], listing).missing.None?
    ensures listing(bins[i]).None? ==> DllFiles(bins[..i + 1], listing) == Listed(DllFiles(bins[..i], listing).files, Some(bins[i]))
    ensures listing(bins[i]).Some? ==> DllFiles(bins[..i + 1], listing) == Listed(DllFiles(bins[..i], listing).files + listing(bins[i]).value, None)
  {
    assert bins[..i + 1][..i] == bins[..i];
  }

  /** Proof step for `WriteDllSection`: regroups the buffer so that
      `DirectivesAppend` applies behind a fixed head. */
  lemma AppendDirectives(head: seq<string>, collection: string, xs: seq<string>, ys: seq<string>)
    ensures head + Directives(collection, xs) + Directives(collection, ys) == head + Directives(collection, xs + ys)
  {
    DirectivesAppend(collection, xs, ys);
  }

  /** Proof step (sequence associativity) for `WriteLibSection` and
      `WriteDllSection`: regroups the blank line, the header and the lines
      after them. */
  lemma HeadedLines(lines: seq<string>, header: string, body: seq<string>)
    ensures lines + [""] + [header] + body == lines + (["", header] + body)
  {
  }

  /** The DLL section: for a non-empty `BinPaths`, the blank line, then per
      directory the header (once, behind `createdComment`) and the copies of
      its DLLs; a directory that cannot be listed ends the writing. */
  method WriteDllSection(lines: seq<string>, binPaths: seq<string>, listing: Listing)
    returns (r: seq<string>, missing: Option<string>)
    ensures missing == DllFiles(binPaths, listing).missing
    ensures r == lines + DllSection(binPaths, listing)
  {
    r := lines;
    if |binPaths| == 0 {
      return r, None;
    }
    // Windows only: the listing is of "*.dll"
    var createdComment := false;
    r := r + [""];
    ghost var head := lines + [""] + [DllHeader];
    ghost var copied: seq<string> := [];
    for i := 0 to |binPaths|
      invariant createdComment == (i > 0)
      invariant DllFiles(binPaths[..i], listing) == Listed(copied, None)
      invariant i == 0 ==> r == lines + [""]
      invariant i > 0 ==> r == head + Directives("TargetCopyFiles", copied)
    {
      if !createdComment {
        r := r + [DllHeader];
        createdComment := true;
      }
      assert r == head + Directives("TargetCopyFiles", copied);
      DllFilesNext(binPaths, i, listing);
      var dllFiles := listing(binPaths[i]);
      if dllFiles.None? {
        DllFilesStop(binPaths, i + 1, listing);
        HeadedLines(lines, DllHeader, Directives("TargetCopyFiles", copied));
        return r, Some(binPaths[i]);
      }
      r := WriteDirectives(r, "TargetCopyFiles", dllFiles.value);
      AppendDirectives(head, "TargetCopyFiles", copied, dllFiles.value);
      copied := copied + dllFiles.value;
    }
    assert binPaths[..|binPaths|] == binPaths;
    HeadedLines(lines, DllHeader, Directives("TargetCopyFiles", copied));
    return r, None;
  }

  /** The banner, the `using` and the opening of the namespace, line by line. */
  method WritePreamble(packageNamespace: string) returns (lines: seq<string>)
    ensures lines == Preamble(packageNamespace)
  {
    lines := [];
    lines := lines + ["/* ---       Conan Sharpmake        --- */"];
    lines := lines + ["/* --- This file is Autogenerated!  --- */"];
    lines := lines + [""];
    lines := lines + ["using Sharpmake;"];
    lines := lines + [""];
    lines := lines + ["namespace " + packageNamespace];
    lines := lines + ["{"];
    lines := lines + [""];
  }

  /** The project class, its constructor with the fixed target, and the
      opening of `Configure`, line by line. */
  method WriteClassOpening(lines: seq<string>, preferredName: string) returns (r: seq<string>)
    ensures r == lines + ClassOpening(preferredName)
  {
    var projectName := preferredName + "Project";
    r := lines;
    r := r + ["  [Export]"];
    r := r + ["  public class " + projectName + " : Project"];
    r := r + ["  {"];
    r := r + [""];
    r := r + ["    public " + projectName + "()"];
    r := r + ["    {"];
    r := r + ["       Name = \"" + preferredName + "\";"];

    // platform, toolchain and optimization are fixed, not taken from the settings
    var platform := "Platform.win64";
    var devenv := "DevEnv.vs2022";
    var optimization := "Optimization.Debug | Optimization.Release";
    r := r + ["       AddTargets(new Target(" + platform + ", " + devenv + ", " + optimization + "));"];
    r := r + ["    }"];
    r := r + [""];
    r := r + ["    [Configure]"];
    r := r + ["    public void Configure(Configuration conf, Target target)"];
    r := r + ["    {"];
  }

  /** One section: for a non-empty list, the blank line if any, the header
      and one directive per entry. */
  method WriteSection(lines: seq<string>, lead: seq<string>, header: string, collection: string, xs: seq<string>)
    returns (r: seq<string>)
    ensures r == lines + Section(lead, header, collection, xs)
  {
    r := lines;
    if |xs| > 0 {
      r := r + lead;
      r := r + [header];
      r := WriteDirectives(r, collection, xs);
    }
  }

  /** The library section: for a non-empty `Libs`, the blank line, the header
      and the libraries that are not ignored. */
  method WriteLibSection(lines: seq<string>, libs: seq<string>, libIgnoreList: seq<string>) returns (r: seq<string>)
    ensures r == lines + LibSection(libs, libIgnoreList)
  {
    r := lines;
    if |libs| > 0 {
      r := r + [""];
      r := r + [LibHeader];
      r := WriteLibraries(r, libs, libIgnoreList);
      HeadedLines(lines, LibHeader, Directives("LibraryFiles", Kept(libs, libIgnoreList)));
    }
  }

  /** The include, library path, library and define sections, in that order. */
  method WriteConfiguration(lines: seq<string>, d: ConanDependency, libIgnoreList: seq<string>) returns (r: seq<string>)
    ensures r == lines + Configuration(d, libIgnoreList)
  {
    r := WriteSection(lines, [], IncludeHeader, "IncludePaths", d.includePaths);
    r := WriteSection(r, [""], LibPathHeader, "LibraryPaths", d.libPaths);
    r := WriteLibSection(r, d.libs, libIgnoreList);
    r := WriteSection(r, [""], DefineHeader, "Defines", d.defines);
    ConfigurationLines(lines, Section([], IncludeHeader, "IncludePaths", d.includePaths),
                       Section([""], LibPathHeader, "LibraryPaths", d.libPaths), LibSection(d.libs, libIgnoreList),
                       Section([""], DefineHeader, "Defines", d.defines));
  }

  /** Proof step (sequence associativity) for `WriteConfiguration`: regroups
      the four sections behind the buffer. */
  lemma ConfigurationLines(lines: seq<string>, a: seq<string>, b: seq<string>, c: seq<string>, e: seq<string>)
    ensures lines + a + b + c + e == lines + (a + b + c + e)
  {
  }

  /** The emitter: the file is opened on the raw name, the preamble is
      written before the preferred name is derived, then the sections in
      order. The settings are passed in and not read. */
  method GenerateOne(d: ConanDependency, settings: Option<ConanSettings>, libIgnoreList: seq<string>,
                     outDirectory: string, packageNamespace: string, listing: Listing)
    returns (file: Emitted)
    ensures file == Render(d, PreferredNameOf(d), libIgnoreList, outDirectory, packageNamespace, listing)
  {
    var path := outDirectory + "/" + d.name + ".sharpmake.cs";
    var lines := WritePreamble(packageNamespace);
    var preferred := PreferredName(d);
    if preferred.Throws? {
      return Emitted(path, lines, Some(preferred.fault));
    }
    lines := WriteClassOpening(lines, preferred.value);
    lines := WriteConfiguration(lines, d, libIgnoreList);
    var notFound;
    lines, notFound := WriteDllSection(lines, d.binPaths, listing);
    if notFound.Some? {
      return Emitted(path, lines, Some(DirectoryNotFound(notFound.value)));
    }
    lines := lines + ["    }"];
    lines := lines + [""];
    lines := lines + ["  }"];
    lines := lines + [""];
    lines := lines + ["}"];
    return Emitted(path, lines, None);
  }
}

# ConanSharpmake in Dafny

ConanSharpmake reads the `conanbuildinfo.json` manifest that Conan writes for a
project and produces one Sharpmake project file (`<name>.sharpmake.cs`) per
dependency. This project models that translation, along with the command line
that starts it, and proves what each step produces.

The modules follow the two source files:

- `common.dfy` holds `Option`, and `Result`, whose `Throws(Fault)` stands for
  an exception the program throws or lets escape. `Fault` names each exception the model
  covers.
- `text.dfy` holds the .NET string primitives the tool relies on:
  - `char.IsWhiteSpace`, `string.IsNullOrWhiteSpace`, `Trim`, `IndexOf` and
    ordinal `StartsWith`;
  - ASCII `ToUpper` and `IsUpper`;
  - the unanchored `[A-Za-z_][A-Za-z0-9_]*` pattern.
- `manifest.dfy` holds the manifest records, the defaults their constructors
  give, and the `DevEnv`, `Platform` and `Optimization` lookups of
  `ConanSettings`.
- `naming.dfy` holds `ConanDependency.PreferredName`:
  - The hint is chosen over the raw name.
  - The hyphen-collapsing loop is an imperative method, proved against the
    one-pass reference `Merge`.
  - The first character is then capitalised.
- `emitter.dfy` holds `Generator.GenerateOne`:
  - The `StreamWriter` is a buffer of lines that the method appends to.
  - `Directory.GetFiles(dir, "*.dll")` is an oracle, `Listing`, that answers
    `None` for a missing directory.
  - Each section is written by its own method, proved against the function
    that describes that section. `GenerateOne`, which calls them in order, is
    proved against the function `Render` that describes the whole file.
- `driver.dfy` holds `Generator.Generate`. Reading the manifest and the
  ignore file are oracles. Dependencies are generated in order, and the first
  exception ends the run.
- `command_line.dfy` holds:
  - the `ConsoleParser` constructor (a loop over the arguments that fills a
    map) and both `GetOrDefault` overloads, with `int.TryParse` spelled out;
  - the argument checks of `Program.Main` (`Startup`);
  - `Run`, which composes those checks with `Generate`.

In these places the code does something its names and comments do not
suggest, and the model follows the code:

- The hint check uses an unanchored regular expression. A hint is accepted
  when it contains one ASCII letter or `_` anywhere, not only when it is a bare
  identifier (`Text.UnanchoredMatch`, `Naming.HintChoice`). The same applies to
  `--namespace` (`CommandLine.Startup`).
- An accepted hint still goes through the hyphen and capitalisation steps. A
  hint such as `zlib` becomes `Zlib`. It is used verbatim only when its first
  character is not a lower-case letter (`Naming.IdentifierHint`).
- A name that collapses to nothing, such as `-`, does not give an empty
  result: `result[0]` throws (`Naming.NormalizeShape`,
  `Naming.DegenerateNames`).
- A missing `bin` directory is not treated as "no files". The exception from
  `Directory.GetFiles` propagates, the file written so far stays on disk, and
  the run stops (`Emitter.ProjectFileComplete`, `Driver.Generate`).

## Model

| member | source | states |
|---|---|---|
| Text.UnanchoredMatch | Generator.cs:207-209 | The unanchored identifier pattern occurs in a string exactly when the string holds an ASCII letter or `_`; every bare identifier qualifies |
| Text.PatternOccursIn | Generator.cs:208-209 | `Regex.IsMatch` for `[A-Za-z_][A-Za-z0-9_]*`: some substring is a letter or `_` followed by letters, digits or `_`; the same test guards `--namespace` in Program.cs |
| Text.ContainsIdentStart | Generator.cs:208-209 | The executable form of the match: some character is an ASCII letter or `_` |
| Text.IndexOf | Program.cs:33 | The result is -1 exactly when the character is absent; otherwise it is the position of its first occurrence |
| Text.IsWhiteSpace | Program.cs:61 | `char.IsWhiteSpace`: U+0009 to U+000D, U+0020, U+0085, U+00A0, U+1680, U+2000 to U+200A, U+2028, U+2029, U+202F, U+205F and U+3000 |
| Text.IsNullOrWhiteSpace | Generator.cs:205 | `string.IsNullOrWhiteSpace` on a present string: every character is white space; it is also the check on `--inputPath` and `--outputPath` in Program.cs |
| Text.StartsWith | Program.cs:27 | The string begins with the given prefix, compared character by character |
| Text.IsUpper | Generator.cs:234 | `char.IsUpper` on ASCII: the letters `A` to `Z` |
| Text.ToUpper | Generator.cs:223 | Lower-case ASCII letters map to their upper-case letter (32 code points lower); every other character is unchanged |
| Text.LeadingSpace | Program.cs:61 | The count of leading white-space characters: all of them are white space, and the next character is not |
| Text.TrailingSpace | Program.cs:61 | The count of trailing white-space characters: all of them are white space, and the one before is not |
| Text.Trim | Program.cs:61 | `Trim` keeps a contiguous middle of the string that neither starts nor ends with white space; everything before it and after it is white space; it is empty exactly when the string is null-or-white-space |
| Text.TrimUnpadded | Program.cs:61 | A string with no white space at either end is its own trim |
| Manifest.NewCMakeFilenames | Generator.cs:23-28 | Every name hint defaults to the empty string |
| Manifest.NewConanSettings | Generator.cs:112-122 | Every setting defaults to the empty string |
| Manifest.NewConanDependency | Generator.cs:246-268 | Every string field defaults to empty, every list to the empty sequence, and `names`/`filenames` to absent |
| Manifest.DevEnv | Generator.cs:58-79 | Non-empty exactly for "Visual Studio" with version 15, 17, 19 or 22, giving vs2015, vs2017, vs2019 and vs2019; it never yields the vs2022 the emitter writes |
| Manifest.Platform | Generator.cs:82-100 | Non-empty exactly for "Windows" with "x86_64" (win64) or the literal "x86_86" (win32); plain "x86" gives "" |
| Manifest.Optimization | Generator.cs:103-110 | Always "Optimization.Debug \| Optimization.Release" |
| Naming.HyphenCount | Generator.cs:218 | The number of hyphens is at most the length, and zero exactly when there is no hyphen |
| Naming.Capitalize | Generator.cs:234-239 | The length and the tail are kept; a lower-case first letter becomes its upper-case letter, and any other first character is left as it is |
| Naming.MergeShape | Generator.cs:218-231 | Collapsing hyphens leaves no `-`, and the length drops by exactly the hyphen count |
| Naming.Merge | Generator.cs:217-231 | The one-pass reference for the hyphen loop: a hyphen and the character after it become that character upper-cased, and a final hyphen is dropped |
| Naming.MergeNoHyphen | Generator.cs:218 | A hyphen-free string is left unchanged by the collapse |
| Naming.MergeAppend | Generator.cs:218-231 | A hyphen-free prefix passes through the collapse unchanged |
| Naming.MergeStep | Generator.cs:219-230 | One loop iteration (merge `-c` into `ToUpper(c)`, or drop a final `-`) does not change the eventual collapse |
| Naming.PreferredName | Generator.cs:200-244 | The getter's loop computes the reference normalisation of the chosen name, including the `IndexOutOfRange` throw |
| Naming.HintChoice | Generator.cs:203-212 | The hint replaces `Name` exactly when `names` is present, the hint is not null-or-white-space, and the unanchored pattern occurs in it |
| Naming.HintAccepted | Generator.cs:204-209 | The hint is used when `names` is present, the hint is not null-or-white-space, and the unanchored identifier pattern occurs in it |
| Naming.ChosenName | Generator.cs:204-213 | The accepted hint, otherwise the raw `Name` |
| Naming.PreferredNameOf | Generator.cs:200-244 | The getter's value: the normalisation of the chosen name, or the exception it throws |
| Naming.NormalizeShape | Generator.cs:215-242 | Normalising throws exactly when the name is non-empty and all hyphens, and then with `IndexOutOfRange`; a result has no `-`, has the original length minus the hyphen count, and does not start lower-case |
| Naming.NormalizeName | Generator.cs:215-242 | The empty name stays empty; a name that collapses to nothing throws `IndexOutOfRange`; otherwise the collapsed name, capitalised |
| Naming.NormalizeIdempotent | Generator.cs:215-242 | Normalising an already normalised name gives the same name |
| Naming.IdentifierHint | Generator.cs:204-239 | A bare-identifier hint is the name capitalised; verbatim when it does not start lower-case |
| Naming.MergeJoin | Generator.cs:218-231 | A hyphen followed by a character, behind a hyphen-free prefix, collapses to that character upper-cased |
| Naming.MergeWords | Generator.cs:218-231 | Three hyphen-separated words collapse to their concatenation with the second and third words' first characters upper-cased |
| Naming.PascalCaseWords | Generator.cs:215-242 | Normalising three hyphen-separated words (such as `my-awesome-lib`) gives the PascalCase name (`MyAwesomeLib`) |
| Naming.DegenerateNames | Generator.cs:215-242 | The name `-` throws `IndexOutOfRange`, and the empty name stays empty |
| Naming.ZlibHint | Generator.cs:204-242 | A dependency whose `cmake_find_package` hint is "ZLIB" is named "ZLIB" |
| Naming.DefaultDependencyName | Generator.cs:246-268 | A default-constructed dependency has the empty preferred name without throwing |
| Emitter.Directives | Generator.cs:348-351 | One directive line per entry |
| Emitter.Directive | Generator.cs:350 | The line `      conf.<Collection>.Add(@"<entry>");`, the same template as lines 360, 375, 385 and 411 |
| Emitter.Section | Generator.cs:345-362 | A section gated on a non-empty list: the lead (a blank line except for includes), the header and one directive per entry; the defines section at lines 379-387 has the same shape |
| Emitter.LibSection | Generator.cs:364-377 | Gated on a non-empty `Libs`: a blank line, the header and the directives of the libraries that are not ignored |
| Emitter.Configuration | Generator.cs:345-387 | The include, library path, library and define sections, in that order |
| Emitter.DllSection | Generator.cs:389-414 | Gated on non-empty `BinPaths`: a blank line, the header and one copy line per DLL listed |
| Emitter.DirectivesAppend | Generator.cs:348-351 | The directive lines of a concatenation are the concatenation of the directive lines |
| Emitter.DirectivesAt | Generator.cs:348-351 | The i-th directive line is the directive for the i-th entry, in original order |
| Emitter.DirectivePrefix | Generator.cs:350 | Every directive line starts with `      conf.` and is neither blank nor a section header |
| Emitter.DirectiveInjective | Generator.cs:350 | Two directive lines of one collection are equal only for equal entries |
| Emitter.DirectivesMember | Generator.cs:348-351 | The directive for an entry appears exactly when the entry is in the list |
| Emitter.KeptMember | Generator.cs:368-376 | A library survives the filter exactly when it is listed and not in the ignore list |
| Emitter.KeptAppend | Generator.cs:368-376 | Filtering keeps the libraries in their original order, segment by segment |
| Emitter.KeptAll | Generator.cs:368-376 | With an empty ignore list, every library is kept |
| Emitter.Kept | Generator.cs:368-376 | The libraries in order, without those in the ignore list |
| Emitter.LibSectionContents | Generator.cs:364-377 | The library section is absent exactly for no libraries; its header is printed even when every library is ignored; a library's line appears exactly when it is not ignored; with no ignore list there are N lines for N libraries plus the blank line and the header |
| Emitter.DllFilesStop | Generator.cs:400-412 | After a missing directory, later bin directories are not listed |
| Emitter.DllFilesMissing | Generator.cs:400-412 | The DLL listing fails exactly when some bin directory is missing, and then it names the first such directory |
| Emitter.DllFilesNext | Generator.cs:400-412 | One more bin directory appends its files in listing order, or records it as missing |
| Emitter.DllFiles | Generator.cs:400-412 | The DLLs of the bin directories in order, up to the first directory that cannot be listed, which is recorded |
| Emitter.DllSectionShape | Generator.cs:389-414 | No DLL lines without bin paths; otherwise a blank line, exactly one `// --- DLL Copies ---` header before any copy line, then one copy line per discovered file |
| Emitter.ProjectFileName | Generator.cs:300-311 | The file is named after the raw `Name` in the output directory and starts with the fixed preamble and namespace; if the preferred name throws, only the preamble is written |
| Emitter.OutputPath | Generator.cs:300 | The file is `<outDirectory>/<Name>.sharpmake.cs`, using the raw `Name` |
| Emitter.Preamble | Generator.cs:302-312 | The two banner comments, `using Sharpmake;` and the opening of the given namespace |
| Emitter.ClassOpening | Generator.cs:314-343 | The `[Export]` class `<PreferredName>Project`, its constructor setting `Name` and the fixed target, and the opening of `Configure` |
| Emitter.ProjectClass | Generator.cs:313-337 | The class is `<PreferredName>Project`, the constructor sets `Name` to the preferred name, and `AddTargets` uses the fixed win64 / vs2022 / Debug\|Release constants |
| Emitter.ProjectFileComplete | Generator.cs:298-422 | A file is complete exactly when the name does not throw and every bin directory exists; a complete file ends with the closing braces |
| Emitter.Render | Generator.cs:298-422 | The whole file: the preamble; if the name throws, nothing else; otherwise the class opening, the configuration sections, the DLL section, and the closing braces only when every bin directory was listed |
| Emitter.ZlibConfiguration | Generator.cs:345-387 | For include path `/usr/include` and libraries `z`, `z_debug` with `z_debug` ignored, the configuration holds one include directive and exactly one library directive, for `z` |
| Emitter.WriteDirectives | Generator.cs:348-351 | The loop appends exactly the directive lines of the entries |
| Emitter.WriteLibraries | Generator.cs:368-376 | The loop with `continue` appends exactly the directives of the libraries not ignored |
| Emitter.WriteDllSection | Generator.cs:389-414 | The `createdComment` loop appends the DLL section and reports the first missing directory |
| Emitter.WritePreamble | Generator.cs:302-311 | The written lines are the preamble for the namespace |
| Emitter.WriteClassOpening | Generator.cs:313-343 | Appends the class opening for the preferred name |
| Emitter.WriteSection | Generator.cs:345-387 | Appends a section gated on a non-empty list |
| Emitter.WriteLibSection | Generator.cs:364-377 | Appends the library section |
| Emitter.WriteConfiguration | Generator.cs:345-387 | Appends the four configuration sections in order |
| Emitter.GenerateOne | Generator.cs:298-422 | The buffer written is the rendering of the dependency, ignore list, directory and namespace; the settings do not affect it |
| Driver.EmissionsInOrder | Generator.cs:458-461 | One file per dependency in manifest order, each the rendering of its dependency; only the last file may have failed, and fewer files than dependencies means the last one failed |
| Driver.Emissions | Generator.cs:458-461 | The files written for the dependencies in manifest order, stopping after the first file whose generation throws |
| Driver.AllGenerated | Generator.cs:458-463 | When no generation throws, every dependency gets a file and the run reports their number |
| Driver.Outcome | Generator.cs:458-463 | The run throws the fault of a failed last file, and otherwise reports the number of dependencies |
| Driver.EmissionsStop | Generator.cs:458-461 | After a failed file, no later dependency is generated |
| Driver.EmissionsNext | Generator.cs:458-461 | After fault-free files for the first dependencies, the next dependency's file is appended to them |
| Driver.GenerateAll | Generator.cs:458-461 | The loop writes exactly the emissions and reports their outcome |
| Driver.Generate | Generator.cs:424-464 | A null manifest or null dependency list throws before any file is written; otherwise the files are the in-order emissions, with an empty ignore list when `ignorelibs.txt` is absent |
| Driver.IgnoreList | Generator.cs:437-441 | The lines of `ignorelibs.txt` when it exists, otherwise the empty list |
| CommandLine.Classify | Program.cs:27-44 | Arguments not starting with `--` are skipped; `--` without `=` is malformed; otherwise the argument is `--key=value` with no `=` in the key |
| CommandLine.ClassifyPair | Program.cs:33-38 | `--key=value` reads back as that key and value, even when the value contains `=` |
| CommandLine.Classified | Program.cs:25-45 | Each argument is read on its own, in order |
| CommandLine.CollectFailure | Program.cs:40-44 | Collecting throws exactly when some argument is malformed, with the substring range fault |
| CommandLine.Collect | Program.cs:25-45 | The dictionary built from the read arguments in order: skipped ones change nothing, a later pair overwrites an earlier one, a malformed one throws |
| CommandLine.CollectedKeys | Program.cs:33-39 | A key is present exactly when some argument assigns it |
| CommandLine.CollectedLast | Program.cs:36-38 | A key holds the value of the last argument that assigns it |
| CommandLine.CollectSkipped | Program.cs:27-31 | A skipped argument anywhere makes no difference |
| CommandLine.CollectStops | Program.cs:40-44 | Once a prefix has thrown, the whole argument list throws the same |
| CommandLine.ParseFailure | Program.cs:25-45 | Parsing throws exactly when some argument starts with `--` and has no `=` |
| CommandLine.SkippedIgnored | Program.cs:27-31 | An argument not starting with `--` can be removed from anywhere without changing the result |
| CommandLine.ParseArguments | Program.cs:23-46 | The constructor's loop builds exactly the parsed map, or throws as the reference does |
| CommandLine.ParsedArgs | Program.cs:23-46 | The dictionary the constructor builds from the arguments, or the exception it throws |
| CommandLine.GetOrDefault | Program.cs:48-55 | The stored value when the key is present, else the default |
| CommandLine.LookupArgument | Program.cs:33-55 | After parsing, a lookup gives the value of the last argument naming the key, or the default when none does |
| CommandLine.ParseInt32 | Program.cs:72 | Text parses exactly when it is digits, `+` then digits, or `-` then digits, with at least one digit and the signed value in the 32-bit range; the result is that signed value |
| CommandLine.SignedAndPaddedDigit | Program.cs:72 | A leading `+`, a leading `-` and leading zeros are accepted: `+5` is 5, `-0` is 0 and `007` is 7 |
| CommandLine.Decimal | Program.cs:72 | The decimal text of a number is non-empty and all digits |
| CommandLine.DecimalValue | Program.cs:72 | The digits of `n` have the value `n` |
| CommandLine.ParseInt32RoundTrip | Program.cs:72 | The text of an integer parses back to it exactly when it fits in 32 bits |
| CommandLine.GetOrDefaultBool | Program.cs:57-79 | An absent key gives the default; the result differs from the default only through a present key whose trimmed value is `true`, `false` or a 32-bit integer |
| CommandLine.IntTextPlain | Program.cs:61-72 | The decimal text of an integer is already trimmed and is neither `true` nor `false`, so it reaches the integer parse |
| CommandLine.FlagFromNumber | Program.cs:61-76 | A stored value whose trimmed text parses as a 32-bit integer decides the flag by the integer's sign, whatever the default |
| CommandLine.FlagFromIntText | Program.cs:61-76 | The text of an integer decides the flag by its sign, whatever the default; an integer too wide for 32 bits leaves the default |
| CommandLine.FlagFromWord | Program.cs:61-70 | A trimmed `true` or `false` decides the flag, case-sensitively |
| CommandLine.Startup | Program.cs:84-130 | Checks in order: usage on an empty map; then an unset input path; then a missing directory; then an unset output path; then a supplied namespace without any letter or `_`. Each failure occurs exactly under its condition. The generator is launched exactly when every check passes, and a launch carries the input, output and namespace (default `ConanPackages`) |
| CommandLine.InputPathSet | Program.cs:102-103 | `--inputPath` is given and not null-or-white-space |
| CommandLine.OutputPathSet | Program.cs:116-117 | `--outputPath` is given and not null-or-white-space |
| CommandLine.Run | Program.cs:84-139 | Usage and failed checks write nothing; a launch ends as the generator does |

## Left out

- JSON deserialisation (`JsonSerializer.Deserialize` and the property-name
  mapping) is an oracle returning the deserialised manifest. An unreadable or
  missing `conanbuildinfo.json` and malformed JSON (exceptions raised by
  `File.ReadAllText` and the deserialiser) are not modelled. An explicit JSON
  `null` for a list field is not modelled either: lists are always present.
- A JSON `null` for a dependency's `name` is not modelled: names are always
  strings. In the code, `result.Length` then throws a `NullReferenceException`
  when no hint is accepted.
- A `null` entry in the `dependencies` list is not modelled. The code throws
  when it reaches that entry.
- A missing output directory is not modelled. `new StreamWriter(...)` throws
  when the directory does not exist, and `Main` only checks that
  `--outputPath` is not blank. The model always opens the file, so `Run` can end
  with `Completed` where the program throws at the first dependency.
- Console output (progress messages, the usage text and the warning about a
  missing ignore file) and `Environment.Exit` are not modelled. `UsageShown`
  stands for the exit with code -1.
- `Path.GetFullPath` and `Directory.Exists` are combined into one
  `directoryExists` predicate on the given input path. Exceptions
  `GetFullPath` raises for invalid paths are not modelled.
- `char.ToUpper`, `char.IsUpper` and the culture-sensitive
  `StartsWith("--")` are ASCII or ordinal here. Culture-specific casing and
  ignorable characters are not modelled.
- CommandLine.ParseInt32: the trailing NUL characters that `int.TryParse`
  accepts, and culture-specific sign symbols, are not modelled.
- The `*.dll` extension is fixed inside the `Listing` oracle, which returns
  the matching file names of a directory in listing order.
- `BuildModules`/`BuildModulesPaths`, the empty `Globals` class in
  Generator.cs, and the commented-out settings override in `GenerateOne` are
  not modelled. `GenerateOne` takes the settings and ignores them, as the
  code does.
- Emitter.GenerateOne: the file is a value, not a stream. Writes to the same
  path by two dependencies with the same `Name` (the later overwrites the
  earlier) are not modelled.
- The `ConsoleParser` object is not a class: it only changes its dictionary
  inside its constructor. It is modelled as the method `ParseArguments`
  returning the map.

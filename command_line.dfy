/** `ConsoleParser` and the argument checks of `Program.Main`. */
module CommandLine {
  import opened Common
  import opened Text
  import opened Manifest
  import opened Emitter
  import opened Driver

  /** Namespace used when `--namespace` is not given. */
  const DefaultPackageNamespace := "ConanPackages"

  /** How the parser reads one command-line argument. */
  datatype Argument =
    | Skipped                              // does not start with `--`
    | Pair(key: string, value: string)     // `--key=value`
    | Malformed                            // `--key` without `=`: `Substring(2, -1)` throws

  /** The reading of one argument: the key runs from after `--` to the first
      `=`, the value is everything after that `=`. */
  function Classify(arg: string): (a: Argument)
    ensures a.Skipped? <==> !StartsWith(arg, "--")
    ensures a.Malformed? <==> StartsWith(arg, "--") && '=' !in arg
    ensures a.Pair? ==> arg == "--" + a.key + "=" + a.value && '=' !in a.key
  {
    if !StartsWith(arg, "--") then Skipped
    else
      var equals := IndexOf(arg, '=');
      if equals == -1 then Malformed
      else
        assert arg[0] == '-' && arg[1] == '-';
        assert arg == arg[..2] + arg[2..equals] + [arg[equals]] + arg[equals + 1..];
        Pair(arg[2..equals], arg[equals + 1..])
  }

  /** `--key=value` is read back as exactly that key and value, whatever `=`
      the value holds, provided the key holds none. */
  lemma ClassifyPair(key: string, value: string)
    requires '=' !in key
    ensures Classify("--" + key + "=" + value) == Pair(key, value)
  {
    var arg := "--" + key + "=" + value;
    assert arg[..2] == "--";
    var equals := IndexOf(arg, '=');
    assert arg[2 + |key|] == '=';
    assert arg[2..equals] == key;
    assert arg[equals + 1..] == value;
  }

  /** Each argument as the parser reads it. */
  function Classified(args: seq<string>): (r: seq<Argument>)
    ensures |r| == |args| && forall i :: 0 <= i < |args| ==> r[i] == Classify(args[i])
  {
    seq(|args|, i requires 0 <= i < |args| => Classify(args[i]))
  }

  /** The dictionary built from the read arguments, or the exception thrown
      at the first malformed one. */
  function Collect(read: seq<Argument>): Result<map<string, string>> {
    if |read| == 0 then Ok(map[])
    else
      match Collect(read[..|read| - 1])
      case Throws(f) => Throws(f)
      case Ok(parsed) =>
        match read[|read| - 1]
        case Skipped => Ok(parsed)
        case Pair(key, value) => Ok(parsed[key := value])
        case Malformed => Throws(SubstringOutOfRange)
  }

  /** The dictionary the parser builds, or the exception it throws. */
  function ParsedArgs(args: seq<string>): Result<map<string, string>> {
    Collect(Classified(args))
  }

  /** Argument `a` assigns `key`. */
  predicate Assigns(a: Argument, key: string) {
    a.Pair? && a.key == key
  }

  /** Collecting throws exactly when some argument is malformed, and then it
      throws the substring range error. */
  lemma {:induction false} CollectFailure(read: seq<Argument>)
    ensures Collect(read).Throws? <==> exists i :: 0 <= i < |read| && read[i].Malformed?
    ensures Collect(read).Throws? ==> Collect(read).fault == SubstringOutOfRange
  {
    if |read| > 0 {
      var init := read[..|read| - 1];
      CollectFailure(init);
      if Collect(init).Throws? {
        var i :| 0 <= i < |init| && init[i].Malformed?;
        assert read[i] == init[i];
      }
      if exists i :: 0 <= i < |read| && read[i].Malformed? {
        var i :| 0 <= i < |read| && read[i].Malformed?;
        if i < |init| {
          assert init[i] == read[i];
        }
      }
    }
  }

  /** A key is collected exactly when some argument assigns it. */
  lemma {:induction false} CollectedKeys(read: seq<Argument>, key: string)
    requires Collect(read).Ok?
    ensures key in Collect(read).value <==> exists i :: 0 <= i < |read| && Assigns(read[i], key)
  {
    if |read| > 0 {
      var init := read[..|read| - 1];
      CollectedKeys(init, key);
      if !Assigns(read[|read| - 1], key) {
        if exists i :: 0 <= i < |read| && Assigns(read[i], key) {
          var i :| 0 <= i < |read| && Assigns(read[i], key);
          assert i < |init| && init[i] == read[i];
        }
        if exists i :: 0 <= i < |init| && Assigns(init[i], key) {
          var i :| 0 <= i < |init| && Assigns(init[i], key);
          assert read[i] == init[i];
        }
      }
    }
  }

  /** A collected key holds the value of the last argument that assigns it:
      later arguments overwrite earlier ones. */
  lemma {:induction false} CollectedLast(read: seq<Argument>, key: string)
    requires Collect(read).Ok? && key in Collect(read).value
    ensures exists i :: 0 <= i < |read| && read[i] == Pair(key, Collect(read).value[key])
                        && forall j :: i < j < |read| ==> !Assigns(read[j], key)
  {
    var init := read[..|read| - 1];
    var m := Collect(read).value;
    if Assigns(read[|read| - 1], key) {
      assert read[|read| - 1] == Pair(key, m[key]);
    } else {
      var p := Collect(init).value;
      assert key in p && m[key] == p[key];
      CollectedLast(init, key);
      var i :| 0 <= i < |init| && init[i] == Pair(key, p[key])
               && forall j :: i < j < |init| ==> !Assigns(init[j], key);
      assert read[i] == init[i];
      forall j | i < j < |read| ensures !Assigns(read[j], key) {
        if j < |init| {
          assert read[j] == init[j];
        }
      }
    }
  }

  /** Parsing throws exactly when some argument is `--` without `=`, and
      then it throws the substring range error. */
  lemma ParseFailure(args: seq<string>)
    ensures ParsedArgs(args).Throws? <==> exists i :: 0 <= i < |args| && Classify(args[i]).Malformed?
    ensures ParsedArgs(args).Throws? ==> ParsedArgs(args).fault == SubstringOutOfRange
  {
    var read := Classified(args);
    CollectFailure(read);
    if exists i :: 0 <= i < |read| && read[i].Malformed? {
      var i :| 0 <= i < |read| && read[i].Malformed?;
      assert Classify(args[i]).Malformed?;
    }
  }

  /** Arguments that do not start with `--` make no difference, wherever
      they stand. */
  lemma {:induction false} CollectSkipped(xs: seq<Argument>, ys: seq<Argument>)
    ensures Collect(xs + [Skipped] + ys) == Collect(xs + ys)
    decreases |ys|
  {
    if |ys| == 0 {
      assert xs + [Skipped] + ys == xs + [Skipped];
      assert (xs + [Skipped])[..|xs|] == xs;
      assert xs + ys == xs;
    } else {
      var yi := ys[..|ys| - 1];
      CollectSkipped(xs, yi);
      assert (xs + [Skipped] + ys)[..|xs + [Skipped] + ys| - 1] == xs + [Skipped] + yi;
      assert (xs + ys)[..|xs + ys| - 1] == xs + yi;
    }
  }

  lemma SkippedIgnored(xs: seq<string>, arg: string, ys: seq<string>)
    requires !StartsWith(arg, "--")
    ensures ParsedArgs(xs + [arg] + ys) == ParsedArgs(xs + ys)
  {
    ClassifiedAppend(xs + [arg], ys);
    ClassifiedAppend(xs, [arg]);
    ClassifiedAppend(xs, ys);
    assert Classified([arg]) == [Skipped];
    CollectSkipped(Classified(xs), Classified(ys));
  }

  /** Arguments are read one by one, so reading a concatenation concatenates. */
  lemma ClassifiedAppend(xs: seq<string>, ys: seq<string>)
    ensures Classified(xs + ys) == Classified(xs) + Classified(ys)
  {
  }

  /** Once a prefix of the arguments has thrown, the whole list throws the same. */
  lemma {:induction false} CollectStops(read: seq<Argument>, k: nat)
    requires k <= |read| && Collect(read[..k]).Throws?
    ensures Collect(read) == Collect(read[..k])
    decreases |read| - k
  {
    if k < |read| {
      assert read[..k + 1][..k] == read[..k];
      CollectStops(read, k + 1);
    } else {
      assert read[..k] == read;
    }
  }

  /** The `ConsoleParser` constructor: walks the arguments once, filling the
      dictionary. */
  method ParseArguments(args: seq<string>) returns (r: Result<map<string, string>>)
    ensures r == ParsedArgs(args)
  {
    ghost var read := Classified(args);
    var parsed: map<string, string> := map[];
    for i := 0 to |args|
      invariant Collect(read[..i]) == Ok(parsed)
    {
      assert read[..i + 1][..i] == read[..i];
      assert read[i] == Classify(args[i]);
      var arg := args[i];
      var isArg := StartsWith(arg, "--");
      if !isArg {
        continue;
      }
      var equals := IndexOf(arg, '=');
      if equals != -1 {
        assert arg[0] == '-' && arg[1] == '-';
        var key := arg[2..equals];
        var val := arg[equals + 1..];
        parsed := parsed[key := val];
      } else {
        CollectStops(read, i + 1);
        return Throws(SubstringOutOfRange);
      }
    }
    assert read[..|args|] == read;
    return Ok(parsed);
  }

  /** The string `GetOrDefault`: the stored value, or the default when the
      key is absent. */
  function GetOrDefault(parsed: map<string, string>, key: string, def: string): (r: string)
    ensures key in parsed ==> r == parsed[key]
    ensures key !in parsed ==> r == def
  {
    if key in parsed then parsed[key] else def
  }

  /** Looking a key up after parsing gives the value of the last argument
      that assigns it, or the default when none does. */
  lemma LookupArgument(args: seq<string>, key: string, def: string)
    requires ParsedArgs(args).Ok?
    ensures (forall i :: 0 <= i < |args| ==> !Assigns(Classify(args[i]), key)) ==>
              GetOrDefault(ParsedArgs(args).value, key, def) == def
    ensures (exists i :: 0 <= i < |args| && Assigns(Classify(args[i]), key)) ==>
              exists i :: 0 <= i < |args| && Classify(args[i]) == Pair(key, GetOrDefault(ParsedArgs(args).value, key, def))
                          && forall j :: i < j < |args| ==> !Assigns(Classify(args[j]), key)
  {
    var read := Classified(args);
    CollectedKeys(read, key);
    if key in ParsedArgs(args).value {
      CollectedLast(read, key);
    }
  }

  predicate IsDigit(c: char) { '0' <= c <= '9' }

  predicate AllDigits(s: string) {
    forall i :: 0 <= i < |s| ==> IsDigit(s[i])
  }

  /** The value of a string of decimal digits. */
  function DigitsValue(s: string): (n: nat)
    requires AllDigits(s)
  {
    if |s| == 0 then 0
    else DigitsValue(s[..|s| - 1]) * 10 + (s[|s| - 1] as int - '0' as int)
  }

  const Int32Min := -0x8000_0000
  const Int32Max := 0x7FFF_FFFF

  /** `int.TryParse` on an already trimmed string: an optional sign and at
      least one decimal digit, whose value fits in 32 bits. */
  function ParseInt32(s: string): (r: Option<int>)
    ensures r.Some? ==> Int32Min <= r.value <= Int32Max
    ensures r.Some? <==>
              || (|s| > 0 && AllDigits(s) && DigitsValue(s) <= Int32Max)
              || (|s| > 1 && s[0] == '+' && AllDigits(s[1..]) && DigitsValue(s[1..]) <= Int32Max)
              || (|s| > 1 && s[0] == '-' && AllDigits(s[1..]) && DigitsValue(s[1..]) <= -Int32Min)
    ensures r.Some? && AllDigits(s) ==> r.value == DigitsValue(s)
    ensures r.Some? && s[0] == '+' ==> AllDigits(s[1..]) && r.value == DigitsValue(s[1..])
    ensures r.Some? && s[0] == '-' ==> AllDigits(s[1..]) && r.value == -(DigitsValue(s[1..]) as int)
  {
    var signed := |s| > 0 && (s[0] == '-' || s[0] == '+');
    var digits := if signed then s[1..] else s;
    if |digits| == 0 || !AllDigits(digits) then None
    else
      var magnitude: int := DigitsValue(digits);
      var n := if signed && s[0] == '-' then -magnitude else magnitude;
      if Int32Min <= n <= Int32Max then Some(n) else None
  }

  /** The decimal digits of `n`, most significant first. */
  function Decimal(n: nat): (s: string)
    ensures |s| > 0 && AllDigits(s)
  {
    var d := ['0' + (n % 10) as char];
    if n < 10 then d else Decimal(n / 10) + d
  }

  /** `n.ToString()` for an integer `n`. */
  function IntText(n: int): string {
    if n < 0 then "-" + Decimal(-n) else Decimal(n)
  }

  lemma {:induction false} DecimalValue(n: nat)
    ensures DigitsValue(Decimal(n)) == n
  {
    var s := Decimal(n);
    if n >= 10 {
      DecimalValue(n / 10);
      assert s[..|s| - 1] == Decimal(n / 10);
    }
  }

  /** Parsing the text of an integer gives it back exactly when it fits in
      32 bits. */
  lemma ParseInt32RoundTrip(n: int)
    ensures ParseInt32(IntText(n)) == (if Int32Min <= n <= Int32Max then Some(n) else None)
  {
    var s := IntText(n);
    if n < 0 {
      DecimalValue(-n);
      assert s[1..] == Decimal(-n);
    } else {
      DecimalValue(n);
      assert IsDigit(s[0]);
    }
  }

  /** The bool `GetOrDefault`: the trimmed value `true` or `false`, else a
      32-bit integer that is true when positive, else the default. */
  function GetOrDefaultBool(parsed: map<string, string>, key: string, def: bool): (r: bool)
    ensures key !in parsed ==> r == def
    ensures r != def ==>
              && key in parsed
              && (Trim(parsed[key]) == "true" || Trim(parsed[key]) == "false" || ParseInt32(Trim(parsed[key])).Some?)
  {
    if key in parsed then
      var lowerCase := Trim(parsed[key]);
      if lowerCase == "true" then true
      else if lowerCase == "false" then false
      else
        match ParseInt32(lowerCase)
        case Some(n) => n > 0
        case None => def
    else def
  }

  /** A leading `+`, a leading `-` and leading zeros are accepted: `+5` is 5,
      `-0` is 0 and `007` is 7. */
  lemma SignedAndPaddedDigit(c: char)
    requires IsDigit(c)
    ensures ParseInt32(['+', c]) == Some(c as int - '0' as int)
    ensures ParseInt32(['-', c]) == Some('0' as int - c as int)
    ensures ParseInt32(['0', '0', c]) == Some(c as int - '0' as int)
  {
    assert [c][..0] == [];
    assert DigitsValue([c]) == c as int - '0' as int;
    assert ['+', c][1..] == [c] && ['-', c][1..] == [c];
    var z := ['0', '0', c];
    assert z[..2] == ['0', '0'] && ['0', '0'][..1] == ['0'] && ['0'][..0] == [];
    assert DigitsValue(['0', '0']) == 0;
    assert DigitsValue(z) == c as int - '0' as int;
  }

  /** A stored value whose trimmed text parses as a 32-bit integer decides
      the flag by its sign, whatever the default. */
  lemma FlagFromNumber(parsed: map<string, string>, key: string, def: bool, n: int)
    requires key in parsed && ParseInt32(Trim(parsed[key])) == Some(n)
    ensures GetOrDefaultBool(parsed, key, def) == (n > 0)
  {
    assert !IsDigit("true"[0]) && !IsDigit("false"[0]);
  }

  /** The text of an integer decides the flag by its sign, whatever the
      default; an integer too wide for 32 bits leaves the default. */
  lemma FlagFromIntText(parsed: map<string, string>, key: string, def: bool, n: int)
    requires key in parsed && parsed[key] == IntText(n)
    ensures GetOrDefaultBool(parsed, key, def) == (if Int32Min <= n <= Int32Max then n > 0 else def)
  {
    IntTextPlain(n);
    ParseInt32RoundTrip(n);
  }

  /** The text of an integer is its own trim and is neither `true` nor `false`. */
  lemma IntTextPlain(n: int)
    ensures Trim(IntText(n)) == IntText(n)
    ensures IntText(n) != "true" && IntText(n) != "false"
  {
    var s := IntText(n);
    var d := if n < 0 then Decimal(-n) else Decimal(n);
    assert s[0] == '-' || IsDigit(s[0]) by {
      assert s[0] == '-' || s[0] == d[0];
    }
    assert IsDigit(s[|s| - 1]) by {
      assert s[|s| - 1] == d[|d| - 1];
    }
    TrimUnpadded(s);
  }

  /** The words `true` and `false`, padded with white space or not, decide the flag. */
  lemma FlagFromWord(parsed: map<string, string>, key: string, def: bool)
    requires key in parsed && (Trim(parsed[key]) == "true" || Trim(parsed[key]) == "false")
    ensures GetOrDefaultBool(parsed, key, def) == (Trim(parsed[key]) == "true")
  {
  }

  /** What `Main` does with the arguments before generating anything. */
  datatype Launch =
    | ShowUsage                                 // no parsed argument: usage text, exit code -1
    | Failed(fault: Fault)                      // an exception escapes `Main`
    | Launched(parameters: GeneratorParameters) // the generator runs with these

  /** `--inputPath` is given and not blank. */
  predicate InputPathSet(parsed: map<string, string>) {
    !IsNullOrWhiteSpace(GetOrDefault(parsed, "inputPath", ""))
  }

  /** `--outputPath` is given and not blank. */
  predicate OutputPathSet(parsed: map<string, string>) {
    !IsNullOrWhiteSpace(GetOrDefault(parsed, "outputPath", ""))
  }

  /** `Main`'s checks, in order: usage on no argument, then the input path
      (set, then an existing directory), then the output path, then a
      supplied namespace against the unanchored identifier pattern. */
  function Startup(args: seq<string>, directoryExists: string -> bool): (launch: Launch)
    ensures launch == Failed(SubstringOutOfRange) <==> ParsedArgs(args).Throws?
    ensures launch == ShowUsage <==> ParsedArgs(args) == Ok(map[])
    ensures launch == Failed(InputPathNotSet) <==>
              ParsedArgs(args).Ok? && ParsedArgs(args).value != map[] && !InputPathSet(ParsedArgs(args).value)
    ensures launch == Failed(InputPathNotDirectory) <==>
              ParsedArgs(args).Ok? && ParsedArgs(args).value != map[] && InputPathSet(ParsedArgs(args).value)
              && !directoryExists(ParsedArgs(args).value["inputPath"])
    ensures launch == Failed(OutputPathNotSet) <==>
              ParsedArgs(args).Ok? && ParsedArgs(args).value != map[] && InputPathSet(ParsedArgs(args).value)
              && directoryExists(ParsedArgs(args).value["inputPath"]) && !OutputPathSet(ParsedArgs(args).value)
    ensures launch == Failed(NamespaceInvalid) <==>
              ParsedArgs(args).Ok? && ParsedArgs(args).value != map[] && InputPathSet(ParsedArgs(args).value)
              && directoryExists(ParsedArgs(args).value["inputPath"]) && OutputPathSet(ParsedArgs(args).value)
              && "namespace" in ParsedArgs(args).value && !ContainsIdentStart(ParsedArgs(args).value["namespace"])
    ensures launch.Launched? <==>
              ParsedArgs(args).Ok? && ParsedArgs(args).value != map[] && InputPathSet(ParsedArgs(args).value)
              && directoryExists(ParsedArgs(args).value["inputPath"]) && OutputPathSet(ParsedArgs(args).value)
              && ("namespace" in ParsedArgs(args).value ==> ContainsIdentStart(ParsedArgs(args).value["namespace"]))
    ensures launch.Launched? ==>
              var parsed := ParsedArgs(args).value;
              launch.parameters == GeneratorParameters(parsed["inputPath"], parsed["outputPath"],
                                                       GetOrDefault(parsed, "namespace", DefaultPackageNamespace))
    ensures launch.Launched? ==>
              && !IsNullOrWhiteSpace(launch.parameters.workingDirectory)
              && directoryExists(launch.parameters.workingDirectory)
              && !IsNullOrWhiteSpace(launch.parameters.outputDirectory)
              && ContainsIdentStart(launch.parameters.packageNamespace)
  {
    match ParsedArgs(args)
    case Throws(f) =>
      ParseFailure(args);
      Failed(f)
    case Ok(parsed) =>
      if parsed == map[] then ShowUsage
      else
        var inputPath := GetOrDefault(parsed, "inputPath", "");
        if IsNullOrWhiteSpace(inputPath) then Failed(InputPathNotSet)
        else if !directoryExists(inputPath) then Failed(InputPathNotDirectory)
        else
          var outputPath := GetOrDefault(parsed, "outputPath", "");
          if IsNullOrWhiteSpace(outputPath) then Failed(OutputPathNotSet)
          else
            var packageNamespace := GetOrDefault(parsed, "namespace", DefaultPackageNamespace);
            if "namespace" in parsed && !ContainsIdentStart(packageNamespace) then Failed(NamespaceInvalid)
            else
              assert IsIdentStart(DefaultPackageNamespace[0]);
              Launched(GeneratorParameters(inputPath, outputPath, packageNamespace))
  }

  /** How the process ends. */
  datatype Exit =
    | UsageShown          // `Environment.Exit(-1)` after the usage text
    | Crashed(fault: Fault)
    | Completed(generated: nat)

  /** `Program.Main`: parse, check, then run the generator. */
  method Run(args: seq<string>, directoryExists: string -> bool, readManifest: ManifestReader,
             readLines: LineReader, listing: Listing)
    returns (files: seq<Emitted>, exit: Exit)
    ensures Startup(args, directoryExists) == ShowUsage ==> files == [] && exit == UsageShown
    ensures Startup(args, directoryExists).Failed? ==>
              files == [] && exit == Crashed(Startup(args, directoryExists).fault)
    ensures Startup(args, directoryExists).Launched? ==>
              var p := Startup(args, directoryExists).parameters;
              var buildInfo := readManifest(p.workingDirectory + "/conanbuildinfo.json");
              var ignore := IgnoreList(readLines(p.workingDirectory + "/ignorelibs.txt"));
              && (buildInfo.None? ==> files == [] && exit == Crashed(ManifestNotJson))
              && (buildInfo.Some? && buildInfo.value.dependencies.None? ==>
                    files == [] && exit == Crashed(DependenciesMissing))
              && (buildInfo.Some? && buildInfo.value.dependencies.Some? ==>
                    var deps := buildInfo.value.dependencies.value;
                    && files == Emissions(deps, Renderer(ignore, p.outputDirectory, p.packageNamespace, listing))
                    && exit == match Outcome(files, deps)
                               case Ok(n) => Completed(n)
                               case Throws(f) => Crashed(f))
  {
    var parsed := ParseArguments(args);
    if parsed.Throws? {
      return [], Crashed(parsed.fault);
    }
    var launch := Startup(args, directoryExists);
    match launch
    case ShowUsage =>
      return [], UsageShown;
    case Failed(f) =>
      return [], Crashed(f);
    case Launched(parameters) =>
      var outcome;
      files, outcome := Generate(parameters, readManifest, readLines, listing);
      match outcome
      case Ok(n) => exit := Completed(n);
      case Throws(f) => exit := Crashed(f);
  }
}

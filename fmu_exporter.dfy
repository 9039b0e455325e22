/**
 * The FMU exporter (FmuExporter): the gates that decide whether an FMU is
 * produced at all, and the string rules of the packaging plan: the debug
 * settings, the lines of resources/config.txt, the native binary paths and
 * the paths of the model sources inside the archive. Copying, compressing
 * and the asynchronous job are outside the model.
 */
module FmuExporter {
  import opened Wrappers
  import opened Text
  import opened Vdm
  import ImportSynth

  // ---------------------------------------------------------------------------
  // The gates of exportFmu

  predicate IsStaticInstanceVariable(d: Definition)
  {
    d.kind == InstanceVariableDefinition && d.isStatic
  }

  function HasStaticInstanceVariable(defs: seq<Definition>): (r: bool)
    ensures r <==> exists j :: 0 <= j < |defs| && IsStaticInstanceVariable(defs[j])
  {
    if defs == [] then false
    else if IsStaticInstanceVariable(defs[0]) then true
    else
      var r := HasStaticInstanceVariable(defs[1..]);
      assert forall j :: 1 <= j < |defs| ==> defs[j] == defs[1..][j - 1];
      r
  }

  /** HWInterfaceHasStatics: some class named HardwareInterface declares a static instance variable. */
  function HWInterfaceHasStatics(classes: seq<ClassDefinition>): (r: bool)
    ensures r <==> exists k, j :: 0 <= k < |classes| && classes[k].name == ImportSynth.HardwareInterface
                                  && 0 <= j < |classes[k].definitions| && IsStaticInstanceVariable(classes[k].definitions[j])
  {
    if classes == [] then false
    else if classes[0].name == ImportSynth.HardwareInterface && HasStaticInstanceVariable(classes[0].definitions) then true
    else
      var r := HWInterfaceHasStatics(classes[1..]);
      assert forall k :: 1 <= k < |classes| ==> classes[k] == classes[1..][k - 1];
      r
  }

  /** A class that is not a system class, named World, with an operation (explicit or implicit) named run. */
  predicate IsWorldWithRun(c: ClassDefinition)
    ensures IsWorldWithRun(c) ==> c.name == "World" && !c.isSystem && |c.definitions| > 0
  {
    !c.isSystem && c.name == "World"
    && exists j :: 0 <= j < |c.definitions| && IsOperation(c.definitions[j]) && c.definitions[j].name == "run"
  }

  predicate HasWorldRun(classes: seq<ClassDefinition>)
  {
    exists k :: 0 <= k < |classes| && IsWorldWithRun(classes[k])
  }

  /** Two annotations share an export name (two absent names count as equal, as HashMap's null key does). */
  predicate HasDuplicateNames(anns: seq<Annotation>)
  {
    exists p, q :: 0 <= p < q < |anns| && anns[p].name == anns[q].name
  }

  /** exportNames after the loop: every name mapped to the last annotation that carries it. */
  function NameMap(anns: seq<Annotation>): map<Option<string>, Annotation>
  {
    if anns == [] then map[]
    else NameMap(anns[..|anns| - 1])[anns[|anns| - 1].name := anns[|anns| - 1]]
  }

  lemma {:induction false} NameMapKeys(anns: seq<Annotation>)
    ensures forall n :: n in NameMap(anns) <==> exists k :: 0 <= k < |anns| && anns[k].name == n
  {
    if anns != [] {
      var init := anns[..|anns| - 1];
      NameMapKeys(init);
      assert forall k :: 0 <= k < |init| ==> init[k] == anns[k];
    }
  }

  /** A duplicate report: the annotation seen again and the one it duplicates (the latest earlier one). */
  datatype DuplicateReport = DuplicateReport(duplicate: Annotation, original: Annotation)

  function DuplicateReports(anns: seq<Annotation>): seq<DuplicateReport>
  {
    if anns == [] then []
    else
      var init, a := anns[..|anns| - 1], anns[|anns| - 1];
      DuplicateReports(init) + (if a.name in NameMap(init) then [DuplicateReport(a, NameMap(init)[a.name])] else [])
  }

  lemma HasDuplicateNamesStep(anns: seq<Annotation>, i: nat)
    requires i < |anns|
    ensures HasDuplicateNames(anns[..i + 1]) <==>
              HasDuplicateNames(anns[..i]) || exists k :: 0 <= k < i && anns[k].name == anns[i].name
  {
    var next := anns[..i + 1];
    if HasDuplicateNames(next) && !HasDuplicateNames(anns[..i]) {
      var p, q :| 0 <= p < q < |next| && next[p].name == next[q].name;
    }
    if HasDuplicateNames(anns[..i]) {
      var p, q :| 0 <= p < q < i && anns[..i][p].name == anns[..i][q].name;
      assert next[p] == anns[p] && next[q] == anns[q];
    }
    if exists k :: 0 <= k < i && anns[k].name == anns[i].name {
      var k :| 0 <= k < i && anns[k].name == anns[i].name;
      assert next[k] == anns[k] && next[i] == anns[i];
    }
  }

  /** What one more annotation does to the loop's map, flag and reports. */
  lemma FindDuplicatesStep(anns: seq<Annotation>, i: nat, exportNames: map<Option<string>, Annotation>,
                           hasDuplicates: bool, reports: seq<DuplicateReport>)
    requires i < |anns|
    requires exportNames == NameMap(anns[..i])
    requires hasDuplicates <==> HasDuplicateNames(anns[..i])
    requires reports == DuplicateReports(anns[..i])
    requires hasDuplicates <==> reports != []
    ensures exportNames[anns[i].name := anns[i]] == NameMap(anns[..i + 1])
    ensures (hasDuplicates || anns[i].name in exportNames) <==> HasDuplicateNames(anns[..i + 1])
    ensures anns[i].name in exportNames ==>
              reports + [DuplicateReport(anns[i], exportNames[anns[i].name])] == DuplicateReports(anns[..i + 1])
    ensures anns[i].name !in exportNames ==> reports == DuplicateReports(anns[..i + 1])
  {
    var next := anns[..i + 1];
    assert next[..i] == anns[..i] && next[i] == anns[i];
    NameMapKeys(anns[..i]);
    HasDuplicateNamesStep(anns, i);
    if anns[i].name in exportNames {
      var k :| 0 <= k < i && anns[..i][k].name == anns[i].name;
      assert anns[k].name == anns[i].name;
    }
  }

  /**
   * The duplicate-name loop: looks every export name up in a map, reports the
   * annotation it duplicates, and puts the new annotation in its place.
   */
  method FindDuplicates(anns: seq<Annotation>) returns (hasDuplicates: bool, reports: seq<DuplicateReport>)
    ensures hasDuplicates <==> HasDuplicateNames(anns)
    ensures reports == DuplicateReports(anns)
    ensures hasDuplicates <==> reports != []
  {
    var exportNames: map<Option<string>, Annotation> := map[];
    hasDuplicates := false;
    reports := [];
    for i := 0 to |anns|
      invariant exportNames == NameMap(anns[..i])
      invariant hasDuplicates <==> HasDuplicateNames(anns[..i])
      invariant reports == DuplicateReports(anns[..i])
      invariant hasDuplicates <==> reports != []
    {
      var value := anns[i];
      FindDuplicatesStep(anns, i, exportNames, hasDuplicates, reports);
      if value.name in exportNames {
        reports := reports + [DuplicateReport(value, exportNames[value.name])];
        hasDuplicates := true;
      }
      exportNames := exportNames[value.name := value];
    }
    assert anns[..|anns|] == anns;
  }

  datatype ExportRefusal = TypeErrors | MissingWorldRun | DuplicateExportNames | StaticHardwareInterface

  /**
   * The checks exportFmu makes before generating anything, in their order:
   * type errors, no World class with a run operation, duplicate export names,
   * static instance variables in HardwareInterface. On success the result is
   * the system class handed to the generator (the last one in the list).
   */
  method ExportGates(typeChecks: bool, classes: seq<ClassDefinition>, anns: seq<Annotation>)
    returns (r: Result<Option<ClassDefinition>, ExportRefusal>)
    ensures !typeChecks ==> r == Failure(TypeErrors)
    ensures typeChecks && !HasWorldRun(classes) ==> r == Failure(MissingWorldRun)
    ensures typeChecks && HasWorldRun(classes) && HasDuplicateNames(anns) ==> r == Failure(DuplicateExportNames)
    ensures typeChecks && HasWorldRun(classes) && !HasDuplicateNames(anns) && HWInterfaceHasStatics(classes) ==>
              r == Failure(StaticHardwareInterface)
    ensures r.Success? <==>
              typeChecks && HasWorldRun(classes) && !HasDuplicateNames(anns) && !HWInterfaceHasStatics(classes)
    ensures r.Success? ==> r.value == ImportSynth.LastSystemClass(classes)
  {
    if !typeChecks {
      return Failure(TypeErrors);
    }
    var system: Option<ClassDefinition> := None;
    var hasWorldRun := false;
    for i := 0 to |classes|
      invariant system == ImportSynth.LastSystemClass(classes[..i])
      invariant hasWorldRun <==> HasWorldRun(classes[..i])
    {
      var cDef := classes[i];
      assert classes[..i + 1][..i] == classes[..i] && classes[..i + 1][i] == cDef;
      if cDef.isSystem {
        system := Some(cDef);
      } else if cDef.name == "World" {
        for j := 0 to |cDef.definitions|
          invariant hasWorldRun <==>
                      HasWorldRun(classes[..i])
                      || exists m :: 0 <= m < j && IsOperation(cDef.definitions[m]) && cDef.definitions[m].name == "run"
        {
          var def := cDef.definitions[j];
          if IsOperation(def) && def.name == "run" {
            hasWorldRun := true;
          }
        }
      }
      assert HasWorldRun(classes[..i + 1]) <==> HasWorldRun(classes[..i]) || IsWorldWithRun(cDef);
    }
    assert classes[..|classes|] == classes;
    if !hasWorldRun {
      return Failure(MissingWorldRun);
    }
    var hasDuplicates, reports := FindDuplicates(anns);
    if hasDuplicates {
      return Failure(DuplicateExportNames);
    }
    if HWInterfaceHasStatics(classes) {
      return Failure(StaticHardwareInterface);
    }
    return Success(system);
  }

  // ---------------------------------------------------------------------------
  // Debug settings and config.txt

  datatype DebugSettings = DebugSettings(port: int, suspend: string)

  datatype PlanError =
    | NumberFormat(text: string)    // Integer.parseInt of the debug port
    | IndexOutOfBounds(path: string) // substring past the end of a specification file path

  const DefaultDebugPort: int := 4000

  /**
   * The tool debug configuration "P=S": with more than one '='-separated part,
   * P is the port and the suspend flag is "y" when S is y in either case;
   * otherwise port 4000 and "n".
   */
  function DebugSettingsOf(toolDebugConfig: string): (r: Result<DebugSettings, PlanError>)
    ensures r.Success? ==> r.value.suspend == "y" || r.value.suspend == "n"
    ensures r.Success? ==> MinInt <= r.value.port <= MaxInt
    ensures var configs := JavaSplit(toolDebugConfig, '=');
            |configs| <= 1 ==> r == Success(DebugSettings(DefaultDebugPort, "n"))
    ensures var configs := JavaSplit(toolDebugConfig, '=');
            |configs| > 1 ==> (r.Failure? <==> ParseInt(configs[0]).None?)
    ensures var configs := JavaSplit(toolDebugConfig, '=');
            r.Failure? ==> |configs| > 1 && r.error == NumberFormat(configs[0])
    ensures var configs := JavaSplit(toolDebugConfig, '=');
            |configs| > 1 && r.Success? ==>
              r.value.port == ParseInt(configs[0]).value
              && (r.value.suspend == "y" <==> configs[1] == "y" || configs[1] == "Y")
  {
    var configs := JavaSplit(toolDebugConfig, '=');
    if |configs| > 1 then
      LowerIsY(configs[1]);
      match ParseInt(configs[0])
      case None => Failure(NumberFormat(configs[0]))
      case Some(port) => Success(DebugSettings(port, if LowerString(configs[1]) == "y" then "y" else "n"))
    else Success(DebugSettings(DefaultDebugPort, "n"))
  }

  /** A configuration without '=' keeps the defaults. */
  lemma DebugSettingsDefault(toolDebugConfig: string)
    requires '=' !in toolDebugConfig
    ensures DebugSettingsOf(toolDebugConfig) == Success(DebugSettings(DefaultDebugPort, "n"))
  {
  }

  /** "P=S" with a 32-bit decimal P and a non-empty S gives port P, suspending exactly for S in {"y", "Y"}. */
  lemma DebugSettingsOfPair(port: int, s: string)
    requires MinInt <= port <= MaxInt
    requires '=' !in s && s != ""
    ensures DebugSettingsOf(IntToString(port) + "=" + s) ==
              Success(DebugSettings(port, if s == "y" || s == "Y" then "y" else "n"))
  {
    var p := IntToString(port);
    NoEqualsInIntToString(port);
    JavaSplitPair(p, '=', s);
    assert p + "=" + s == p + ['='] + s;
    ParseIntOfIntToString(port);
    LowerIsY(s);
  }

  lemma NoEqualsInIntToString(i: int)
    ensures '=' !in IntToString(i)
  {
    IntToStringCharacters(i);
  }

  /** The launcher arguments that end config.txt. */
  const LauncherLines: seq<string> := ["-cp", "*", "org.crescendo.fmi.ShmServer", "-p"]

  /** The JDWP agent options up to the debug port. */
  const JdwpAddress: string := "-Xrunjdwp:" + "server=y,transport=dt_socket," + "address="

  /** The JDWP agent argument that makes the tool wrapper's JVM listen for a debugger. */
  function DebugLine(d: DebugSettings): (r: string)
    ensures StartsWith(r, JdwpAddress)
  {
    var r := JdwpAddress + (IntToString(d.port) + ",suspend=" + d.suspend);
    assert r[..|JdwpAddress|] == JdwpAddress;
    r
  }

  /** The lines of config.txt; the two debug lines only when debugging is enabled. */
  function ConfigLines(debug: Option<DebugSettings>): (r: seq<string>)
    ensures |r| == if debug.Some? then 8 else 6
    ensures r[0] == "false" && r[1] == "java"
    ensures debug.Some? ==> r[2] == "-Xdebug" && r[3] == DebugLine(debug.value)
    ensures r[|r| - 4..] == LauncherLines
  {
    ["false", "java"]
    + (match debug
       case Some(d) => ["-Xdebug", DebugLine(d)]
       case None => [])
    + LauncherLines
  }

  lemma JoinWithSnoc(parts: seq<string>, p: string, sep: char)
    requires |parts| >= 1
    ensures JoinWith(parts + [p], sep) == JoinWith(parts, sep) + [sep] + p
    decreases |parts|
  {
    if |parts| == 1 {
      assert JoinWith(parts + [p], sep) == parts[0] + [sep] + JoinWith([p], sep);
    } else {
      assert (parts + [p])[1..] == parts[1..] + [p];
      JoinWithSnoc(parts[1..], p, sep);
    }
  }

  /** Appending a line and a newline to the text of some lines gives the text of one line more. */
  lemma AppendLine(sb: string, lines: seq<string>, line: string)
    requires |lines| >= 1 && sb == JoinWith(lines, '\n') + "\n"
    ensures sb + (line + "\n") == JoinWith(lines + [line], '\n') + "\n"
  {
    JoinWithSnoc(lines, line, '\n');
  }

  lemma AppendLast(sb: string, lines: seq<string>, line: string)
    requires |lines| >= 1 && sb == JoinWith(lines, '\n') + "\n"
    ensures sb + line == JoinWith(lines + [line], '\n')
  {
    JoinWithSnoc(lines, line, '\n');
  }

  /** The launcher part of the config.txt builder: its four lines, the last without newline. */
  method AppendLauncherLines(sb: string, ghost lines: seq<string>) returns (text: string)
    requires |lines| >= 1 && sb == JoinWith(lines, '\n') + "\n"
    ensures text == JoinWith(lines + LauncherLines, '\n')
  {
    ghost var done := lines;
    text := sb;
    AppendLine(text, done, "-cp");
    text, done := text + "-cp\n", done + ["-cp"];
    AppendLine(text, done, "*");
    text, done := text + "*\n", done + ["*"];
    AppendLine(text, done, "org.crescendo.fmi.ShmServer");
    text, done := text + "org.crescendo.fmi.ShmServer\n", done + ["org.crescendo.fmi.ShmServer"];
    AppendLast(text, done, "-p");
    text, done := text + "-p", done + ["-p"];
    assert done == lines + LauncherLines;
  }

  /**
   * Builds config.txt by appending one line at a time: the lines joined with
   * newlines and no newline after the last one.
   */
  method ConfigText(debugEnabled: bool, toolDebugConfig: string) returns (r: Result<string, PlanError>)
    ensures !debugEnabled ==> r == Success(JoinWith(ConfigLines(None), '\n'))
    ensures debugEnabled ==> (r.Failure? <==> DebugSettingsOf(toolDebugConfig).Failure?)
    ensures debugEnabled && r.Success? ==>
              r.value == JoinWith(ConfigLines(Some(DebugSettingsOf(toolDebugConfig).value)), '\n')
  {
    ghost var lines := ["false"];
    var sb := "false\n";
    AppendLine(sb, lines, "java");
    sb, lines := sb + "java\n", lines + ["java"];
    var debug: Option<DebugSettings> := None;
    if debugEnabled {
      AppendLine(sb, lines, "-Xdebug");
      sb, lines := sb + "-Xdebug\n", lines + ["-Xdebug"];
      var settings := DebugSettingsOf(toolDebugConfig);
      if settings.Failure? {
        return Failure(settings.error);
      }
      debug := Some(settings.value);
      var line := DebugLine(settings.value);
      AppendLine(sb, lines, line);
      sb, lines := sb + (line + "\n"), lines + [line];
    }
    assert lines == ["false", "java"] + (match debug case Some(d) => ["-Xdebug", DebugLine(d)] case None => []);
    assert lines + LauncherLines == ConfigLines(debug);
    var text := AppendLauncherLines(sb, lines);
    return Success(text);
  }

  /**
   * The debug line carries its settings: the text after "address=" and before
   * ",suspend=" reads back as the port, and the line ends with the suspend flag.
   */
  lemma DebugLineCarriesSettings(d: DebugSettings)
    requires MinInt <= d.port <= MaxInt
    ensures var r := DebugLine(d);
            var tail := ",suspend=" + d.suspend;
            |JdwpAddress| + |tail| <= |r|
            && r[|r| - |tail|..] == tail
            && ParseInt(r[|JdwpAddress|..|r| - |tail|]) == Some(d.port)
  {
    var r := DebugLine(d);
    var port := IntToString(d.port);
    var tail := ",suspend=" + d.suspend;
    assert r == JdwpAddress + port + tail;
    assert r[|JdwpAddress|..|r| - |tail|] == port;
    assert r[|r| - |tail|..] == tail;
    ParseIntOfIntToString(d.port);
  }

  /** A config.txt debug line holds the port and suspend flag parsed from the tool's debug setting. */
  lemma ConfigDebugLineCarriesSettings(toolDebugConfig: string)
    requires DebugSettingsOf(toolDebugConfig).Success?
    ensures var d := DebugSettingsOf(toolDebugConfig).value;
            var r := ConfigLines(Some(d))[3];
            var tail := ",suspend=" + d.suspend;
            |JdwpAddress| + |tail| <= |r|
            && r[|r| - |tail|..] == tail
            && ParseInt(r[|JdwpAddress|..|r| - |tail|]) == Some(d.port)
  {
    DebugLineCarriesSettings(DebugSettingsOf(toolDebugConfig).value);
  }

  lemma DebugLineHasNoNewline(d: DebugSettings)
    requires '\n' !in d.suspend
    ensures '\n' !in DebugLine(d)
  {
    IntToStringCharacters(d.port);
    assert '\n' !in "-Xrunjdwp:" && '\n' !in "server=y,transport=dt_socket," && '\n' !in "address=";
    assert '\n' !in IntToString(d.port);
    assert '\n' !in ",suspend=";
  }

  lemma ConfigLinesHaveNoNewline(debug: Option<DebugSettings>)
    requires debug.Some? ==> '\n' !in debug.value.suspend
    ensures forall k :: 0 <= k < |ConfigLines(debug)| ==> '\n' !in ConfigLines(debug)[k]
  {
    var r := ConfigLines(debug);
    forall k | 0 <= k < |r|
      ensures '\n' !in r[k]
    {
      if k < 2 {
        assert r[k] == "false" || r[k] == "java";
      } else if debug.Some? && k < 4 {
        if k == 3 {
          DebugLineHasNoNewline(debug.value);
        }
      } else {
        assert r[k] == LauncherLines[k - (|r| - 4)];
        assert forall j :: 0 <= j < |LauncherLines| ==> '\n' !in LauncherLines[j];
      }
    }
  }

  /** Reading config.txt back line by line gives exactly its lines. */
  lemma ConfigTextSplitsIntoLines(debug: Option<DebugSettings>)
    requires debug.Some? ==> '\n' !in debug.value.suspend
    ensures SplitAll(JoinWith(ConfigLines(debug), '\n'), '\n') == ConfigLines(debug)
  {
    ConfigLinesHaveNoNewline(debug);
    SplitAllJoin(ConfigLines(debug), '\n');
  }

  // ---------------------------------------------------------------------------
  // Native binaries

  const BinaryFolders: seq<string> := ["darwin64", "linux64", "linux32", "win32", "win64"]

  /** The library extension of a platform folder: .dylib for darwin, .dll for win, .so otherwise. */
  function BinaryExtension(folder: string): (r: string)
    ensures r == ".dll" || r == ".dylib" || r == ".so"
  {
    var extension :=
      if StartsWith(folder, "darwin") then ".dylib"
      else if StartsWith(folder, "linux") then ".so"
      else ".so";
    if StartsWith(folder, "win") then ".dll" else extension
  }

  lemma BinaryExtensionByPrefix(folder: string)
    ensures StartsWith(folder, "win") ==> BinaryExtension(folder) == ".dll"
    ensures StartsWith(folder, "darwin") ==> BinaryExtension(folder) == ".dylib"
    ensures !StartsWith(folder, "win") && !StartsWith(folder, "darwin") ==> BinaryExtension(folder) == ".so"
  {
    if StartsWith(folder, "darwin") {
      assert folder[0] == folder[..6][0] == 'd';
    }
  }

  /** A bundled resource copied into the FMU. */
  datatype ResourceCopy = ResourceCopy(resource: string, target: string)

  function BinaryCopy(folder: string, name: string): ResourceCopy
  {
    var extension := BinaryExtension(folder);
    ResourceCopy("lib/vdm-tool-wrapper/binaries/" + folder + "/vdm-tool-wrapper" + extension,
                 "binaries/" + folder + "/" + name + extension)
  }

  /** The copies made for the given folders: one per folder whose wrapper library is bundled, in folder order. */
  function BinaryPlan(folders: seq<string>, name: string, bundled: set<string>): seq<ResourceCopy>
  {
    if folders == [] then []
    else
      var c := BinaryCopy(folders[|folders| - 1], name);
      BinaryPlan(folders[..|folders| - 1], name, bundled) + (if c.resource in bundled then [c] else [])
  }

  /** The native part of copyFmuResources; bundled is the set of resources the class loader finds. */
  method PlanBinaries(name: string, bundled: set<string>) returns (copies: seq<ResourceCopy>)
    ensures copies == BinaryPlan(BinaryFolders, name, bundled)
  {
    copies := [];
    for i := 0 to |BinaryFolders|
      invariant copies == BinaryPlan(BinaryFolders[..i], name, bundled)
    {
      var folderName := BinaryFolders[i];
      assert BinaryFolders[..i + 1][..i] == BinaryFolders[..i];
      var extension := BinaryExtension(folderName);
      var resource := "lib/vdm-tool-wrapper/binaries/" + folderName + "/vdm-tool-wrapper" + extension;
      if resource in bundled {
        copies := copies + [ResourceCopy(resource, "binaries/" + folderName + "/" + name + extension)];
      }
    }
    assert BinaryFolders[..|BinaryFolders|] == BinaryFolders;
  }

  /** Every folder's wrapper library is among the bundled resources. */
  predicate AllBundled(folders: seq<string>, name: string, bundled: set<string>)
  {
    forall k :: 0 <= k < |folders| ==> BinaryCopy(folders[k], name).resource in bundled
  }

  lemma BinaryPlanTargets(folders: seq<string>, name: string, bundled: set<string>)
    requires AllBundled(folders, name, bundled)
    ensures |BinaryPlan(folders, name, bundled)| == |folders|
    ensures forall k :: 0 <= k < |folders| ==>
              BinaryPlan(folders, name, bundled)[k].target == "binaries/" + folders[k] + "/" + name + BinaryExtension(folders[k])
  {
    if folders != [] {
      BinaryPlanTargets(folders[..|folders| - 1], name, bundled);
    }
  }

  /** The five platform folders get the macOS, Linux and Windows library extensions. */
  lemma DarwinExtension()
    ensures BinaryExtension("darwin64") == ".dylib"
  {
    BinaryExtensionByPrefix("darwin64");
  }

  lemma LinuxExtension(folder: string)
    requires folder == "linux64" || folder == "linux32"
    ensures BinaryExtension(folder) == ".so"
  {
    BinaryExtensionByPrefix(folder);
    assert folder[..3][0] != "win"[0] && folder[..6][0] != "darwin"[0];
  }

  lemma WinExtension(folder: string)
    requires folder == "win32" || folder == "win64"
    ensures BinaryExtension(folder) == ".dll"
  {
    BinaryExtensionByPrefix(folder);
  }

  // ---------------------------------------------------------------------------
  // Model sources

  /**
   * The path of a specification file inside resources/model: below the source
   * root the root and one separator are dropped; elsewhere everything up to and
   * including the first separator. A path equal to the root runs past its end.
   */
  function ModelSourcePath(absolute: string, root: string, separator: char): (r: Result<string, PlanError>)
    ensures r.Failure? <==> StartsWith(absolute, root) && |absolute| == |root|
  {
    if StartsWith(absolute, root) then
      if |root| + 1 <= |absolute| then Success(absolute[|root| + 1..]) else Failure(IndexOutOfBounds(absolute))
    else
      var index := IndexOf(absolute, separator);
      Success(absolute[index + 1..])
  }

  /** A file below the root comes back as its path relative to the root. */
  lemma ModelSourcePathBelowRoot(root: string, separator: char, relative: string)
    ensures ModelSourcePath(root + [separator] + relative, root, separator) == Success(relative)
  {
    var absolute := root + [separator] + relative;
    assert absolute[..|root|] == root;
    assert absolute[|root| + 1..] == relative;
  }

  /** Elsewhere, the part after the first separator is kept; a path without separator is kept whole. */
  lemma ModelSourcePathElsewhere(first: string, separator: char, rest: string, root: string)
    requires separator !in first
    requires !StartsWith(first + [separator] + rest, root)
    ensures ModelSourcePath(first + [separator] + rest, root, separator) == Success(rest)
  {
    var absolute := first + [separator] + rest;
    assert absolute[|first|] == separator;
    assert absolute[..|first|] == first;
    assert IndexOf(absolute, separator) == |first|;
    assert absolute[|first| + 1..] == rest;
  }

  /** The copies of the specification files into resources/model, in file order. */
  method PlanModelSources(specFiles: seq<string>, root: string, separator: char) returns (r: Result<seq<string>, PlanError>)
    ensures r.Failure? <==> exists k :: 0 <= k < |specFiles| && ModelSourcePath(specFiles[k], root, separator).Failure?
    ensures r.Success? ==> |r.value| == |specFiles|
    ensures r.Success? ==> forall k :: 0 <= k < |specFiles| ==>
              r.value[k] == "resources/model/" + ModelSourcePath(specFiles[k], root, separator).value
  {
    var targets: seq<string> := [];
    for i := 0 to |specFiles|
      invariant |targets| == i
      invariant forall k :: 0 <= k < i ==> ModelSourcePath(specFiles[k], root, separator).Success?
      invariant forall k :: 0 <= k < i ==> targets[k] == "resources/model/" + ModelSourcePath(specFiles[k], root, separator).value
    {
      var path := ModelSourcePath(specFiles[i], root, separator);
      if path.Failure? {
        return Failure(path.error);
      }
      targets := targets + ["resources/model/" + path.value];
    }
    return Success(targets);
  }
}

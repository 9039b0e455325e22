# Overture FMI bridge: import synthesiser, export generator, export gates, stepping engine

This project is a Dafny model of the core of the Overture/INTO-CPS bridge between VDM-RT models and the
FMI 2.0 co-simulation interchange format (Functional Mock-up Interface 2.0, section 2.2.7 for
ScalarVariable, causality, variability and initial, and section 2.2.8 for the ModelStructure output list).
It also proves properties of that model. It covers five parts:

- **Import synthesiser** (`ImportSynth`, `import_synth.dfy`). This is `ImportModelDescriptionProcesser`.
  - The FMI enumerations and their `valueOfIgnorecase`, plus the capitalising attribute reader.
  - The placement check (`validate`) and the already-bound filter (`filter`).
  - The type mapping (`toVdmType`, `getValueOrDefault`) and the identifier sanitiser (`toVdm`).
  - The scaffolding gates (`checkCreateWorld`, `checkCreateSystem`, `checkAndCreateStructure`).
  - The three-section text splice of `updateHardwareInterface`.
  - The pipeline `importFromXml` runs once the description is parsed.
- **Export generator** (`ModelDescription`, `model_description.dfy`). This is the IDE `ModelDescriptionGenerator`.
  - Dense value references and 1-based output indices.
  - The causality, variability and initial attributes chosen for each definition kind.
  - The effective name, the links and the Real ".0" start rule.
  - The numbered ScalarVariable section.
- **Export gates and packaging plan** (`FmuExporter`, `fmu_exporter.dfy`).
  - The type-error, entry-point, duplicate-name and static-field checks.
  - The debug setting parsing and the lines of `config.txt`.
  - The native library names and the paths of the model sources inside the archive.
- **Stepping engine** (`Simulation`, `simulation.dfy`). This is `FmiSimulationManager`.
  - The class holds the links, the system members and the next schedulable time.
  - It records the interpreter calls it makes as a trace, and it holds the class definitions that `setParameter` rewrites.
  - `step`, `getSimpleOutput`, `unwrapSeqInfoValue` and `setParameter` are methods and functions over that state.
  - The interpreter is supplied as oracle functions.
- **Attribute iterator** (`NodeIterator`, `node_iterator.dfy`). This is `NamedNodeMapIterator`: a class with a
  mutable cursor that is its own `Iterable`.

Supporting modules:

- `Wrappers` holds `Option`, `Result` and Java's `"" + null` rendering.
- `Text` holds the Java string behaviour the core relies on:
  - ASCII case folding, `equalsIgnoreCase` and capitalisation;
  - decimal rendering and `Integer.parseInt` with its 32-bit range;
  - `String.split` on one character, which drops trailing empty pieces, and joining.
- `Vdm` holds the slice of the VDM AST the core reads.

Java maps and sets that the core iterates are given as sequences in their iteration order. This applies to the
annotation map, the links' output map and the class list.

## Model

| member | source | states |
|---|---|---|
| ImportSynth.TypesListed | core/fmu-import-export/src/main/java/org/overturetool/fmi/imports/ImportModelDescriptionProcesser.java:67-82 | every FMI type is in the list the importer looks names up in |
| ImportSynth.CausalitiesListed | core/fmu-import-export/src/main/java/org/overturetool/fmi/imports/ImportModelDescriptionProcesser.java:84-98 | every causality is in the lookup list |
| ImportSynth.VariabilitiesListed | core/fmu-import-export/src/main/java/org/overturetool/fmi/imports/ImportModelDescriptionProcesser.java:100-114 | every variability is in the lookup list |
| ImportSynth.InitialsListed | core/fmu-import-export/src/main/java/org/overturetool/fmi/imports/ImportModelDescriptionProcesser.java:116-130 | every initial kind is in the lookup list |
| ImportSynth.FirstIgnoreCase | core/fmu-import-export/src/main/java/org/overturetool/fmi/imports/ImportModelDescriptionProcesser.java:71-81 | the linear search of `valueOfIgnorecase`: a hit is a listed value whose name equals the text ignoring case; null exactly when no name does |
| ImportSynth.FirstIgnoreCaseIff | core/fmu-import-export/src/main/java/org/overturetool/fmi/imports/ImportModelDescriptionProcesser.java:71-81 | when the names are distinct ignoring case, the search answers v exactly when v's name equals the text ignoring case |
| ImportSynth.TypesDistinct | core/fmu-import-export/src/main/java/org/overturetool/fmi/imports/ImportModelDescriptionProcesser.java:67-70 | the type names differ pairwise ignoring case |
| ImportSynth.CausalitiesDistinct | core/fmu-import-export/src/main/java/org/overturetool/fmi/imports/ImportModelDescriptionProcesser.java:84-86 | the causality names differ pairwise ignoring case |
| ImportSynth.VariabilitiesDistinct | core/fmu-import-export/src/main/java/org/overturetool/fmi/imports/ImportModelDescriptionProcesser.java:100-102 | the variability names differ pairwise ignoring case |
| ImportSynth.InitialsDistinct | core/fmu-import-export/src/main/java/org/overturetool/fmi/imports/ImportModelDescriptionProcesser.java:116-118 | the initial names differ pairwise ignoring case |
| ImportSynth.TypesValueOfIgnoreCase | core/fmu-import-export/src/main/java/org/overturetool/fmi/imports/ImportModelDescriptionProcesser.java:71-81 | answers type t exactly when t's name equals the text ignoring case |
| ImportSynth.CausalityValueOfIgnoreCase | core/fmu-import-export/src/main/java/org/overturetool/fmi/imports/ImportModelDescriptionProcesser.java:87-97 | answers causality c exactly when c's name equals the text ignoring case |
| ImportSynth.VariabilityValueOfIgnoreCase | core/fmu-import-export/src/main/java/org/overturetool/fmi/imports/ImportModelDescriptionProcesser.java:103-113 | answers variability v exactly when v's name equals the text ignoring case |
| ImportSynth.InitialValueOfIgnoreCase | core/fmu-import-export/src/main/java/org/overturetool/fmi/imports/ImportModelDescriptionProcesser.java:119-129 | answers initial i exactly when i's name equals the text ignoring case |
| ImportSynth.FirstNamed | core/fmu-import-export/src/main/java/org/overturetool/fmi/imports/ImportModelDescriptionProcesser.java:760-769 | the exact-name search behind `Enum.valueOf`: a hit carries exactly that name; no hit exactly when no value does |
| ImportSynth.FirstNamedFinds | core/fmu-import-export/src/main/java/org/overturetool/fmi/imports/ImportModelDescriptionProcesser.java:760-769 | every listed value is found by its own name |
| ImportSynth.CapitalizeUndoesLowerFirst | core/fmu-import-export/src/main/java/org/overturetool/fmi/imports/ImportModelDescriptionProcesser.java:766 | capitalising the FMI spelling (first letter lower case) gives back the enum name |
| ImportSynth.GetAttribute | core/fmu-import-export/src/main/java/org/overturetool/fmi/imports/ImportModelDescriptionProcesser.java:760-769 | an absent attribute reads as null; a present one reads as the value named by its capitalised text, and fails exactly when no value has that name |
| ImportSynth.CausalityAttributeReadsFmiSpelling | core/fmu-import-export/src/main/java/org/overturetool/fmi/imports/ImportModelDescriptionProcesser.java:760-769 | the lower-case FMI spelling of every causality reads back as that causality |
| ImportSynth.InitialAttributeReadsFmiSpelling | core/fmu-import-export/src/main/java/org/overturetool/fmi/imports/ImportModelDescriptionProcesser.java:760-769 | the lower-case FMI spelling of every initial kind reads back as that kind |
| ImportSynth.CausalityAttributeReads | core/fmu-import-export/src/main/java/org/overturetool/fmi/imports/ImportModelDescriptionProcesser.java:760-769 | any text whose capitalisation is a causality's name reads as that causality |
| ImportSynth.InitialAttributeReads | core/fmu-import-export/src/main/java/org/overturetool/fmi/imports/ImportModelDescriptionProcesser.java:760-769 | any text whose capitalisation is an initial kind's name reads as that kind |
| ImportSynth.CausalityAttributeIsCaseSensitive | core/fmu-import-export/src/main/java/org/overturetool/fmi/imports/ImportModelDescriptionProcesser.java:766 | "INPUT" is rejected by the attribute reader although `valueOfIgnorecase` accepts it |
| ImportSynth.DefaultConstructsDeclaredPort | core/fmu-import-export/src/main/java/org/overturetool/fmi/imports/ImportModelDescriptionProcesser.java:421-504 | type and default are both null exactly for Enumeration; the default is a bare 0 exactly for Integer or Real without a start value; every other default constructs the port class `toVdmType` names |
| ImportSynth.DefaultValueText | core/fmu-import-export/src/main/java/org/overturetool/fmi/imports/ImportModelDescriptionProcesser.java:421-482 | the exact default text per type: `new BoolPort(false)` without a start, `(true)` or `(false)` by a Boolean start, `(false)` for an integer start 0 and `(true)` for any other integer, `(null)` for any other start; `new IntPort(s)` and `new RealPort(s)` with the start text; `new StringPort()` without a start and the start in double quotes otherwise |
| ImportSynth.ValueOrDefault | core/fmu-import-export/src/main/java/org/overturetool/fmi/imports/ImportModelDescriptionProcesser.java:421-484 | null exactly for Enumeration; a bare "0" only when there is no start value |
| ImportSynth.ToVdmType | core/fmu-import-export/src/main/java/org/overturetool/fmi/imports/ImportModelDescriptionProcesser.java:486-504 | null exactly for Enumeration; Boolean maps to BoolPort, Integer to IntPort, Real to RealPort and String to StringPort |
| ImportSynth.BooleanFromIntegerStart | core/fmu-import-export/src/main/java/org/overturetool/fmi/imports/ImportModelDescriptionProcesser.java:426-443 | a Boolean start given as an integer renders false for 0 and true otherwise |
| ImportSynth.ToVdm | core/fmu-import-export/src/main/java/org/overturetool/fmi/imports/ImportModelDescriptionProcesser.java:506-509 | the result has only identifier characters and is no longer than the input |
| ImportSynth.ToVdmConcat | core/fmu-import-export/src/main/java/org/overturetool/fmi/imports/ImportModelDescriptionProcesser.java:506-509 | sanitising distributes over concatenation, so the kept characters stay in their order |
| ImportSynth.ToVdmKeepsIdentifiers | core/fmu-import-export/src/main/java/org/overturetool/fmi/imports/ImportModelDescriptionProcesser.java:506-509 | a name made only of identifier characters is kept as it is |
| ImportSynth.ToVdmIdempotent | core/fmu-import-export/src/main/java/org/overturetool/fmi/imports/ImportModelDescriptionProcesser.java:506-509 | sanitising twice equals sanitising once |
| ImportSynth.ToVdmCounts | core/fmu-import-export/src/main/java/org/overturetool/fmi/imports/ImportModelDescriptionProcesser.java:506-509 | every identifier character occurs as often as in the input; every other character occurs zero times |
| ImportSynth.MissingInputsMembers | core/fmu-import-export/src/main/java/org/overturetool/fmi/imports/ImportModelDescriptionProcesser.java:673-685 | the reported inputs are exactly the input annotations whose name no ScalarVariable declares |
| ImportSynth.Validate | core/fmu-import-export/src/main/java/org/overturetool/fmi/imports/ImportModelDescriptionProcesser.java:633-686 | the answer is false exactly when a port annotation lies outside HardwareInterface; missing inputs are reported and never change the answer |
| ImportSynth.FindDeclared | core/fmu-import-export/src/main/java/org/overturetool/fmi/imports/ImportModelDescriptionProcesser.java:655-663 | the search answers true exactly when some scalar variable of the description carries the annotation's name |
| ImportSynth.UnboundMembers | core/fmu-import-export/src/main/java/org/overturetool/fmi/imports/ImportModelDescriptionProcesser.java:313-343 | a variable is kept exactly when it is in the input and no annotation carries its name |
| ImportSynth.UnboundConcat | core/fmu-import-export/src/main/java/org/overturetool/fmi/imports/ImportModelDescriptionProcesser.java:313-343 | the filter keeps relative order: it distributes over concatenation |
| ImportSynth.Filter | core/fmu-import-export/src/main/java/org/overturetool/fmi/imports/ImportModelDescriptionProcesser.java:313-343 | the loops and `removeAll` leave exactly the unbound variables, in their order |
| ImportSynth.SectionTextStep | core/fmu-import-export/src/main/java/org/overturetool/fmi/imports/ImportModelDescriptionProcesser.java:364-397 | each variable adds its fragment to its causality's section only |
| ImportSynth.Insert | core/fmu-import-export/src/main/java/org/overturetool/fmi/imports/ImportModelDescriptionProcesser.java:399-417 | a `StringBuilder.insert` lengthens the text by the inserted text |
| ImportSynth.InsertBlock | core/fmu-import-export/src/main/java/org/overturetool/fmi/imports/ImportModelDescriptionProcesser.java:399-417 | inserting at the split point puts the block between the two parts; an empty block inserts nothing |
| ImportSynth.InsertAtStart | core/fmu-import-export/src/main/java/org/overturetool/fmi/imports/ImportModelDescriptionProcesser.java:412-417 | inserting at offset 0 prepends |
| ImportSynth.CollectSections | core/fmu-import-export/src/main/java/org/overturetool/fmi/imports/ImportModelDescriptionProcesser.java:366-397 | fails exactly when a variable has no causality; otherwise the values, input and output sections hold the parameter, input and output fragments in list order |
| ImportSynth.UpdateHardwareInterface | core/fmu-import-export/src/main/java/org/overturetool/fmi/imports/ImportModelDescriptionProcesser.java:345-419 | a missing causality fails the update; otherwise the result is the spliced text |
| ImportSynth.ProvenanceLine | core/fmu-import-export/src/main/java/org/overturetool/fmi/imports/ImportModelDescriptionProcesser.java:416 | the traceability line starts with the IMPORT marker, a tab, the hash and a tab; the file name follows with its spaces encoded as %20 (done by the caller at line 292), so it has no spaces, and a tab ends it; the line ends in a newline |
| ImportSynth.InsertSections | core/fmu-import-export/src/main/java/org/overturetool/fmi/imports/ImportModelDescriptionProcesser.java:399-411 | the values, inputs and outputs blocks land at the end offset in that text order (each is inserted only when non-empty, last one first), and the text before and after the offset is kept |
| ImportSynth.SectionTextEmptyIff | core/fmu-import-export/src/main/java/org/overturetool/fmi/imports/ImportModelDescriptionProcesser.java:366-397 | a section is empty exactly when no variable has its causality |
| ImportSynth.SplicedFrame | core/fmu-import-export/src/main/java/org/overturetool/fmi/imports/ImportModelDescriptionProcesser.java:399-411 | without traceability, the text before the offset is unchanged, the inserted sections follow it, and then the original rest |
| ImportSynth.SplicedNothingToInsert | core/fmu-import-export/src/main/java/org/overturetool/fmi/imports/ImportModelDescriptionProcesser.java:399-417 | when no variable is a parameter, input or output, only the provenance line (if enabled) is added in front |
| ImportSynth.IsBoundAppend | core/fmu-import-export/src/main/java/org/overturetool/fmi/imports/ImportModelDescriptionProcesser.java:319-342 | a name is bound by two annotation lists together exactly when one of them binds it |
| ImportSynth.SecondImportSynthesisesNothing | core/fmu-import-export/src/main/java/org/overturetool/fmi/imports/ImportModelDescriptionProcesser.java:282-297 | once every synthesised port carries an annotation, importing the same description again synthesises no section |
| ImportSynth.ClassByName | core/fmu-import-export/src/main/java/org/overturetool/fmi/imports/ImportModelDescriptionProcesser.java:620-631 | `getClassByName` answers the first class of that name, and null exactly when there is none |
| ImportSynth.LastSystemClass | core/fmu-import-export/src/main/java/org/overturetool/fmi/imports/ImportModelDescriptionProcesser.java:554-561 | the system class the check inspects is the last one in the list, and null exactly when there is none |
| ImportSynth.WorldCheck | core/fmu-import-export/src/main/java/org/overturetool/fmi/imports/ImportModelDescriptionProcesser.java:592-619 | an abort reports the missing run operation of an existing World class; on success it copies the World template exactly when there is no World class, and copies nothing else |
| ImportSynth.SystemCheck | core/fmu-import-export/src/main/java/org/overturetool/fmi/imports/ImportModelDescriptionProcesser.java:551-590 | an abort reports the missing HardwareInterface field of the last system class; on success it copies the System template exactly when there is no system class, and copies nothing else |
| ImportSynth.CopiesBeforeSystemCheckContents | core/fmu-import-export/src/main/java/org/overturetool/fmi/imports/ImportModelDescriptionProcesser.java:519-549 | once the World check passes, the copies before the system check are at most three: World exactly when it is missing, the FMI library exactly when one of Port and the four port classes is missing, HardwareInterface exactly when that class is missing, and never the System template |
| ImportSynth.WorldCheckAbortsIff | core/fmu-import-export/src/main/java/org/overturetool/fmi/imports/ImportModelDescriptionProcesser.java:592-619 | the World check aborts exactly when the first class named World has no explicit run operation; it creates World from the template exactly when no class has that name |
| ImportSynth.SystemCheckAbortsIff | core/fmu-import-export/src/main/java/org/overturetool/fmi/imports/ImportModelDescriptionProcesser.java:551-590 | the system check aborts exactly when the last system class has no instance variable named hwi |
| ImportSynth.CheckCreateWorld | core/fmu-import-export/src/main/java/org/overturetool/fmi/imports/ImportModelDescriptionProcesser.java:592-619 | the loop over the definitions computes the World check |
| ImportSynth.CheckCreateSystem | core/fmu-import-export/src/main/java/org/overturetool/fmi/imports/ImportModelDescriptionProcesser.java:551-590 | the loop over the definitions computes the system check |
| ImportSynth.CheckAndCreateStructure | core/fmu-import-export/src/main/java/org/overturetool/fmi/imports/ImportModelDescriptionProcesser.java:519-549 | a World abort makes no copies; a system abort keeps the World, FMI library and HardwareInterface copies already made; otherwise the system template is copied last |
| ImportSynth.CheckFmiLibrary | core/fmu-import-export/src/main/java/org/overturetool/fmi/imports/ImportModelDescriptionProcesser.java:525-533 | the library counts as present exactly when a class Port exists and each of RealPort, IntPort, BoolPort and StringPort exists |
| ImportSynth.ImportDescription | core/fmu-import-export/src/main/java/org/overturetool/fmi/imports/ImportModelDescriptionProcesser.java:191-311 | a type error stops the import first and a failed validation next; a missing World run aborts with no copies; a system check abort keeps the copies made before it; a missing HardwareInterface class or an unbound variable without causality aborts with every scaffolding copy; otherwise the import succeeds with those copies and splices exactly the unbound variables into HardwareInterface; success implies every check passed |
| ModelDescription.GetType | ide/fmu-export/src/main/java/org/overture/fmi/ide/fmuexport/commands/ModelDescriptionGenerator.java:176-201 | no template exactly for a non-numeric, non-Boolean type; the type name is Real, Boolean or Integer by the VDM type; the start is empty exactly when the initial text is null; a Real start is the initial text, with ".0" appended exactly when it has no decimal point |
| ModelDescription.RealStartKept | ide/fmu-export/src/main/java/org/overture/fmi/ide/fmuexport/commands/ModelDescriptionGenerator.java:181-185 | a Real initial text that already has a '.' is kept unchanged |
| ModelDescription.CreateScalarVariable | ide/fmu-export/src/main/java/org/overture/fmi/ide/fmuexport/commands/ModelDescriptionGenerator.java:130-174 | fails exactly when a definition that needs a type element has no template; yields an element exactly for value definitions and for input or output instance variables; the element carries the given value reference |
| ModelDescription.CreateScalarVariableAttributes | ide/fmu-export/src/main/java/org/overture/fmi/ide/fmuexport/commands/ModelDescriptionGenerator.java:130-174 | a value definition exports as parameter, fixed, exact, under its pattern; an output instance variable exports as output, discrete, calculated with no start; any other instance variable exports as input, continuous, no initial; the name is the annotated name, else the module-qualified name; the type element is `getType` of the definition type with the start the source calls it with |
| ModelDescription.ExportedName | ide/fmu-export/src/main/java/org/overture/fmi/ide/fmuexport/commands/ModelDescriptionGenerator.java:141-154 | the annotated name when there is one, and the fallback name otherwise |
| ModelDescription.LinkOf | ide/fmu-export/src/main/java/org/overture/fmi/ide/fmuexport/commands/ModelDescriptionGenerator.java:145-156 | a link exactly for a definition the generator links, carrying its value reference; a value definition links to its module name, "." and its pattern, and an instance variable to the system name, "." and its own name |
| ModelDescription.LinksOfCoverDefinitions | ide/fmu-export/src/main/java/org/overture/fmi/ide/fmuexport/commands/ModelDescriptionGenerator.java:145-156 | every value or instance-variable definition gets its link under its own value reference, even when it yields no element; links refer only to positions in the entry list |
| ModelDescription.PlainInstanceVariableKeepsSlot | ide/fmu-export/src/main/java/org/overture/fmi/ide/fmuexport/commands/ModelDescriptionGenerator.java:150-173 | an instance variable annotated neither as input nor as output yields null, but still gets its link |
| ModelDescription.Generate | ide/fmu-export/src/main/java/org/overture/fmi/ide/fmuexport/commands/ModelDescriptionGenerator.java:52-77 | without a system class, nothing is generated; otherwise entry k gets value reference k and its element in slot k; output indices are the 1-based positions of output annotations; links are in entry order; failure happens exactly when some entry fails |
| ModelDescription.OutputIndicesMatchOutputElements | ide/fmu-export/src/main/java/org/overture/fmi/ide/fmuexport/commands/ModelDescriptionGenerator.java:71-74 | an element is exported with causality output exactly when its 1-based index is listed and it is an instance variable |
| ModelDescription.ValueAnnotatedAsOutputIsListed | ide/fmu-export/src/main/java/org/overture/fmi/ide/fmuexport/commands/ModelDescriptionGenerator.java:135-149 | a value definition annotated as output is exported as a parameter, yet its index is listed among the outputs |
| ModelDescription.OutputIndicesInRange | ide/fmu-export/src/main/java/org/overture/fmi/ide/fmuexport/commands/ModelDescriptionGenerator.java:71-87 | every listed index lies in 1..n and names an output-annotated entry, matching the "Index i+1" comments |
| ModelDescription.ExportedTypeNameImports | ide/fmu-export/src/main/java/org/overture/fmi/ide/fmuexport/commands/ModelDescriptionGenerator.java:176-201 | every type name the generator writes is a type name the importer recognises |
| ModelDescription.ExportedCausalitiesImport | ide/fmu-export/src/main/java/org/overture/fmi/ide/fmuexport/commands/ModelDescriptionGenerator.java:149-168 | the causality spellings the generator writes read back as Parameter, Output and Input |
| ModelDescription.ExportedInitialsImport | ide/fmu-export/src/main/java/org/overture/fmi/ide/fmuexport/commands/ModelDescriptionGenerator.java:149-161 | the initial spellings the generator writes read back as Exact and Calculated |
| ModelDescription.ExportedElementImports | ide/fmu-export/src/main/java/org/overture/fmi/ide/fmuexport/commands/ModelDescriptionGenerator.java:130-174 | every exported element reads back through the importer with the causality of its definition kind and annotation; it has an initial attribute exactly when it is not an input |
| ModelDescription.RenderScalarVariables | ide/fmu-export/src/main/java/org/overture/fmi/ide/fmuexport/commands/ModelDescriptionGenerator.java:81-87 | the loop writes each element after an "Index i+1" comment, in order |
| FmuExporter.HasStaticInstanceVariable | core/fmu-import-export/src/main/java/org/overturetool/fmi/export/FmuExporter.java:65-74 | true exactly when some definition is a static instance variable |
| FmuExporter.HWInterfaceHasStatics | core/fmu-import-export/src/main/java/org/overturetool/fmi/export/FmuExporter.java:58-79 | true exactly when a class named HardwareInterface has a static instance variable |
| FmuExporter.NameMapKeys | core/fmu-import-export/src/main/java/org/overturetool/fmi/export/FmuExporter.java:123-139 | the map built by the loop has exactly the annotation names as keys |
| FmuExporter.HasDuplicateNamesStep | core/fmu-import-export/src/main/java/org/overturetool/fmi/export/FmuExporter.java:125-139 | a prefix gains a duplicate exactly when the new name occurs earlier |
| FmuExporter.FindDuplicates | core/fmu-import-export/src/main/java/org/overturetool/fmi/export/FmuExporter.java:123-144 | the flag is set exactly when two annotations share a name (absent names included); there is one report per later occurrence, naming the earlier annotation |
| FmuExporter.ExportGates | core/fmu-import-export/src/main/java/org/overturetool/fmi/export/FmuExporter.java:90-150 | the checks run in order (type errors, no World.run, duplicate names, statics in HardwareInterface); export goes on exactly when all pass, with the last system class |
| FmuExporter.IsWorldWithRun | core/fmu-import-export/src/main/java/org/overturetool/fmi/export/FmuExporter.java:105-112 | a class found to carry the entry point is a non-system class named World with at least one definition |
| FmuExporter.DebugSettingsOf | core/fmu-import-export/src/main/java/org/overturetool/fmi/export/FmuExporter.java:305-313 | without an "=" piece pair the settings are port 4000 and suspend "n"; with two or more pieces it fails exactly when the first is not a 32-bit integer, with that text as the error; on success the port is that integer and suspend is "y" exactly when the second piece is "y" ignoring case |
| FmuExporter.DebugSettingsDefault | core/fmu-import-export/src/main/java/org/overturetool/fmi/export/FmuExporter.java:305-308 | a configuration without '=' gives port 4000, suspend "n" |
| FmuExporter.DebugSettingsOfPair | core/fmu-import-export/src/main/java/org/overturetool/fmi/export/FmuExporter.java:307-313 | "P=S" gives port P, and suspend "y" exactly when S is y in either case |
| FmuExporter.NoEqualsInIntToString | core/fmu-import-export/src/main/java/org/overturetool/fmi/export/FmuExporter.java:307 | a rendered port contains no '=' |
| FmuExporter.JoinWithSnoc | core/fmu-import-export/src/main/java/org/overturetool/fmi/export/FmuExporter.java:298-320 | joining one more line adds a separator and that line |
| FmuExporter.AppendLine | core/fmu-import-export/src/main/java/org/overturetool/fmi/export/FmuExporter.java:299-319 | appending a line and a newline keeps the buffer as the joined lines plus a trailing newline |
| FmuExporter.AppendLast | core/fmu-import-export/src/main/java/org/overturetool/fmi/export/FmuExporter.java:320 | appending the last line without a newline gives the joined lines |
| FmuExporter.AppendLauncherLines | core/fmu-import-export/src/main/java/org/overturetool/fmi/export/FmuExporter.java:317-320 | the launcher lines follow the buffer, newline-separated, with no trailing newline |
| FmuExporter.ConfigText | core/fmu-import-export/src/main/java/org/overturetool/fmi/export/FmuExporter.java:298-320 | `config.txt` is "false", "java", the two debug lines only when debugging is enabled, then the launcher lines, joined by newlines; an unparsable debug port fails |
| FmuExporter.ConfigLines | core/fmu-import-export/src/main/java/org/overturetool/fmi/export/FmuExporter.java:298-320 | six lines, eight with debugging; "false" and "java" first; the debug flag and the JDWP line third and fourth when debugging; the four launcher lines last |
| FmuExporter.DebugLine | core/fmu-import-export/src/main/java/org/overturetool/fmi/export/FmuExporter.java:314 | the JDWP line begins with the server, transport and address options; `DebugLineCarriesSettings` states the port and suspend flag it carries |
| FmuExporter.DebugLineCarriesSettings | core/fmu-import-export/src/main/java/org/overturetool/fmi/export/FmuExporter.java:314 | for a 32-bit port, the text between "address=" and ",suspend=" parses back to the port, and the line ends with ",suspend=" and the flag |
| FmuExporter.ConfigDebugLineCarriesSettings | core/fmu-import-export/src/main/java/org/overturetool/fmi/export/FmuExporter.java:305-314 | the fourth config.txt line of a debug export carries the port and suspend flag parsed from the tool's debug setting |
| FmuExporter.DebugLineHasNoNewline | core/fmu-import-export/src/main/java/org/overturetool/fmi/export/FmuExporter.java:314 | the debug line is a single line |
| FmuExporter.ConfigLinesHaveNoNewline | core/fmu-import-export/src/main/java/org/overturetool/fmi/export/FmuExporter.java:298-320 | no line of `config.txt` contains a newline |
| FmuExporter.ConfigTextSplitsIntoLines | core/fmu-import-export/src/main/java/org/overturetool/fmi/export/FmuExporter.java:298-320 | splitting `config.txt` at its newlines gives back exactly its lines |
| FmuExporter.BinaryExtensionByPrefix | core/fmu-import-export/src/main/java/org/overturetool/fmi/export/FmuExporter.java:354-365 | ".dll" for win*, ".dylib" for darwin*, ".so" otherwise |
| FmuExporter.BinaryExtension | core/fmu-import-export/src/main/java/org/overturetool/fmi/export/FmuExporter.java:354-365 | every folder gets one of .dll, .dylib and .so |
| FmuExporter.PlanBinaries | core/fmu-import-export/src/main/java/org/overturetool/fmi/export/FmuExporter.java:349-376 | the loop copies one library per bundled platform folder, in folder order |
| FmuExporter.BinaryPlanTargets | core/fmu-import-export/src/main/java/org/overturetool/fmi/export/FmuExporter.java:349-376 | when every wrapper library is bundled, there is one copy per folder, at binaries/folder/name plus the folder's extension |
| FmuExporter.DarwinExtension | core/fmu-import-export/src/main/java/org/overturetool/fmi/export/FmuExporter.java:351-357 | darwin64 gets ".dylib" |
| FmuExporter.LinuxExtension | core/fmu-import-export/src/main/java/org/overturetool/fmi/export/FmuExporter.java:351-361 | linux64 and linux32 get ".so" |
| FmuExporter.WinExtension | core/fmu-import-export/src/main/java/org/overturetool/fmi/export/FmuExporter.java:351-365 | win32 and win64 get ".dll" |
| FmuExporter.ModelSourcePath | core/fmu-import-export/src/main/java/org/overturetool/fmi/export/FmuExporter.java:333-340 | fails exactly when the path equals the source root (`substring` runs past the end) |
| FmuExporter.ModelSourcePathBelowRoot | core/fmu-import-export/src/main/java/org/overturetool/fmi/export/FmuExporter.java:334-335 | a file below the root comes back as its path relative to the root |
| FmuExporter.ModelSourcePathElsewhere | core/fmu-import-export/src/main/java/org/overturetool/fmi/export/FmuExporter.java:336-340 | elsewhere, everything up to and including the first separator is dropped |
| FmuExporter.PlanModelSources | core/fmu-import-export/src/main/java/org/overturetool/fmi/export/FmuExporter.java:331-345 | one target per specification file, in order, under resources/model; fails exactly when one path fails |
| Simulation.Deref | core/fmi-interpreter/src/main/java/org/crescendo/fmi/FmiSimulationManager.java:163 | dereferencing removes the updatable wrapper and leaves any other value alone |
| Simulation.UnwrapSeqInfoValue | core/fmi-interpreter/src/main/java/org/crescendo/fmi/FmiSimulationManager.java:124-134 | null stays null; a SeqValueInfo becomes a plain ValueInfo with the same name, class and CPU, holding the wrapper's source; any other info is returned unchanged |
| Simulation.UnwrapIdempotent | core/fmi-interpreter/src/main/java/org/crescendo/fmi/FmiSimulationManager.java:124-134 | unwrapping twice equals unwrapping once |
| Simulation.SimpleOutput | core/fmi-interpreter/src/main/java/org/crescendo/fmi/FmiSimulationManager.java:153-173 | "not found" when there are no system members or the name is unlinked; "lookup failed" exactly when the linked path without its first part names no system member; a success is the value held at that path; "not initialized" exactly when that value dereferences to undefined; a result carries the name and reference -1 |
| Simulation.CollectOutputs | core/fmi-interpreter/src/main/java/org/crescendo/fmi/FmiSimulationManager.java:92-110 | succeeds exactly when every output key can be read, with one value per key in key order; otherwise it fails with the error of a key that cannot be read |
| Simulation.ReadOutputs | core/fmi-interpreter/src/main/java/org/crescendo/fmi/FmiSimulationManager.java:89-112 | the loop returns the output list of the step |
| Simulation.StepOutputsShape | core/fmi-interpreter/src/main/java/org/crescendo/fmi/FmiSimulationManager.java:89-112 | a successful output list is "time" (at the next schedulable time) followed by exactly one entry per output key, in link order |
| Simulation.StepOutputsFailIff | core/fmi-interpreter/src/main/java/org/crescendo/fmi/FmiSimulationManager.java:94-109 | the step fails, and returns no partial list, exactly when some output cannot be read |
| Simulation.VisitClass | core/fmi-interpreter/src/main/java/org/crescendo/fmi/FmiSimulationManager.java:204-260 | the class keeps its name; a class with another name is passed over unchanged with the found flag kept and no error; a visit of the bound class succeeds exactly when rewriting its definitions raises no error and a matching value definition was found in it or earlier, and then sets the found flag and holds exactly the rewritten definitions |
| Simulation.AcceptedInputs | core/fmi-interpreter/src/main/java/org/crescendo/fmi/FmiSimulationManager.java:82-85 | the inputs accepted before the first write that fails |
| Simulation.Writes | core/fmi-interpreter/src/main/java/org/crescendo/fmi/FmiSimulationManager.java:82-85 | one write event per input, in list order |
| Simulation.FmiSimulationManager.Step | core/fmi-interpreter/src/main/java/org/crescendo/fmi/FmiSimulationManager.java:77-113 | without a main context nothing changes; every input is written in list order before the internal step; a failed write stops the step; on success the output list is the one read from the new system members |
| Simulation.WriteInputs | core/fmi-interpreter/src/main/java/org/crescendo/fmi/FmiSimulationManager.java:82-85 | the inputs are written in list order up to the first one the interpreter refuses; the writes recorded are exactly those of the accepted prefix, and the refused input's name is reported, or nothing when all were written |
| Simulation.UpdateDefinition | core/fmi-interpreter/src/main/java/org/crescendo/fmi/FmiSimulationManager.java:220-248 | a parse failure fails; with empty args the type-checked literal is appended (length 1), otherwise element 0 is replaced and the rest is kept; a failed type check fails; a definition that is not a new-expression is unchanged |
| Simulation.RewriteDefinitions | core/fmi-interpreter/src/main/java/org/crescendo/fmi/FmiSimulationManager.java:211-252 | the definition list keeps its length |
| Simulation.RewriteDefinitionsMeaning | core/fmi-interpreter/src/main/java/org/crescendo/fmi/FmiSimulationManager.java:211-252 | each definition is kept or replaced by its successful update; no error exactly when every matching definition updates; without an error, exactly the matching ones are updated, and a match is reported exactly when one exists |
| Simulation.OtherExpressionsUnchanged | core/fmi-interpreter/src/main/java/org/crescendo/fmi/FmiSimulationManager.java:224-241 | when matching definitions are not new-expressions, nothing changes and the call succeeds |
| Simulation.RewriteClasses | core/fmi-interpreter/src/main/java/org/crescendo/fmi/FmiSimulationManager.java:204-260 | the class list keeps its length |
| Simulation.RewriteClassesBoundDefinitions | core/fmi-interpreter/src/main/java/org/crescendo/fmi/FmiSimulationManager.java:204-252 | after a successful update every class with the bound instance name holds exactly its rewritten definitions |
| Simulation.RewriteClassesFrame | core/fmi-interpreter/src/main/java/org/crescendo/fmi/FmiSimulationManager.java:204-210 | class names are kept, and classes without the bound instance name are untouched |
| Simulation.UnmatchedInstanceSucceeds | core/fmi-interpreter/src/main/java/org/crescendo/fmi/FmiSimulationManager.java:204-260 | when no class has the bound instance name, nothing changes and the call succeeds |
| Simulation.UnfoundVariableFails | core/fmi-interpreter/src/main/java/org/crescendo/fmi/FmiSimulationManager.java:253-259 | a bound class without a matching value definition makes the call fail with nothing changed |
| Simulation.SetParameterOutcome | core/fmi-interpreter/src/main/java/org/crescendo/fmi/FmiSimulationManager.java:194-202 | an unshared name fails as unlinked; a shared name with no bound variable fails as an internal error |
| Simulation.FmiSimulationManager.SetParameter | core/fmi-interpreter/src/main/java/org/crescendo/fmi/FmiSimulationManager.java:186-275 | the new class definitions and the answer are those of the rewrite; nothing else in the manager changes |
| Simulation.RewriteAllClasses | core/fmi-interpreter/src/main/java/org/crescendo/fmi/FmiSimulationManager.java:204-260 | the nested loops with the `found` flag compute the rewrite over the class list |
| Simulation.RewriteClassDefinitions | core/fmi-interpreter/src/main/java/org/crescendo/fmi/FmiSimulationManager.java:211-252 | the inner loop computes the rewrite of one class's definitions |
| NodeIterator.NamedNodeMapIterator.Item | core/fmu-import-export/src/main/java/org/overturetool/fmi/export/xml/NamedNodeMapIterator.java:48 | `item(i)` answers the item at i inside the map, and nothing outside it |
| NodeIterator.NamedNodeMapIterator.HasNext | core/fmu-import-export/src/main/java/org/overturetool/fmi/export/xml/NamedNodeMapIterator.java:40-44 | a cursor that has a next item has a map and an item to read at the cursor |
| NodeIterator.NamedNodeMapIterator.Next | core/fmu-import-export/src/main/java/org/overturetool/fmi/export/xml/NamedNodeMapIterator.java:46-49 | the cursor moves on by exactly one; without a map the call fails; otherwise it answers `item` at the old cursor |
| NodeIterator.NamedNodeMapIterator.Remove | core/fmu-import-export/src/main/java/org/overturetool/fmi/export/xml/NamedNodeMapIterator.java:52-55 | always fails, changes nothing |
| NodeIterator.NamedNodeMapIterator.Iterator | core/fmu-import-export/src/main/java/org/overturetool/fmi/export/xml/NamedNodeMapIterator.java:58-61 | answers the iterator itself |
| NodeIterator.ForEach | core/fmu-import-export/src/main/java/org/overturetool/fmi/export/xml/NamedNodeMapIterator.java:40-49 | a for-each loop yields the items from the cursor to the end of the map, in order, and leaves `hasNext` false |
| NodeIterator.FreshTraversal | core/fmu-import-export/src/main/java/org/overturetool/fmi/export/xml/NamedNodeMapIterator.java:32-49 | a fresh iterator yields every item once, in order |
| NodeIterator.SecondTraversal | core/fmu-import-export/src/main/java/org/overturetool/fmi/export/xml/NamedNodeMapIterator.java:58-61 | a second traversal of the same iterator yields nothing |
| NodeIterator.ResumedTraversal | core/fmu-import-export/src/main/java/org/overturetool/fmi/export/xml/NamedNodeMapIterator.java:46-61 | a traversal begun after k items yields the rest of the map |
| NodeIterator.NullTraversal | core/fmu-import-export/src/main/java/org/overturetool/fmi/export/xml/NamedNodeMapIterator.java:40-49 | over no map nothing is yielded and `next` fails |
| Text.LowerIsY | core/fmu-import-export/src/main/java/org/overturetool/fmi/export/FmuExporter.java:311 | lower-casing gives "y" exactly for "y" and "Y" |
| Text.IndexOf | core/fmu-import-export/src/main/java/org/overturetool/fmi/export/FmuExporter.java:338 | `indexOf` answers the first position of the character, or -1 exactly when it is absent |
| Text.ParseInt | core/fmu-import-export/src/main/java/org/overturetool/fmi/export/FmuExporter.java:310 | `Integer.parseInt` answers exactly for an optional sign followed by one or more decimal digits whose value lies in the 32-bit range, and then answers that signed value |
| Text.ParseIntOfIntToString | core/fmu-import-export/src/main/java/org/overturetool/fmi/export/FmuExporter.java:310 | parsing a rendered 32-bit integer gives it back |
| Text.ParseIntExamples | core/fmu-import-export/src/main/java/org/overturetool/fmi/export/FmuExporter.java:310 | a leading plus is accepted, leading zeros and minus zero read as their value, and a lone sign, the empty text and trailing junk are refused |
| Text.DigitsValueOfNatToString | core/fmu-import-export/src/main/java/org/overturetool/fmi/export/FmuExporter.java:310 | the digits of a rendered natural number have its value |
| Text.SplitAll | core/fmu-import-export/src/main/java/org/overturetool/fmi/export/FmuExporter.java:307 | every piece is free of the separator, and there is at least one piece |
| Text.DropTrailingEmpty | core/fmu-import-export/src/main/java/org/overturetool/fmi/export/FmuExporter.java:307 | `split` keeps a prefix of the pieces that does not end in an empty piece, and every piece it drops is empty |
| Text.JavaSplit | core/fmu-import-export/src/main/java/org/overturetool/fmi/export/FmuExporter.java:307 | the whole text when the separator is absent; otherwise the pieces between separators with the trailing empty ones dropped; no piece holds the separator |
| Text.JoinSplitAll | core/fmu-import-export/src/main/java/org/overturetool/fmi/export/FmuExporter.java:298-320 | joining the pieces of a split gives back the text |
| Text.SplitAllJoin | core/fmu-import-export/src/main/java/org/overturetool/fmi/export/FmuExporter.java:298-320 | splitting joined separator-free pieces gives back the pieces |
| Text.JavaSplitPair | core/fmu-import-export/src/main/java/org/overturetool/fmi/export/FmuExporter.java:307 | "P=S" with non-empty S splits into exactly P and S |

## Left out

- XML parsing is not modelled. This covers DOM/XPath in `importFromXml`, `lookup`, `lookupSingle` and `formateNodeWithAtt`. The parsed ScalarVariable records are the input, and Real start values are opaque text: `Double.valueOf` is floating point.
- File I/O is not modelled: reading and writing the VDM files, the temporary project files, the template copies, the interpreter jar, `git-info.txt`, `copyResourceFiles` and the compression into the archive. Copies appear as plan records: template names, resource/target pairs and target paths.
- The model description `getModelDescriptionConfig` writes, and its `modelDescription.xml`, are not part of this model. Only the IDE generator's fragments are.
- Template substitution in `generate` is left out: the model name, GUID, date and the final `replace` calls. UUIDs, dates, git hashes and the provenance details of `Tracability` are opaque values.
- The order of the `<Unknown index>` list is not modelled: the indices are a set, because `HashSet` iteration order is unspecified. Its rendering is left out for the same reason.
- `HashMap` iteration order (annotations, outputs) is taken as given: the model reads these maps as sequences.
- The asynchronous `scheduleJob` body is not modelled, and neither are the `synchronized` and singleton aspects of the simulation manager.
- The interpreter is supplied as parameters:
  - `setScalarValue` and `getValue` are functions the step calls;
  - `doInternalStep` is a function from the output time to the new system members and next time, or an error;
  - `digForVariable` is a map lookup on the qualified name without its first part;
  - `ParserUtil.parseExpression` and `TypeCheckerUtil.typeCheckExpression` are functions to an optional result.
- FmiSimulationManager.Step: the trace records the writes and the internal step as events. The effect of a write on the store is left to the `doInternalStep` oracle.
- FmiSimulationManager.SetParameter: the AST is modelled as values, so the in-place `add`/`set(0, …)` on a shared `ANewExp` argument list is modelled as a new class list. Aliasing of that list elsewhere in the interpreter is not captured.
- The `isValueDefinition` assistant check is taken to hold for every value definition.
- `checkMainContext` belongs to the manager's superclass, which is not part of this model. Whether the manager runs in the interpreter's main context is a constructor flag.
- The dead `value == null` branch of `step` is left out: `getSimpleOutput` never answers null.
- `CGenerator` and `Fmu.h` are not part of this model. They are a wrapper over an external code generator and C declarations.
- Warnings and logging are left out: the type mismatch warning in `filter`, the console messages and the logger.
- Case folding and digits are ASCII only. Non-ASCII letters and digits are not modelled.
- Strings are sequences of Unicode scalar values, not of UTF-16 code units as in Java. Lengths and offsets differ from Java's for text outside the Basic Multilingual Plane.
- NamedNodeMapIterator.Next: the cursor is an unbounded integer. Java's `int` overflow after 2^31 calls is not modelled.
- The ModelDescriptionGenerator that `exportFmu` uses comes from the core module and is not part of this model. Its start-value behaviour (String types, output starts) is a different generator's.
- PlanBinaries: the five concrete copies are not stated as one equation. Each folder's extension has its own lemma (`DarwinExtension`, `LinuxExtension`, `WinExtension`), and `BinaryPlanTargets` gives the target of every folder.
- Where the code and the documented design disagree, the code is followed:
  - `validate` reports annotated inputs that are missing from the description, but never aborts on them.
  - The attribute reader only capitalises the first letter, so it is case-sensitive after it (`CausalityAttributeIsCaseSensitive`).
  - `checkAndCreateStructure` keeps the copies made before a system-check abort.
  - `setParameter` checks for a missing variable only inside the class loop, so a bound instance name that matches no class succeeds (`UnmatchedInstanceSucceeds`).

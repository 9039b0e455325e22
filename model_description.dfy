/**
 * The IDE's generator of the FMI 2.0 modelDescription.xml fragments
 * (ModelDescriptionGenerator): one ScalarVariable element and one link per
 * annotated definition, the list of output indices for ModelStructure, and the
 * numbered ScalarVariable section. Reading the XML template, the GUID and the
 * generation date are outside the model.
 */
module ModelDescription {
  import opened Wrappers
  import opened Text
  import opened Vdm
  import ImportSynth

  /** The type child of a ScalarVariable: Real, Boolean or Integer, with an optional start value. */
  datatype TypeElement = TypeElement(typeName: string, start: Option<string>)

  /** The attributes the ScalarVariable templates are filled with; no initial attribute for inputs. */
  datatype ScalarVariableElement = ScalarVariableElement(
    name: string,
    valueReference: int,
    causality: string,
    variability: string,
    initial: Option<string>,
    typeElement: TypeElement)

  datatype Link = Link(valueReference: int, name: string)

  datatype GenerateError = NoTypeTemplate(typeName: string)   // String.format(null, ...) throws

  function TypeElementText(t: TypeElement): string
  {
    "<" + t.typeName + " " + (if t.start.Some? then "start=\"" + t.start.value + "\"" else "") + " />"
  }

  function ScalarVariableText(e: ScalarVariableElement): string
  {
    "<ScalarVariable name=\"" + e.name + "\" valueReference=\"" + IntToString(e.valueReference)
      + "\" causality=\"" + e.causality + "\" variability=\"" + e.variability + "\""
      + (if e.initial.Some? then " initial=\"" + e.initial.value + "\"" else "")
      + ">" + TypeElementText(e.typeElement) + "</ScalarVariable>"
  }

  function LinkText(l: Link): string
  {
    "\t\t\t\t<link valueReference=\"" + IntToString(l.valueReference) + "\" name=\"" + l.name + "\" />\n"
  }

  /**
   * getType: Real, Boolean or Integer by the definition's basic type; a Real
   * start value without a decimal point gets ".0" appended. Any other type has
   * no template (None).
   */
  function GetType(t: BasicType, initial: Option<string>): (r: Option<TypeElement>)
    ensures r.None? <==> t == OtherType
    ensures r.Some? && initial.None? ==> r.value.start.None?
    ensures r.Some? && t != RealType ==> r.value.start == initial
    ensures r.Some? ==> r.value.typeName == (if t == RealType then "Real" else if t == BooleanType then "Boolean" else "Integer")
    ensures r.Some? && t == RealType && initial.Some? ==>
              r.value.start.Some? && '.' in r.value.start.value && StartsWith(r.value.start.value, initial.value)
    ensures r.Some? && t == RealType && initial.Some? ==>
              r.value.start == Some(if '.' in initial.value then initial.value else initial.value + ".0")
  {
    match t
    case RealType =>
      var start := if initial.Some? && '.' !in initial.value then Some(initial.value + ".0") else initial;
      assert start.Some? ==> initial.Some? && start.value[..|initial.value|] == initial.value;
      Some(TypeElement("Real", start))
    case BooleanType => Some(TypeElement("Boolean", initial))
    case NumericType => Some(TypeElement("Integer", initial))
    case OtherType => None
  }

  /** A Real start that already has a decimal point is kept as it is. */
  lemma RealStartKept(initial: string)
    requires '.' in initial
    ensures GetType(RealType, Some(initial)) == Some(TypeElement("Real", Some(initial)))
  {
  }

  /** The annotation's name, or the given fallback when the annotation has none. */
  function ExportedName(ann: Annotation, fallback: string): (r: string)
    ensures ann.name.Some? ==> r == ann.name.value
    ensures ann.name.None? ==> r == fallback
  {
    if ann.name.Some? then ann.name.value else fallback
  }

  /** The link each definition contributes: values by module and pattern, instance variables by system and name. */
  function LinkOf(vr: int, entry: AnnotatedDefinition, systemName: string): (r: Option<Link>)
    ensures r.Some? <==> HasLink(entry)
    ensures r.Some? ==> r.value.valueReference == vr
    ensures entry.definition.kind == ValueDefinition ==>
              r == Some(Link(vr, entry.definition.moduleName + "." + entry.definition.pattern))
    ensures entry.definition.kind == InstanceVariableDefinition ==>
              r == Some(Link(vr, systemName + "." + entry.definition.name))
  {
    var d := entry.definition;
    match d.kind
    case ValueDefinition => Some(Link(vr, d.moduleName + "." + d.pattern))
    case InstanceVariableDefinition => Some(Link(vr, systemName + "." + d.name))
    case _ => None
  }

  predicate NeedsType(entry: AnnotatedDefinition)
  {
    entry.definition.kind == ValueDefinition
    || (entry.definition.kind == InstanceVariableDefinition
        && (entry.annotation.kind == "output" || entry.annotation.kind == "input"))
  }

  /**
   * createScalarVariable: a value definition becomes a fixed parameter whatever
   * its annotation says, an instance variable an output or an input by its
   * annotation; anything else gives no element (null).
   */
  function CreateScalarVariable(vr: int, entry: AnnotatedDefinition, systemName: string)
    : (r: Result<Option<ScalarVariableElement>, GenerateError>)
    ensures r.Failure? <==> NeedsType(entry) && entry.definition.basicType == OtherType
    ensures r.Success? ==> (r.value.Some? <==> NeedsType(entry))
    ensures r.Success? && r.value.Some? ==> r.value.value.valueReference == vr
  {
    var d := entry.definition;
    var ann := entry.annotation;
    match d.kind
    case ValueDefinition =>
      var name := ExportedName(ann, d.moduleName + "." + d.pattern);
      (match GetType(d.basicType, Some(d.expression))
       case None => Failure(NoTypeTemplate(d.typeName))
       case Some(t) => Success(Some(ScalarVariableElement(name, vr, "parameter", "fixed", Some("exact"), t))))
    case InstanceVariableDefinition =>
      var name := ExportedName(ann, d.moduleName + "." + d.fullName);
      if ann.kind == "output" then
        (match GetType(d.basicType, None)
         case None => Failure(NoTypeTemplate(d.typeName))
         case Some(t) => Success(Some(ScalarVariableElement(name, vr, "output", "discrete", Some("calculated"), t))))
      else if ann.kind == "input" then
        (match GetType(d.basicType, Some(d.expression))
         case None => Failure(NoTypeTemplate(d.typeName))
         case Some(t) => Success(Some(ScalarVariableElement(name, vr, "input", "continuous", None, t))))
      else Success(None)
    case _ => Success(None)
  }

  /**
   * The attributes of the element created for each kind of definition: the
   * annotation's name or the module-qualified name; a value is a fixed parameter
   * with initial exact and its expression as start; an output instance variable
   * is discrete and calculated without a start; an input instance variable is
   * continuous, has no initial, and its expression as start.
   */
  lemma CreateScalarVariableAttributes(vr: int, entry: AnnotatedDefinition, systemName: string)
    ensures var r := CreateScalarVariable(vr, entry, systemName);
            r.Success? && r.value.Some? ==>
              var d := entry.definition;
              r.value.value.name == ExportedName(entry.annotation, d.moduleName + "." + (if d.kind == ValueDefinition then d.pattern else d.fullName))
    ensures var r := CreateScalarVariable(vr, entry, systemName);
            r.Success? && r.value.Some? && entry.definition.kind == ValueDefinition ==>
              var e := r.value.value;
              e.causality == "parameter" && e.variability == "fixed" && e.initial == Some("exact")
              && Some(e.typeElement) == GetType(entry.definition.basicType, Some(entry.definition.expression))
    ensures var r := CreateScalarVariable(vr, entry, systemName);
            r.Success? && r.value.Some? && entry.definition.kind != ValueDefinition && entry.annotation.kind == "output" ==>
              var e := r.value.value;
              e.causality == "output" && e.variability == "discrete" && e.initial == Some("calculated")
              && Some(e.typeElement) == GetType(entry.definition.basicType, None)
    ensures var r := CreateScalarVariable(vr, entry, systemName);
            r.Success? && r.value.Some? && entry.definition.kind != ValueDefinition && entry.annotation.kind != "output" ==>
              var e := r.value.value;
              e.causality == "input" && e.variability == "continuous" && e.initial.None?
              && Some(e.typeElement) == GetType(entry.definition.basicType, Some(entry.definition.expression))
  {
  }

  /** The links of the entries, in entry order, with value references counted from 0. */
  function LinksOf(entries: seq<AnnotatedDefinition>, systemName: string): seq<Link>
  {
    if entries == [] then []
    else
      var n := |entries| - 1;
      LinksOf(entries[..n], systemName) + (match LinkOf(n, entries[n], systemName) case Some(l) => [l] case None => [])
  }

  predicate HasLink(entry: AnnotatedDefinition)
  {
    entry.definition.kind == ValueDefinition || entry.definition.kind == InstanceVariableDefinition
  }

  /**
   * Every value or instance-variable definition contributes its link under its
   * own value reference, also when it yields no ScalarVariable; links refer to
   * positions of the entry list only.
   */
  lemma {:induction false} LinksOfCoverDefinitions(entries: seq<AnnotatedDefinition>, systemName: string)
    ensures forall l :: l in LinksOf(entries, systemName) ==> 0 <= l.valueReference < |entries|
    ensures forall k :: 0 <= k < |entries| && HasLink(entries[k]) ==>
              LinkOf(k, entries[k], systemName).Some? && LinkOf(k, entries[k], systemName).value in LinksOf(entries, systemName)
  {
    if entries != [] {
      var n := |entries| - 1;
      var init := entries[..n];
      LinksOfCoverDefinitions(init, systemName);
      assert forall k :: 0 <= k < n ==> init[k] == entries[k];
    }
  }

  /** An instance variable annotated neither as input nor as output yields no element, yet keeps its slot and its link. */
  lemma PlainInstanceVariableKeepsSlot(entries: seq<AnnotatedDefinition>, systemName: string, k: nat)
    requires k < |entries|
    requires entries[k].definition.kind == InstanceVariableDefinition
    requires entries[k].annotation.kind != "output" && entries[k].annotation.kind != "input"
    ensures CreateScalarVariable(k, entries[k], systemName) == Success(None)
    ensures Link(k, systemName + "." + entries[k].definition.name) in LinksOf(entries, systemName)
  {
    LinksOfCoverDefinitions(entries, systemName);
  }

  /** The ModelStructure output indices: the 1-based position of every entry annotated as an output. */
  function OutputIndices(entries: seq<AnnotatedDefinition>): set<int>
  {
    set k | 0 <= k < |entries| && entries[k].annotation.kind == "output" :: k + 1
  }

  lemma OutputIndicesStep(entries: seq<AnnotatedDefinition>, i: nat)
    requires i < |entries|
    ensures OutputIndices(entries[..i + 1]) ==
              OutputIndices(entries[..i]) + (if entries[i].annotation.kind == "output" then {i + 1} else {})
  {
    assert entries[..i + 1][..i] == entries[..i];
  }

  lemma LinksOfStep(entries: seq<AnnotatedDefinition>, i: nat, systemName: string)
    requires i < |entries|
    ensures LinksOf(entries[..i + 1], systemName) ==
              LinksOf(entries[..i], systemName) + (match LinkOf(i, entries[i], systemName) case Some(l) => [l] case None => [])
  {
    assert entries[..i + 1][..i] == entries[..i];
  }

  lemma CreatedStep(created: seq<Option<ScalarVariableElement>>, entries: seq<AnnotatedDefinition>, systemName: string,
                    e: Option<ScalarVariableElement>)
    requires |created| < |entries|
    requires forall k :: 0 <= k < |created| ==> Success(created[k]) == CreateScalarVariable(k, entries[k], systemName)
    requires Success(e) == CreateScalarVariable(|created|, entries[|created|], systemName)
    ensures forall k :: 0 <= k < |created| + 1 ==>
              Success((created + [e])[k]) == CreateScalarVariable(k, entries[k], systemName)
  {
  }

  datatype Generated = Generated(
    scalarVariables: seq<Option<ScalarVariableElement>>,
    outputIndices: set<int>,
    links: seq<Link>)

  /**
   * The loop of generate: without a system nothing is generated; otherwise
   * every entry gets the next value reference, its element (or null) in
   * position, and its link; an entry whose type has no template aborts.
   */
  method Generate(system: Option<string>, entries: seq<AnnotatedDefinition>) returns (r: Result<Generated, GenerateError>)
    ensures system.None? ==> r == Success(Generated([], {}, []))
    ensures system.Some? ==>
              (r.Failure? <==> exists k :: 0 <= k < |entries| && CreateScalarVariable(k, entries[k], system.value).Failure?)
    ensures system.Some? && r.Success? ==>
              |r.value.scalarVariables| == |entries|
              && (forall k :: 0 <= k < |entries| ==>
                    Success(r.value.scalarVariables[k]) == CreateScalarVariable(k, entries[k], system.value))
              && r.value.outputIndices == OutputIndices(entries)
              && r.value.links == LinksOf(entries, system.value)
  {
    var scalarVariables: seq<Option<ScalarVariableElement>> := [];
    var outputIndices: set<int> := {};
    var links: seq<Link> := [];
    if system.None? {
      return Success(Generated(scalarVariables, outputIndices, links));
    }
    var systemName := system.value;
    var variableReference := 0;
    for i := 0 to |entries|
      invariant variableReference == i == |scalarVariables|
      invariant forall k :: 0 <= k < i ==> Success(scalarVariables[k]) == CreateScalarVariable(k, entries[k], systemName)
      invariant outputIndices == OutputIndices(entries[..i])
      invariant links == LinksOf(entries[..i], systemName)
    {
      var vr := variableReference;
      variableReference := variableReference + 1;
      var created := CreateScalarVariable(vr, entries[i], systemName);
      if created.Failure? {
        assert CreateScalarVariable(i, entries[i], systemName).Failure?;
        return Failure(created.error);
      }
      match LinkOf(vr, entries[i], systemName) {
        case Some(l) => links := links + [l];
        case None =>
      }
      CreatedStep(scalarVariables, entries, systemName, created.value);
      scalarVariables := scalarVariables + [created.value];
      if entries[i].annotation.kind == "output" {
        outputIndices := outputIndices + {|scalarVariables|};
      }
      OutputIndicesStep(entries, i);
      LinksOfStep(entries, i, systemName);
    }
    assert entries[..|entries|] == entries;
    return Success(Generated(scalarVariables, outputIndices, links));
  }

  /**
   * Output indices point at output elements: an instance variable annotated
   * as an output has its 1-based position listed, and every element exported
   * with causality "output" is listed.
   */
  lemma OutputIndicesMatchOutputElements(entries: seq<AnnotatedDefinition>, systemName: string, k: nat)
    requires k < |entries|
    requires CreateScalarVariable(k, entries[k], systemName).Success?
    ensures var e := CreateScalarVariable(k, entries[k], systemName).value;
            (e.Some? && e.value.causality == "output") <==>
              (k + 1 in OutputIndices(entries) && entries[k].definition.kind == InstanceVariableDefinition)
  {
    if k + 1 in OutputIndices(entries) {
      var j :| 0 <= j < |entries| && entries[j].annotation.kind == "output" && j + 1 == k + 1;
    }
  }

  /**
   * A value definition carrying an output annotation is exported as a fixed
   * parameter, yet its position is still listed among the outputs.
   */
  lemma ValueAnnotatedAsOutputIsListed(entries: seq<AnnotatedDefinition>, systemName: string, k: nat)
    requires k < |entries|
    requires entries[k].definition.kind == ValueDefinition && entries[k].annotation.kind == "output"
    requires entries[k].definition.basicType != OtherType
    ensures k + 1 in OutputIndices(entries)
    ensures CreateScalarVariable(k, entries[k], systemName).value.value.causality == "parameter"
  {
  }

  /** Every index listed lies within the section, counted from 1. */
  lemma OutputIndicesInRange(entries: seq<AnnotatedDefinition>)
    ensures forall i :: i in OutputIndices(entries) ==> 1 <= i <= |entries| && entries[i - 1].annotation.kind == "output"
  {
  }

  /** The type element names the generator writes are FMI type names the importer recognises. */
  lemma ExportedTypeNameImports(t: BasicType, initial: Option<string>)
    requires t != OtherType
    ensures ImportSynth.TypesValueOfIgnoreCase(GetType(t, initial).value.typeName).Some?
  {
    var name := GetType(t, initial).value.typeName;
    if t == RealType {
      assert ImportSynth.TypesName(ImportSynth.Real) == name;
    } else if t == BooleanType {
      assert ImportSynth.TypesName(ImportSynth.Boolean) == name;
    } else {
      assert ImportSynth.TypesName(ImportSynth.Integer) == name;
    }
  }

  /** A spelling that differs from a causality's name only in its lower-case first letter reads as that causality. */
  lemma CausalitySpellingReads(s: string, c: ImportSynth.Causality)
    requires var n := ImportSynth.CausalityName(c);
             |s| == |n| && s[0] == ToLower(n[0]) && forall i :: 1 <= i < |s| ==> s[i] == n[i]
    ensures ImportSynth.CausalityAttribute(Some(s)) == Success(Some(c))
  {
    var n := ImportSynth.CausalityName(c);
    assert s == [ToLower(n[0])] + n[1..];
    ImportSynth.CausalityAttributeReadsFmiSpelling(c);
  }

  /** The causality spellings the generator writes, as the importer reads them. */
  lemma ExportedCausalitiesImport()
    ensures ImportSynth.CausalityAttribute(Some("parameter")) == Success(Some(ImportSynth.Parameter))
    ensures ImportSynth.CausalityAttribute(Some("output")) == Success(Some(ImportSynth.Output))
    ensures ImportSynth.CausalityAttribute(Some("input")) == Success(Some(ImportSynth.Input))
  {
    ParameterSpellingReads();
    OutputSpellingReads();
    InputSpellingReads();
  }

  lemma ParameterSpellingReads()
    ensures ImportSynth.CausalityAttribute(Some("parameter")) == Success(Some(ImportSynth.Parameter))
  {
    CausalitySpellingReads("parameter", ImportSynth.Parameter);
  }

  lemma OutputSpellingReads()
    ensures ImportSynth.CausalityAttribute(Some("output")) == Success(Some(ImportSynth.Output))
  {
    CausalitySpellingReads("output", ImportSynth.Output);
  }

  lemma InputSpellingReads()
    ensures ImportSynth.CausalityAttribute(Some("input")) == Success(Some(ImportSynth.Input))
  {
    CausalitySpellingReads("input", ImportSynth.Input);
  }

  /** The initial spellings the generator writes, as the importer reads them. */
  lemma ExportedInitialsImport()
    ensures ImportSynth.InitialAttribute(Some("exact")) == Success(Some(ImportSynth.Exact))
    ensures ImportSynth.InitialAttribute(Some("calculated")) == Success(Some(ImportSynth.Calculated))
  {
    ImportSynth.InitialAttributeReads("exact", ImportSynth.Exact);
    ImportSynth.InitialAttributeReads("calculated", ImportSynth.Calculated);
  }

  /**
   * What the generator exports reads back through the importer: the type
   * element's name is one of the FMI types, the causality is the one the
   * element was created with, and the initial attribute (absent for inputs)
   * is accepted.
   */
  lemma ExportedElementImports(vr: int, entry: AnnotatedDefinition, systemName: string)
    requires CreateScalarVariable(vr, entry, systemName).Success?
    requires CreateScalarVariable(vr, entry, systemName).value.Some?
    ensures var e := CreateScalarVariable(vr, entry, systemName).value.value;
            ImportSynth.TypesValueOfIgnoreCase(e.typeElement.typeName).Some?
            && ImportSynth.CausalityAttribute(Some(e.causality)) ==
                 Success(Some(if entry.definition.kind == ValueDefinition then ImportSynth.Parameter
                              else if entry.annotation.kind == "output" then ImportSynth.Output
                              else ImportSynth.Input))
            && ImportSynth.InitialAttribute(e.initial).Success?
            && (e.initial.Some? <==> e.causality != "input")
  {
    ExportedCausalitiesImport();
    ExportedInitialsImport();
    var d := entry.definition;
    if d.kind == ValueDefinition {
      ExportedTypeNameImports(d.basicType, Some(d.expression));
    } else if entry.annotation.kind == "output" {
      ExportedTypeNameImports(d.basicType, None);
    } else {
      ExportedTypeNameImports(d.basicType, Some(d.expression));
    }
  }

  // ---------------------------------------------------------------------------
  // The numbered ScalarVariable section and the output list

  /** One entry of the section: a comment with the 1-based index, then the element ("null" for none). */
  function IndexedEntry(index: int, sv: Option<ScalarVariableElement>): string
  {
    "\t\t<!-- Index " + IntToString(index) + " -->\n" + "\t\t" + (if sv.Some? then ScalarVariableText(sv.value) else "null") + "\n"
  }

  function ScalarVariablesSection(svs: seq<Option<ScalarVariableElement>>): string
  {
    if svs == [] then "" else ScalarVariablesSection(svs[..|svs| - 1]) + IndexedEntry(|svs|, svs[|svs| - 1])
  }

  method RenderScalarVariables(svs: seq<Option<ScalarVariableElement>>) returns (text: string)
    ensures text == ScalarVariablesSection(svs)
  {
    text := "";
    for i := 0 to |svs|
      invariant text == ScalarVariablesSection(svs[..i])
    {
      assert svs[..i + 1][..i] == svs[..i];
      text := text + IndexedEntry(i + 1, svs[i]);
    }
    assert svs[..|svs|] == svs;
  }
}

/**
 * The FMI stepping engine of the Crescendo VDM interpreter: stepping the model
 * with a list of named inputs and reading back the linked outputs, and
 * overwriting a shared design parameter in the constructor call of a value
 * definition before the simulation starts.
 *
 * The interpreter itself (looking up and writing live values, running the
 * model up to a time, parsing and type checking an expression) is not
 * modelled: each of those is an oracle passed in as a function, and the
 * state it leaves behind is taken from its result.
 */
module Simulation {
  import opened Wrappers

  // ---------------------------------------------------------------------------
  // Values

  /** The interpreter values the engine distinguishes. */
  datatype Value =
    | UndefinedValue                // a variable that was never assigned
    | UpdatableValue(inner: Value)  // the transactional holder of a variable
    | RealValue(whole: int)         // a RealValue made from a whole number of time units
    | OtherValue(text: string)

  /** Value.deref(): strips every updatable holder. */
  function Deref(v: Value): (r: Value)
    ensures !r.UpdatableValue?
    ensures !v.UpdatableValue? ==> r == v
  {
    match v
    case UpdatableValue(inner) => Deref(inner)
    case _ => v
  }

  /**
   * The interpreter's handle on a variable. A SeqValueInfo additionally holds
   * the source value it was taken from.
   */
  datatype ValueInfo =
    | PlainInfo(name: string, classDef: string, value: Value, cpu: string)
    | SeqInfo(name: string, classDef: string, value: Value, source: Value, cpu: string)

  /**
   * unwrapSeqInfoValue: a SeqValueInfo becomes a plain ValueInfo over its
   * source, so that writes reach the transactional holder; anything else is
   * returned as it is.
   */
  function UnwrapSeqInfoValue(info: Option<ValueInfo>): (r: Option<ValueInfo>)
    ensures r.None? <==> info.None?
    ensures r.Some? ==> r.value.PlainInfo?
    ensures r.Some? ==> r.value.name == info.value.name && r.value.classDef == info.value.classDef
                        && r.value.cpu == info.value.cpu
    ensures r.Some? && info.value.SeqInfo? ==> r.value.value == info.value.source
    ensures info.Some? && info.value.PlainInfo? ==> r == info
  {
    match info
    case None => None
    case Some(SeqInfo(name, classDef, _, source, cpu)) => Some(PlainInfo(name, classDef, source, cpu))
    case Some(PlainInfo(_, _, _, _)) => info
  }

  /** Unwrapping twice is unwrapping once. */
  lemma UnwrapIdempotent(info: Option<ValueInfo>)
    ensures UnwrapSeqInfoValue(UnwrapSeqInfoValue(info)) == UnwrapSeqInfoValue(info)
  {
  }

  /** A value passed over the FMI boundary; reference -1 for values the engine makes itself. */
  datatype NamedValue = NamedValue(name: string, value: Value, reference: int)

  // ---------------------------------------------------------------------------
  // Links and model state

  /** The instance and variable a shared design parameter is bound to. */
  datatype BoundVariable = BoundVariable(instanceName: string, variableName: string)

  /**
   * The link configuration: the output keys in the iteration order of the
   * outputs map, the qualified name of every link (system name first), the
   * shared design parameters and their bound variables.
   */
  datatype Links = Links(
    outputs: seq<string>,
    qualifiedNames: map<string, seq<string>>,
    sharedDesignParameters: set<string>,
    boundVariables: map<string, BoundVariable>)

  /** The system members of the running model, by their path below the system. */
  type SystemMembers = map<seq<string>, Value>

  datatype SimulationError =
    | NoMainContext
    | WriteFailed(name: string)          // setScalarValue rejected an input
    | InternalStepFailed(message: string)
    | NotFound(name: string)             // "Value: <name> not found"
    | NotInitialized(name: string)       // "Value: <name> not initialized"
    | LookupFailed(name: string)         // the qualified name leads nowhere
    | UnlinkedParameter(name: string)    // "Tried to set unlinked shared design parameter: <name>"
    | ParseFailed(text: string)          // "Unable to parse initial parameter expression"
    | TypeCheckFailed(text: string)      // "Unable to parse parameter"
    | InternalError                      // "Internal error in set design parameters"

  /** What running the model up to an output time leaves behind. */
  datatype StepEffect = StepEffect(nextTime: int, members: Option<SystemMembers>)

  /** The trace of what a step did to the running model. */
  datatype Event =
    | Write(name: string, value: Value)
    | InternalStep(outputTime: int)

  // ---------------------------------------------------------------------------
  // Outputs

  /**
   * getSimpleOutput: the current value of a linked output. It is "not found"
   * without system members or for an unlinked name, and "not initialized" when
   * it dereferences to the undefined value.
   */
  function SimpleOutput(links: Links, members: Option<SystemMembers>, name: string): (r: Result<NamedValue, SimulationError>)
    ensures members.None? || name !in links.qualifiedNames ==> r == Failure(NotFound(name))
    ensures r.Success? ==> r.value.name == name && r.value.reference == -1
    ensures r.Success? ==> !Deref(r.value.value).UndefinedValue?
    ensures r.Success? ==>
              members.Some? && name in links.qualifiedNames && |links.qualifiedNames[name]| >= 1
              && links.qualifiedNames[name][1..] in members.value
              && r.value.value == members.value[links.qualifiedNames[name][1..]]
    ensures r == Failure(LookupFailed(name)) <==>
              members.Some? && name in links.qualifiedNames
              && !(|links.qualifiedNames[name]| >= 1 && links.qualifiedNames[name][1..] in members.value)
    ensures r == Failure(NotInitialized(name)) <==>
              members.Some? && name in links.qualifiedNames && |links.qualifiedNames[name]| >= 1
              && links.qualifiedNames[name][1..] in members.value
              && Deref(members.value[links.qualifiedNames[name][1..]]).UndefinedValue?
  {
    if members.Some? && name in links.qualifiedNames then
      var varName := links.qualifiedNames[name];
      if |varName| >= 1 && varName[1..] in members.value then
        var value := members.value[varName[1..]];
        if Deref(value).UndefinedValue? then Failure(NotInitialized(name))
        else Success(NamedValue(name, value, -1))
      else Failure(LookupFailed(name))
    else Failure(NotFound(name))
  }

  /**
   * The outputs for the given keys, in key order; the first key whose output
   * cannot be read fails the whole list.
   */
  function CollectOutputs(links: Links, members: Option<SystemMembers>, keys: seq<string>): (r: Result<seq<NamedValue>, SimulationError>)
    ensures r.Success? <==> forall k :: 0 <= k < |keys| ==> SimpleOutput(links, members, keys[k]).Success?
    ensures r.Success? ==> |r.value| == |keys|
    ensures r.Success? ==> forall k :: 0 <= k < |keys| ==> r.value[k] == SimpleOutput(links, members, keys[k]).value
    ensures r.Failure? ==> exists k :: 0 <= k < |keys| && SimpleOutput(links, members, keys[k]) == Failure(r.error)
                                       && forall j :: 0 <= j < k ==> SimpleOutput(links, members, keys[j]).Success?
  {
    if keys == [] then Success([])
    else
      match SimpleOutput(links, members, keys[0])
      case Failure(e) => Failure(e)
      case Success(v) =>
        match CollectOutputs(links, members, keys[1..])
        case Failure(e) =>
          assert forall k :: 0 <= k < |keys| - 1 ==> keys[1..][k] == keys[k + 1];
          Failure(e)
        case Success(vs) => Success([v] + vs)
  }

  /** The output loop of step: the time first, then the output of every key in link order. */
  method ReadOutputs(links: Links, members: Option<SystemMembers>, time: int)
    returns (r: Result<seq<NamedValue>, SimulationError>)
    ensures r == StepOutputs(links, members, time)
  {
    var outputs := [NamedValue("time", RealValue(time), -1)];
    var keys := links.outputs;
    for i := 0 to |keys|
      invariant |outputs| == i + 1 && outputs[0] == NamedValue("time", RealValue(time), -1)
      invariant forall k :: 0 <= k < i ==>
                  SimpleOutput(links, members, keys[k]).Success?
                  && outputs[k + 1] == SimpleOutput(links, members, keys[k]).value
    {
      var value := SimpleOutput(links, members, keys[i]);
      if value.Failure? {
        CollectOutputsStopsAt(links, members, keys, i);
        return Failure(value.error);
      }
      outputs := outputs + [value.value];
    }
    CollectOutputsReadsAll(links, members, keys, outputs[1..]);
    assert outputs == [outputs[0]] + outputs[1..];
    return Success(outputs);
  }

  /** When every key can be read, the list is exactly the values read, in key order. */
  lemma CollectOutputsReadsAll(links: Links, members: Option<SystemMembers>, keys: seq<string>, vs: seq<NamedValue>)
    requires |vs| == |keys|
    requires forall k :: 0 <= k < |keys| ==>
               SimpleOutput(links, members, keys[k]).Success? && vs[k] == SimpleOutput(links, members, keys[k]).value
    ensures CollectOutputs(links, members, keys) == Success(vs)
  {
    var r := CollectOutputs(links, members, keys);
    assert r.value == vs;
  }

  /** The first key that cannot be read decides the error of the whole list. */
  lemma {:induction false} CollectOutputsStopsAt(links: Links, members: Option<SystemMembers>, keys: seq<string>, i: nat)
    requires i < |keys|
    requires forall j :: 0 <= j < i ==> SimpleOutput(links, members, keys[j]).Success?
    requires SimpleOutput(links, members, keys[i]).Failure?
    ensures CollectOutputs(links, members, keys) == Failure(SimpleOutput(links, members, keys[i]).error)
  {
    if i > 0 {
      assert keys[1..][i - 1] == keys[i];
      assert forall j :: 0 <= j < i - 1 ==> keys[1..][j] == keys[j + 1];
      CollectOutputsStopsAt(links, members, keys[1..], i - 1);
    }
  }

  /** The outputs of a successful step: the time first, then one entry per output key. */
  function StepOutputs(links: Links, members: Option<SystemMembers>, time: int): Result<seq<NamedValue>, SimulationError>
  {
    match CollectOutputs(links, members, links.outputs)
    case Failure(e) => Failure(e)
    case Success(vs) => Success([NamedValue("time", RealValue(time), -1)] + vs)
  }

  /** A successful step answers "time" first and then exactly the output keys, in link order. */
  lemma StepOutputsShape(links: Links, members: Option<SystemMembers>, time: int)
    ensures var r := StepOutputs(links, members, time);
            r.Success? ==>
              |r.value| == |links.outputs| + 1
              && r.value[0] == NamedValue("time", RealValue(time), -1)
              && forall k :: 0 <= k < |links.outputs| ==> r.value[k + 1].name == links.outputs[k]
  {
    var r := StepOutputs(links, members, time);
    if r.Success? {
      var vs := CollectOutputs(links, members, links.outputs).value;
      assert r.value == [NamedValue("time", RealValue(time), -1)] + vs;
      forall k | 0 <= k < |links.outputs|
        ensures r.value[k + 1].name == links.outputs[k]
      {
        assert r.value[k + 1] == vs[k] == SimpleOutput(links, members, links.outputs[k]).value;
      }
    }
  }

  /** A step fails exactly when one of the linked outputs cannot be read: no partial list is returned. */
  lemma StepOutputsFailIff(links: Links, members: Option<SystemMembers>, time: int)
    ensures StepOutputs(links, members, time).Failure? <==>
              exists k :: 0 <= k < |links.outputs| && SimpleOutput(links, members, links.outputs[k]).Failure?
  {
  }

  // ---------------------------------------------------------------------------
  // Inputs

  /**
   * Whether setScalarValue takes an input, given the interpreter's handle on its
   * variable. The Java caller ignores the boolean that setScalarValue returns; the
   * only way it rejects an input is by throwing. So `false` here stands for that
   * exception, and it stops the remaining writes.
   */
  predicate Accepts(p: NamedValue, getValue: string -> Option<ValueInfo>,
                    setScalarValue: (string, Option<ValueInfo>, Value) -> bool)
  {
    setScalarValue(p.name, UnwrapSeqInfoValue(getValue(p.name)), p.value)
  }

  /** How many inputs, from the front, are written before the first one that is rejected. */
  function AcceptedInputs(inputs: seq<NamedValue>, getValue: string -> Option<ValueInfo>,
                          setScalarValue: (string, Option<ValueInfo>, Value) -> bool): (n: nat)
    ensures n <= |inputs|
    ensures forall k :: 0 <= k < n ==> Accepts(inputs[k], getValue, setScalarValue)
    ensures n < |inputs| ==> !Accepts(inputs[n], getValue, setScalarValue)
  {
    if inputs == [] || !Accepts(inputs[0], getValue, setScalarValue) then 0
    else 1 + AcceptedInputs(inputs[1..], getValue, setScalarValue)
  }

  /** The write events of some inputs, in list order. */
  function Writes(inputs: seq<NamedValue>): (r: seq<Event>)
    ensures |r| == |inputs|
    ensures forall k :: 0 <= k < |inputs| ==> r[k] == Write(inputs[k].name, inputs[k].value)
  {
    if inputs == [] then [] else [Write(inputs[0].name, inputs[0].value)] + Writes(inputs[1..])
  }

  // ---------------------------------------------------------------------------
  // Design parameters

  /** The expression of a value definition: a constructor call with its arguments, or anything else. */
  datatype Expression =
    | NewExp(className: string, args: seq<string>)
    | OtherExp(text: string)

  datatype Definition =
    | ValueDef(pattern: string, expression: Expression)
    | OtherDef(name: string)

  datatype ClassDefinition = ClassDefinition(name: string, definitions: seq<Definition>)

  /**
   * One setParameter call: the parameter and the variable it is bound to, the
   * text of its new value, and the parser and type checker applied to it.
   */
  datatype ParameterUpdate = ParameterUpdate(
    name: string,
    bound: BoundVariable,
    text: string,
    parse: string -> Option<string>,
    typeCheck: string -> Option<string>)

  predicate Matches(d: Definition, u: ParameterUpdate)
  {
    d.ValueDef? && d.pattern == u.bound.variableName
  }

  /**
   * The rewrite of one matched value definition: the parsed value replaces the
   * first constructor argument, or becomes the only one when there was none
   * (type checked first); other expressions are left alone.
   */
  function UpdateDefinition(d: Definition, u: ParameterUpdate): (r: Result<Definition, SimulationError>)
    requires d.ValueDef?
    ensures u.parse(u.text).None? ==> r == Failure(ParseFailed(u.text))
    ensures r.Failure? <==>
              (u.parse(u.text).None? || (d.expression.NewExp? && d.expression.args == [] && u.typeCheck(u.text).None?))
    ensures r.Success? && !d.expression.NewExp? ==> r.value == d
    ensures r.Success? && d.expression.NewExp? ==>
              r.value.ValueDef? && r.value.pattern == d.pattern && r.value.expression.NewExp?
              && r.value.expression.className == d.expression.className
              && |r.value.expression.args| == (if d.expression.args == [] then 1 else |d.expression.args|)
              && (d.expression.args != [] ==> r.value.expression.args[1..] == d.expression.args[1..])
              && r.value.expression.args[0] ==
                   (if d.expression.args == [] then u.typeCheck(u.text).value else u.parse(u.text).value)
  {
    match u.parse(u.text)
    case None => Failure(ParseFailed(u.text))
    case Some(res) =>
      match d.expression
      case OtherExp(_) => Success(d)
      case NewExp(className, args) =>
        if args == [] then
          match u.typeCheck(u.text)
          case None => Failure(TypeCheckFailed(u.text))
          case Some(tc) => Success(ValueDef(d.pattern, NewExp(className, args + [tc])))
        else Success(ValueDef(d.pattern, NewExp(className, args[0 := res])))
  }

  datatype DefinitionsOutcome = DefinitionsOutcome(definitions: seq<Definition>, matched: bool, error: Option<SimulationError>)

  /**
   * The definitions of the bound class after the update: every matched value
   * definition rewritten in order until the first one that fails, which is
   * left as it was, like everything after it.
   */
  function RewriteDefinitions(defs: seq<Definition>, u: ParameterUpdate): (r: DefinitionsOutcome)
    ensures |r.definitions| == |defs|
  {
    if defs == [] then DefinitionsOutcome([], false, None)
    else
      var rest := RewriteDefinitions(defs[1..], u);
      if !Matches(defs[0], u) then DefinitionsOutcome([defs[0]] + rest.definitions, rest.matched, rest.error)
      else
        match UpdateDefinition(defs[0], u)
        case Failure(e) => DefinitionsOutcome(defs, true, Some(e))
        case Success(d) => DefinitionsOutcome([d] + rest.definitions, true, rest.error)
  }

  /**
   * Each definition is either left as it was or rewritten successfully; the
   * update of the class fails exactly when a matched definition cannot be
   * rewritten, and otherwise every matched definition is rewritten.
   */
  lemma RewriteDefinitionsMeaning(defs: seq<Definition>, u: ParameterUpdate)
    ensures var r := RewriteDefinitions(defs, u);
            forall k :: 0 <= k < |defs| ==>
              r.definitions[k] == defs[k]
              || (Matches(defs[k], u) && UpdateDefinition(defs[k], u).Success?
                  && r.definitions[k] == UpdateDefinition(defs[k], u).value)
    ensures var r := RewriteDefinitions(defs, u);
            r.error.None? <==>
              forall k :: 0 <= k < |defs| && Matches(defs[k], u) ==> UpdateDefinition(defs[k], u).Success?
    ensures var r := RewriteDefinitions(defs, u);
            r.error.None? ==>
              forall k :: 0 <= k < |defs| ==>
                r.definitions[k] == if Matches(defs[k], u) then UpdateDefinition(defs[k], u).value else defs[k]
    ensures var r := RewriteDefinitions(defs, u);
            r.error.None? ==> (r.matched <==> exists k :: 0 <= k < |defs| && Matches(defs[k], u))
  {
    RewriteDefinitionsElements(defs, u);
    RewriteDefinitionsOutcome(defs, u);
  }

  lemma {:induction false} RewriteDefinitionsElements(defs: seq<Definition>, u: ParameterUpdate)
    ensures var r := RewriteDefinitions(defs, u);
            forall k :: 0 <= k < |defs| ==>
              r.definitions[k] == defs[k]
              || (Matches(defs[k], u) && UpdateDefinition(defs[k], u).Success?
                  && r.definitions[k] == UpdateDefinition(defs[k], u).value)
    ensures var r := RewriteDefinitions(defs, u);
            r.error.None? ==>
              forall k :: 0 <= k < |defs| ==>
                if Matches(defs[k], u) then UpdateDefinition(defs[k], u).Success? && r.definitions[k] == UpdateDefinition(defs[k], u).value
                else r.definitions[k] == defs[k]
  {
    if defs != [] {
      var r := RewriteDefinitions(defs, u);
      var rest := RewriteDefinitions(defs[1..], u);
      RewriteDefinitionsElements(defs[1..], u);
      if !Matches(defs[0], u) || UpdateDefinition(defs[0], u).Success? {
        assert forall k :: 1 <= k < |defs| ==> r.definitions[k] == rest.definitions[k - 1] && defs[1..][k - 1] == defs[k];
      } else {
        assert r.definitions == defs;
      }
    }
  }

  lemma {:induction false} RewriteDefinitionsOutcome(defs: seq<Definition>, u: ParameterUpdate)
    ensures var r := RewriteDefinitions(defs, u);
            r.error.None? <==>
              forall k :: 0 <= k < |defs| && Matches(defs[k], u) ==> UpdateDefinition(defs[k], u).Success?
    ensures var r := RewriteDefinitions(defs, u);
            r.error.None? ==> (r.matched <==> exists k :: 0 <= k < |defs| && Matches(defs[k], u))
  {
    if defs != [] {
      RewriteDefinitionsOutcome(defs[1..], u);
      assert forall k :: 1 <= k < |defs| ==> defs[1..][k - 1] == defs[k];
    }
  }

  /**
   * Matched definitions whose expression is not a constructor call are left
   * alone: once the value parses, the class keeps its definitions and the
   * update succeeds.
   */
  lemma OtherExpressionsUnchanged(defs: seq<Definition>, u: ParameterUpdate)
    requires u.parse(u.text).Some?
    requires forall k :: 0 <= k < |defs| && Matches(defs[k], u) ==> defs[k].expression.OtherExp?
    ensures RewriteDefinitions(defs, u).definitions == defs
    ensures RewriteDefinitions(defs, u).error.None?
  {
    RewriteDefinitionsMeaning(defs, u);
    var r := RewriteDefinitions(defs, u);
    assert forall k :: 0 <= k < |defs| ==> r.definitions[k] == defs[k];
  }

  datatype ClassesOutcome = ClassesOutcome(classes: seq<ClassDefinition>, found: bool, error: Option<SimulationError>)

  /** What visiting one class does: the class as left behind, the found flag after it, and a failure. */
  datatype ClassVisit = ClassVisit(updated: ClassDefinition, found: bool, error: Option<SimulationError>)

  /**
   * One class of the update: a class with the bound instance name has its
   * definitions rewritten, and unless a matching value definition was found by
   * then, in it or in an earlier class of that name, the update fails.
   */
  function VisitClass(cd: ClassDefinition, u: ParameterUpdate, found: bool): (r: ClassVisit)
    ensures r.updated.name == cd.name
    ensures cd.name != u.bound.instanceName ==> r == ClassVisit(cd, found, None)
    ensures cd.name == u.bound.instanceName && r.error.None? ==> r.found
    ensures cd.name == u.bound.instanceName ==>
              (r.error.None? <==> RewriteDefinitions(cd.definitions, u).error.None?
                                  && (found || RewriteDefinitions(cd.definitions, u).matched))
    ensures cd.name == u.bound.instanceName && r.error.None? ==>
              r.updated.definitions == RewriteDefinitions(cd.definitions, u).definitions
  {
    if cd.name != u.bound.instanceName then ClassVisit(cd, found, None)
    else
      var d := RewriteDefinitions(cd.definitions, u);
      var updated := cd.(definitions := d.definitions);
      if d.error.Some? then ClassVisit(updated, true, d.error)
      else if !(found || d.matched) then ClassVisit(updated, false, Some(UnlinkedParameter(u.name)))
      else ClassVisit(updated, true, None)
  }

  /**
   * The classes after the update, class by class until the first failure;
   * the found flag carries over from class to class.
   */
  function RewriteClasses(classes: seq<ClassDefinition>, u: ParameterUpdate, found: bool): (r: ClassesOutcome)
    ensures |r.classes| == |classes|
  {
    if classes == [] then ClassesOutcome([], found, None)
    else
      var visit := VisitClass(classes[0], u, found);
      if visit.error.Some? then ClassesOutcome([visit.updated] + classes[1..], visit.found, visit.error)
      else
        var rest := RewriteClasses(classes[1..], u, visit.found);
        ClassesOutcome([visit.updated] + rest.classes, rest.found, rest.error)
  }

  /** The update keeps every class name and touches only classes with the bound instance name. */
  lemma {:induction false} RewriteClassesFrame(classes: seq<ClassDefinition>, u: ParameterUpdate, found: bool)
    ensures var r := RewriteClasses(classes, u, found);
            forall k :: 0 <= k < |classes| ==> r.classes[k].name == classes[k].name
    ensures var r := RewriteClasses(classes, u, found);
            forall k :: 0 <= k < |classes| && classes[k].name != u.bound.instanceName ==> r.classes[k] == classes[k]
  {
    if classes != [] {
      var r := RewriteClasses(classes, u, found);
      var visit := VisitClass(classes[0], u, found);
      assert r.classes[0] == visit.updated;
      if visit.error.None? {
        var rest := RewriteClasses(classes[1..], u, visit.found);
        RewriteClassesFrame(classes[1..], u, visit.found);
        assert r.classes == [visit.updated] + rest.classes;
        assert forall k :: 1 <= k < |classes| ==> r.classes[k] == rest.classes[k - 1] && classes[1..][k - 1] == classes[k];
      } else {
        assert r.classes == [visit.updated] + classes[1..];
      }
    }
  }

  /** After a successful update every class with the bound instance name holds its rewritten definitions. */
  lemma {:induction false} RewriteClassesBoundDefinitions(classes: seq<ClassDefinition>, u: ParameterUpdate, found: bool)
    ensures var r := RewriteClasses(classes, u, found);
            r.error.None? ==>
              forall k :: 0 <= k < |classes| && classes[k].name == u.bound.instanceName ==>
                r.classes[k].definitions == RewriteDefinitions(classes[k].definitions, u).definitions
  {
    if classes != [] {
      var r := RewriteClasses(classes, u, found);
      var visit := VisitClass(classes[0], u, found);
      if visit.error.None? {
        var rest := RewriteClasses(classes[1..], u, visit.found);
        RewriteClassesBoundDefinitions(classes[1..], u, visit.found);
        assert r.classes == [visit.updated] + rest.classes;
        if r.error.None? {
          forall k | 0 <= k < |classes| && classes[k].name == u.bound.instanceName
            ensures r.classes[k].definitions == RewriteDefinitions(classes[k].definitions, u).definitions
          {
            if k > 0 {
              assert classes[1..][k - 1] == classes[k];
              assert r.classes[k] == rest.classes[k - 1];
            }
          }
        }
      }
    }
  }

  /** No class carries the bound instance name: nothing changes and the update succeeds. */
  lemma {:induction false} UnmatchedInstanceSucceeds(classes: seq<ClassDefinition>, u: ParameterUpdate, found: bool)
    requires forall k :: 0 <= k < |classes| ==> classes[k].name != u.bound.instanceName
    ensures RewriteClasses(classes, u, found) == ClassesOutcome(classes, found, None)
  {
    if classes != [] {
      assert classes[0].name != u.bound.instanceName;
      assert VisitClass(classes[0], u, found) == ClassVisit(classes[0], found, None);
      assert forall k :: 0 <= k < |classes[1..]| ==> classes[1..][k] == classes[k + 1];
      UnmatchedInstanceSucceeds(classes[1..], u, found);
    }
  }

  /** A bound class without a matching value definition makes the update fail. */
  lemma {:induction false} UnfoundVariableFails(classes: seq<ClassDefinition>, u: ParameterUpdate)
    requires exists k :: 0 <= k < |classes| && classes[k].name == u.bound.instanceName
    requires forall k, j :: 0 <= k < |classes| && 0 <= j < |classes[k].definitions| ==> !Matches(classes[k].definitions[j], u)
    ensures RewriteClasses(classes, u, false).error == Some(UnlinkedParameter(u.name))
    ensures RewriteClasses(classes, u, false).classes == classes
  {
    var cd := classes[0];
    if cd.name != u.bound.instanceName {
      assert forall k, j :: 0 <= k < |classes[1..]| && 0 <= j < |classes[1..][k].definitions| ==>
        classes[1..][k].definitions[j] == classes[k + 1].definitions[j];
      var k :| 0 <= k < |classes| && classes[k].name == u.bound.instanceName;
      assert classes[1..][k - 1].name == u.bound.instanceName;
      UnfoundVariableFails(classes[1..], u);
    } else {
      RewriteDefinitionsMeaning(cd.definitions, u);
      assert RewriteDefinitions(cd.definitions, u).definitions == cd.definitions;
    }
  }

  /** The classes as setParameter leaves them, and its answer. */
  function SetParameterOutcome(links: Links, classes: seq<ClassDefinition>, name: string, text: string,
                               parse: string -> Option<string>, typeCheck: string -> Option<string>): (r: ClassesOutcome)
    ensures name !in links.sharedDesignParameters ==> r == ClassesOutcome(classes, false, Some(UnlinkedParameter(name)))
    ensures name in links.sharedDesignParameters && name !in links.boundVariables ==>
              r == ClassesOutcome(classes, false, Some(InternalError))
  {
    if name !in links.sharedDesignParameters then ClassesOutcome(classes, false, Some(UnlinkedParameter(name)))
    else if name !in links.boundVariables then ClassesOutcome(classes, false, Some(InternalError))
    else RewriteClasses(classes, ParameterUpdate(name, links.boundVariables[name], text, parse, typeCheck), false)
  }

  // ---------------------------------------------------------------------------
  // The simulation manager

  class FmiSimulationManager {
    var links: Links
    var mainContext: bool
    var systemMembers: Option<SystemMembers>
    var nextSchedulableActionTime: int
    var trace: seq<Event>
    var classes: seq<ClassDefinition>

    /**
     * The manager as the interpreter creates it. Whether the caller runs in the
     * interpreter's main context is decided by the inherited checkMainContext,
     * whose superclass is not part of this model; it is given here as a flag.
     */
    constructor(links: Links, classes: seq<ClassDefinition>, mainContext: bool)
      ensures this.links == links && this.classes == classes && this.mainContext == mainContext
      ensures systemMembers.None? && nextSchedulableActionTime == 0 && trace == []
    {
      this.links := links;
      this.classes := classes;
      this.mainContext := mainContext;
      systemMembers := None;
      nextSchedulableActionTime := 0;
      trace := [];
    }

    /**
     * step: writes every input in list order, runs the model up to the output
     * time and answers the time followed by every linked output. Writes made
     * before a failure stay made.
     */
    method Step(outputTime: int, inputs: seq<NamedValue>,
                getValue: string -> Option<ValueInfo>,
                setScalarValue: (string, Option<ValueInfo>, Value) -> bool,
                doInternalStep: int -> Result<StepEffect, string>)
      returns (r: Result<seq<NamedValue>, SimulationError>)
      modifies this
      ensures links == old(links) && classes == old(classes) && mainContext == old(mainContext)
      ensures !mainContext ==> r == Failure(NoMainContext) && unchanged(this)
      ensures mainContext && AcceptedInputs(inputs, getValue, setScalarValue) < |inputs| ==>
                var n := AcceptedInputs(inputs, getValue, setScalarValue);
                r == Failure(WriteFailed(inputs[n].name))
                && trace == old(trace) + Writes(inputs[..n])
                && systemMembers == old(systemMembers) && nextSchedulableActionTime == old(nextSchedulableActionTime)
      ensures mainContext && AcceptedInputs(inputs, getValue, setScalarValue) == |inputs| ==>
                match doInternalStep(outputTime)
                case Failure(message) =>
                  r == Failure(InternalStepFailed(message)) && trace == old(trace) + Writes(inputs)
                  && systemMembers == old(systemMembers) && nextSchedulableActionTime == old(nextSchedulableActionTime)
                case Success(effect) =>
                  trace == old(trace) + Writes(inputs) + [InternalStep(outputTime)]
                  && systemMembers == effect.members && nextSchedulableActionTime == effect.nextTime
                  && r == StepOutputs(links, effect.members, effect.nextTime)
    {
      if !mainContext {
        return Failure(NoMainContext);
      }
      var written, failed := WriteInputs(inputs, getValue, setScalarValue);
      trace := trace + written;
      if failed.Some? {
        return Failure(WriteFailed(failed.value));
      }
      assert inputs[..|inputs|] == inputs;

      var effect := doInternalStep(outputTime);
      if effect.Failure? {
        return Failure(InternalStepFailed(effect.error));
      }
      trace := trace + [InternalStep(outputTime)];
      nextSchedulableActionTime := effect.value.nextTime;
      systemMembers := effect.value.members;

      r := ReadOutputs(links, systemMembers, nextSchedulableActionTime);
    }

    /**
     * setParameter: rewrites the constructor argument of the value definition a
     * shared design parameter is bound to. Rewrites made before a failure stay made.
     */
    method SetParameter(name: string, text: string,
                        parse: string -> Option<string>, typeCheck: string -> Option<string>)
      returns (r: Result<bool, SimulationError>)
      modifies this
      ensures links == old(links) && mainContext == old(mainContext) && systemMembers == old(systemMembers)
      ensures nextSchedulableActionTime == old(nextSchedulableActionTime) && trace == old(trace)
      ensures var o := SetParameterOutcome(links, old(classes), name, text, parse, typeCheck);
              classes == o.classes && r == (if o.error.None? then Success(true) else Failure(o.error.value))
    {
      if name !in links.sharedDesignParameters {
        return Failure(UnlinkedParameter(name));
      }
      if name !in links.boundVariables {
        return Failure(InternalError);
      }
      var vName := links.boundVariables[name];
      var u := ParameterUpdate(name, vName, text, parse, typeCheck);
      var result, error := RewriteAllClasses(classes, u);
      classes := result;
      return if error.None? then Success(true) else Failure(error.value);
    }
  }

  /**
   * The loop of setParameter over the classes of the model, with the found
   * flag carried across them: the classes as the loop leaves them and its failure.
   */
  method RewriteAllClasses(original: seq<ClassDefinition>, u: ParameterUpdate)
    returns (classes: seq<ClassDefinition>, error: Option<SimulationError>)
    ensures classes == RewriteClasses(original, u, false).classes
    ensures error == RewriteClasses(original, u, false).error
  {
    var found := false;
    var done: seq<ClassDefinition> := [];
    for i := 0 to |original|
      invariant |done| == i
      invariant RewriteClasses(original, u, false) == JoinClasses(done, RewriteClasses(original[i..], u, found))
    {
      var cd := original[i];
      RewriteClassesStep(original, u, i, done, found);
      if cd.name != u.bound.instanceName {
        done := done + [cd];
        continue;
      }
      var defs, matched, failure := RewriteClassDefinitions(cd.definitions, u);
      var updated := cd.(definitions := defs);
      if failure.Some? || !(found || matched) {
        return done + [updated] + original[i + 1..], if failure.Some? then failure else Some(UnlinkedParameter(u.name));
      }
      found := true;
      done := done + [updated];
    }
    assert original[|original|..] == [];
    return done, None;
  }

  /** One class further: a failed visit ends the update, a successful one joins the prefix. */
  lemma RewriteClassesStep(original: seq<ClassDefinition>, u: ParameterUpdate, i: nat, done: seq<ClassDefinition>, found: bool)
    requires i < |original|
    requires RewriteClasses(original, u, false) == JoinClasses(done, RewriteClasses(original[i..], u, found))
    ensures var visit := VisitClass(original[i], u, found);
            visit.error.Some? ==>
              RewriteClasses(original, u, false) == ClassesOutcome(done + [visit.updated] + original[i + 1..], visit.found, visit.error)
    ensures var visit := VisitClass(original[i], u, found);
            visit.error.None? ==>
              RewriteClasses(original, u, false) == JoinClasses(done + [visit.updated], RewriteClasses(original[i + 1..], u, visit.found))
  {
    RewriteClassesUnfold(original, u, i, found);
    var visit := VisitClass(original[i], u, found);
    if visit.error.Some? {
      assert done + ([visit.updated] + original[i + 1..]) == done + [visit.updated] + original[i + 1..];
    } else {
      JoinClassesStep(done, visit.updated, RewriteClasses(original[i + 1..], u, visit.found));
    }
  }

  lemma RewriteClassesUnfold(classes: seq<ClassDefinition>, u: ParameterUpdate, i: nat, found: bool)
    requires i < |classes|
    ensures var visit := VisitClass(classes[i], u, found);
            RewriteClasses(classes[i..], u, found) ==
              if visit.error.Some? then ClassesOutcome([visit.updated] + classes[i + 1..], visit.found, visit.error)
              else
                var rest := RewriteClasses(classes[i + 1..], u, visit.found);
                ClassesOutcome([visit.updated] + rest.classes, rest.found, rest.error)
  {
    assert classes[i..][1..] == classes[i + 1..];
  }

  function JoinClasses(done: seq<ClassDefinition>, o: ClassesOutcome): ClassesOutcome
  {
    ClassesOutcome(done + o.classes, o.found, o.error)
  }

  lemma JoinClassesStep(done: seq<ClassDefinition>, cd: ClassDefinition, o: ClassesOutcome)
    ensures JoinClasses(done, ClassesOutcome([cd] + o.classes, o.found, o.error)) == JoinClasses(done + [cd], o)
  {
    assert done + ([cd] + o.classes) == done + [cd] + o.classes;
  }

  /**
   * The inner loop of setParameter over the definitions of the bound class:
   * the matched value definitions rewritten in place until the first failure.
   */
  method RewriteClassDefinitions(defs: seq<Definition>, u: ParameterUpdate)
    returns (result: seq<Definition>, matched: bool, error: Option<SimulationError>)
    ensures RewriteDefinitions(defs, u) == DefinitionsOutcome(result, matched, error)
  {
    var done: seq<Definition> := [];
    matched := false;
    for j := 0 to |defs|
      invariant |done| == j
      invariant RewriteDefinitions(defs, u) == JoinDefinitions(done, matched, RewriteDefinitions(defs[j..], u))
    {
      RewriteDefinitionsStep(defs, u, j, done, matched);
      var def := defs[j];
      var next := def;
      if def.ValueDef? && def.pattern == u.bound.variableName {
        matched := true;
        var res := u.parse(u.text);
        if res.None? {
          return done + defs[j..], matched, Some(ParseFailed(u.text));
        }
        match def.expression {
          case NewExp(className, args) =>
            if args == [] {
              var tcRes := u.typeCheck(u.text);
              if tcRes.None? {
                return done + defs[j..], matched, Some(TypeCheckFailed(u.text));
              }
              next := ValueDef(def.pattern, NewExp(className, args + [tcRes.value]));
            } else {
              next := ValueDef(def.pattern, NewExp(className, args[0 := res.value]));
            }
          case OtherExp(_) =>
        }
      }
      done := done + [next];
    }
    assert defs[|defs|..] == [];
    return done, matched, None;
  }

  lemma RewriteDefinitionsUnfold(defs: seq<Definition>, u: ParameterUpdate, j: nat)
    requires j < |defs|
    ensures var rest := RewriteDefinitions(defs[j + 1..], u);
            RewriteDefinitions(defs[j..], u) ==
              if !Matches(defs[j], u) then DefinitionsOutcome([defs[j]] + rest.definitions, rest.matched, rest.error)
              else if UpdateDefinition(defs[j], u).Failure? then
                DefinitionsOutcome(defs[j..], true, Some(UpdateDefinition(defs[j], u).error))
              else DefinitionsOutcome([UpdateDefinition(defs[j], u).value] + rest.definitions, true, rest.error)
  {
    assert defs[j..][1..] == defs[j + 1..];
  }

  /** One definition further: a failed rewrite ends the update, a successful one joins the prefix. */
  lemma RewriteDefinitionsStep(defs: seq<Definition>, u: ParameterUpdate, j: nat, done: seq<Definition>, matched: bool)
    requires j < |defs|
    requires RewriteDefinitions(defs, u) == JoinDefinitions(done, matched, RewriteDefinitions(defs[j..], u))
    ensures !Matches(defs[j], u) ==>
              RewriteDefinitions(defs, u) == JoinDefinitions(done + [defs[j]], matched, RewriteDefinitions(defs[j + 1..], u))
    ensures Matches(defs[j], u) && UpdateDefinition(defs[j], u).Failure? ==>
              RewriteDefinitions(defs, u) == DefinitionsOutcome(done + defs[j..], true, Some(UpdateDefinition(defs[j], u).error))
    ensures Matches(defs[j], u) && UpdateDefinition(defs[j], u).Success? ==>
              RewriteDefinitions(defs, u)
                == JoinDefinitions(done + [UpdateDefinition(defs[j], u).value], true, RewriteDefinitions(defs[j + 1..], u))
  {
    RewriteDefinitionsUnfold(defs, u, j);
    var rest := RewriteDefinitions(defs[j + 1..], u);
    if !Matches(defs[j], u) {
      assert done + ([defs[j]] + rest.definitions) == done + [defs[j]] + rest.definitions;
    } else if UpdateDefinition(defs[j], u).Success? {
      var d := UpdateDefinition(defs[j], u).value;
      assert done + ([d] + rest.definitions) == done + [d] + rest.definitions;
    }
  }

  function JoinDefinitions(done: seq<Definition>, matched: bool, o: DefinitionsOutcome): DefinitionsOutcome
  {
    DefinitionsOutcome(done + o.definitions, matched || o.matched, o.error)
  }

  /**
   * The input loop of step: every input is written, in list order, through
   * setScalarValue after getValue's (unwrapped) lookup; the first write that
   * fails stops the loop.
   */
  method WriteInputs(inputs: seq<NamedValue>, getValue: string -> Option<ValueInfo>,
                     setScalarValue: (string, Option<ValueInfo>, Value) -> bool)
    returns (written: seq<Event>, failed: Option<string>)
    ensures var n := AcceptedInputs(inputs, getValue, setScalarValue);
            written == Writes(inputs[..n])
            && (failed.None? <==> n == |inputs|)
            && (failed.Some? ==> failed.value == inputs[n].name)
  {
    written := [];
    for i := 0 to |inputs|
      invariant written == Writes(inputs[..i])
      invariant forall k :: 0 <= k < i ==> Accepts(inputs[k], getValue, setScalarValue)
    {
      var p := inputs[i];
      var info := UnwrapSeqInfoValue(getValue(p.name));
      if !setScalarValue(p.name, info, p.value) {
        AcceptedInputsStopsAt(inputs, getValue, setScalarValue, i);
        return written, Some(p.name);
      }
      WritesSnoc(inputs, i);
      written := written + [Write(p.name, p.value)];
    }
    AcceptedInputsAll(inputs, getValue, setScalarValue);
    return written, None;
  }

  // ---------------------------------------------------------------------------
  // Helper lemmas for the step loop

  lemma AcceptedInputsStopsAt(inputs: seq<NamedValue>, getValue: string -> Option<ValueInfo>,
                              setScalarValue: (string, Option<ValueInfo>, Value) -> bool, i: nat)
    requires i < |inputs| && !Accepts(inputs[i], getValue, setScalarValue)
    requires forall k :: 0 <= k < i ==> Accepts(inputs[k], getValue, setScalarValue)
    ensures AcceptedInputs(inputs, getValue, setScalarValue) == i
  {
  }

  lemma AcceptedInputsAll(inputs: seq<NamedValue>, getValue: string -> Option<ValueInfo>,
                          setScalarValue: (string, Option<ValueInfo>, Value) -> bool)
    requires forall k :: 0 <= k < |inputs| ==> Accepts(inputs[k], getValue, setScalarValue)
    ensures AcceptedInputs(inputs, getValue, setScalarValue) == |inputs|
  {
  }

  lemma WritesSnoc(inputs: seq<NamedValue>, i: nat)
    requires i < |inputs|
    ensures Writes(inputs[..i + 1]) == Writes(inputs[..i]) + [Write(inputs[i].name, inputs[i].value)]
  {
  }
}

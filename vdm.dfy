/**
 * The slice of the Overture VDM-RT abstract syntax tree that the FMI bridge
 * inspects, and the interface annotations (`-- @ interface: type = ..., name = ...`)
 * collected from the model. The type checker and the annotation collector that
 * produce these values are outside the model: their results are taken as input.
 */
module Vdm {
  import opened Wrappers

  /** The AST node class of a definition, as told apart by instanceof. */
  datatype DefinitionKind =
    | ValueDefinition              // AValueDefinition
    | InstanceVariableDefinition   // AInstanceVariableDefinition
    | ExplicitOperationDefinition  // AExplicitOperationDefinition
    | ImplicitOperationDefinition  // the other SOperationDefinitionBase
    | OtherDefinition

  /** The shape of a definition's PType that the export generator distinguishes. */
  datatype BasicType =
    | RealType       // ARealNumericBasicType
    | BooleanType    // ABooleanBasicType
    | NumericType    // any other SNumericBasicType (nat, nat1, int, rat)
    | OtherType      // seq of char, records, named types, ...

  datatype Definition = Definition(
    kind: DefinitionKind,
    name: string,        // getName().getName()
    fullName: string,    // getName().getFullName()
    pattern: string,     // value definitions: getPattern().toString()
    moduleName: string,  // getLocation().getModule()
    className: string,   // getClassDefinition().getName().getName()
    typeName: string,    // getType().toString()
    basicType: BasicType,
    expression: string,  // "" + getExpression()
    isStatic: bool)      // getAccess().getStatic() != null

  datatype ClassDefinition = ClassDefinition(
    name: string,
    isSystem: bool,      // instanceof ASystemClassDefinition
    definitions: seq<Definition>)

  /** FmuAnnotation: the exported name (may be absent), the role ("input", "output", "parameter") and its line. */
  datatype Annotation = Annotation(name: Option<string>, kind: string, line: int)

  /** One entry of the Map<PDefinition, FmuAnnotation>, in the map's iteration order. */
  datatype AnnotatedDefinition = AnnotatedDefinition(definition: Definition, annotation: Annotation)

  predicate IsOperation(d: Definition)
  {
    d.kind == ExplicitOperationDefinition || d.kind == ImplicitOperationDefinition
  }
}

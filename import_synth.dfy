/**
 * Import of an FMI 2.0 modelDescription.xml into a VDM-RT model
 * (ImportModelDescriptionProcesser): the enumerations of the FMI ScalarVariable
 * attributes, the placement check, the already-bound filter, the type and
 * default-value mapping, the identifier sanitiser, the scaffolding checks and
 * the splice of new declarations into the HardwareInterface class text.
 * The XML parsing is outside the model: the parsed ScalarVariable records are
 * the input.
 */
module ImportSynth {
  import opened Wrappers
  import opened Text
  import opened Vdm

  const HardwareInterface: string := "HardwareInterface"

  // ---------------------------------------------------------------------------
  // The four enumerations and their name lookups

  datatype Types = Boolean | Real | Integer | String | Enumeration
  datatype Causality = Parameter | CalculatedParameter | Input | Output | Local | Independent
  datatype Variability = Constant | Fixed | Tunable | Discrete | Continuous
  datatype Initial = Exact | Approx | Calculated

  function TypesName(t: Types): (r: string)
    ensures |r| > 0 && 'A' <= r[0] <= 'Z'
  {
    match t
    case Boolean => "Boolean"
    case Real => "Real"
    case Integer => "Integer"
    case String => "String"
    case Enumeration => "Enumeration"
  }

  function CausalityName(c: Causality): (r: string)
    ensures |r| > 0 && 'A' <= r[0] <= 'Z'
  {
    match c
    case Parameter => "Parameter"
    case CalculatedParameter => "CalculatedParameter"
    case Input => "Input"
    case Output => "Output"
    case Local => "Local"
    case Independent => "Independent"
  }

  function VariabilityName(v: Variability): (r: string)
    ensures |r| > 0 && 'A' <= r[0] <= 'Z'
  {
    match v
    case Constant => "Constant"
    case Fixed => "Fixed"
    case Tunable => "Tunable"
    case Discrete => "Discrete"
    case Continuous => "Continuous"
  }

  function InitialName(i: Initial): (r: string)
    ensures |r| > 0 && 'A' <= r[0] <= 'Z'
  {
    match i
    case Exact => "Exact"
    case Approx => "Approx"
    case Calculated => "Calculated"
  }

  /** values() of each enumeration, in declaration order. */
  const AllTypes: seq<Types> := [Boolean, Real, Integer, String, Enumeration]
  const AllCausalities: seq<Causality> := [Parameter, CalculatedParameter, Input, Output, Local, Independent]
  const AllVariabilities: seq<Variability> := [Constant, Fixed, Tunable, Discrete, Continuous]
  const AllInitials: seq<Initial> := [Exact, Approx, Calculated]

  lemma TypesListed(t: Types)
    ensures t in AllTypes
  {
    match t
    case Boolean => assert AllTypes[0] == t;
    case Real => assert AllTypes[1] == t;
    case Integer => assert AllTypes[2] == t;
    case String => assert AllTypes[3] == t;
    case Enumeration => assert AllTypes[4] == t;
  }

  lemma CausalitiesListed(c: Causality)
    ensures c in AllCausalities
  {
    match c
    case Parameter => assert AllCausalities[0] == c;
    case CalculatedParameter => assert AllCausalities[1] == c;
    case Input => assert AllCausalities[2] == c;
    case Output => assert AllCausalities[3] == c;
    case Local => assert AllCausalities[4] == c;
    case Independent => assert AllCausalities[5] == c;
  }

  lemma VariabilitiesListed(v: Variability)
    ensures v in AllVariabilities
  {
    match v
    case Constant => assert AllVariabilities[0] == v;
    case Fixed => assert AllVariabilities[1] == v;
    case Tunable => assert AllVariabilities[2] == v;
    case Discrete => assert AllVariabilities[3] == v;
    case Continuous => assert AllVariabilities[4] == v;
  }

  lemma InitialsListed(i: Initial)
    ensures i in AllInitials
  {
    match i
    case Exact => assert AllInitials[0] == i;
    case Approx => assert AllInitials[1] == i;
    case Calculated => assert AllInitials[2] == i;
  }

  /** The loop of valueOfIgnorecase: the first constant whose name equals s ignoring case. */
  function FirstIgnoreCase<T>(values: seq<T>, name: T -> string, s: string): (r: Option<T>)
    ensures r.Some? ==> exists k :: 0 <= k < |values| && values[k] == r.value && EqualsIgnoreCase(name(values[k]), s)
    ensures r.None? <==> forall k :: 0 <= k < |values| ==> !EqualsIgnoreCase(name(values[k]), s)
  {
    if |values| == 0 then None
    else if EqualsIgnoreCase(name(values[0]), s) then Some(values[0])
    else
      var r := FirstIgnoreCase(values[1..], name, s);
      assert forall k :: 1 <= k < |values| ==> values[k] == values[1..][k - 1];
      r
  }

  /** No two constants have names that are equal ignoring case. */
  predicate DistinctIgnoreCase<T>(values: seq<T>, name: T -> string)
  {
    forall i, j :: 0 <= i < j < |values| ==> !EqualsIgnoreCase(name(values[i]), name(values[j]))
  }

  lemma {:induction false} FirstIgnoreCaseIff<T>(values: seq<T>, name: T -> string, s: string, v: T)
    requires DistinctIgnoreCase(values, name)
    requires v in values
    ensures FirstIgnoreCase(values, name, s) == Some(v) <==> EqualsIgnoreCase(name(v), s)
  {
    if values[0] != v {
      var j :| 0 <= j < |values| && values[j] == v;
      if EqualsIgnoreCase(name(values[0]), s) {
        assert !EqualsIgnoreCase(name(values[0]), name(values[j]));
      } else {
        assert values[1..][j - 1] == v;
        FirstIgnoreCaseIff(values[1..], name, s, v);
      }
    }
  }

  lemma DifferentHead(a: string, b: string)
    requires |a| != |b| || (|a| > 0 && |b| > 0 && ToLower(a[0]) != ToLower(b[0]))
    ensures !EqualsIgnoreCase(a, b)
  {
    if |a| == |b| {
      assert LowerString(a)[0] != LowerString(b)[0];
    }
  }

  lemma TypesDistinct()
    ensures DistinctIgnoreCase(AllTypes, TypesName)
  {
    forall i, j | 0 <= i < j < |AllTypes|
      ensures !EqualsIgnoreCase(TypesName(AllTypes[i]), TypesName(AllTypes[j]))
    {
      DifferentHead(TypesName(AllTypes[i]), TypesName(AllTypes[j]));
    }
  }

  lemma CausalitiesDistinct()
    ensures DistinctIgnoreCase(AllCausalities, CausalityName)
  {
    forall i, j | 0 <= i < j < |AllCausalities|
      ensures !EqualsIgnoreCase(CausalityName(AllCausalities[i]), CausalityName(AllCausalities[j]))
    {
      DifferentHead(CausalityName(AllCausalities[i]), CausalityName(AllCausalities[j]));
    }
  }

  lemma VariabilitiesDistinct()
    ensures DistinctIgnoreCase(AllVariabilities, VariabilityName)
  {
    forall i, j | 0 <= i < j < |AllVariabilities|
      ensures !EqualsIgnoreCase(VariabilityName(AllVariabilities[i]), VariabilityName(AllVariabilities[j]))
    {
      DifferentHead(VariabilityName(AllVariabilities[i]), VariabilityName(AllVariabilities[j]));
    }
  }

  lemma InitialsDistinct()
    ensures DistinctIgnoreCase(AllInitials, InitialName)
  {
    forall i, j | 0 <= i < j < |AllInitials|
      ensures !EqualsIgnoreCase(InitialName(AllInitials[i]), InitialName(AllInitials[j]))
    {
      DifferentHead(InitialName(AllInitials[i]), InitialName(AllInitials[j]));
    }
  }

  /** Types.valueOfIgnorecase: the constant named s up to case, null (None) if there is none. */
  function TypesValueOfIgnoreCase(s: string): (r: Option<Types>)
    ensures forall t: Types :: r == Some(t) <==> EqualsIgnoreCase(TypesName(t), s)
  {
    TypesDistinct();
    forall t: Types ensures FirstIgnoreCase(AllTypes, TypesName, s) == Some(t) <==> EqualsIgnoreCase(TypesName(t), s) {
      TypesListed(t);
      FirstIgnoreCaseIff(AllTypes, TypesName, s, t);
    }
    FirstIgnoreCase(AllTypes, TypesName, s)
  }

  function CausalityValueOfIgnoreCase(s: string): (r: Option<Causality>)
    ensures forall c: Causality :: r == Some(c) <==> EqualsIgnoreCase(CausalityName(c), s)
  {
    CausalitiesDistinct();
    forall c: Causality ensures FirstIgnoreCase(AllCausalities, CausalityName, s) == Some(c) <==> EqualsIgnoreCase(CausalityName(c), s) {
      CausalitiesListed(c);
      FirstIgnoreCaseIff(AllCausalities, CausalityName, s, c);
    }
    FirstIgnoreCase(AllCausalities, CausalityName, s)
  }

  function VariabilityValueOfIgnoreCase(s: string): (r: Option<Variability>)
    ensures forall v: Variability :: r == Some(v) <==> EqualsIgnoreCase(VariabilityName(v), s)
  {
    VariabilitiesDistinct();
    forall v: Variability ensures FirstIgnoreCase(AllVariabilities, VariabilityName, s) == Some(v) <==> EqualsIgnoreCase(VariabilityName(v), s) {
      VariabilitiesListed(v);
      FirstIgnoreCaseIff(AllVariabilities, VariabilityName, s, v);
    }
    FirstIgnoreCase(AllVariabilities, VariabilityName, s)
  }

  function InitialValueOfIgnoreCase(s: string): (r: Option<Initial>)
    ensures forall i: Initial :: r == Some(i) <==> EqualsIgnoreCase(InitialName(i), s)
  {
    InitialsDistinct();
    forall i: Initial ensures FirstIgnoreCase(AllInitials, InitialName, s) == Some(i) <==> EqualsIgnoreCase(InitialName(i), s) {
      InitialsListed(i);
      FirstIgnoreCaseIff(AllInitials, InitialName, s, i);
    }
    FirstIgnoreCase(AllInitials, InitialName, s)
  }

  // ---------------------------------------------------------------------------
  // getAttribute: Enum.valueOf(StringUtils.capitalize(value)), an exact lookup

  datatype ImportError =
    | UnknownConstant(text: string)    // IllegalArgumentException from Enum.valueOf
    | NullCausality                    // NullPointerException from switch on a null causality
    | MissingWorldRun                  // "Missing world run operation"
    | MissingHardwareInterfaceField    // "Missing hardware definition in system"
    | MissingHardwareInterfaceClass    // NullPointerException: no HardwareInterface class to patch

  function FirstNamed<T>(values: seq<T>, name: T -> string, s: string): (r: Option<T>)
    ensures r.Some? ==> exists k :: 0 <= k < |values| && values[k] == r.value && name(values[k]) == s
    ensures r.None? <==> forall k :: 0 <= k < |values| ==> name(values[k]) != s
  {
    if |values| == 0 then None
    else if name(values[0]) == s then Some(values[0])
    else
      var r := FirstNamed(values[1..], name, s);
      assert forall k :: 1 <= k < |values| ==> values[k] == values[1..][k - 1];
      r
  }

  /** Names distinct up to case are distinct, so the exact lookup finds each constant by its own name. */
  lemma FirstNamedFinds<T>(values: seq<T>, name: T -> string, v: T)
    requires DistinctIgnoreCase(values, name)
    requires v in values
    ensures FirstNamed(values, name, name(v)) == Some(v)
  {
    var m :| 0 <= m < |values| && values[m] == v;
    var r := FirstNamed(values, name, name(v));
    assert r.Some?;
    var k :| 0 <= k < |values| && values[k] == r.value && name(values[k]) == name(v);
    assert EqualsIgnoreCase(name(values[k]), name(values[m]));
  }

  lemma CapitalizeUndoesLowerFirst(n: string)
    requires |n| > 0 && 'A' <= n[0] <= 'Z'
    ensures Capitalize([ToLower(n[0])] + n[1..]) == n
  {
    var s := [ToLower(n[0])] + n[1..];
    assert s[1..] == n[1..];
    assert Capitalize(s) == [n[0]] + n[1..];
  }

  /** An absent attribute is null; a present one must equal a constant's name once its first letter is capitalised. */
  function GetAttribute<T>(values: seq<T>, name: T -> string, attribute: Option<string>): (r: Result<Option<T>, ImportError>)
    ensures attribute.None? ==> r == Success(None)
    ensures attribute.Some? && r.Success? ==> r.value.Some? && name(r.value.value) == Capitalize(attribute.value)
    ensures attribute.Some? ==> (r.Failure? <==> forall k :: 0 <= k < |values| ==> name(values[k]) != Capitalize(attribute.value))
  {
    match attribute
    case None => Success(None)
    case Some(text) =>
      match FirstNamed(values, name, Capitalize(text))
      case Some(v) => Success(Some(v))
      case None => Failure(UnknownConstant(Capitalize(text)))
  }

  function CausalityAttribute(attribute: Option<string>): Result<Option<Causality>, ImportError>
  {
    GetAttribute(AllCausalities, CausalityName, attribute)
  }

  function InitialAttribute(attribute: Option<string>): Result<Option<Initial>, ImportError>
  {
    GetAttribute(AllInitials, InitialName, attribute)
  }

  /** The FMI spellings (lower-case first letter, section 2.2.7 of FMI 2.0) are all read correctly. */
  lemma CausalityAttributeReadsFmiSpelling(c: Causality)
    ensures var n := CausalityName(c);
            CausalityAttribute(Some([ToLower(n[0])] + n[1..])) == Success(Some(c))
  {
    CapitalizeUndoesLowerFirst(CausalityName(c));
    CausalitiesDistinct();
    CausalitiesListed(c);
    FirstNamedFinds(AllCausalities, CausalityName, c);
  }

  lemma InitialAttributeReadsFmiSpelling(i: Initial)
    ensures var n := InitialName(i);
            InitialAttribute(Some([ToLower(n[0])] + n[1..])) == Success(Some(i))
  {
    CapitalizeUndoesLowerFirst(InitialName(i));
    InitialsDistinct();
    InitialsListed(i);
    FirstNamedFinds(AllInitials, InitialName, i);
  }

  /** A spelling that capitalises to a constant's name reads as that constant. */
  lemma CausalityAttributeReads(s: string, c: Causality)
    requires |s| > 0 && [ToUpper(s[0])] + s[1..] == CausalityName(c)
    ensures CausalityAttribute(Some(s)) == Success(Some(c))
  {
    CausalitiesDistinct();
    CausalitiesListed(c);
    FirstNamedFinds(AllCausalities, CausalityName, c);
  }

  lemma InitialAttributeReads(s: string, i: Initial)
    requires |s| > 0 && [ToUpper(s[0])] + s[1..] == InitialName(i)
    ensures InitialAttribute(Some(s)) == Success(Some(i))
  {
    InitialsDistinct();
    InitialsListed(i);
    FirstNamedFinds(AllInitials, InitialName, i);
  }

  /** Attribute reading is not case-insensitive: "INPUT" is rejected although valueOfIgnorecase accepts it. */
  lemma CausalityAttributeIsCaseSensitive()
    ensures CausalityAttribute(Some("INPUT")).Failure?
    ensures CausalityValueOfIgnoreCase("INPUT") == Some(Input)
  {
    assert Capitalize("INPUT") == "INPUT";
    forall k | 0 <= k < |AllCausalities|
      ensures CausalityName(AllCausalities[k]) != "INPUT"
    {
      assert CausalityName(AllCausalities[k])[1] != 'N';
    }
    var upper, lower := LowerString("INPUT"), LowerString("Input");
    assert forall i | 0 <= i < 5 :: upper[i] == lower[i];
    assert EqualsIgnoreCase(CausalityName(Input), "INPUT");
  }

  // ---------------------------------------------------------------------------
  // Parsed ScalarVariable records

  /** The parsed start attribute: Boolean.valueOf, Integer.valueOf, the text of Double.valueOf, or the raw text. */
  datatype StartValue = BoolStart(b: bool) | IntStart(i: int) | RealStart(text: string) | TextStart(s: string)

  datatype TypeInfo = TypeInfo(kind: Types, start: Option<StartValue>)

  datatype ScalarVariable = ScalarVariable(
    name: string,
    valueReference: int,
    causality: Option<Causality>,
    initial: Option<Initial>,
    varType: TypeInfo)

  /** start.toString() */
  function StartText(v: StartValue): string
  {
    match v
    case BoolStart(b) => if b then "true" else "false"
    case IntStart(i) => IntToString(i)
    case RealStart(text) => text
    case TextStart(s) => s
  }

  // ---------------------------------------------------------------------------
  // toVdmType and getValueOrDefault

  /** The port class that carries a value of the given FMI type; null for Enumeration. */
  function ToVdmType(t: TypeInfo): (r: Option<string>)
    ensures r.None? <==> t.kind == Enumeration
    ensures r.Some? ==> r.value in PortClasses
    ensures t.kind == Boolean ==> r == Some("BoolPort")
    ensures t.kind == Integer ==> r == Some("IntPort")
    ensures t.kind == Real ==> r == Some("RealPort")
    ensures t.kind == String ==> r == Some("StringPort")
  {
    match t.kind
    case Boolean => Some("BoolPort")
    case Integer => Some("IntPort")
    case Real => Some("RealPort")
    case String => Some("StringPort")
    case Enumeration => None
  }

  /** The initial value expression of an imported declaration; null for Enumeration. */
  function ValueOrDefault(t: TypeInfo): (r: Option<string>)
    ensures r.None? <==> t.kind == Enumeration
    ensures r == Some("0") ==> t.start.None?
  {
    match t.kind
    case Boolean => Some(NewPort("BoolPort", BoolArgument(t.start)))
    case Enumeration => None
    case Integer =>
      if t.start.None? then Some("0") else Some(NewPort("IntPort", StartText(t.start.value)))
    case Real =>
      if t.start.None? then Some("0") else Some(NewPort("RealPort", StartText(t.start.value)))
    case String => Some(NewPort("StringPort", StringArgument(t.start)))
  }

  /** The constructor call of a port class. */
  function NewPort(port: string, arg: string): string
  {
    "new " + port + "(" + arg + ")"
  }

  /** The Boolean argument: false without a start, the start itself or the integer read as a truth value, else null. */
  function BoolArgument(start: Option<StartValue>): string
  {
    match start
    case None => "false"
    case Some(BoolStart(b)) => StartText(BoolStart(b))
    case Some(IntStart(i)) => if i == 0 then "false" else "true"
    case Some(_) => "null"
  }

  /** The String argument: nothing without a start, otherwise the start in double quotes. */
  function StringArgument(start: Option<StartValue>): string
  {
    if start.None? then "" else "\"" + StartText(start.value) + "\""
  }

  lemma NewPortPrefix(port: string, arg: string)
    ensures StartsWith(NewPort(port, arg), "new " + port + "(")
    ensures NewPort(port, arg) != "0"
  {
    var prefix := "new " + port + "(";
    assert NewPort(port, arg) == prefix + (arg + ")");
    assert NewPort(port, arg)[..|prefix|] == prefix;
  }

  /**
   * The default value and the declared type agree: both are null exactly for
   * Enumeration, the default is a bare 0 exactly for a numeric type without a
   * start value, and otherwise it constructs the port class of the declared type.
   */
  lemma DefaultConstructsDeclaredPort(t: TypeInfo)
    ensures ToVdmType(t).None? <==> t.kind == Enumeration
    ensures ValueOrDefault(t).None? <==> t.kind == Enumeration
    ensures ValueOrDefault(t) == Some("0") <==> (t.kind == Integer || t.kind == Real) && t.start.None?
    ensures ValueOrDefault(t).Some? && ValueOrDefault(t) != Some("0") ==>
              StartsWith(ValueOrDefault(t).value, "new " + ToVdmType(t).value + "(")
  {
    match t.kind
    case Boolean => NewPortPrefix("BoolPort", BoolArgument(t.start));
    case Enumeration =>
    case Integer => if t.start.Some? { NewPortPrefix("IntPort", StartText(t.start.value)); }
    case Real => if t.start.Some? { NewPortPrefix("RealPort", StartText(t.start.value)); }
    case String => NewPortPrefix("StringPort", StringArgument(t.start));
  }

  /**
   * The exact default of each type: a BoolPort of false without a start, of the
   * Boolean start, of false or true for an integer start (0 or not), and of null
   * for any other start; an IntPort or RealPort of the start's text; a StringPort
   * of nothing, or of the start in double quotes.
   */
  lemma DefaultValueText(t: TypeInfo)
    ensures t.kind == Boolean ==>
              ValueOrDefault(t) == Some(match t.start
                                        case None => "new BoolPort(false)"
                                        case Some(BoolStart(b)) => if b then "new BoolPort(true)" else "new BoolPort(false)"
                                        case Some(IntStart(i)) => if i == 0 then "new BoolPort(false)" else "new BoolPort(true)"
                                        case Some(_) => "new BoolPort(null)")
    ensures t.kind == Integer && t.start.Some? ==> ValueOrDefault(t) == Some("new IntPort(" + StartText(t.start.value) + ")")
    ensures t.kind == Real && t.start.Some? ==> ValueOrDefault(t) == Some("new RealPort(" + StartText(t.start.value) + ")")
    ensures t.kind == String && t.start.None? ==> ValueOrDefault(t) == Some("new StringPort()")
    ensures t.kind == String && t.start.Some? ==> ValueOrDefault(t) == Some("new StringPort(\"" + StartText(t.start.value) + "\")")
  {
    match t.kind
    case Boolean => BoolDefaultText(t.start);
    case Enumeration =>
    case Integer => if t.start.Some? { IntDefaultText(StartText(t.start.value)); }
    case Real => if t.start.Some? { RealDefaultText(StartText(t.start.value)); }
    case String => StringDefaultText(t.start);
  }

  lemma BoolDefaultText(start: Option<StartValue>)
    ensures NewPort("BoolPort", BoolArgument(start)) ==
              match start
              case None => "new BoolPort(false)"
              case Some(BoolStart(b)) => if b then "new BoolPort(true)" else "new BoolPort(false)"
              case Some(IntStart(i)) => if i == 0 then "new BoolPort(false)" else "new BoolPort(true)"
              case Some(_) => "new BoolPort(null)"
  {
    assert NewPort("BoolPort", "false") == "new BoolPort(false)";
    assert NewPort("BoolPort", "true") == "new BoolPort(true)";
    assert NewPort("BoolPort", "null") == "new BoolPort(null)";
  }

  lemma IntDefaultText(x: string)
    ensures NewPort("IntPort", x) == "new IntPort(" + x + ")"
  {
    NewPortText("IntPort", x);
    assert "new " + "IntPort" + "(" == "new IntPort(";
  }

  lemma RealDefaultText(x: string)
    ensures NewPort("RealPort", x) == "new RealPort(" + x + ")"
  {
    NewPortText("RealPort", x);
    assert "new " + "RealPort" + "(" == "new RealPort(";
  }

  lemma StringDefaultText(start: Option<StartValue>)
    ensures start.None? ==> NewPort("StringPort", StringArgument(start)) == "new StringPort()"
    ensures start.Some? ==> NewPort("StringPort", StringArgument(start)) == "new StringPort(\"" + StartText(start.value) + "\")"
  {
    if start.None? {
      assert NewPort("StringPort", "") == "new StringPort()";
    } else {
      QuotedStringPort(StartText(start.value));
    }
  }

  lemma QuotedStringPort(x: string)
    ensures NewPort("StringPort", "\"" + x + "\"") == "new StringPort(\"" + x + "\")"
  {
    NewPortText("StringPort", "\"" + x + "\"");
    assert "new " + "StringPort" + "(" == "new StringPort(";
    Regroup("new StringPort(", "\"", x, "\"", ")");
    assert "new StringPort(" + "\"" == "new StringPort(\"";
    assert "\"" + ")" == "\")";
  }

  /** The constructor call split after its opening parenthesis. */
  lemma NewPortText(port: string, arg: string)
    ensures NewPort(port, arg) == ("new " + port + "(") + arg + ")"
  {
  }

  lemma Regroup(a: string, b: string, x: string, c: string, d: string)
    ensures a + (b + x + c) + d == (a + b) + x + (c + d)
  {
  }

  /** A Boolean start given as the integer 0 renders false, any other integer true. */
  lemma BooleanFromIntegerStart(i: int)
    ensures ValueOrDefault(TypeInfo(Boolean, Some(IntStart(i)))) ==
              Some(if i == 0 then "new BoolPort(false)" else "new BoolPort(true)")
  {
    if i == 0 {
      assert BoolArgument(Some(IntStart(i))) == "false";
      assert NewPort("BoolPort", "false") == "new BoolPort(false)";
    } else {
      assert BoolArgument(Some(IntStart(i))) == "true";
      assert NewPort("BoolPort", "true") == "new BoolPort(true)";
    }
  }

  // ---------------------------------------------------------------------------
  // toVdm: the identifier sanitiser

  predicate IsIdentifierChar(c: char)
  {
    'A' <= c <= 'Z' || 'a' <= c <= 'z' || '0' <= c <= '9' || c == '(' || c == ')' || c == '[' || c == ']'
  }

  /** name.replaceAll("[^A-Za-z0-9()\\[\\]]", "") */
  function ToVdm(name: string): (r: string)
    ensures forall i :: 0 <= i < |r| ==> IsIdentifierChar(r[i])
    ensures |r| <= |name|
  {
    if name == "" then ""
    else (if IsIdentifierChar(name[0]) then [name[0]] else "") + ToVdm(name[1..])
  }

  /** Sanitising works character by character, so it distributes over concatenation (order is kept). */
  lemma {:induction false} ToVdmConcat(a: string, b: string)
    ensures ToVdm(a + b) == ToVdm(a) + ToVdm(b)
  {
    if a == "" {
      assert a + b == b;
    } else {
      var head := if IsIdentifierChar(a[0]) then [a[0]] else "";
      assert (a + b)[0] == a[0] && (a + b)[1..] == a[1..] + b;
      ToVdmConcat(a[1..], b);
      calc {
        ToVdm(a + b);
        head + ToVdm(a[1..] + b);
        head + (ToVdm(a[1..]) + ToVdm(b));
        (head + ToVdm(a[1..])) + ToVdm(b);
        ToVdm(a) + ToVdm(b);
      }
    }
  }

  /** A name made only of identifier characters is left as it is. */
  lemma {:induction false} ToVdmKeepsIdentifiers(s: string)
    requires forall i :: 0 <= i < |s| ==> IsIdentifierChar(s[i])
    ensures ToVdm(s) == s
  {
    if s != "" {
      ToVdmKeepsIdentifiers(s[1..]);
      assert [s[0]] + s[1..] == s;
    }
  }

  lemma ToVdmIdempotent(s: string)
    ensures ToVdm(ToVdm(s)) == ToVdm(s)
  {
    ToVdmKeepsIdentifiers(ToVdm(s));
  }

  /** Every identifier character is kept as often as it occurs; every other character is dropped. */
  lemma {:induction false} ToVdmCounts(s: string, c: char)
    ensures multiset(ToVdm(s))[c] == if IsIdentifierChar(c) then multiset(s)[c] else 0
  {
    if s != "" {
      ToVdmCounts(s[1..], c);
      assert s == [s[0]] + s[1..];
      assert multiset(s) == multiset([s[0]]) + multiset(s[1..]);
    }
  }

  // ---------------------------------------------------------------------------
  // validate

  predicate IsPortAnnotation(a: AnnotatedDefinition)
  {
    a.annotation.kind == "input" || a.annotation.kind == "output"
  }

  /** Every input/output annotation sits in the HardwareInterface class. */
  predicate PlacementOk(anns: seq<AnnotatedDefinition>)
  {
    forall k :: 0 <= k < |anns| && IsPortAnnotation(anns[k]) ==> anns[k].definition.className == HardwareInterface
  }

  /** Some scalar variable of the description carries the given annotation name. */
  predicate Declares(vars: seq<ScalarVariable>, name: Option<string>)
  {
    exists k :: 0 <= k < |vars| && Some(vars[k].name) == name
  }

  predicate IsMissingInput(vars: seq<ScalarVariable>, a: AnnotatedDefinition)
  {
    a.annotation.kind == "input" && !Declares(vars, a.annotation.name)
  }

  /** The annotated inputs the description does not declare, in annotation order. */
  function MissingInputs(anns: seq<AnnotatedDefinition>, vars: seq<ScalarVariable>): seq<AnnotatedDefinition>
  {
    if anns == [] then []
    else
      var a := anns[|anns| - 1];
      MissingInputs(anns[..|anns| - 1], vars) + (if IsMissingInput(vars, a) then [a] else [])
  }

  lemma {:induction false} MissingInputsMembers(anns: seq<AnnotatedDefinition>, vars: seq<ScalarVariable>, a: AnnotatedDefinition)
    ensures a in MissingInputs(anns, vars) <==> a in anns && IsMissingInput(vars, a)
  {
    if anns != [] {
      var init := anns[..|anns| - 1];
      MissingInputsMembers(init, vars, a);
      assert anns == init + [anns[|anns| - 1]];
    }
  }

  /**
   * The result only reflects the placement rule; annotated inputs that the
   * description lacks are reported (additionalInputs) but never make it fail.
   */
  method Validate(anns: seq<AnnotatedDefinition>, vars: seq<ScalarVariable>)
    returns (ok: bool, additionalInputs: seq<AnnotatedDefinition>)
    ensures ok <==> PlacementOk(anns)
    ensures additionalInputs == MissingInputs(anns, vars)
  {
    additionalInputs := [];
    var abort := false;
    var i := 0;
    while i < |anns|
      invariant 0 <= i <= |anns|
      invariant abort <==> !PlacementOk(anns[..i])
      invariant additionalInputs == MissingInputs(anns[..i], vars)
    {
      var entry := anns[i];
      if IsPortAnnotation(entry) && entry.definition.className != HardwareInterface {
        abort := true;
      }
      if entry.annotation.kind == "input" {
        var found := FindDeclared(vars, entry.annotation.name);
        if !found {
          additionalInputs := additionalInputs + [entry];
        }
      }
      assert anns[..i + 1][..i] == anns[..i];
      i := i + 1;
    }
    assert anns[..i] == anns;
    ok := !abort;
  }

  /** The inner search of validate: whether some scalar variable carries the annotation name. */
  method FindDeclared(vars: seq<ScalarVariable>, name: Option<string>) returns (found: bool)
    ensures found <==> Declares(vars, name)
  {
    found := false;
    var j := 0;
    while j < |vars|
      invariant 0 <= j <= |vars|
      invariant found <==> exists k :: 0 <= k < j && Some(vars[k].name) == name
    {
      if Some(vars[j].name) == name {
        found := true;
        break;
      }
      j := j + 1;
    }
  }

  // ---------------------------------------------------------------------------
  // filter

  /** Some annotation carries exactly this name. */
  predicate IsBound(anns: seq<AnnotatedDefinition>, name: string)
  {
    exists k :: 0 <= k < |anns| && anns[k].annotation.name == Some(name)
  }

  /** The variables no annotation is bound to, in their original order. */
  function Unbound(vars: seq<ScalarVariable>, anns: seq<AnnotatedDefinition>): seq<ScalarVariable>
  {
    if vars == [] then []
    else
      var v := vars[|vars| - 1];
      Unbound(vars[..|vars| - 1], anns) + (if IsBound(anns, v.name) then [] else [v])
  }

  lemma {:induction false} UnboundMembers(vars: seq<ScalarVariable>, anns: seq<AnnotatedDefinition>, v: ScalarVariable)
    ensures v in Unbound(vars, anns) <==> v in vars && !IsBound(anns, v.name)
  {
    if vars != [] {
      var init := vars[..|vars| - 1];
      UnboundMembers(init, anns, v);
      assert vars == init + [vars[|vars| - 1]];
    }
  }

  /** Filtering keeps the relative order: it distributes over concatenation. */
  lemma {:induction false} UnboundConcat(a: seq<ScalarVariable>, b: seq<ScalarVariable>, anns: seq<AnnotatedDefinition>)
    ensures Unbound(a + b, anns) == Unbound(a, anns) + Unbound(b, anns)
    decreases |b|
  {
    if b == [] {
      assert a + b == a;
    } else {
      var init := b[..|b| - 1];
      assert a + b == (a + init) + [b[|b| - 1]];
      assert (a + b)[..|a + b| - 1] == a + init;
      UnboundConcat(a, init, anns);
    }
  }

  /**
   * Collects every variable whose name some annotation carries (the types are
   * only compared for a warning), then removes them all.
   */
  method Filter(anns: seq<AnnotatedDefinition>, vars: seq<ScalarVariable>) returns (kept: seq<ScalarVariable>)
    ensures kept == Unbound(vars, anns)
  {
    var skipVars: seq<ScalarVariable> := [];
    var i := 0;
    while i < |anns|
      invariant 0 <= i <= |anns|
      invariant forall v :: v in skipVars ==> v in vars && IsBound(anns, v.name)
      invariant forall k, j :: 0 <= k < i && 0 <= j < |vars| && anns[k].annotation.name == Some(vars[j].name) ==> vars[j] in skipVars
    {
      var j := 0;
      while j < |vars|
        invariant 0 <= j <= |vars|
        invariant forall v :: v in skipVars ==> v in vars && IsBound(anns, v.name)
        invariant forall k, j' :: 0 <= k < i && 0 <= j' < |vars| && anns[k].annotation.name == Some(vars[j'].name) ==> vars[j'] in skipVars
        invariant forall j' :: 0 <= j' < j && anns[i].annotation.name == Some(vars[j'].name) ==> vars[j'] in skipVars
      {
        if Some(vars[j].name) == anns[i].annotation.name {
          skipVars := skipVars + [vars[j]];
        }
        j := j + 1;
      }
      i := i + 1;
    }
    // vars.removeAll(skipVars)
    kept := [];
    var j := 0;
    while j < |vars|
      invariant 0 <= j <= |vars|
      invariant kept == Unbound(vars[..j], anns)
    {
      assert vars[..j + 1][..j] == vars[..j];
      if vars[j] !in skipVars {
        kept := kept + [vars[j]];
      }
      j := j + 1;
    }
    assert vars[..j] == vars;
  }

  // ---------------------------------------------------------------------------
  // updateHardwareInterface: fragments, sections and the splice

  /** One new declaration, keyed by causality; CalculatedParameter, Independent and Local give none. */
  function Fragment(sv: ScalarVariable): string
  {
    var decl := ToVdm(sv.name) + " : " + OrNull(ToVdmType(sv.varType));
    var value := OrNull(ValueOrDefault(sv.varType));
    match sv.causality
    case Some(Parameter) =>
      "\t-- @ interface: type = parameter, name=\"" + sv.name + "\";\n\tpublic " + decl + " = " + value + ";\n"
    case Some(Input) =>
      "\t-- @ interface: type = input, name=\"" + sv.name + "\";\n\tpublic " + decl + " := " + value + ";\n"
    case Some(Output) =>
      "\t-- @ interface: type = output, name=\"" + sv.name + "\";\n\tpublic " + decl + " := " + value + ";\n"
    case _ => ""
  }

  predicate Synthesised(c: Causality)
  {
    c == Parameter || c == Input || c == Output
  }

  /** The concatenated fragments of the variables with causality c, in list order. */
  function SectionText(vars: seq<ScalarVariable>, c: Causality): string
  {
    if vars == [] then ""
    else
      var v := vars[|vars| - 1];
      SectionText(vars[..|vars| - 1], c) + (if v.causality == Some(c) then Fragment(v) else "")
  }

  lemma SectionTextStep(vars: seq<ScalarVariable>, i: nat, c: Causality)
    requires i < |vars|
    ensures SectionText(vars[..i + 1], c) == SectionText(vars[..i], c) + (if vars[i].causality == Some(c) then Fragment(vars[i]) else "")
  {
    assert vars[..i + 1][..i] == vars[..i];
  }

  function ValuesBlock(section: string): string
  {
    if section == "" then "" else "\nvalues\n" + section + "\n\n"
  }

  function InstanceVariablesBlock(section: string): string
  {
    if section == "" then "" else "instance variables\n" + section + "\n\n"
  }

  /** Inputs of the traceability line; the file name is as given, and the line carries it with its spaces encoded as %20. */
  datatype Provenance = Provenance(hash: string, fileName: string, timestamp: string, toolId: string)

  function ProvenanceLine(p: Provenance): (r: string)
    ensures StartsWith(r, "--##\tIMPORT\t" + p.hash + "\t")
    ensures |r| > 0 && r[|r| - 1] == '\n'
    ensures var start := |"--##\tIMPORT\t" + p.hash + "\t"|;
            var name := ReplaceChar(p.fileName, ' ', "%20");
            start + |name| < |r| && r[start..start + |name|] == name && r[start + |name|] == '\t' && ' ' !in name
  {
    var prefix := "--##\tIMPORT\t" + p.hash + "\t";
    var name := ReplaceChar(p.fileName, ' ', "%20");
    var r := prefix + name + ("\t" + p.timestamp + "\tFMI-ModelDescription\t" + p.toolId + "\n");
    assert r[..|prefix|] == prefix;
    assert r[|prefix|..|prefix| + |name|] == name;
    r
  }

  /** StringBuilder.insert */
  function Insert(s: string, k: nat, t: string): (r: string)
    requires k <= |s|
    ensures |r| == |s| + |t|
  {
    s[..k] + t + s[k..]
  }

  /** The text after the splice: values, then inputs, then outputs, all right after the class name. */
  function Spliced(data: string, endOffset: nat, vars: seq<ScalarVariable>, trace: Option<Provenance>): string
    requires endOffset <= |data|
  {
    (if trace.Some? then ProvenanceLine(trace.value) else "")
      + (data[..endOffset] + Inserted(vars) + data[endOffset..])
  }

  /** The new sections, in text order. */
  function Inserted(vars: seq<ScalarVariable>): string
  {
    ValuesBlock(SectionText(vars, Parameter))
      + (InstanceVariablesBlock(SectionText(vars, Input)) + InstanceVariablesBlock(SectionText(vars, Output)))
  }

  /** Inserting a block right after the prefix puts it in front of what was inserted there before; an empty block changes nothing. */
  lemma InsertBlock(before: string, mid: string, after: string, block: string)
    ensures Insert(before + mid + after, |before|, block) == before + (block + mid) + after
    ensures block == "" ==> before + (block + mid) + after == before + mid + after
  {
    var s := before + mid + after;
    assert s[..|before|] == before;
    assert s[|before|..] == mid + after;
    assert Insert(s, |before|, block) == before + block + (mid + after);
    if block == "" {
      assert block + mid == mid;
    }
  }

  lemma InsertAtStart(s: string, t: string)
    ensures Insert(s, 0, t) == t + s
  {
    assert s[..0] == "" && s[0..] == s;
  }

  predicate AllHaveCausality(vars: seq<ScalarVariable>)
  {
    forall k :: 0 <= k < |vars| ==> vars[k].causality.Some?
  }

  /** The three text buffers of updateHardwareInterface. */
  datatype Sections = Sections(values: string, inputs: string, outputs: string)

  /**
   * The switch over each variable's causality: parameters go to the values
   * buffer, inputs and outputs to theirs, the other causalities are skipped.
   * A variable without a causality stops the import (the switch dereferences null).
   */
  method CollectSections(vars: seq<ScalarVariable>) returns (r: Result<Sections, ImportError>)
    ensures r.Failure? <==> !AllHaveCausality(vars)
    ensures r.Failure? ==> r.error == NullCausality
    ensures r.Success? ==>
              r.value == Sections(SectionText(vars, Parameter), SectionText(vars, Input), SectionText(vars, Output))
  {
    var values, inputs, outputs := "", "", "";
    var i := 0;
    while i < |vars|
      invariant 0 <= i <= |vars|
      invariant AllHaveCausality(vars[..i])
      invariant values == SectionText(vars[..i], Parameter)
      invariant inputs == SectionText(vars[..i], Input)
      invariant outputs == SectionText(vars[..i], Output)
    {
      var sv := vars[i];
      SectionTextStep(vars, i, Parameter);
      SectionTextStep(vars, i, Input);
      SectionTextStep(vars, i, Output);
      match sv.causality {
        case None =>
          return Failure(NullCausality);
        case Some(c) =>
          if c == Input {
            inputs := inputs + Fragment(sv);
          } else if c == Output {
            outputs := outputs + Fragment(sv);
          } else if c == Parameter {
            values := values + Fragment(sv);
          }
      }
      i := i + 1;
    }
    assert vars[..i] == vars;
    return Success(Sections(values, inputs, outputs));
  }

  /**
   * The three inserts at the end offset of the class name: outputs first, then
   * inputs, then values, each only when its section is non-empty, so that the
   * text reads values, inputs, outputs.
   */
  method InsertSections(data: string, endOffset: nat, sections: Sections) returns (sb: string)
    requires endOffset <= |data|
    ensures sb == data[..endOffset]
                  + (ValuesBlock(sections.values)
                     + (InstanceVariablesBlock(sections.inputs) + InstanceVariablesBlock(sections.outputs)))
                  + data[endOffset..]
  {
    var before, after := data[..endOffset], data[endOffset..];
    sb := data;
    ghost var inserted := "";
    assert sb == before + inserted + after;
    InsertBlock(before, inserted, after, InstanceVariablesBlock(sections.outputs));
    if |sections.outputs| > 0 {
      sb := Insert(sb, endOffset, InstanceVariablesBlock(sections.outputs));
    }
    inserted := InstanceVariablesBlock(sections.outputs) + inserted;
    InsertBlock(before, inserted, after, InstanceVariablesBlock(sections.inputs));
    if |sections.inputs| > 0 {
      sb := Insert(sb, endOffset, InstanceVariablesBlock(sections.inputs));
    }
    inserted := InstanceVariablesBlock(sections.inputs) + inserted;
    InsertBlock(before, inserted, after, ValuesBlock(sections.values));
    if |sections.values| > 0 {
      sb := Insert(sb, endOffset, ValuesBlock(sections.values));
    }
    inserted := ValuesBlock(sections.values) + inserted;
    assert inserted == ValuesBlock(sections.values)
                       + (InstanceVariablesBlock(sections.inputs) + InstanceVariablesBlock(sections.outputs));
  }

  /**
   * Collects the sections, then inserts the outputs, the inputs and the values
   * (in that order) at the end offset of the class name, and finally the
   * provenance line at position 0.
   */
  method UpdateHardwareInterface(data: string, endOffset: nat, vars: seq<ScalarVariable>, trace: Option<Provenance>)
    returns (r: Result<string, ImportError>)
    requires endOffset <= |data|
    ensures r.Failure? <==> !AllHaveCausality(vars)
    ensures r.Failure? ==> r.error == NullCausality
    ensures r.Success? ==> r.value == Spliced(data, endOffset, vars, trace)
  {
    var sections := CollectSections(vars);
    if sections.Failure? {
      return Failure(sections.error);
    }
    var sb := InsertSections(data, endOffset, sections.value);
    assert sb == data[..endOffset] + Inserted(vars) + data[endOffset..];
    ghost var plain := sb;
    if trace.Some? {
      InsertAtStart(sb, ProvenanceLine(trace.value));
      sb := Insert(sb, 0, ProvenanceLine(trace.value));
    } else {
      assert sb == "" + plain;
    }
    return Success(sb);
  }

  /** A synthesised causality has a section exactly when some variable has that causality. */
  lemma {:induction false} SectionTextEmptyIff(vars: seq<ScalarVariable>, c: Causality)
    requires Synthesised(c)
    ensures SectionText(vars, c) == "" <==> forall k :: 0 <= k < |vars| ==> vars[k].causality != Some(c)
  {
    if vars != [] {
      var init := vars[..|vars| - 1];
      SectionTextEmptyIff(init, c);
      assert forall k :: 0 <= k < |init| ==> init[k] == vars[k];
    }
  }

  /** Without traceability the text before the offset is kept and the original rest follows the new sections. */
  lemma SplicedFrame(data: string, endOffset: nat, vars: seq<ScalarVariable>)
    requires endOffset <= |data|
    ensures var r := Spliced(data, endOffset, vars, None);
            var inserted := Inserted(vars);
            |r| == |data| + |inserted| && r[..endOffset] == data[..endOffset]
            && r[endOffset..endOffset + |inserted|] == inserted && r[endOffset + |inserted|..] == data[endOffset..]
  {
    var inserted := Inserted(vars);
    assert Spliced(data, endOffset, vars, None) == data[..endOffset] + inserted + data[endOffset..];
    ThreeParts(data[..endOffset], inserted, data[endOffset..]);
  }

  lemma Rejoin(data: string, k: nat)
    requires k <= |data|
    ensures data[..k] + "" + data[k..] == data
  {
    assert data[..k] + "" == data[..k];
  }

  lemma ThreeParts(a: string, b: string, c: string)
    ensures var r := a + b + c;
            |r| == |a| + |b| + |c| && r[..|a|] == a && r[|a|..|a| + |b|] == b && r[|a| + |b|..] == c
  {
  }

  /** Variables that no section takes leave the text as it was (apart from the provenance line). */
  lemma SplicedNothingToInsert(data: string, endOffset: nat, vars: seq<ScalarVariable>, trace: Option<Provenance>)
    requires endOffset <= |data|
    requires forall k :: 0 <= k < |vars| ==> vars[k].causality.None? || !Synthesised(vars[k].causality.value)
    ensures Spliced(data, endOffset, vars, trace) == (if trace.Some? then ProvenanceLine(trace.value) else "") + data
  {
    SectionTextEmptyIff(vars, Parameter);
    SectionTextEmptyIff(vars, Input);
    SectionTextEmptyIff(vars, Output);
    assert ValuesBlock(SectionText(vars, Parameter)) == "";
    assert InstanceVariablesBlock(SectionText(vars, Input)) == "";
    assert InstanceVariablesBlock(SectionText(vars, Output)) == "";
    Rejoin(data, endOffset);
  }

  lemma IsBoundAppend(anns: seq<AnnotatedDefinition>, added: seq<AnnotatedDefinition>, name: string)
    ensures IsBound(anns + added, name) <==> IsBound(anns, name) || IsBound(added, name)
  {
    if IsBound(anns, name) {
      var j :| 0 <= j < |anns| && anns[j].annotation.name == Some(name);
      assert (anns + added)[j] == anns[j];
    }
    if IsBound(added, name) {
      var j :| 0 <= j < |added| && added[j].annotation.name == Some(name);
      assert (anns + added)[|anns| + j] == added[j];
    }
    if IsBound(anns + added, name) {
      var j :| 0 <= j < |anns + added| && (anns + added)[j].annotation.name == Some(name);
      if j < |anns| {
        assert (anns + added)[j] == anns[j];
      } else {
        assert (anns + added)[j] == added[j - |anns|];
      }
    }
  }

  /**
   * Importing the same description a second time synthesises nothing: once
   * every synthesised variable of the first import carries an annotation of its
   * own name, the variables left after filtering fall in no section.
   */
  lemma SecondImportSynthesisesNothing(vars: seq<ScalarVariable>, anns: seq<AnnotatedDefinition>, added: seq<AnnotatedDefinition>)
    requires forall v :: v in Unbound(vars, anns) && v.causality.Some? && Synthesised(v.causality.value) ==> IsBound(added, v.name)
    ensures forall c :: Synthesised(c) ==> SectionText(Unbound(vars, anns + added), c) == ""
  {
    var again := Unbound(vars, anns + added);
    forall k | 0 <= k < |again|
      ensures again[k].causality.None? || !Synthesised(again[k].causality.value)
    {
      var v := again[k];
      UnboundMembers(vars, anns + added, v);
      UnboundMembers(vars, anns, v);
      IsBoundAppend(anns, added, v.name);
    }
    SectionTextEmptyIff(again, Parameter);
    SectionTextEmptyIff(again, Input);
    SectionTextEmptyIff(again, Output);
  }

  // ---------------------------------------------------------------------------
  // Scaffolding: checkCreateWorld, checkCreateSystem, checkAndCreateStructure

  /** getClassByName: the first class with the given name, or null. */
  function ClassByName(classes: seq<ClassDefinition>, name: string): (r: Option<ClassDefinition>)
    ensures r.Some? ==> exists k :: 0 <= k < |classes| && classes[k] == r.value && r.value.name == name
                                    && forall j :: 0 <= j < k ==> classes[j].name != name
    ensures r.None? <==> forall k :: 0 <= k < |classes| ==> classes[k].name != name
  {
    if |classes| == 0 then None
    else if classes[0].name == name then Some(classes[0])
    else
      var r := ClassByName(classes[1..], name);
      assert forall k :: 1 <= k < |classes| ==> classes[k] == classes[1..][k - 1];
      r
  }

  /** The last system class of the list (the loop keeps overwriting), or null. */
  function LastSystemClass(classes: seq<ClassDefinition>): (r: Option<ClassDefinition>)
    ensures r.Some? ==> exists k :: 0 <= k < |classes| && classes[k] == r.value && r.value.isSystem
                                    && forall j :: k < j < |classes| ==> !classes[j].isSystem
    ensures r.None? <==> forall k :: 0 <= k < |classes| ==> !classes[k].isSystem
  {
    if |classes| == 0 then None
    else if classes[|classes| - 1].isSystem then Some(classes[|classes| - 1])
    else
      var init := classes[..|classes| - 1];
      var r := LastSystemClass(init);
      assert forall k :: 0 <= k < |init| ==> classes[k] == init[k];
      assert r.Some? ==> exists k :: 0 <= k < |classes| && classes[k] == r.value && r.value.isSystem
                                     && forall j :: k < j < |classes| ==> !classes[j].isSystem by {
        if r.Some? {
          var k :| 0 <= k < |init| && init[k] == r.value && r.value.isSystem
                   && forall j :: k < j < |init| ==> !init[j].isSystem;
          assert forall j :: k < j < |classes| ==> !classes[j].isSystem;
        }
      }
      r
  }

  /** A model file copied from a bundled template. */
  datatype TemplateCopy = TemplateCopy(resource: string, target: string)

  const WorldTemplate := TemplateCopy("templates/World.vdmrt", "World.vdmrt")
  const FmiLibraryTemplate := TemplateCopy("fmi/Fmi.vdmrt", "lib/Fmi.vdmrt")
  const HardwareInterfaceTemplate := TemplateCopy("templates/HardwareInterface.vdmrt", "HardwareInterface.vdmrt")
  const SystemTemplate := TemplateCopy("templates/System.vdmrt", "System.vdmrt")

  predicate HasExplicitRun(c: ClassDefinition)
  {
    exists k :: 0 <= k < |c.definitions| && c.definitions[k].name == "run"
                && c.definitions[k].kind == ExplicitOperationDefinition
  }

  predicate HasHwiField(c: ClassDefinition)
  {
    exists k :: 0 <= k < |c.definitions| && c.definitions[k].name == "hwi"
                && c.definitions[k].kind == InstanceVariableDefinition
  }

  /** The outcome of checkCreateWorld: a template to copy, nothing, or an abort. */
  function WorldCheck(classes: seq<ClassDefinition>): (r: Result<Option<TemplateCopy>, ImportError>)
    ensures r.Failure? ==> r.error == MissingWorldRun && ClassByName(classes, "World").Some?
    ensures r.Success? ==> (r.value == Some(WorldTemplate) <==> ClassByName(classes, "World").None?)
    ensures r.Success? && r.value.Some? ==> r.value.value == WorldTemplate
  {
    match ClassByName(classes, "World")
    case None => Success(Some(WorldTemplate))
    case Some(w) => if HasExplicitRun(w) then Success(None) else Failure(MissingWorldRun)
  }

  /** The outcome of checkCreateSystem. */
  function SystemCheck(classes: seq<ClassDefinition>): (r: Result<Option<TemplateCopy>, ImportError>)
    ensures r.Failure? ==> r.error == MissingHardwareInterfaceField && LastSystemClass(classes).Some?
    ensures r.Success? ==> (r.value == Some(SystemTemplate) <==> LastSystemClass(classes).None?)
    ensures r.Success? && r.value.Some? ==> r.value.value == SystemTemplate
  {
    match LastSystemClass(classes)
    case None => Success(Some(SystemTemplate))
    case Some(s) => if HasHwiField(s) then Success(None) else Failure(MissingHardwareInterfaceField)
  }

  /** The World check aborts exactly when the first class named World lacks an explicit run operation. */
  lemma WorldCheckAbortsIff(classes: seq<ClassDefinition>)
    ensures WorldCheck(classes).Failure? <==>
              exists k :: 0 <= k < |classes| && classes[k].name == "World" && !HasExplicitRun(classes[k])
                          && forall j :: 0 <= j < k ==> classes[j].name != "World"
    ensures WorldCheck(classes) == Success(Some(WorldTemplate)) <==>
              forall k :: 0 <= k < |classes| ==> classes[k].name != "World"
  {
    if WorldCheck(classes).Failure? {
      var w := ClassByName(classes, "World").value;
      var k :| 0 <= k < |classes| && classes[k] == w && w.name == "World"
               && forall j :: 0 <= j < k ==> classes[j].name != "World";
      assert !HasExplicitRun(classes[k]);
    }
    if exists k :: 0 <= k < |classes| && classes[k].name == "World" && !HasExplicitRun(classes[k])
                   && forall j :: 0 <= j < k ==> classes[j].name != "World" {
      var k :| 0 <= k < |classes| && classes[k].name == "World" && !HasExplicitRun(classes[k])
               && forall j :: 0 <= j < k ==> classes[j].name != "World";
      var w := ClassByName(classes, "World").value;
      var k' :| 0 <= k' < |classes| && classes[k'] == w && w.name == "World"
                && forall j :: 0 <= j < k' ==> classes[j].name != "World";
      assert k == k';
    }
  }

  /** The system check aborts exactly when the last system class has no instance variable named hwi. */
  lemma SystemCheckAbortsIff(classes: seq<ClassDefinition>)
    ensures SystemCheck(classes).Failure? <==>
              exists k :: 0 <= k < |classes| && classes[k].isSystem && !HasHwiField(classes[k])
                          && forall j :: k < j < |classes| ==> !classes[j].isSystem
  {
    if exists k :: 0 <= k < |classes| && classes[k].isSystem && !HasHwiField(classes[k])
                   && forall j :: k < j < |classes| ==> !classes[j].isSystem {
      var k :| 0 <= k < |classes| && classes[k].isSystem && !HasHwiField(classes[k])
               && forall j :: k < j < |classes| ==> !classes[j].isSystem;
      var s := LastSystemClass(classes).value;
      var k' :| 0 <= k' < |classes| && classes[k'] == s && s.isSystem
                && forall j :: k' < j < |classes| ==> !classes[j].isSystem;
      assert k == k';
    }
  }

  method CheckCreateWorld(classes: seq<ClassDefinition>) returns (r: Result<Option<TemplateCopy>, ImportError>)
    ensures r == WorldCheck(classes)
  {
    var worldClass := ClassByName(classes, "World");
    if worldClass.None? {
      return Success(Some(WorldTemplate));
    }
    var defs := worldClass.value.definitions;
    var found := false;
    var i := 0;
    while i < |defs|
      invariant 0 <= i <= |defs|
      invariant found <==> exists k :: 0 <= k < i && defs[k].name == "run" && defs[k].kind == ExplicitOperationDefinition
    {
      if defs[i].name == "run" && defs[i].kind == ExplicitOperationDefinition {
        found := true;
        break;
      }
      i := i + 1;
    }
    if !found {
      return Failure(MissingWorldRun);
    }
    return Success(None);
  }

  method CheckCreateSystem(classes: seq<ClassDefinition>) returns (r: Result<Option<TemplateCopy>, ImportError>)
    ensures r == SystemCheck(classes)
  {
    var systemClass: Option<ClassDefinition> := None;
    var i := 0;
    while i < |classes|
      invariant 0 <= i <= |classes|
      invariant systemClass == LastSystemClass(classes[..i])
    {
      assert classes[..i + 1][..i] == classes[..i];
      if classes[i].isSystem {
        systemClass := Some(classes[i]);
      }
      i := i + 1;
    }
    assert classes[..i] == classes;
    if systemClass.None? {
      return Success(Some(SystemTemplate));
    }
    var defs := systemClass.value.definitions;
    var found := false;
    var j := 0;
    while j < |defs|
      invariant 0 <= j <= |defs|
      invariant found <==> exists k :: 0 <= k < j && defs[k].name == "hwi" && defs[k].kind == InstanceVariableDefinition
    {
      if defs[j].name == "hwi" && defs[j].kind == InstanceVariableDefinition {
        found := true;
        break;
      }
      j := j + 1;
    }
    if !found {
      return Failure(MissingHardwareInterfaceField);
    }
    return Success(None);
  }

  const PortClasses: seq<string> := ["RealPort", "IntPort", "BoolPort", "StringPort"]

  /** The FMI library is present when Port and the four port classes all exist. */
  predicate HasFmiLibrary(classes: seq<ClassDefinition>)
  {
    ClassByName(classes, "Port").Some? && forall k :: 0 <= k < |PortClasses| ==> ClassByName(classes, PortClasses[k]).Some?
  }

  function OptionalCopy(c: Option<TemplateCopy>): seq<TemplateCopy>
  {
    if c.Some? then [c.value] else []
  }

  /** The template copies before the system check, once the World check has passed. */
  function CopiesBeforeSystemCheck(classes: seq<ClassDefinition>): seq<TemplateCopy>
    requires WorldCheck(classes).Success?
  {
    OptionalCopy(WorldCheck(classes).value)
    + (if HasFmiLibrary(classes) then [] else [FmiLibraryTemplate])
    + (if ClassByName(classes, HardwareInterface).Some? then [] else [HardwareInterfaceTemplate])
  }

  /**
   * Before the system check, the World template is copied exactly when there is
   * no World class, the FMI library exactly when it is incomplete, and the
   * HardwareInterface template exactly when that class is missing; the System
   * template is never among them.
   */
  lemma CopiesBeforeSystemCheckContents(classes: seq<ClassDefinition>)
    requires WorldCheck(classes).Success?
    ensures var r := CopiesBeforeSystemCheck(classes);
            |r| <= 3
            && (WorldTemplate in r <==> ClassByName(classes, "World").None?)
            && (FmiLibraryTemplate in r <==> !HasFmiLibrary(classes))
            && (HardwareInterfaceTemplate in r <==> ClassByName(classes, HardwareInterface).None?)
            && SystemTemplate !in r
  {
  }

  /** The FMI library is present when Port and every port class are. */
  method CheckFmiLibrary(classes: seq<ClassDefinition>) returns (present: bool)
    ensures present == HasFmiLibrary(classes)
  {
    var port := ClassByName(classes, "Port");
    var k := 0;
    while k < |PortClasses|
      invariant 0 <= k <= |PortClasses|
      invariant port.Some? <==> ClassByName(classes, "Port").Some? && forall j :: 0 <= j < k ==> ClassByName(classes, PortClasses[j]).Some?
    {
      if ClassByName(classes, PortClasses[k]).None? {
        port := None;
      }
      k := k + 1;
    }
    return port.Some?;
  }

  /**
   * checkAndCreateStructure, over the class list it is given: the World check,
   * the FMI library, the HardwareInterface class, then the system check. Copies
   * made before an abort of the system check stay made.
   */
  method CheckAndCreateStructure(classes: seq<ClassDefinition>)
    returns (copies: seq<TemplateCopy>, error: Option<ImportError>)
    ensures WorldCheck(classes).Failure? ==> copies == [] && error == Some(MissingWorldRun)
    ensures WorldCheck(classes).Success? && SystemCheck(classes).Failure? ==>
              copies == CopiesBeforeSystemCheck(classes) && error == Some(MissingHardwareInterfaceField)
    ensures WorldCheck(classes).Success? && SystemCheck(classes).Success? ==>
              copies == CopiesBeforeSystemCheck(classes) + OptionalCopy(SystemCheck(classes).value) && error.None?
  {
    copies := [];
    var world := CheckCreateWorld(classes);
    if world.Failure? {
      return [], Some(world.error);
    }
    copies := OptionalCopy(world.value);
    var library := CheckFmiLibrary(classes);
    if !library {
      copies := copies + [FmiLibraryTemplate];
    }
    if ClassByName(classes, HardwareInterface).None? {
      copies := copies + [HardwareInterfaceTemplate];
    }
    var system := CheckCreateSystem(classes);
    if system.Failure? {
      return copies, Some(system.error);
    }
    copies := copies + OptionalCopy(system.value);
    error := None;
  }

  // ---------------------------------------------------------------------------
  // importFromXml after parsing

  /** The HardwareInterface source file and the end offset of the class name in it. */
  datatype HardwareInterfaceSource = HardwareInterfaceSource(text: string, nameEndOffset: nat)

  datatype ImportOutcome =
    | TypeCheckFailed                                            // AbortException before anything else
    | ValidationFailed                                           // "Aborting": returns without changes
    | Aborted(copies: seq<TemplateCopy>, error: ImportError)     // AbortException after the copies listed
    | Imported(copies: seq<TemplateCopy>, hardwareInterface: string)

  /**
   * The import pipeline once the description is parsed: type check, validate,
   * create the scaffolding, drop the already-bound variables and splice the
   * rest into the HardwareInterface class (hwi is that class's source as the
   * re-type-checked project gives it, None when there is no such class).
   */
  method ImportDescription(
    typeChecks: bool, anns: seq<AnnotatedDefinition>, vars: seq<ScalarVariable>,
    classes: seq<ClassDefinition>, hwi: Option<HardwareInterfaceSource>, trace: Option<Provenance>)
    returns (outcome: ImportOutcome)
    requires hwi.Some? ==> hwi.value.nameEndOffset <= |hwi.value.text|
    ensures !typeChecks ==> outcome == TypeCheckFailed
    ensures typeChecks && !PlacementOk(anns) ==> outcome == ValidationFailed
    ensures typeChecks && PlacementOk(anns) && WorldCheck(classes).Failure? ==> outcome == Aborted([], MissingWorldRun)
    ensures typeChecks && PlacementOk(anns) && WorldCheck(classes).Success? && SystemCheck(classes).Failure? ==>
              outcome == Aborted(CopiesBeforeSystemCheck(classes), MissingHardwareInterfaceField)
    ensures typeChecks && PlacementOk(anns) && WorldCheck(classes).Success? && SystemCheck(classes).Success? ==>
              var copies := CopiesBeforeSystemCheck(classes) + OptionalCopy(SystemCheck(classes).value);
              if hwi.None? then outcome == Aborted(copies, MissingHardwareInterfaceClass)
              else if !AllHaveCausality(Unbound(vars, anns)) then outcome == Aborted(copies, NullCausality)
              else outcome == Imported(copies, Spliced(hwi.value.text, hwi.value.nameEndOffset, Unbound(vars, anns), trace))
    ensures outcome.Imported? ==>
              typeChecks && PlacementOk(anns) && WorldCheck(classes).Success? && SystemCheck(classes).Success?
              && hwi.Some? && AllHaveCausality(Unbound(vars, anns))
  {
    if !typeChecks {
      return TypeCheckFailed;
    }
    var ok, additionalInputs := Validate(anns, vars);
    if !ok {
      return ValidationFailed;
    }
    var copies, error := CheckAndCreateStructure(classes);
    if error.Some? {
      return Aborted(copies, error.value);
    }
    var filtered := Filter(anns, vars);
    if hwi.None? {
      return Aborted(copies, MissingHardwareInterfaceClass);
    }
    var updated := UpdateHardwareInterface(hwi.value.text, hwi.value.nameEndOffset, filtered, trace);
    if updated.Failure? {
      return Aborted(copies, updated.error);
    }
    return Imported(copies, updated.value);
  }
}

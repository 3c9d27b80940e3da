/**
 * The field abstraction shared by the data and UI packages: the closed set
 * of input kinds a field can be rendered with, and the structural test that
 * tells whether an arbitrary value can be treated as a field.
 */
module AbstractField {
  import opened JsValues

  /** The eleven input kinds of the `InputType` literal union. */
  datatype InputType =
    | Hidden
    | File
    | Select
    | FromType
    | Search
    | Text
    | Password
    | SectionHeader
    | Textarea
    | CustomHtml
    | Code

  /** The string literals of the union, written out independently of the datatype. */
  const InputTypeLiterals: set<string> :=
    {"hidden", "file", "select", "fromtype", "search", "text",
     "password", "section_header", "textarea", "custom_html", "code"}

  /** Every input kind, each once. */
  const AllInputTypes: seq<InputType> :=
    [Hidden, File, Select, FromType, Search, Text, Password, SectionHeader, Textarea, CustomHtml, Code]

  /** The string literal that stands for an input kind. */
  function Literal(t: InputType): (s: string)
    ensures s in InputTypeLiterals
  {
    match t
    case Hidden => "hidden"
    case File => "file"
    case Select => "select"
    case FromType => "fromtype"
    case Search => "search"
    case Text => "text"
    case Password => "password"
    case SectionHeader => "section_header"
    case Textarea => "textarea"
    case CustomHtml => "custom_html"
    case Code => "code"
  }

  /** Reads a string as an input kind; only the eleven literals are accepted. */
  function ParseInputType(s: string): (r: Option<InputType>)
    ensures r.Some? <==> s in InputTypeLiterals
    ensures r.Some? ==> Literal(r.value) == s
  {
    if s == "hidden" then Some(Hidden)
    else if s == "file" then Some(File)
    else if s == "select" then Some(Select)
    else if s == "fromtype" then Some(FromType)
    else if s == "search" then Some(Search)
    else if s == "text" then Some(Text)
    else if s == "password" then Some(Password)
    else if s == "section_header" then Some(SectionHeader)
    else if s == "textarea" then Some(Textarea)
    else if s == "custom_html" then Some(CustomHtml)
    else if s == "code" then Some(Code)
    else None
  }

  /** Reading back the literal of an input kind gives that kind. */
  lemma ParseLiteral(t: InputType)
    ensures ParseInputType(Literal(t)) == Some(t)
  {
  }

  /** The union has exactly eleven members, and distinct kinds have distinct literals. */
  lemma InputTypeIsClosed()
    ensures |InputTypeLiterals| == 11
    ensures forall t: InputType :: t in AllInputTypes
    ensures forall i, j :: 0 <= i < j < |AllInputTypes| ==> Literal(AllInputTypes[i]) != Literal(AllInputTypes[j])
    ensures forall t, u: InputType :: Literal(t) == Literal(u) ==> t == u
  {
    forall t: InputType
      ensures t in AllInputTypes
    {
      match t
      case Hidden => assert AllInputTypes[0] == t;
      case File => assert AllInputTypes[1] == t;
      case Select => assert AllInputTypes[2] == t;
      case FromType => assert AllInputTypes[3] == t;
      case Search => assert AllInputTypes[4] == t;
      case Text => assert AllInputTypes[5] == t;
      case Password => assert AllInputTypes[6] == t;
      case SectionHeader => assert AllInputTypes[7] == t;
      case Textarea => assert AllInputTypes[8] == t;
      case CustomHtml => assert AllInputTypes[9] == t;
      case Code => assert AllInputTypes[10] == t;
    }
    forall t, u: InputType | Literal(t) == Literal(u)
      ensures t == u
    {
      ParseLiteral(t);
      ParseLiteral(u);
    }
  }

  /**
   * `instanceOfField(o)`: `o && "name" in o && "input_type" in o`.
   * A falsy `o` is not a field; an object is one when it has both keys;
   * a truthy primitive makes the `in` operator throw a `TypeError`.
   */
  function InstanceOfField(o: Value): (r: Result<bool>)
    ensures o.Nullish() ==> r == Ok(false)
    ensures r == Ok(true) <==> o.Obj? && "name" in o.props && "input_type" in o.props
    ensures r.Err? <==> o.Truthy() && !o.Obj?
    ensures r.Err? ==> r.error == TypeError
  {
    if !o.Truthy() then Ok(false)
    else if !o.Obj? then Err(TypeError)
    else Ok("name" in o.props && "input_type" in o.props)
  }

  /** Only key presence matters: the values under `name` and `input_type` play no part. */
  lemma InstanceOfFieldIgnoresValues(m: map<string, Value>, m': map<string, Value>)
    requires ("name" in m <==> "name" in m') && ("input_type" in m <==> "input_type" in m')
    ensures InstanceOfField(Obj(m)) == InstanceOfField(Obj(m'))
  {
  }

  /** Keys other than `name` and `input_type` never change the verdict. */
  lemma InstanceOfFieldIgnoresExtraKeys(m: map<string, Value>, extra: map<string, Value>)
    requires "name" !in extra && "input_type" !in extra
    ensures InstanceOfField(Obj(m + extra)) == InstanceOfField(Obj(m))
  {
  }
}

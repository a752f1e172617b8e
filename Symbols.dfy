/** The parts of the compiler's symbol model that the analyzer reads, as plain
    descriptors. Every name the compiler would render (`ToDisplayString`, the
    short error-message format, the minimally qualified format) is an input
    field, already rendered. */
module Symbols {
  import opened Wrappers

  /** How a parameter is passed. */
  datatype RefKind = ByValue | Ref | Out | In

  /** What kind of type a type symbol is, as far as the return-type check cares. */
  datatype TypeShape =
    | ArrayType(elementMinimalDisplay: string)
    | NamedType(isGeneric: bool, originalDefinitionDisplay: string)
    | OtherType

  /** A type symbol. `attributes` holds the display name of each attribute's
      class, or `None` when that class did not resolve. */
  datatype TypeSymbol = TypeSymbol(
    name: string,
    metadataName: string,
    containingNamespace: Option<string>,
    display: string,
    minimalDisplay: string,
    shape: TypeShape,
    isSpecialType: bool,
    isValueType: bool,
    attributes: seq<Option<string>>,
    inCurrentCompilation: bool)

  datatype Parameter = Parameter(name: string, paramType: TypeSymbol, refKind: RefKind)

  /** A method symbol; `shortDisplay` is its short error-message rendering. */
  datatype MethodSymbol = MethodSymbol(
    name: string,
    arity: nat,
    containingType: Option<TypeSymbol>,
    parameters: seq<Parameter>,
    returnType: TypeSymbol,
    attributes: seq<Option<string>>,
    inCurrentCompilation: bool,
    shortDisplay: string)

  datatype PropertySymbol = PropertySymbol(
    name: string,
    containingType: Option<TypeSymbol>,
    getter: Option<MethodSymbol>,
    shortDisplay: string)

  /** What the semantic model binds an expression to. */
  datatype Symbol =
    | FieldSym(fieldName: string, fieldOwner: Option<TypeSymbol>)
    | MethodSym(methodSymbol: MethodSymbol)
    | PropertySym(propertySymbol: PropertySymbol)
    | OtherSym(otherName: string, otherOwner: Option<TypeSymbol>)
  {
    function Name(): string {
      match this
      case FieldSym(n, _) => n
      case MethodSym(m) => m.name
      case PropertySym(p) => p.name
      case OtherSym(n, _) => n
    }

    function ContainingType(): Option<TypeSymbol> {
      match this
      case FieldSym(_, t) => t
      case MethodSym(m) => m.containingType
      case PropertySym(p) => p.containingType
      case OtherSym(_, t) => t
    }
  }
}

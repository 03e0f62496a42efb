/** The read-only view of a TypeScript syntax node that the documenter
    inspects, and the configuration it reads. The parser and the helper
    functions of the utilities module are not part of this model: what the
    documenter would ask of them is recorded in the node itself
    (`hasNonVoidReturn`, `firstIdentifier`, `variableAncestor`). */
module Syntax {

  datatype Option<T> = None | Some(value: T)

  /** A zero-based (line, character) pair, `ts.LineAndCharacter`. Lines are
      `int` because the completion shift can take one below zero. */
  datatype Position = Position(line: int, character: int)

  /** The node kinds the documenter distinguishes; every other kind is `OtherKind`. */
  datatype Kind =
    | ClassDeclaration | PropertyDeclaration | PropertySignature
    | GetAccessor | SetAccessor | EnumMember
    | FunctionDeclaration | MethodDeclaration | MethodSignature | Constructor
    | FunctionExpression | ArrowFunction
    | VariableDeclaration | VariableDeclarationList | VariableStatement
    | SourceFile | PropertyAssignment | BinaryExpression
    | OtherKind

  datatype Modifier =
    | PublicKeyword | PrivateKeyword | ProtectedKeyword
    | ExportKeyword | DefaultKeyword | AbstractKeyword | StaticKeyword
    | ReadonlyKeyword | AsyncKeyword | DeclareKeyword

  datatype HeritageToken = ExtendsKeyword | ImplementsKeyword

  /** `ExpressionWithTypeArguments`: the expression text and, when the
      type-argument list exists (possibly empty), the text of each argument. */
  datatype TypeReference = TypeReference(expression: string, typeArguments: Option<seq<string>>)

  datatype HeritageClause = HeritageClause(token: HeritageToken, types: seq<TypeReference>)

  /** An element of an object binding pattern; it has no type annotation. */
  datatype BindingElement = BindingElement(name: string, dotDotDot: bool, initializer: Option<string>)

  /** A parameter name: an identifier or an array pattern (both kept as their
      text), or an object binding pattern with its elements. */
  datatype BindingName = Simple(text: string) | ObjectPattern(elements: seq<BindingElement>)

  datatype Parameter = Parameter(
    name: BindingName,
    dotDotDot: bool,                  // parameter.dotDotDotToken
    typeText: Option<string>,         // parameter.type.getFullText().trim(), the input of formatTypeName
    initializer: Option<string>)      // parameter.initializer.getText()

  /** A member of the parent node, as the getter's setter search sees it. */
  datatype Member = Member(kind: Kind, firstIdentifier: Option<string>)

  /** What a node can see of its parent: its kind, its name text, its
      `members` list (absent on nodes that are not class-like, such as object
      literals) and its start position. */
  datatype ParentInfo = ParentInfo(
    kind: Kind,
    name: Option<string>,
    members: Option<seq<Member>>,
    start: Position)

  /** One declaration of a variable declaration list. */
  datatype Declaration = Declaration(name: string, initializer: Option<Node>)

  datatype Node = Node(
    kind: Kind,
    start: Position,                  // line and character of node.getStart()
    name: Option<string>,             // node.name.getText()
    firstIdentifier: Option<string>,  // findFirstChildOfKindDepthFirst(node, [Identifier])
    typeText: Option<string>,         // node.type.getText()
    modifiers: seq<Modifier>,
    heritageClauses: seq<HeritageClause>,
    parameters: seq<Parameter>,
    hasNonVoidReturn: bool,           // findNonVoidReturnInCurrentScope(node)
    parent: ParentInfo,
    variableAncestor: Option<Position>, // start of findFirstParent(node.parent, [VariableDeclaration, VariableStatement])
    children: seq<Node>,              // node.getChildren()
    declarations: seq<Declaration>,   // the declaration list of a VariableStatement or VariableDeclarationList
    fileName: string)                 // SourceFile.fileName

  /** The documenter's settings, read once per invocation. */
  datatype Config = Config(
    includeTypes: bool,
    inferTypes: bool,
    hungarian: bool,
    includeDescriptionTag: bool,
    includeAuthorTag: bool,
    authorName: string)

  /** The settings' defaults. */
  const DefaultConfig := Config(true, false, false, false, false, "")
}

/** What the documenter emits for a node, as functions of the node and the
    configuration: one function per emitter of src/documenter.ts, and the
    dispatch `_documentNode` over them. `fmt` stands for the utilities
    module's `formatTypeName`, which this model leaves uninterpreted.

    An emitter can stop half-way because the source reads a property of
    `undefined` (a JavaScript TypeError): such a result carries the tokens
    emitted up to that point and the flag `threw`. */
module Emitters {
  import opened Syntax
  import opened Snippet
  import opened Strings
  import opened Heuristics

  /** The value `_documentNode` returns, or the exception it raises. */
  datatype Outcome = Located(pos: Position) | NotFound | Threw

  /** The tokens an emitter appends, and whether it raised on the way. */
  datatype Part = Part(tokens: seq<Token>, threw: bool)

  /** The tokens `_documentNode` appends, and its outcome. */
  datatype Emission = Emission(tokens: seq<Token>, outcome: Outcome)

  // ---------------------------------------------------------------------
  // Header, author, name and modifier tags

  /** `_emitDescriptionHeader`. */
  function DescriptionHeader(cfg: Config): seq<Token>
  {
    if cfg.includeDescriptionTag then [Text("@desc "), Tabstop, Newline]
    else [Tabstop, Newline, Newline]
  }

  /** `_emitAuthor`. */
  function AuthorTag(cfg: Config): seq<Token>
  {
    if cfg.includeAuthorTag then [Text("@author " + cfg.authorName), Tabstop, Newline] else []
  }

  /** `_emitName`: a missing name is interpolated as the text "undefined". */
  function NameTag(name: Option<string>): seq<Token>
  {
    Line("@name " + (if name.Some? then name.value else "undefined"))
  }

  predicate IsVisibility(m: Modifier)
  {
    m.PublicKeyword? || m.PrivateKeyword? || m.ProtectedKeyword?
  }

  /** The case of `_emitModifiers`'s switch for one modifier. */
  function ModifierTag(m: Modifier): seq<Token>
  {
    match m
    case ProtectedKeyword => Line("@protected")
    case PrivateKeyword => Line("@private")
    case PublicKeyword => Line("@public")
    case _ => []
  }

  /** `_emitModifiers`: the modifiers visited in order. */
  function ModifierTags(mods: seq<Modifier>): seq<Token>
  {
    if |mods| == 0 then [] else ModifierTags(mods[..|mods| - 1]) + ModifierTag(mods[|mods| - 1])
  }

  /** The visibility modifiers among `mods`, in order. */
  function Visibilities(mods: seq<Modifier>): seq<Modifier>
  {
    if |mods| == 0 then []
    else Visibilities(mods[..|mods| - 1]) + (if IsVisibility(mods[|mods| - 1]) then [mods[|mods| - 1]] else [])
  }

  // ---------------------------------------------------------------------
  // Heritage clauses

  /** The type text of a heritage type: `Base<A, B>`. A present but empty
      argument list still gives the angle brackets. */
  function TypeReferenceText(t: TypeReference): string
  {
    t.expression + (if t.typeArguments.Some? then "<" + Join(t.typeArguments.value, ", ") + ">" else "")
  }

  function HeritageTag(token: HeritageToken): string
  {
    if token == ExtendsKeyword then "@extends" else "@implements"
  }

  /** One line per type of a clause. */
  function TypeTags(tag: string, types: seq<TypeReference>, fmt: string -> string): seq<Token>
  {
    if |types| == 0 then []
    else TypeTags(tag, types[..|types| - 1], fmt) + Line(tag + " " + fmt(TypeReferenceText(types[|types| - 1])))
  }

  function ClauseTags(clauses: seq<HeritageClause>, fmt: string -> string): seq<Token>
  {
    if |clauses| == 0 then []
    else
      var c := clauses[|clauses| - 1];
      ClauseTags(clauses[..|clauses| - 1], fmt) + TypeTags(HeritageTag(c.token), c.types, fmt)
  }

  /** `_emitHeritageClauses`. */
  function HeritageTags(clauses: seq<HeritageClause>, cfg: Config, fmt: string -> string): seq<Token>
  {
    if |clauses| == 0 || !cfg.includeTypes then [] else ClauseTags(clauses, fmt)
  }

  /** Number of types over all clauses. */
  function TypeCount(clauses: seq<HeritageClause>): nat
  {
    if |clauses| == 0 then 0 else TypeCount(clauses[..|clauses| - 1]) + |clauses[|clauses| - 1].types|
  }

  // ---------------------------------------------------------------------
  // Class

  /** `_emitClassDeclaration`. */
  function ClassTokens(n: Node, cfg: Config, fmt: string -> string): seq<Token>
  {
    DescriptionHeader(cfg) + AuthorTag(cfg) + ModifierTags(n.modifiers)
    + [Text("@class")] + (if n.name.Some? then [Text(" " + n.name.value)] else []) + [Newline]
    + HeritageTags(n.heritageClauses, cfg, fmt)
  }

  // ---------------------------------------------------------------------
  // Properties and accessors

  predicate IsSetterNamed(m: Member, name: string)
  {
    m.kind == SetAccessor && m.firstIdentifier == Some(name)
  }

  /** `members.find(c => c.kind === SetAccessor && identifierOf(c) === name)`:
      whether a setter of that name exists, or `None` when the callback
      raised on a setter without an identifier before a match was found. */
  function FindSetter(members: seq<Member>, name: string): Option<bool>
  {
    if |members| == 0 then Some(false)
    else if members[0].kind != SetAccessor then FindSetter(members[1..], name)
    else match members[0].firstIdentifier
      case None => None
      case Some(id) => if id == name then Some(true) else FindSetter(members[1..], name)
  }

  /** The `@readonly` test of `_emitPropertyDeclaration`. */
  function ReadonlyPart(n: Node): Part
  {
    if n.kind != GetAccessor then Part([], false)
    else if n.firstIdentifier.None? || n.parent.members.None? then Part([], true)
    else match FindSetter(n.parent.members.value, n.firstIdentifier.value)
      case None => Part([], true)
      case Some(hasSetter) => Part(if hasSetter then [] else Line("@readonly"), false)
  }

  /** The `@type` line of `_emitPropertyDeclaration`. */
  function PropertyTypePart(n: Node, cfg: Config, fmt: string -> string): Part
  {
    if !cfg.includeTypes then Part([], false)
    else if n.typeText.Some? && !Contains(n.typeText.value, "=>") then
      Part(Line("@type " + fmt(n.typeText.value)), false)
    else if !cfg.hungarian then Part([], false)
    else if n.name.None? then Part([], true)
    else if IsHungarianNotation(n.name.value) then
      Part(Line("@type " + HungarianNotationType(n.name.value)), false)
    else Part([], false)
  }

  /** `_emitPropertyDeclaration`. */
  function PropertyTokens(n: Node, cfg: Config, fmt: string -> string): Part
  {
    var ro := ReadonlyPart(n);
    if ro.threw then Part(DescriptionHeader(cfg), true)
    else
      var ty := PropertyTypePart(n, cfg, fmt);
      Part(DescriptionHeader(cfg) + ro.tokens + ModifierTags(n.modifiers) + ty.tokens, ty.threw)
  }

  // ---------------------------------------------------------------------
  // Parameters

  /** What `_emitParameter` reads of a parameter or a binding element. */
  datatype ParamDescriptor = ParamDescriptor(
    name: string, dotDotDot: bool, typeText: Option<string>, initializer: Option<string>)

  function ElementDescriptor(e: BindingElement): ParamDescriptor
  {
    ParamDescriptor(e.name, e.dotDotDot, None, e.initializer)
  }

  function ElementDescriptors(es: seq<BindingElement>): seq<ParamDescriptor>
  {
    if |es| == 0 then [] else ElementDescriptors(es[..|es| - 1]) + [ElementDescriptor(es[|es| - 1])]
  }

  /** An object binding pattern stands for its elements; any other name for itself. */
  function Descriptors(p: Parameter): seq<ParamDescriptor>
  {
    match p.name
    case ObjectPattern(es) => ElementDescriptors(es)
    case Simple(text) => [ParamDescriptor(text, p.dotDotDot, p.typeText, p.initializer)]
  }

  /** The parameters as `_emitParameters` visits them. */
  function Expand(ps: seq<Parameter>): seq<ParamDescriptor>
  {
    if |ps| == 0 then [] else Expand(ps[..|ps| - 1]) + Descriptors(ps[|ps| - 1])
  }

  /** The type guessed from a default value's text, if any: `{boolean}`
      only for a text without a leading digit or a quote in which `true` or
      `false` occurs. */
  function LiteralType(init: string): (r: Option<string>)
    ensures r.Some? ==> r.value in {"{number}", "{string}", "{boolean}"}
    ensures r == Some("{boolean}") <==>
      !(|init| > 0 && '0' <= init[0] <= '9') && '"' !in init && '\'' !in init && '`' !in init &&
      exists i: nat :: OccursAt(init, "true", i) || OccursAt(init, "false", i)
  {
    ContainsIff(init, "true");
    ContainsIff(init, "false");
    if |init| > 0 && '0' <= init[0] <= '9' then Some("{number}")
    else if '"' in init || '\'' in init || '`' in init then Some("{string}")
    else if Contains(init, "true") || Contains(init, "false") then Some("{boolean}")
    else None
  }

  /** The type `_emitParameter` settles on. */
  function ParamTypeName(d: ParamDescriptor, cfg: Config, fmt: string -> string): string
  {
    if !cfg.includeTypes then "{any}"
    else if d.initializer.Some? && d.typeText.None? then
      (match LiteralType(d.initializer.value) case Some(t) => t case None => "{any}")
    else if d.typeText.Some? then fmt((if d.dotDotDot then "..." else "") + d.typeText.value)
    else if cfg.hungarian && IsHungarianNotation(d.name) then HungarianNotationType(d.name)
    else if cfg.inferTypes then InferParamTypeFromName(d.name)
    else "{any}"
  }

  /** The line `_emitParameter` appends. The default-value suffix depends on
      the text being non-empty (JavaScript truthiness). */
  function ParamLine(d: ParamDescriptor, cfg: Config, fmt: string -> string): seq<Token>
  {
    [Text("@param ")]
    + (if cfg.includeTypes then [Text(ParamTypeName(d, cfg, fmt) + " ")] else [])
    + [Text(d.name)]
    + (if d.initializer.Some? && d.initializer.value != "" then [Text(" [" + d.initializer.value + "]")] else [])
    + [Text(" - ")] + [Tabstop] + [Newline]
  }

  function ParamLines(ds: seq<ParamDescriptor>, cfg: Config, fmt: string -> string): seq<Token>
  {
    if |ds| == 0 then [] else ParamLines(ds[..|ds| - 1], cfg, fmt) + ParamLine(ds[|ds| - 1], cfg, fmt)
  }

  /** `_emitParameters`. */
  function ParameterTags(ps: seq<Parameter>, cfg: Config, fmt: string -> string): seq<Token>
  {
    ParamLines(Expand(ps), cfg, fmt)
  }

  // ---------------------------------------------------------------------
  // Returns

  /** The condition under which `_emitReturns` emits anything. */
  predicate HasReturns(n: Node)
  {
    n.hasNonVoidReturn || (n.typeText.Some? && n.typeText.value != "void")
  }

  /** The type `_emitReturns` writes after `@returns`: the declared type,
      else (with inference on) the type guessed from the name, else none. */
  function ReturnsType(n: Node, cfg: Config, fmt: string -> string): seq<Token>
  {
    if cfg.includeTypes && n.typeText.Some? then [Text(" " + fmt(n.typeText.value))]
    else if cfg.includeTypes && cfg.inferTypes && n.name.Some? then [Text(" " + InferReturnTypeFromName(n.name.value))]
    else []
  }

  /** `_emitReturns`. With name inference on, a node without a name (an arrow
      function, an anonymous function) makes it raise after `@returns`. */
  function ReturnsPart(n: Node, cfg: Config, fmt: string -> string): Part
  {
    if !HasReturns(n) then Part([], false)
    else if cfg.includeTypes && n.typeText.None? && cfg.inferTypes && n.name.None? then Part([Text("@returns")], true)
    else Part([Text("@returns")] + ReturnsType(n, cfg, fmt) + [Text(" ")] + [Tabstop] + [Newline], false)
  }

  // ---------------------------------------------------------------------
  // Functions, methods, constructors

  /** `_emitMethodDeclaration`. */
  function MethodTokens(n: Node, cfg: Config, fmt: string -> string): Part
  {
    var r := ReturnsPart(n, cfg, fmt);
    Part((if n.kind == FunctionDeclaration then NameTag(n.name) else [])
         + DescriptionHeader(cfg) + AuthorTag(cfg) + ModifierTags(n.modifiers)
         + ParameterTags(n.parameters, cfg, fmt) + r.tokens,
         r.threw)
  }

  /** `_emitConstructorDeclaration`: a class without a name makes it raise
      before anything is emitted. */
  function ConstructorTokens(n: Node, cfg: Config, fmt: string -> string): Part
  {
    if n.parent.name.None? then Part([], true)
    else Part([Placeholder("Creates an instance of " + n.parent.name.value + "."), Newline]
              + AuthorTag(cfg) + ParameterTags(n.parameters, cfg, fmt), false)
  }

  predicate DocumentsInPlace(parentKind: Kind)
  {
    parentKind == PropertyAssignment || parentKind == BinaryExpression || parentKind == PropertyDeclaration
  }

  /** `_emitFunctionExpression`: documented where its parent starts, or where
      its variable ancestor starts; without either it emits nothing. */
  function FunctionExpressionEmission(n: Node, cfg: Config, fmt: string -> string): Emission
  {
    var target := if DocumentsInPlace(n.parent.kind) then Some(n.parent.start) else n.variableAncestor;
    if target.None? then Emission([], NotFound)
    else
      var r := ReturnsPart(n, cfg, fmt);
      Emission(DescriptionHeader(cfg) + ParameterTags(n.parameters, cfg, fmt) + r.tokens,
               if r.threw then Threw else Located(target.value))
  }

  /** Where the search stopped: at the arrow declaration, past the end, or
      at a declaration without an initializer, on which the test raised. */
  datatype Search = Found(index: nat) | Absent | SearchThrew(at: nat)
  {
    function Stop(len: nat): nat
    {
      match this
      case Found(k) => k
      case SearchThrew(k) => k
      case Absent => len
    }
  }

  /** `declarations.find(dec => ts.isArrowFunction(dec.initializer))` from
      index `i`: `isArrowFunction` reads the kind of a missing initializer
      and raises. */
  function FindArrowDeclaration(decls: seq<Declaration>, i: nat): (r: Search)
    requires i <= |decls|
    ensures i <= r.Stop(|decls|) <= |decls|
    ensures r.Found? ==> r.index < |decls| && decls[r.index].initializer.Some?
                          && decls[r.index].initializer.value.kind == ArrowFunction
    ensures r.SearchThrew? ==> r.at < |decls| && decls[r.at].initializer.None?
    ensures forall j :: i <= j < r.Stop(|decls|) ==>
      decls[j].initializer.Some? && decls[j].initializer.value.kind != ArrowFunction
    decreases |decls| - i
  {
    if i == |decls| then Absent
    else match decls[i].initializer
      case None => SearchThrew(i)
      case Some(init) => if init.kind == ArrowFunction then Found(i) else FindArrowDeclaration(decls, i + 1)
  }

  /** `_emitArrowFunction` for a variable statement or declaration list:
      `@name` of the FIRST declaration, the author, then the arrow function. */
  function ArrowFunctionEmission(n: Node, cfg: Config, fmt: string -> string): Emission
  {
    if |n.declarations| == 0 then Emission([], NotFound)
    else match FindArrowDeclaration(n.declarations, 0)
      case Absent => Emission([], NotFound)
      case SearchThrew(_) => Emission([], Threw)
      case Found(k) =>
        var fe := FunctionExpressionEmission(n.declarations[k].initializer.value, cfg, fmt);
        Emission(NameTag(Some(n.declarations[0].name)) + AuthorTag(cfg) + fe.tokens, fe.outcome)
  }

  // ---------------------------------------------------------------------
  // Source file

  predicate ExtensionAt(s: string, i: nat)
  {
    OccursAt(s, ".js", i) || OccursAt(s, ".ts", i)
  }

  /** Leftmost index from `i` on where `.js` or `.ts` starts. */
  function FirstExtension(s: string, i: nat): (r: Option<nat>)
    ensures r.Some? ==> i <= r.value < |s| && ExtensionAt(s, r.value)
    ensures forall j :: i <= j < |s| && (r.None? || j < r.value) ==> !ExtensionAt(s, j)
    decreases |s| - i
  {
    if i >= |s| then None
    else if ExtensionAt(s, i) then Some(i)
    else FirstExtension(s, i + 1)
  }

  /** End of the run of `.js`/`.ts` starting at `j` (the regex's greedy `+`). */
  function ExtensionRunEnd(s: string, j: nat): (r: nat)
    requires j <= |s|
    ensures j <= r <= |s| && !ExtensionAt(s, r) && (r - j) % 3 == 0
    ensures forall k :: j <= k < r && (k - j) % 3 == 0 ==> ExtensionAt(s, k)
    decreases |s| - j
  {
    if ExtensionAt(s, j) then ExtensionRunEnd(s, j + 3) else j
  }

  /** `fileName.replace(/(\.js|\.ts)+/, "")`: the first run only. A name
      is left unchanged exactly when it holds no `.js` or `.ts`, and what is
      removed is a whole number of three-character extensions. */
  function StripExtensions(s: string): (r: string)
    ensures |r| <= |s| && (|s| - |r|) % 3 == 0
    ensures r == s <==> forall j :: 0 <= j < |s| ==> !ExtensionAt(s, j)
  {
    match FirstExtension(s, 0)
    case None => s
    case Some(i) =>
      var e := ExtensionRunEnd(s, i);
      assert i != e && |s[..i] + s[e..]| < |s|;
      s[..i] + s[e..]
  }

  /** `parts.slice(-2)`. */
  function LastTwo<T>(parts: seq<T>): seq<T>
  {
    if |parts| <= 2 then parts else parts[|parts| - 2..]
  }

  /** The `@page` value of `_emitSourceFile`: the last two `/`-separated
      parts of the stripped name, which is kept whole when it has no `/`. */
  function PagePath(fileName: string): (r: string)
    ensures '/' !in StripExtensions(fileName) ==> r == StripExtensions(fileName)
  {
    var s := StripExtensions(fileName);
    var parts := Split(s, '/');
    assert '/' !in s ==> parts == [s] by {
      if '/' !in s {
        SplitWithoutSeparator(s, '/');
      }
    }
    Join(LastTwo(parts), "/")
  }

  /** `_emitSourceFile`. */
  function SourceFileTokens(n: Node, cfg: Config): seq<Token>
  {
    Line("////") + Line("@page " + PagePath(n.fileName)) + DescriptionHeader(cfg) + AuthorTag(cfg) + Line("////")
  }

  // ---------------------------------------------------------------------
  // Dispatch

  function PartAt(p: Part, pos: Position): Emission
  {
    Emission(p.tokens, if p.threw then Threw else Located(pos))
  }

  /** `_documentNode`. */
  function DocumentNode(n: Node, cfg: Config, fmt: string -> string): Emission
    decreases n, 1, 0
  {
    match n.kind
    case ClassDeclaration => Emission(ClassTokens(n, cfg, fmt), Located(n.start))
    case PropertyDeclaration | PropertySignature | GetAccessor | SetAccessor => PartAt(PropertyTokens(n, cfg, fmt), n.start)
    case EnumMember => Emission([Newline], Located(n.start))
    case FunctionDeclaration | MethodDeclaration | MethodSignature => PartAt(MethodTokens(n, cfg, fmt), n.start)
    case Constructor => PartAt(ConstructorTokens(n, cfg, fmt), n.start)
    case FunctionExpression | ArrowFunction => FunctionExpressionEmission(n, cfg, fmt)
    case VariableDeclaration => DocumentChildren(n, 0, cfg, fmt)
    case VariableDeclarationList | VariableStatement => ArrowFunctionEmission(n, cfg, fmt)
    case SourceFile => Emission(SourceFileTokens(n, cfg), Located(Position(1, 0)))
    case _ => Emission([], NotFound)
  }

  /** `_emitVariableDeclaration` from child `i` on: the first child that is
      documented (or raises) decides. */
  function DocumentChildren(n: Node, i: nat, cfg: Config, fmt: string -> string): Emission
    decreases n, 0, |n.children| - i
  {
    if i >= |n.children| then Emission([], NotFound)
    else
      var e := DocumentNode(n.children[i], cfg, fmt);
      if !e.outcome.NotFound? then e
      else
        var rest := DocumentChildren(n, i + 1, cfg, fmt);
        Emission(e.tokens + rest.tokens, rest.outcome)
  }

  // ---------------------------------------------------------------------
  // documentThis

  /** What the command does in the end. */
  datatype Response =
    | ShowFailure                     // "wasn't able to produce documentation"
    | Insert(snippet: seq<Token>, start: Position, end: Position, hasParent: bool)
    | Raised                          // an exception, logged by the command wrapper

  /** `documentThis` after the node has been located, with
      `_insertDocumentation`'s range: in completion mode the range starts one
      line up; `vs.Position` rejects a negative line. */
  function Respond(documentNode: Option<Node>, cfg: Config, fmt: string -> string, forCompletion: bool): Response
  {
    match documentNode
    case None => ShowFailure
    case Some(n) =>
      var e := DocumentNode(n, cfg, fmt);
      match e.outcome
      case NotFound => ShowFailure
      case Threw => Raised
      case Located(loc) =>
        var startLine := if forCompletion then loc.line - 1 else loc.line;
        if startLine < 0 then Raised
        else Insert(e.tokens, Position(startLine, loc.character), loc, n.kind != SourceFile)
  }

  /** The text and caret the locator works on: an empty file is replaced by
      a two-line placeholder and the caret put at the end of `///`. */
  datatype Prepared = Prepared(text: string, caret: Position)

  function PrepareSource(text: string, selectionStart: Position): (r: Prepared)
    ensures |text| == 0 ==> r.caret == Position(1, 3) && PositionInText(r.text, r.caret)
    ensures |text| > 0 ==> r == Prepared(text, selectionStart)
  {
    if |text| == 0 then
      SplitPlaceholder();
      Prepared("\n///\n", Position(1, 3))
    else Prepared(text, selectionStart)
  }

  /** The placeholder text has three lines, the middle one `///`. */
  lemma SplitPlaceholder()
    ensures Split("\n///\n", '\n') == ["", "///", ""]
  {
    assert Split("", '\n') == [""];
    assert "\n///\n"[1..] == "///\n";
    assert "///\n"[1..] == "//\n";
    assert "//\n"[1..] == "/\n";
    assert "/\n"[1..] == "\n";
    assert "\n"[1..] == "";
    assert Split("\n", '\n') == ["", ""];
    assert ["", ""][1..] == [""];
    assert ['/'] + "" == "/" && ['/'] + "/" == "//" && ['/'] + "//" == "///";
    assert Split("/\n", '\n') == ["/", ""];
    assert Split("//\n", '\n') == ["//", ""];
    assert Split("///\n", '\n') == ["///", ""];
  }


  /** A (line, character) pair that lies inside `text`. */
  predicate PositionInText(text: string, p: Position)
  {
    var lines := Split(text, '\n');
    0 <= p.line < |lines| && 0 <= p.character <= |lines[p.line]|
  }
}

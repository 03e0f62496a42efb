/** The `Documenter` of src/documenter.ts as it runs: each emitter appends to
    a `SnippetBuilder` step by step, and is proved to append exactly what the
    corresponding function of `Emission` describes. An emitter that raises a
    TypeError in the source returns `true` in `threw` (or the outcome
    `Threw`) at the point where the source raises. */
module Documenter {
  import opened Syntax
  import opened Snippet
  import opened Strings
  import opened Heuristics
  import opened Emitters
  import opened Properties

  /** `_emitDescriptionHeader`. */
  method EmitDescriptionHeader(sb: SnippetBuilder, cfg: Config)
    modifies sb
    ensures sb.tokens == old(sb.tokens) + DescriptionHeader(cfg)
  {
    if cfg.includeDescriptionTag {
      sb.Append("@desc ");
      sb.AppendSnippetTabstop();
      sb.NewLine();
    } else {
      // room for a free-typed description, then a blank line
      sb.AppendSnippetTabstop();
      sb.NewLine();
      sb.NewLine();
    }
  }

  /** `_emitAuthor`. */
  method EmitAuthor(sb: SnippetBuilder, cfg: Config)
    modifies sb
    ensures sb.tokens == old(sb.tokens) + AuthorTag(cfg)
  {
    if cfg.includeAuthorTag {
      sb.Append("@author " + cfg.authorName);
      sb.AppendSnippetTabstop();
      sb.NewLine();
    }
  }

  /** `_emitName`. */
  method EmitName(sb: SnippetBuilder, name: Option<string>)
    modifies sb
    ensures sb.tokens == old(sb.tokens) + NameTag(name)
  {
    var text := if name.Some? then name.value else "undefined";
    sb.AppendLine("@name " + text);
  }

  /** `_emitModifiers`: one line per visibility modifier, in order. */
  method EmitModifiers(sb: SnippetBuilder, mods: seq<Modifier>)
    modifies sb
    ensures sb.tokens == old(sb.tokens) + ModifierTags(mods)
  {
    var i := 0;
    while i < |mods|
      invariant 0 <= i <= |mods|
      invariant sb.tokens == old(sb.tokens) + ModifierTags(mods[..i])
    {
      var modifier := mods[i];
      if modifier == ProtectedKeyword {
        sb.AppendLine("@protected");
      } else if modifier == PrivateKeyword {
        sb.AppendLine("@private");
      } else if modifier == PublicKeyword {
        sb.AppendLine("@public");
      }
      assert sb.tokens == old(sb.tokens) + ModifierTags(mods[..i]) + ModifierTag(modifier);
      assert mods[..i + 1][..i] == mods[..i];
      AppendInTurn(old(sb.tokens), ModifierTags(mods[..i]), ModifierTag(modifier));
      i := i + 1;
    }
    assert mods[..|mods|] == mods;
  }

  /** `_emitHeritageClauses`: one line per type of every clause. */
  method EmitHeritageClauses(sb: SnippetBuilder, clauses: seq<HeritageClause>, cfg: Config, fmt: string -> string)
    modifies sb
    ensures sb.tokens == old(sb.tokens) + HeritageTags(clauses, cfg, fmt)
  {
    if |clauses| == 0 || !cfg.includeTypes {
      return;
    }
    var i := 0;
    while i < |clauses|
      invariant 0 <= i <= |clauses|
      invariant sb.tokens == old(sb.tokens) + ClauseTags(clauses[..i], fmt)
    {
      var clause := clauses[i];
      var heritageType := if clause.token == ExtendsKeyword then "@extends" else "@implements";
      EmitClauseTypes(sb, heritageType, clause.types, fmt);
      assert clauses[..i + 1][..i] == clauses[..i];
      assert ClauseTags(clauses[..i + 1], fmt) == ClauseTags(clauses[..i], fmt) + TypeTags(heritageType, clause.types, fmt);
      AppendInTurn(old(sb.tokens), ClauseTags(clauses[..i], fmt), TypeTags(heritageType, clause.types, fmt));
      i := i + 1;
    }
    assert clauses[..i] == clauses;
  }

  /** The `clause.types.forEach` callback of `_emitHeritageClauses`: one
      `@extends`/`@implements` line per type. */
  method EmitClauseTypes(sb: SnippetBuilder, heritageType: string, types: seq<TypeReference>, fmt: string -> string)
    modifies sb
    ensures sb.tokens == old(sb.tokens) + TypeTags(heritageType, types, fmt)
  {
    var j := 0;
    while j < |types|
      invariant 0 <= j <= |types|
      invariant sb.tokens == old(sb.tokens) + TypeTags(heritageType, types[..j], fmt)
    {
      var t := types[j];
      var tn := t.expression;
      if t.typeArguments.Some? {
        tn := tn + "<";
        tn := tn + Join(t.typeArguments.value, ", ");
        tn := tn + ">";
      }
      assert tn == TypeReferenceText(t);
      ghost var cur := sb.tokens;
      sb.Append(heritageType + " " + fmt(tn));
      sb.NewLine();
      assert sb.tokens == cur + Line(heritageType + " " + fmt(tn));
      assert types[..j + 1][..j] == types[..j];
      assert TypeTags(heritageType, types[..j + 1], fmt)
          == TypeTags(heritageType, types[..j], fmt) + Line(heritageType + " " + fmt(tn));
      AppendInTurn(old(sb.tokens), TypeTags(heritageType, types[..j], fmt), Line(heritageType + " " + fmt(tn)));
      j := j + 1;
    }
    assert types[..j] == types;
  }

  /** `_emitClassDeclaration`. */
  method EmitClassDeclaration(sb: SnippetBuilder, n: Node, cfg: Config, fmt: string -> string)
    modifies sb
    ensures sb.tokens == old(sb.tokens) + ClassTokens(n, cfg, fmt)
  {
    EmitDescriptionHeader(sb, cfg);
    EmitAuthor(sb, cfg);
    EmitModifiers(sb, n.modifiers);
    sb.Append("@class");
    if n.name.Some? {
      sb.Append(" " + n.name.value);
    }
    assert sb.tokens == old(sb.tokens) + DescriptionHeader(cfg) + AuthorTag(cfg) + ModifierTags(n.modifiers) +
      [Text("@class")] + if n.name.Some? then [Text(" " + n.name.value)] else [];
    sb.NewLine();
    EmitHeritageClauses(sb, n.heritageClauses, cfg, fmt);
    Appended7(old(sb.tokens), DescriptionHeader(cfg), AuthorTag(cfg), ModifierTags(n.modifiers), [Text("@class")],
              if n.name.Some? then [Text(" " + n.name.value)] else [], [Newline],
              HeritageTags(n.heritageClauses, cfg, fmt));
  }

  /** The `members.find` of `_emitPropertyDeclaration`: `None` when the
      callback raised on a setter without an identifier. */
  method FindSetterMember(members: seq<Member>, name: string) returns (r: Option<bool>)
    ensures r == FindSetter(members, name)
  {
    var i := 0;
    while i < |members|
      invariant 0 <= i <= |members|
      invariant FindSetter(members, name) == FindSetter(members[i..], name)
    {
      var c := members[i];
      if c.kind == SetAccessor {
        if c.firstIdentifier.None? {
          return None;
        }
        if c.firstIdentifier.value == name {
          return Some(true);
        }
      }
      assert members[i..][1..] == members[i + 1..];
      i := i + 1;
    }
    return Some(false);
  }

  /** `_emitPropertyDeclaration`. */
  method EmitPropertyDeclaration(sb: SnippetBuilder, n: Node, cfg: Config, fmt: string -> string)
    returns (threw: bool)
    modifies sb
    ensures sb.tokens == old(sb.tokens) + PropertyTokens(n, cfg, fmt).tokens
    ensures threw == PropertyTokens(n, cfg, fmt).threw
  {
    EmitDescriptionHeader(sb, cfg);
    threw := EmitReadonly(sb, n);
    if threw {
      return;
    }
    EmitModifiers(sb, n.modifiers);
    threw := EmitPropertyType(sb, n, cfg, fmt);
    Appended4(old(sb.tokens), DescriptionHeader(cfg), ReadonlyPart(n).tokens, ModifierTags(n.modifiers),
              PropertyTypePart(n, cfg, fmt).tokens);
  }

  /** The getter step of `_emitPropertyDeclaration`: `@readonly` for a getter
      whose class has no setter of the same name. */
  method EmitReadonly(sb: SnippetBuilder, n: Node) returns (threw: bool)
    modifies sb
    ensures sb.tokens == old(sb.tokens) + ReadonlyPart(n).tokens
    ensures threw == ReadonlyPart(n).threw
  {
    threw := false;
    if n.kind == GetAccessor {
      if n.firstIdentifier.None? {
        return true;
      }
      var name := n.firstIdentifier.value;
      if n.parent.members.None? {
        return true;
      }
      var hasSetter := FindSetterMember(n.parent.members.value, name);
      if hasSetter.None? {
        return true;
      }
      if !hasSetter.value {
        sb.AppendLine("@readonly");
      }
    }
  }

  /** The type step of `_emitPropertyDeclaration`: the declared type unless
      it is a function type, else the Hungarian-notation type. */
  method EmitPropertyType(sb: SnippetBuilder, n: Node, cfg: Config, fmt: string -> string) returns (threw: bool)
    modifies sb
    ensures sb.tokens == old(sb.tokens) + PropertyTypePart(n, cfg, fmt).tokens
    ensures threw == PropertyTypePart(n, cfg, fmt).threw
  {
    threw := false;
    if cfg.includeTypes {
      if n.typeText.Some? && !Contains(n.typeText.value, "=>") {
        sb.AppendLine("@type " + fmt(n.typeText.value));
      } else if cfg.hungarian {
        if n.name.None? {
          return true;
        }
        if IsHungarianNotation(n.name.value) {
          sb.AppendLine("@type " + HungarianNotationType(n.name.value));
        }
      }
    }
  }

  /** The `typeName` of `_emitParameter`: `{any}` unless types are included
      and a default value, a declared type, Hungarian notation or the name
      says otherwise. */
  method SettleTypeName(d: ParamDescriptor, cfg: Config, fmt: string -> string) returns (typeName: string)
    ensures typeName == ParamTypeName(d, cfg, fmt)
  {
    var name := d.name;
    var isArgs := d.dotDotDot;
    typeName := "{any}";
    if cfg.includeTypes {
      if d.initializer.Some? && d.typeText.None? {
        var initializerValue := d.initializer.value;
        if |initializerValue| > 0 && '0' <= initializerValue[0] <= '9' {
          typeName := "{number}";
        } else if '"' in initializerValue || '\'' in initializerValue || '`' in initializerValue {
          typeName := "{string}";
        } else if Contains(initializerValue, "true") || Contains(initializerValue, "false") {
          typeName := "{boolean}";
        }
      } else if d.typeText.Some? {
        typeName := fmt((if isArgs then "..." else "") + d.typeText.value);
      } else if cfg.hungarian && IsHungarianNotation(name) {
        typeName := HungarianNotationType(name);
      } else if cfg.inferTypes {
        typeName := InferParamTypeFromName(name);
      }
    }
  }

  /** `_emitParameter`: the type name is settled first, then the line is written. */
  method EmitParameter(sb: SnippetBuilder, d: ParamDescriptor, cfg: Config, fmt: string -> string)
    modifies sb
    ensures sb.tokens == old(sb.tokens) + ParamLine(d, cfg, fmt)
  {
    var name := d.name;
    var typeName := SettleTypeName(d, cfg, fmt);
    sb.Append("@param ");
    if cfg.includeTypes {
      sb.Append(typeName + " ");
    }
    ghost var typed := if cfg.includeTypes then [Text(typeName + " ")] else [];
    assert sb.tokens == old(sb.tokens) + [Text("@param ")] + typed;
    sb.Append(name);
    if d.initializer.Some? && d.initializer.value != "" {
      sb.Append(" [" + d.initializer.value + "]");
    }
    ghost var defaulted := if d.initializer.Some? && d.initializer.value != "" then [Text(" [" + d.initializer.value + "]")] else [];
    assert sb.tokens == old(sb.tokens) + [Text("@param ")] + typed + [Text(name)] + defaulted;
    sb.Append(" - ");
    sb.AppendSnippetTabstop();
    sb.NewLine();
    Appended7(old(sb.tokens), [Text("@param ")], typed, [Text(name)], defaulted, [Text(" - ")], [Tabstop], [Newline]);
  }

  /** `_emitParameters`: an object binding pattern is documented element by element. */
  method EmitParameters(sb: SnippetBuilder, ps: seq<Parameter>, cfg: Config, fmt: string -> string)
    modifies sb
    ensures sb.tokens == old(sb.tokens) + ParameterTags(ps, cfg, fmt)
  {
    var i := 0;
    while i < |ps|
      invariant 0 <= i <= |ps|
      invariant sb.tokens == old(sb.tokens) + ParamLines(Expand(ps[..i]), cfg, fmt)
    {
      EmitParameterOrPattern(sb, ps[i], cfg, fmt);
      assert ps[..i + 1][..i] == ps[..i];
      ParamLinesAppend(Expand(ps[..i]), Descriptors(ps[i]), cfg, fmt);
      AppendInTurn(old(sb.tokens), ParamLines(Expand(ps[..i]), cfg, fmt), ParamLines(Descriptors(ps[i]), cfg, fmt));
      i := i + 1;
    }
    assert ps[..i] == ps;
  }

  /** The `node.parameters.forEach` callback of `_emitParameters`. */
  method EmitParameterOrPattern(sb: SnippetBuilder, p: Parameter, cfg: Config, fmt: string -> string)
    modifies sb
    ensures sb.tokens == old(sb.tokens) + ParamLines(Descriptors(p), cfg, fmt)
  {
    match p.name {
      case ObjectPattern(es) =>
        EmitBindingElements(sb, es, cfg, fmt);
      case Simple(text) =>
        var d := ParamDescriptor(text, p.dotDotDot, p.typeText, p.initializer);
        EmitParameter(sb, d, cfg, fmt);
        ParamLinesSnoc([], d, cfg, fmt);
        assert [] + [d] == [d];
    }
  }

  /** The `elements.forEach` callback of `_emitParameters`: one `@param`
      line per element of an object binding pattern. */
  method EmitBindingElements(sb: SnippetBuilder, es: seq<BindingElement>, cfg: Config, fmt: string -> string)
    modifies sb
    ensures sb.tokens == old(sb.tokens) + ParamLines(ElementDescriptors(es), cfg, fmt)
  {
    var j := 0;
    while j < |es|
      invariant 0 <= j <= |es|
      invariant sb.tokens == old(sb.tokens) + ParamLines(ElementDescriptors(es[..j]), cfg, fmt)
    {
      EmitParameter(sb, ElementDescriptor(es[j]), cfg, fmt);
      assert es[..j + 1][..j] == es[..j];
      ParamLinesSnoc(ElementDescriptors(es[..j]), ElementDescriptor(es[j]), cfg, fmt);
      AppendInTurn(old(sb.tokens), ParamLines(ElementDescriptors(es[..j]), cfg, fmt), ParamLine(ElementDescriptor(es[j]), cfg, fmt));
      j := j + 1;
    }
    assert es[..j] == es;
  }

  /** Documenting one more descriptor appends its line. */
  lemma ParamLinesSnoc(ds: seq<ParamDescriptor>, d: ParamDescriptor, cfg: Config, fmt: string -> string)
    ensures ParamLines(ds + [d], cfg, fmt) == ParamLines(ds, cfg, fmt) + ParamLine(d, cfg, fmt)
  {
    assert (ds + [d])[..|ds|] == ds;
  }

  /** `_emitReturns`. */
  method EmitReturns(sb: SnippetBuilder, n: Node, cfg: Config, fmt: string -> string) returns (threw: bool)
    modifies sb
    ensures sb.tokens == old(sb.tokens) + ReturnsPart(n, cfg, fmt).tokens
    ensures threw == ReturnsPart(n, cfg, fmt).threw
  {
    if n.hasNonVoidReturn || (n.typeText.Some? && n.typeText.value != "void") {
      sb.Append("@returns");
      if cfg.includeTypes && n.typeText.Some? {
        sb.Append(" " + fmt(n.typeText.value));
      } else if cfg.includeTypes && cfg.inferTypes {
        if n.name.None? {
          return true;
        }
        sb.Append(" " + InferReturnTypeFromName(n.name.value));
      }
      assert sb.tokens == old(sb.tokens) + [Text("@returns")] + ReturnsType(n, cfg, fmt);
      sb.Append(" ");
      sb.AppendSnippetTabstop();
      sb.NewLine();
      Appended5(old(sb.tokens), [Text("@returns")], ReturnsType(n, cfg, fmt), [Text(" ")], [Tabstop], [Newline]);
    }
    threw := false;
  }

  /** `_emitMethodDeclaration`, also used for functions and method signatures. */
  method EmitMethodDeclaration(sb: SnippetBuilder, n: Node, cfg: Config, fmt: string -> string) returns (threw: bool)
    modifies sb
    ensures sb.tokens == old(sb.tokens) + MethodTokens(n, cfg, fmt).tokens
    ensures threw == MethodTokens(n, cfg, fmt).threw
  {
    if n.kind == FunctionDeclaration {
      EmitName(sb, n.name);
    }
    assert sb.tokens == old(sb.tokens) + if n.kind == FunctionDeclaration then NameTag(n.name) else [];
    EmitDescriptionHeader(sb, cfg);
    EmitAuthor(sb, cfg);
    EmitModifiers(sb, n.modifiers);
    EmitParameters(sb, n.parameters, cfg, fmt);
    threw := EmitReturns(sb, n, cfg, fmt);
    Appended6(old(sb.tokens), if n.kind == FunctionDeclaration then NameTag(n.name) else [], DescriptionHeader(cfg),
              AuthorTag(cfg), ModifierTags(n.modifiers), ParameterTags(n.parameters, cfg, fmt),
              ReturnsPart(n, cfg, fmt).tokens);
  }

  /** `_emitConstructorDeclaration`. */
  method EmitConstructorDeclaration(sb: SnippetBuilder, n: Node, cfg: Config, fmt: string -> string)
    returns (threw: bool)
    modifies sb
    ensures sb.tokens == old(sb.tokens) + ConstructorTokens(n, cfg, fmt).tokens
    ensures threw == ConstructorTokens(n, cfg, fmt).threw
  {
    if n.parent.name.None? {
      return true;
    }
    sb.AppendSnippetPlaceholder("Creates an instance of " + n.parent.name.value + ".");
    sb.NewLine();
    EmitAuthor(sb, cfg);
    EmitParameters(sb, n.parameters, cfg, fmt);
    ghost var placeholder := Placeholder("Creates an instance of " + n.parent.name.value + ".");
    assert [placeholder] + [Newline] == [placeholder, Newline];
    Appended4(old(sb.tokens), [placeholder], [Newline], AuthorTag(cfg), ParameterTags(n.parameters, cfg, fmt));
    threw := false;
  }

  /** `_emitFunctionExpression`, for function expressions and arrow functions. */
  method EmitFunctionExpression(sb: SnippetBuilder, n: Node, cfg: Config, fmt: string -> string)
    returns (outcome: Outcome)
    modifies sb
    ensures sb.tokens == old(sb.tokens) + FunctionExpressionEmission(n, cfg, fmt).tokens
    ensures outcome == FunctionExpressionEmission(n, cfg, fmt).outcome
  {
    var targetNode := Some(n.parent.start);
    if !DocumentsInPlace(n.parent.kind) {
      targetNode := n.variableAncestor;
      if targetNode.None? {
        return NotFound;
      }
    }
    EmitDescriptionHeader(sb, cfg);
    EmitParameters(sb, n.parameters, cfg, fmt);
    var threw := EmitReturns(sb, n, cfg, fmt);
    Appended3(old(sb.tokens), DescriptionHeader(cfg), ParameterTags(n.parameters, cfg, fmt), ReturnsPart(n, cfg, fmt).tokens);
    if threw {
      return Threw;
    }
    outcome := Located(targetNode.value);
  }

  /** `declarations.find(dec => ts.isArrowFunction(dec.initializer))`. */
  method FindArrow(decls: seq<Declaration>) returns (r: Search)
    ensures r == FindArrowDeclaration(decls, 0)
  {
    var i := 0;
    while i < |decls|
      invariant 0 <= i <= |decls|
      invariant FindArrowDeclaration(decls, 0) == FindArrowDeclaration(decls, i)
    {
      match decls[i].initializer {
        case None =>
          return SearchThrew(i);
        case Some(init) =>
          if init.kind == ArrowFunction {
            return Found(i);
          }
      }
      i := i + 1;
    }
    return Absent;
  }

  /** `_emitArrowFunction` for a variable statement or declaration list. */
  method EmitArrowFunction(sb: SnippetBuilder, n: Node, cfg: Config, fmt: string -> string)
    returns (outcome: Outcome)
    modifies sb
    ensures sb.tokens == old(sb.tokens) + ArrowFunctionEmission(n, cfg, fmt).tokens
    ensures outcome == ArrowFunctionEmission(n, cfg, fmt).outcome
  {
    if |n.declarations| > 0 {
      var declaration := FindArrow(n.declarations);
      match declaration
      case SearchThrew(_) =>
        return Threw;
      case Found(k) =>
        EmitName(sb, Some(n.declarations[0].name));
        EmitAuthor(sb, cfg);
        outcome := EmitFunctionExpression(sb, n.declarations[k].initializer.value, cfg, fmt);
        Appended3(old(sb.tokens), NameTag(Some(n.declarations[0].name)), AuthorTag(cfg),
                  FunctionExpressionEmission(n.declarations[k].initializer.value, cfg, fmt).tokens);
        return;
      case Absent =>
    }
    outcome := NotFound;
  }

  /** `_emitSourceFile`. */
  method EmitSourceFile(sb: SnippetBuilder, n: Node, cfg: Config) returns (location: Position)
    modifies sb
    ensures sb.tokens == old(sb.tokens) + SourceFileTokens(n, cfg)
    ensures location == Position(1, 0)
  {
    sb.AppendLine("////");
    var path := StripExtensions(n.fileName);
    var pathParts := Split(path, '/');
    sb.AppendLine("@page " + Join(LastTwo(pathParts), "/"));
    EmitDescriptionHeader(sb, cfg);
    EmitAuthor(sb, cfg);
    sb.AppendLine("////");
    Appended5(old(sb.tokens), Line("////"), Line("@page " + PagePath(n.fileName)), DescriptionHeader(cfg),
              AuthorTag(cfg), Line("////"));
    location := Position(1, 0);
  }

  /** `_documentNode`: emit for the node's kind, and say where the comment goes. */
  method DocumentNode(sb: SnippetBuilder, n: Node, cfg: Config, fmt: string -> string) returns (outcome: Outcome)
    modifies sb
    ensures sb.tokens == old(sb.tokens) + Emitters.DocumentNode(n, cfg, fmt).tokens
    ensures outcome == Emitters.DocumentNode(n, cfg, fmt).outcome
    decreases n, 1
  {
    match n.kind
    case ClassDeclaration =>
      EmitClassDeclaration(sb, n, cfg, fmt);
      outcome := Located(n.start);
    case PropertyDeclaration | PropertySignature | GetAccessor | SetAccessor =>
      var threw := EmitPropertyDeclaration(sb, n, cfg, fmt);
      assert Emitters.DocumentNode(n, cfg, fmt) == PartAt(PropertyTokens(n, cfg, fmt), n.start);
      outcome := if threw then Threw else Located(n.start);
    case EnumMember =>
      sb.NewLine();
      outcome := Located(n.start);
    case FunctionDeclaration | MethodDeclaration | MethodSignature =>
      var threw := EmitMethodDeclaration(sb, n, cfg, fmt);
      assert Emitters.DocumentNode(n, cfg, fmt) == PartAt(MethodTokens(n, cfg, fmt), n.start);
      outcome := if threw then Threw else Located(n.start);
    case Constructor =>
      var threw := EmitConstructorDeclaration(sb, n, cfg, fmt);
      assert Emitters.DocumentNode(n, cfg, fmt) == PartAt(ConstructorTokens(n, cfg, fmt), n.start);
      outcome := if threw then Threw else Located(n.start);
    case FunctionExpression | ArrowFunction =>
      outcome := EmitFunctionExpression(sb, n, cfg, fmt);
    case VariableDeclaration =>
      outcome := EmitVariableDeclaration(sb, n, cfg, fmt);
    case VariableDeclarationList | VariableStatement =>
      outcome := EmitArrowFunction(sb, n, cfg, fmt);
    case SourceFile =>
      var location := EmitSourceFile(sb, n, cfg);
      outcome := Located(location);
    case _ =>
      outcome := NotFound;
  }

  /** `_emitVariableDeclaration`: the first child that is documented (or
      raises) decides; children that are not documented may still have
      appended text. */
  method EmitVariableDeclaration(sb: SnippetBuilder, n: Node, cfg: Config, fmt: string -> string)
    returns (outcome: Outcome)
    modifies sb
    ensures sb.tokens == old(sb.tokens) + DocumentChildren(n, 0, cfg, fmt).tokens
    ensures outcome == DocumentChildren(n, 0, cfg, fmt).outcome
    decreases n, 0
  {
    ghost var acc: seq<Token> := [];
    var i := 0;
    while i < |n.children|
      invariant 0 <= i <= |n.children|
      invariant sb.tokens == old(sb.tokens) + acc
      invariant DocumentChildren(n, 0, cfg, fmt).tokens == acc + DocumentChildren(n, i, cfg, fmt).tokens
      invariant DocumentChildren(n, 0, cfg, fmt).outcome == DocumentChildren(n, i, cfg, fmt).outcome
    {
      var result := DocumentNode(sb, n.children[i], cfg, fmt);
      ghost var x := Emitters.DocumentNode(n.children[i], cfg, fmt).tokens;
      AppendInTurn(old(sb.tokens), acc, x);
      if !result.NotFound? {
        return result;
      }
      AppendInTurn(acc, x, DocumentChildren(n, i + 1, cfg, fmt).tokens);
      acc := acc + x;
      i := i + 1;
    }
    outcome := NotFound;
  }

  /** `documentThis` once the node under the caret has been located (or
      not), with `_insertDocumentation`'s range. */
  method DocumentThis(documentNode: Option<Node>, cfg: Config, fmt: string -> string, forCompletion: bool)
    returns (r: Response)
    ensures r == Respond(documentNode, cfg, fmt, forCompletion)
  {
    if documentNode.None? {
      return ShowFailure;
    }
    var node := documentNode.value;
    var sb := new SnippetBuilder();
    var docLocation := DocumentNode(sb, node, cfg, fmt);
    match docLocation
    case NotFound =>
      r := ShowFailure;
    case Threw =>
      r := Raised;
    case Located(location) =>
      r := InsertDocumentation(sb, location, forCompletion, node.kind != SourceFile);
  }

  /** `_insertDocumentation`: the range to replace; `vs.Position` raises on a
      negative line. */
  method InsertDocumentation(sb: SnippetBuilder, location: Position, forCompletion: bool, hasParent: bool)
    returns (r: Response)
    ensures r == (if (if forCompletion then location.line - 1 else location.line) < 0 then Raised
                  else Insert(sb.tokens, Position(if forCompletion then location.line - 1 else location.line,
                                                  location.character), location, hasParent))
  {
    var startLine := if forCompletion then location.line - 1 else location.line;
    if startLine < 0 {
      return Raised;
    }
    var startPosition := Position(startLine, location.character);
    var endPosition := Position(location.line, location.character);
    r := Insert(sb.tokens, startPosition, endPosition, hasParent);
  }
}

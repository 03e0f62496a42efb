/** Worked examples under the default settings (types included, nothing
    inferred, no description or author tag): what the documenter writes for
    a few typical declarations. */
module Scenarios {
  import opened Syntax
  import opened Snippet
  import opened Emitters
  import opened Properties
  import DispatchProperties

  const Here := Position(4, 2)
  const TopLevel := ParentInfo(SourceFile, None, None, Position(0, 0))

  function Bare(kind: Kind, name: Option<string>): Node
  {
    Node(kind, Here, name, name, None, [], [], [], false, TopLevel, None, [], [], "")
  }

  /** `export class Foo extends Bar<T> {}`: a free description line, a
      blank line, `@class Foo`, then one `@extends` line. */
  lemma ClassExtends(fmt: string -> string)
    ensures var n := Bare(ClassDeclaration, Some("Foo")).(
              modifiers := [ExportKeyword],
              heritageClauses := [HeritageClause(ExtendsKeyword, [TypeReference("Bar", Some(["T"]))])]);
      DocumentNode(n, DefaultConfig, fmt) ==
        Emission([Tabstop, Newline, Newline]
                 + [Text("@class"), Text(" Foo"), Newline]
                 + [Text("@extends " + fmt("Bar<T>")), Newline], Located(Here))
  {
    var n := Bare(ClassDeclaration, Some("Foo")).(
               modifiers := [ExportKeyword],
               heritageClauses := [HeritageClause(ExtendsKeyword, [TypeReference("Bar", Some(["T"]))])]);
    var c := n.heritageClauses[0];
    var t := c.types[0];
    assert TypeReferenceText(t) == "Bar<T>" by {
      assert Strings.Join(["T"], ", ") == "T";
    }
    assert TypeTags("@extends", c.types, fmt) == Line("@extends " + fmt("Bar<T>")) by {
      assert c.types == [t];
      assert "@extends" + " " == "@extends ";
      assert c.types[..0] == [];
      assert TypeTags("@extends", c.types[..0], fmt) == [];
      assert TypeTags("@extends", c.types, fmt) == [] + Line("@extends " + fmt(TypeReferenceText(t)));
    }
    assert HeritageTags(n.heritageClauses, DefaultConfig, fmt) == Line("@extends " + fmt("Bar<T>")) by {
      assert n.heritageClauses[..0] == [];
    }
    assert ModifierTags(n.modifiers) == [] by {
      assert n.modifiers[..0] == [];
    }
    assert " " + "Foo" == " Foo";
    assert [Text("@class")] + [Text(" Foo")] + [Newline] == [Text("@class"), Text(" Foo"), Newline];
  }

  /** `private add(a: number, b = 5): number` */
  const Add := Bare(MethodDeclaration, Some("add")).(
                 modifiers := [PrivateKeyword],
                 typeText := Some("number"),
                 parameters := [Parameter(Simple("a"), false, Some("number"), None),
                                Parameter(Simple("b"), false, None, Some("5"))])

  /** A typed line for `a`. */
  lemma AddFirstLine(fmt: string -> string)
    ensures ParamLine(ParamDescriptor("a", false, Some("number"), None), DefaultConfig, fmt) ==
      [Text("@param "), Text(fmt("number") + " "), Text("a"), Text(" - "), Tabstop, Newline]
  {
    assert "" + "number" == "number";
  }

  /** For `b`, a line typed from its default value and showing it. */
  lemma AddSecondLine(fmt: string -> string)
    ensures ParamLine(ParamDescriptor("b", false, None, Some("5")), DefaultConfig, fmt) ==
      [Text("@param "), Text("{number} "), Text("b"), Text(" [5]"), Text(" - "), Tabstop, Newline]
  {
    assert LiteralType("5") == Some("{number}");
    assert "{number}" + " " == "{number} ";
    assert " [" + "5" + "]" == " [5]";
  }

  /** One line per parameter, in order. */
  lemma AddParameters(fmt: string -> string)
    ensures ParameterTags(Add.parameters, DefaultConfig, fmt) ==
      ParamLine(ParamDescriptor("a", false, Some("number"), None), DefaultConfig, fmt) +
      ParamLine(ParamDescriptor("b", false, None, Some("5")), DefaultConfig, fmt)
  {
    var pa, pb := Add.parameters[0], Add.parameters[1];
    assert Add.parameters == [pa] + [pb];
    ParameterTagsAppend([pa], [pb], DefaultConfig, fmt);
    SimpleParameterTags(pa, DefaultConfig, fmt);
    SimpleParameterTags(pb, DefaultConfig, fmt);
  }

  /** The declared return type goes on the `@returns` line. */
  lemma AddReturns(fmt: string -> string)
    ensures ReturnsPart(Add, DefaultConfig, fmt) ==
      Part([Text("@returns"), Text(" " + fmt("number")), Text(" "), Tabstop, Newline], false)
  {
    assert ReturnsType(Add, DefaultConfig, fmt) == [Text(" " + fmt("number"))];
  }

  /** The whole comment of `add`: a free description line and a blank
      line, `@private`, the two parameter lines, and the typed `@returns`. */
  lemma MethodWithDefault(fmt: string -> string)
    ensures DocumentNode(Add, DefaultConfig, fmt) ==
      Emission([Tabstop, Newline, Newline]
               + [Text("@private"), Newline]
               + [Text("@param "), Text(fmt("number") + " "), Text("a"), Text(" - "), Tabstop, Newline]
               + [Text("@param "), Text("{number} "), Text("b"), Text(" [5]"), Text(" - "), Tabstop, Newline]
               + [Text("@returns"), Text(" " + fmt("number")), Text(" "), Tabstop, Newline], Located(Here))
  {
    AddFirstLine(fmt);
    AddSecondLine(fmt);
    AddParameters(fmt);
    AddReturns(fmt);
    var la := [Text("@param "), Text(fmt("number") + " "), Text("a"), Text(" - "), Tabstop, Newline];
    var lb := [Text("@param "), Text("{number} "), Text("b"), Text(" [5]"), Text(" - "), Tabstop, Newline];
    assert ModifierTags([PrivateKeyword]) == Line("@private") by {
      assert [PrivateKeyword][..0] == [];
    }
    var dh := [Tabstop, Newline, Newline];
    assert [] + dh + [] == dh;
    AppendInTurn(dh + Line("@private"), la, lb);
  }

  /** `get size()` in a class with no `set size`: the getter is marked
      `@readonly`. */
  lemma GetterWithoutSetter(fmt: string -> string)
    ensures var n := Bare(GetAccessor, Some("size")).(
              parent := ParentInfo(ClassDeclaration, Some("Box"), Some([Member(GetAccessor, Some("size"))]), Position(0, 0)));
      DocumentNode(n, DefaultConfig, fmt) ==
        Emission([Tabstop, Newline, Newline, Text("@readonly"), Newline], Located(Here))
  {
    var members := [Member(GetAccessor, Some("size"))];
    assert FindSetter(members, "size") == Some(false) by {
      assert members[1..] == [];
    }
  }

  /** The arrow function of `const double = (x) => x * 2;`, which starts at
      line 2, character 0. */
  const Doubler := Bare(ArrowFunction, None).(
                     parent := ParentInfo(VariableDeclaration, Some("double"), None, Position(2, 6)),
                     variableAncestor := Some(Position(2, 0)),
                     parameters := [Parameter(Simple("x"), false, None, None)])

  /** An untyped parameter without a default is `{any}` under the
      default settings. */
  lemma DoublerLine(fmt: string -> string)
    ensures ParamLine(ParamDescriptor("x", false, None, None), DefaultConfig, fmt) ==
      [Text("@param "), Text("{any} "), Text("x"), Text(" - "), Tabstop, Newline]
  {
    assert "{any}" + " " == "{any} ";
  }

  /** A free description line and the line for `x`, placed at the start
      of the enclosing variable statement rather than at the arrow. */
  lemma DoublerEmission(fmt: string -> string)
    ensures FunctionExpressionEmission(Doubler, DefaultConfig, fmt) ==
      Emission([Tabstop, Newline, Newline] + ParamLine(ParamDescriptor("x", false, None, None), DefaultConfig, fmt),
               Located(Position(2, 0)))
  {
    SimpleParameterTags(Doubler.parameters[0], DefaultConfig, fmt);
  }

  /** An empty file: the caret is moved into the placeholder text, and the
      file comment (`@page` with the path stripped of its extension and
      cut to the last two parts) goes at line 1, character 0. */
  lemma EmptyFile(fmt: string -> string)
    ensures PrepareSource("", Position(0, 0)) == Prepared("\n///\n", Position(1, 3))
    ensures var n := Bare(SourceFile, None).(fileName := "a.ts");
      Respond(Some(n), DefaultConfig, fmt, true) ==
        Insert(Line("////") + Line("@page a") + [Tabstop, Newline, Newline] + Line("////"),
               Position(0, 0), Position(1, 0), false)
  {
    ScriptPage();
    var n := Bare(SourceFile, None).(fileName := "a.ts");
    assert "@page " + "a" == "@page a";
    var tokens := Line("////") + Line("@page a") + [Tabstop, Newline, Newline] + Line("////");
    assert SourceFileTokens(n, DefaultConfig) == tokens by {
      assert DescriptionHeader(DefaultConfig) == [Tabstop, Newline, Newline] && AuthorTag(DefaultConfig) == [];
    }
    DispatchProperties.InsertionRange(Some(n), DefaultConfig, fmt);
  }

  /** `a.ts` is documented as the page `a`. */
  lemma ScriptPage()
    ensures PagePath("a.ts") == "a"
  {
    var s := "a.ts";
    assert !ExtensionAt(s, 0) by {
      assert s[0..3][0] == 'a';
    }
    assert ExtensionAt(s, 1) by {
      assert s[1..4] == ".ts";
    }
    assert FirstExtension(s, 0) == Some(1);
    assert ExtensionRunEnd(s, 1) == 4 by {
      assert !ExtensionAt(s, 4);
    }
    assert StripExtensions(s) == "a" by {
      assert s[..1] == "a" && s[4..] == "";
    }
  }
}

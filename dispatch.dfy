/** Properties of the dispatch `_documentNode`, of the `@page` path of a
    source file, and of `documentThis`'s caret fix-up and insertion range. */
module DispatchProperties {
  import opened Syntax
  import opened Snippet
  import opened Strings
  import opened Emitters

  predicate DocumentedAtStart(k: Kind)
  {
    k in {ClassDeclaration, PropertyDeclaration, PropertySignature, GetAccessor, SetAccessor, EnumMember,
          FunctionDeclaration, MethodDeclaration, MethodSignature, Constructor}
  }

  predicate Dispatched(k: Kind)
  {
    DocumentedAtStart(k) ||
    k in {FunctionExpression, ArrowFunction, VariableDeclaration, VariableDeclarationList, VariableStatement, SourceFile}
  }

  /** Where the dispatch puts the comment: at the node's start for classes,
      properties, accessors, enum members, functions, methods and
      constructors (unless the emitter raised); at (1, 0) for a source file;
      nowhere, with nothing emitted, for a kind it does not handle or for a
      function expression with neither a qualifying parent nor a variable
      ancestor. */
  lemma DispatchLocation(n: Node, cfg: Config, fmt: string -> string)
    ensures DocumentedAtStart(n.kind) ==>
      DocumentNode(n, cfg, fmt).outcome in {Located(n.start), Threw}
    ensures n.kind in {ClassDeclaration, EnumMember} ==> DocumentNode(n, cfg, fmt).outcome == Located(n.start)
    ensures n.kind == SourceFile ==> DocumentNode(n, cfg, fmt).outcome == Located(Position(1, 0))
    ensures !Dispatched(n.kind) ==> DocumentNode(n, cfg, fmt) == Emission([], NotFound)
    ensures (n.kind == FunctionExpression || n.kind == ArrowFunction) ==>
      (DocumentNode(n, cfg, fmt).outcome.Located? ==>
        DocumentNode(n, cfg, fmt).outcome.pos ==
          (if DocumentsInPlace(n.parent.kind) then n.parent.start else n.variableAncestor.value))
    ensures (n.kind == FunctionExpression || n.kind == ArrowFunction) &&
            !DocumentsInPlace(n.parent.kind) && n.variableAncestor.None? ==>
      DocumentNode(n, cfg, fmt) == Emission([], NotFound)
  {
  }

  /** The variable declarations reached through `getChildren` never hold a
      variable statement or list as a direct child. */
  predicate NoListChildren(n: Node)
    decreases n
  {
    forall k :: 0 <= k < |n.children| ==>
      n.children[k].kind != VariableDeclarationList && n.children[k].kind != VariableStatement &&
      (n.children[k].kind == VariableDeclaration ==> NoListChildren(n.children[k]))
  }

  /** Failing to document emits nothing, except through a variable list,
      which writes its `@name` (and author) line before it learns that its
      arrow function has no variable ancestor. */
  lemma {:induction false} NotFoundEmitsNothing(n: Node, cfg: Config, fmt: string -> string)
    requires n.kind != VariableDeclarationList && n.kind != VariableStatement
    requires n.kind == VariableDeclaration ==> NoListChildren(n)
    requires DocumentNode(n, cfg, fmt).outcome == NotFound
    ensures DocumentNode(n, cfg, fmt).tokens == []
    decreases n, 1, 0
  {
    if n.kind == VariableDeclaration {
      ChildrenNotFoundEmitNothing(n, 0, cfg, fmt);
    } else {
      DispatchLocation(n, cfg, fmt);
    }
  }

  lemma {:induction false} ChildrenNotFoundEmitNothing(n: Node, i: nat, cfg: Config, fmt: string -> string)
    requires NoListChildren(n)
    requires DocumentChildren(n, i, cfg, fmt).outcome == NotFound
    ensures DocumentChildren(n, i, cfg, fmt).tokens == []
    decreases n, 0, |n.children| - i
  {
    if i < |n.children| {
      var c := n.children[i];
      NotFoundEmitsNothing(c, cfg, fmt);
      ChildrenNotFoundEmitNothing(n, i + 1, cfg, fmt);
    }
  }

  /** A variable list whose first arrow function has no variable ancestor
      (a declaration list outside a variable statement, as in a `for`
      initializer) fails after emitting the `@name` line of its FIRST
      declaration and the author tag. */
  lemma ListFailsAfterName(n: Node, cfg: Config, fmt: string -> string)
    requires n.kind == VariableStatement || n.kind == VariableDeclarationList
    requires FindArrowDeclaration(n.declarations, 0).Found?
    requires var a := n.declarations[FindArrowDeclaration(n.declarations, 0).index].initializer.value;
      !DocumentsInPlace(a.parent.kind) && a.variableAncestor.None?
    ensures DocumentNode(n, cfg, fmt) ==
      Emission(Line("@name " + n.declarations[0].name) + AuthorTag(cfg), NotFound)
  {
  }

  // ---------------------------------------------------------------------
  // The @page path

  /** The run stripped from the file name starts at the leftmost `.js` or
      `.ts`, is made of back-to-back extensions and is removed whole, up to
      the first position that does not start another; a name without `.js`
      or `.ts` is left alone. */
  lemma StripExtensionsShape(s: string)
    ensures (forall j :: 0 <= j < |s| ==> !ExtensionAt(s, j)) ==> StripExtensions(s) == s
    ensures (exists j :: 0 <= j < |s| && ExtensionAt(s, j)) ==>
      exists i, e :: 0 <= i < e <= |s| && StripExtensions(s) == s[..i] + s[e..] &&
        (forall j :: 0 <= j < i ==> !ExtensionAt(s, j)) && ExtensionAt(s, i) &&
        (forall k :: i <= k < e && (k - i) % 3 == 0 ==> ExtensionAt(s, k)) &&
        !ExtensionAt(s, e) && (e - i) % 3 == 0
  {
    var f := FirstExtension(s, 0);
    if f.Some? {
      var e := ExtensionRunEnd(s, f.value);
      assert ExtensionAt(s, f.value);
      assert f.value < e;
    }
  }

  /** The `@page` value keeps the last two `/`-separated parts of the
      stripped file name: it is a suffix that starts at the beginning or
      right after a `/`, and it holds exactly one `/` when the stripped name
      has any; a name without `/` is kept whole. */
  lemma PagePathShape(fileName: string)
    ensures var s := StripExtensions(fileName);
      exists j: nat :: j <= |s| && s[j..] == PagePath(fileName) && (j == 0 || s[j - 1] == '/')
    ensures CountChar(PagePath(fileName), '/') == if '/' in StripExtensions(fileName) then 1 else 0
    ensures '/' !in StripExtensions(fileName) ==> PagePath(fileName) == StripExtensions(fileName)
  {
    PagePathSuffix(fileName);
    PagePathSlashes(fileName);
  }

  lemma PagePathSuffix(fileName: string)
    ensures var s := StripExtensions(fileName);
      exists j: nat :: j <= |s| && s[j..] == PagePath(fileName) && (j == 0 || s[j - 1] == '/')
  {
    LastTwoPartsSuffix(StripExtensions(fileName));
  }

  /** The last two `/`-separated parts of `s`, joined back, form a suffix of
      `s` that starts at its beginning or right after a `/`. */
  lemma LastTwoPartsSuffix(s: string)
    ensures exists j: nat :: j <= |s| && s[j..] == Join(LastTwo(Split(s, '/')), "/") && (j == 0 || s[j - 1] == '/')
  {
    JoinSplit(s, '/');
    assert ['/'] == "/";
    var j := LastTwoJoinSuffix(Split(s, '/'), "/");
    if j > 0 {
      assert s[j - 1..j][0] == '/';
    }
  }

  lemma LastTwoJoinSuffix(parts: seq<string>, sep: string) returns (j: nat)
    requires |parts| > 0
    ensures j <= |Join(parts, sep)| && Join(parts, sep)[j..] == Join(LastTwo(parts), sep)
    ensures j == 0 || (j >= |sep| && Join(parts, sep)[j - |sep|..j] == sep)
  {
    if |parts| <= 2 {
      assert LastTwo(parts) == parts;
      j := 0;
    } else {
      JoinTailIsSuffix(parts, |parts| - 2, sep);
      j :| j <= |Join(parts, sep)| && Join(parts, sep)[j..] == Join(parts[|parts| - 2..], sep) &&
           j >= |sep| && Join(parts, sep)[j - |sep|..j] == sep;
    }
  }

  lemma PagePathSlashes(fileName: string)
    ensures CountChar(PagePath(fileName), '/') == if '/' in StripExtensions(fileName) then 1 else 0
    ensures '/' !in StripExtensions(fileName) ==> PagePath(fileName) == StripExtensions(fileName)
  {
    var s := StripExtensions(fileName);
    var parts := Split(s, '/');
    JoinSplit(s, '/');
    SplitPartsLackSeparator(s, '/');
    var last := LastTwo(parts);
    assert forall k :: 0 <= k < |last| ==> '/' !in last[k];
    if |parts| == 1 {
      CountCharAbsent(last[0], '/');
      assert s == parts[0];
    } else {
      assert Join(parts, "/") == parts[0] + "/" + Join(parts[1..], "/");
      assert s[|parts[0]|] == '/';
      assert |last| == 2 && last[1..] == [last[1]];
      assert Join(last, "/") == last[0] + "/" + Join(last[1..], "/");
      assert Join([last[1]], "/") == last[1];
      assert PagePath(fileName) == last[0] + "/" + last[1];
      CountCharAbsent(last[0], '/');
      CountCharAbsent(last[1], '/');
      CountCharAppend(last[0], "/", '/');
      CountCharAppend(last[0] + "/", last[1], '/');
      assert CountChar("/", '/') == 1;
    }
  }

  // ---------------------------------------------------------------------
  // documentThis

  /** An empty file has a single empty line, so the caret (1, 3) lies
      outside it; the placeholder text put in its place holds the caret at
      the end of its `///` line. In a non-empty file the caret is kept. */
  lemma PreparedCaretInText(text: string, selectionStart: Position)
    requires |text| > 0 ==> PositionInText(text, selectionStart)
    ensures PositionInText(PrepareSource(text, selectionStart).text, PrepareSource(text, selectionStart).caret)
    ensures |text| == 0 ==> !PositionInText(text, PrepareSource(text, selectionStart).caret)
    ensures |text| > 0 ==> PrepareSource(text, selectionStart) == Prepared(text, selectionStart)
  {
  }

  /** The insertion range: the located position itself, or in completion
      mode the range from one line above it (same character) to it; the
      snippet does not depend on the mode; a source file's comment goes at
      line 1, character 0, without a parent. */
  lemma InsertionRange(documentNode: Option<Node>, cfg: Config, fmt: string -> string)
    ensures var r := Respond(documentNode, cfg, fmt, false);
      r.Insert? ==> r.start == r.end
    ensures var r := Respond(documentNode, cfg, fmt, true);
      r.Insert? ==> r.start == Position(r.end.line - 1, r.end.character) &&
                    Respond(documentNode, cfg, fmt, false) == Insert(r.snippet, r.end, r.end, r.hasParent)
    ensures var r := Respond(documentNode, cfg, fmt, false);
      r.Insert? && r.end.line >= 1 ==> Respond(documentNode, cfg, fmt, true).Insert?
    ensures documentNode.Some? && documentNode.value.kind == SourceFile ==>
      forall fc :: Respond(documentNode, cfg, fmt, fc) ==
        Insert(SourceFileTokens(documentNode.value, cfg),
               Position(if fc then 0 else 1, 0), Position(1, 0), false)
    ensures documentNode.None? ==> Respond(documentNode, cfg, fmt, false) == ShowFailure
  {
  }
}

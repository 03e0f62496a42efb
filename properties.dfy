/** What the emitters promise, proved about the functions of `Emission`:
    one line per visibility modifier, per heritage type and per parameter
    name, the type priority of a parameter, when `@returns` and `@readonly`
    appear, and where the dispatch says the comment goes. */
module Properties {
  import opened Syntax
  import opened Snippet
  import opened Strings
  import opened Heuristics
  import opened Emitters

  // ---------------------------------------------------------------------
  // Modifiers

  predicate IsModifierToken(t: Token)
  {
    t == Newline || t == Text("@protected") || t == Text("@private") || t == Text("@public")
  }

  /** One line per visibility modifier, in order. */
  lemma {:induction false} ModifierTagsCount(mods: seq<Modifier>)
    ensures LineCount(ModifierTags(mods)) == |Visibilities(mods)|
    decreases |mods|
  {
    if |mods| > 0 {
      var init, last := mods[..|mods| - 1], mods[|mods| - 1];
      ModifierTagsCount(init);
      LineCountAppend(ModifierTags(init), ModifierTag(last));
      match last
      case ProtectedKeyword => LineCountLine("@protected");
      case PrivateKeyword => LineCountLine("@private");
      case PublicKeyword => LineCountLine("@public");
      case _ =>
    }
  }

  /** A tag appears exactly when its modifier does, and nothing but
      visibility tags and line breaks is emitted. */
  lemma {:induction false} ModifierTagsShape(mods: seq<Modifier>)
    ensures Text("@protected") in ModifierTags(mods) <==> ProtectedKeyword in mods
    ensures Text("@private") in ModifierTags(mods) <==> PrivateKeyword in mods
    ensures Text("@public") in ModifierTags(mods) <==> PublicKeyword in mods
    ensures forall t :: t in ModifierTags(mods) ==> IsModifierToken(t)
    decreases |mods|
  {
    if |mods| > 0 {
      var init, last := mods[..|mods| - 1], mods[|mods| - 1];
      assert mods == init + [last];
      assert ModifierTags(mods) == ModifierTags(init) + ModifierTag(last);
      ModifierTagsShape(init);
    }
  }

  // ---------------------------------------------------------------------
  // Heritage clauses

  /** The text of each heritage line of one clause, in order. */
  function TypeLineTexts(tag: string, types: seq<TypeReference>, fmt: string -> string): seq<string>
  {
    seq(|types|, k requires 0 <= k < |types| => tag + " " + fmt(TypeReferenceText(types[k])))
  }

  /** The text of each heritage line over all clauses, clause after clause. */
  function HeritageLineTexts(clauses: seq<HeritageClause>, fmt: string -> string): seq<string>
  {
    if |clauses| == 0 then []
    else
      var c := clauses[|clauses| - 1];
      HeritageLineTexts(clauses[..|clauses| - 1], fmt) + TypeLineTexts(HeritageTag(c.token), c.types, fmt)
  }

  lemma {:induction false} TypeTagsAreLines(tag: string, types: seq<TypeReference>, fmt: string -> string)
    ensures TypeTags(tag, types, fmt) == Lines(TypeLineTexts(tag, types, fmt))
    decreases |types|
  {
    if |types| > 0 {
      var init := types[..|types| - 1];
      TypeTagsAreLines(tag, init, fmt);
      var texts := TypeLineTexts(tag, types, fmt);
      assert texts[..|texts| - 1] == TypeLineTexts(tag, init, fmt);
    }
  }

  /** Every type of every clause gives one line, `@extends` for an extends
      clause and `@implements` for any other, followed by the formatted type
      text; clauses and types keep their order. */
  lemma {:induction false} ClauseTagsAreLines(clauses: seq<HeritageClause>, fmt: string -> string)
    ensures ClauseTags(clauses, fmt) == Lines(HeritageLineTexts(clauses, fmt))
    ensures |HeritageLineTexts(clauses, fmt)| == TypeCount(clauses)
    decreases |clauses|
  {
    if |clauses| > 0 {
      var init, c := clauses[..|clauses| - 1], clauses[|clauses| - 1];
      ClauseTagsAreLines(init, fmt);
      TypeTagsAreLines(HeritageTag(c.token), c.types, fmt);
      LinesAppend(HeritageLineTexts(init, fmt), TypeLineTexts(HeritageTag(c.token), c.types, fmt));
    }
  }

  /** Heritage lines: none when type inclusion is off, otherwise one per type. */
  lemma HeritageLineCount(clauses: seq<HeritageClause>, cfg: Config, fmt: string -> string)
    ensures LineCount(HeritageTags(clauses, cfg, fmt)) == if cfg.includeTypes then TypeCount(clauses) else 0
    ensures !cfg.includeTypes ==> HeritageTags(clauses, cfg, fmt) == []
  {
    if |clauses| > 0 && cfg.includeTypes {
      ClauseTagsAreLines(clauses, fmt);
      LineCountLines(HeritageLineTexts(clauses, fmt));
    }
  }

  // ---------------------------------------------------------------------
  // Parameters

  /** Number of `@param` lines the parameters should give: an object pattern
      counts its elements, anything else counts once. */
  function DescriptorCount(ps: seq<Parameter>): nat
  {
    if |ps| == 0 then 0
    else DescriptorCount(ps[..|ps| - 1]) + (match ps[|ps| - 1].name case ObjectPattern(es) => |es| case Simple(_) => 1)
  }

  /** The elements of an object pattern become descriptors in pattern order. */
  lemma {:induction false} ElementDescriptorsInOrder(es: seq<BindingElement>)
    ensures |ElementDescriptors(es)| == |es|
    ensures forall k :: 0 <= k < |es| ==> ElementDescriptors(es)[k] == ElementDescriptor(es[k])
    decreases |es|
  {
    if |es| > 0 {
      ElementDescriptorsInOrder(es[..|es| - 1]);
    }
  }

  lemma {:induction false} ExpandLength(ps: seq<Parameter>)
    ensures |Expand(ps)| == DescriptorCount(ps)
    decreases |ps|
  {
    if |ps| > 0 {
      ExpandLength(ps[..|ps| - 1]);
      match ps[|ps| - 1].name
      case ObjectPattern(es) => ElementDescriptorsInOrder(es);
      case Simple(_) =>
    }
  }

  lemma {:induction false} ExpandAppend(a: seq<Parameter>, b: seq<Parameter>)
    ensures Expand(a + b) == Expand(a) + Expand(b)
    decreases |b|
  {
    if |b| == 0 {
      assert a + b == a;
    } else {
      var init := b[..|b| - 1];
      assert (a + b)[..|a + b| - 1] == a + init;
      assert (a + b)[|a + b| - 1] == b[|b| - 1];
      ExpandAppend(a, init);
      AppendInTurn(Expand(a), Expand(init), Descriptors(b[|b| - 1]));
    }
  }

  lemma {:induction false} ParamLinesAppend(a: seq<ParamDescriptor>, b: seq<ParamDescriptor>, cfg: Config, fmt: string -> string)
    ensures ParamLines(a + b, cfg, fmt) == ParamLines(a, cfg, fmt) + ParamLines(b, cfg, fmt)
    decreases |b|
  {
    if |b| == 0 {
      assert a + b == a;
    } else {
      var init := b[..|b| - 1];
      assert (a + b)[..|a + b| - 1] == a + init;
      assert (a + b)[|a + b| - 1] == b[|b| - 1];
      ParamLinesAppend(a, init, cfg, fmt);
      AppendInTurn(ParamLines(a, cfg, fmt), ParamLines(init, cfg, fmt), ParamLine(b[|b| - 1], cfg, fmt));
    }
  }

  /** A parameter line: `@param `, the type and a space only when types are
      included, the name, ` [default]` when a default exists, then ` - `, a
      tab stop and the line break; it is exactly one line. */
  lemma ParamLineShape(d: ParamDescriptor, cfg: Config, fmt: string -> string)
    ensures LineCount(ParamLine(d, cfg, fmt)) == 1
    ensures ParamLine(d, cfg, fmt)[0] == Text("@param ")
    ensures var l := ParamLine(d, cfg, fmt);
      |l| >= 5 && l[|l| - 3..] == [Text(" - "), Tabstop, Newline]
    ensures Text(d.name) in ParamLine(d, cfg, fmt)
    ensures cfg.includeTypes ==> ParamLine(d, cfg, fmt)[1] == Text(ParamTypeName(d, cfg, fmt) + " ")
    ensures !cfg.includeTypes ==> ParamLine(d, cfg, fmt)[1] == Text(d.name)
  {
    var l := ParamLine(d, cfg, fmt);
    var body := l[..|l| - 1];
    assert l == body + [Newline];
    assert Newline !in body;
    LineCountNone(body);
    LineCountAppend(body, [Newline]);
  }

  /** One line per parameter, where an object pattern counts one line per
      element. */
  lemma {:induction false} ParamLinesCount(ds: seq<ParamDescriptor>, cfg: Config, fmt: string -> string)
    ensures LineCount(ParamLines(ds, cfg, fmt)) == |ds|
    decreases |ds|
  {
    if |ds| > 0 {
      ParamLinesCount(ds[..|ds| - 1], cfg, fmt);
      ParamLineShape(ds[|ds| - 1], cfg, fmt);
      LineCountAppend(ParamLines(ds[..|ds| - 1], cfg, fmt), ParamLine(ds[|ds| - 1], cfg, fmt));
    }
  }

  lemma ParameterTagsCount(ps: seq<Parameter>, cfg: Config, fmt: string -> string)
    ensures LineCount(ParameterTags(ps, cfg, fmt)) == DescriptorCount(ps)
  {
    ExpandLength(ps);
    ParamLinesCount(Expand(ps), cfg, fmt);
  }

  /** The parameters of a concatenated list are documented one list after
      the other. */
  lemma ParameterTagsAppend(ps: seq<Parameter>, qs: seq<Parameter>, cfg: Config, fmt: string -> string)
    ensures ParameterTags(ps + qs, cfg, fmt) == ParameterTags(ps, cfg, fmt) + ParameterTags(qs, cfg, fmt)
  {
    ExpandAppend(ps, qs);
    ParamLinesAppend(Expand(ps), Expand(qs), cfg, fmt);
  }

  /** A parameter that is a plain identifier gives exactly one line, for
      its own name, rest marker, type and default. */
  lemma SimpleParameterTags(p: Parameter, cfg: Config, fmt: string -> string)
    requires p.name.Simple?
    ensures ParameterTags([p], cfg, fmt) == ParamLine(ParamDescriptor(p.name.text, p.dotDotDot, p.typeText, p.initializer), cfg, fmt)
  {
    var d := ParamDescriptor(p.name.text, p.dotDotDot, p.typeText, p.initializer);
    assert [p][..0] == [];
    assert Expand([p]) == [d];
    assert [d][..0] == [];
    assert ParamLines([d], cfg, fmt) == [] + ParamLine(d, cfg, fmt);
  }

  /** An object pattern parameter gives exactly the lines of its elements,
      in pattern order, each element without a declared type. */
  lemma ObjectPatternLines(p: Parameter, cfg: Config, fmt: string -> string)
    requires p.name.ObjectPattern?
    ensures ParameterTags([p], cfg, fmt) == ParamLines(ElementDescriptors(p.name.elements), cfg, fmt)
    ensures |ElementDescriptors(p.name.elements)| == |p.name.elements|
    ensures forall k :: 0 <= k < |p.name.elements| ==>
      ElementDescriptors(p.name.elements)[k].name == p.name.elements[k].name &&
      ElementDescriptors(p.name.elements)[k].typeText.None?
  {
    ElementDescriptorsInOrder(p.name.elements);
    assert [p][..0] == [];
    assert Expand([p]) == Descriptors(p);
  }

  /** The type priority of `_emitParameter`: a default value without a
      declared type decides alone; otherwise a declared type wins; then the
      lettered prefix; then name inference; then `{any}`. */
  lemma ParamTypePriority(d: ParamDescriptor, cfg: Config, fmt: string -> string)
    requires cfg.includeTypes
    ensures d.initializer.Some? && d.typeText.None? ==>
      ParamTypeName(d, cfg, fmt) in {"{number}", "{string}", "{boolean}", "{any}"}
    ensures d.typeText.Some? ==>
      ParamTypeName(d, cfg, fmt) == fmt((if d.dotDotDot then "..." else "") + d.typeText.value)
    ensures d.initializer.None? && d.typeText.None? && cfg.hungarian && IsHungarianNotation(d.name) ==>
      ParamTypeName(d, cfg, fmt) == HungarianNotationType(d.name) && ParamTypeName(d, cfg, fmt) != "{any}"
    ensures d.initializer.None? && d.typeText.None? && !(cfg.hungarian && IsHungarianNotation(d.name)) ==>
      ParamTypeName(d, cfg, fmt) == (if cfg.inferTypes then InferParamTypeFromName(d.name) else "{any}")
  {
  }

  /** A default value without a declared type consults neither the name nor
      the heuristics: two such parameters with the same default get the
      same type under any settings that include types. */
  lemma DefaultValueIgnoresName(d1: ParamDescriptor, d2: ParamDescriptor, cfg1: Config, cfg2: Config,
                                fmt1: string -> string, fmt2: string -> string)
    requires cfg1.includeTypes && cfg2.includeTypes
    requires d1.initializer.Some? && d1.typeText.None?
    requires d2.initializer == d1.initializer && d2.typeText.None?
    ensures ParamTypeName(d1, cfg1, fmt1) == ParamTypeName(d2, cfg2, fmt2)
  {
  }

  /** The default-value heuristics in their order, as the parameter's type:
      a leading digit gives `{number}`, else a quote `{string}`, else an
      occurrence of `true` or `false` `{boolean}`, else `{any}`. */
  lemma LiteralTypeOrder(d: ParamDescriptor, cfg: Config, fmt: string -> string)
    requires cfg.includeTypes && d.initializer.Some? && d.typeText.None?
    ensures var init := d.initializer.value;
      ParamTypeName(d, cfg, fmt) ==
        if |init| > 0 && '0' <= init[0] <= '9' then "{number}"
        else if '"' in init || '\'' in init || '`' in init then "{string}"
        else if exists i: nat :: OccursAt(init, "true", i) || OccursAt(init, "false", i) then "{boolean}"
        else "{any}"
  {
    ContainsIff(d.initializer.value, "true");
    ContainsIff(d.initializer.value, "false");
  }

  // ---------------------------------------------------------------------
  // Returns

  /** `@returns` appears exactly when the body returns a value in its own
      scope or a non-void return type is declared; it is one line, typed by
      the declared type when there is one; with name inference on, a
      nameless function raises. */
  lemma ReturnsShape(n: Node, cfg: Config, fmt: string -> string)
    ensures ReturnsPart(n, cfg, fmt).tokens != [] <==> HasReturns(n)
    ensures HasReturns(n) ==> ReturnsPart(n, cfg, fmt).tokens[0] == Text("@returns")
    ensures ReturnsPart(n, cfg, fmt).threw <==>
      HasReturns(n) && cfg.includeTypes && cfg.inferTypes && n.typeText.None? && n.name.None?
    ensures HasReturns(n) && !ReturnsPart(n, cfg, fmt).threw ==> LineCount(ReturnsPart(n, cfg, fmt).tokens) == 1
    ensures HasReturns(n) && cfg.includeTypes && n.typeText.Some? ==>
      ReturnsPart(n, cfg, fmt).tokens[1] == Text(" " + fmt(n.typeText.value))
    ensures n.typeText.Some? && n.typeText.value != "void" ==> HasReturns(n)
  {
    var ts := ReturnsPart(n, cfg, fmt).tokens;
    if HasReturns(n) && !ReturnsPart(n, cfg, fmt).threw {
      assert ts == ts[..|ts| - 1] + [Newline];
      assert Newline !in ts[..|ts| - 1];
      LineCountNone(ts[..|ts| - 1]);
      LineCountAppend(ts[..|ts| - 1], [Newline]);
    }
  }

  // ---------------------------------------------------------------------
  // Getters and @readonly

  /** The setter search answers whether a setter of that name exists; it
      can only raise on a setter without an identifier. */
  lemma {:induction false} FindSetterIff(members: seq<Member>, name: string)
    ensures FindSetter(members, name) == Some(true) ==> exists k :: 0 <= k < |members| && IsSetterNamed(members[k], name)
    ensures FindSetter(members, name) == Some(false) ==> forall k :: 0 <= k < |members| ==> !IsSetterNamed(members[k], name)
    ensures (forall k :: 0 <= k < |members| && members[k].kind == SetAccessor ==> members[k].firstIdentifier.Some?)
            ==> FindSetter(members, name).Some?
    decreases |members|
  {
    if |members| > 0 {
      FindSetterIff(members[1..], name);
      if FindSetter(members, name) == Some(true) && !IsSetterNamed(members[0], name) {
        var k :| 0 <= k < |members[1..]| && IsSetterNamed(members[1..][k], name);
        assert IsSetterNamed(members[k + 1], name);
      }
      if FindSetter(members, name) == Some(false) {
        forall k | 1 <= k < |members| ensures !IsSetterNamed(members[k], name) {
          assert members[k] == members[1..][k - 1];
        }
      }
      if forall k :: 0 <= k < |members| && members[k].kind == SetAccessor ==> members[k].firstIdentifier.Some? {
        forall k | 0 <= k < |members[1..]| && members[1..][k].kind == SetAccessor
          ensures members[1..][k].firstIdentifier.Some?
        {
          assert members[1..][k] == members[k + 1];
        }
      }
    }
  }

  lemma TypeLineIsNotReadonly(x: string)
    ensures Text("@type " + x) != Text("@readonly")
  {
    assert ("@type " + x)[1] == 't';
  }

  lemma PropertyTypeTokens(n: Node, cfg: Config, fmt: string -> string)
    ensures Text("@readonly") !in PropertyTypePart(n, cfg, fmt).tokens
  {
    if n.typeText.Some? { TypeLineIsNotReadonly(fmt(n.typeText.value)); }
    if n.name.Some? { TypeLineIsNotReadonly(HungarianNotationType(n.name.value)); }
  }

  /** The `@type` rule of a property: a declared type without `=>` is
      written formatted; otherwise, with Hungarian notation on, the type its
      name's prefix gives, raising when there is no name; nothing when types
      are not included. */
  lemma PropertyTypeRule(n: Node, cfg: Config, fmt: string -> string)
    ensures !cfg.includeTypes ==> PropertyTypePart(n, cfg, fmt) == Part([], false)
    ensures cfg.includeTypes && n.typeText.Some? && !(exists j: nat :: OccursAt(n.typeText.value, "=>", j)) ==>
      PropertyTypePart(n, cfg, fmt) == Part(Line("@type " + fmt(n.typeText.value)), false)
    ensures cfg.includeTypes && (n.typeText.None? || exists j: nat :: OccursAt(n.typeText.value, "=>", j)) ==>
      PropertyTypePart(n, cfg, fmt) ==
        if !cfg.hungarian then Part([], false)
        else if n.name.None? then Part([], true)
        else if IsHungarianNotation(n.name.value) then Part(Line("@type " + HungarianNotationType(n.name.value)), false)
        else Part([], false)
  {
    if n.typeText.Some? { ContainsIff(n.typeText.value, "=>"); }
  }

  /** A getter whose class has no setter of the same name is marked
      `@readonly`, and one that has such a setter is not; no other kind of
      property is ever marked. */
  lemma ReadonlyIffNoSetter(n: Node, cfg: Config, fmt: string -> string)
    requires n.kind == GetAccessor && n.firstIdentifier.Some? && n.parent.members.Some?
    requires forall k :: 0 <= k < |n.parent.members.value| && n.parent.members.value[k].kind == SetAccessor
               ==> n.parent.members.value[k].firstIdentifier.Some?
    ensures !ReadonlyPart(n).threw
    ensures Text("@readonly") in PropertyTokens(n, cfg, fmt).tokens <==>
      !exists k :: 0 <= k < |n.parent.members.value| && IsSetterNamed(n.parent.members.value[k], n.firstIdentifier.value)
  {
    var members, name := n.parent.members.value, n.firstIdentifier.value;
    FindSetterIff(members, name);
    var hasSetter := FindSetter(members, name).value;
    var ro := ReadonlyPart(n);
    assert ro == Part(if hasSetter then [] else Line("@readonly"), false);
    assert PropertyTokens(n, cfg, fmt).tokens ==
      DescriptionHeader(cfg) + ro.tokens + ModifierTags(n.modifiers) + PropertyTypePart(n, cfg, fmt).tokens;
    assert Text("@readonly") !in DescriptionHeader(cfg);
    ModifierTagsShape(n.modifiers);
    PropertyTypeTokens(n, cfg, fmt);
  }

  lemma NonGetterIsNotReadonly(n: Node, cfg: Config, fmt: string -> string)
    requires n.kind != GetAccessor
    ensures Text("@readonly") !in PropertyTokens(n, cfg, fmt).tokens
  {
    ModifierTagsShape(n.modifiers);
    PropertyTypeTokens(n, cfg, fmt);
  }
}

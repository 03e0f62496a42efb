# docthis documenter core, in Dafny

This project models the `Documenter` of `src/documenter.ts`. Given the syntax node under the caret, the documenter writes a JSDoc comment as a snippet and says where in the editor to insert it. It:

- dispatches on the node's kind;
- emits the description header, author, modifier, `@class`, `@extends`/`@implements`, `@readonly`, `@type`, `@param`, `@returns`, `@name` and `@page` lines;
- guesses types from parameter names, default values and Hungarian notation;
- moves the caret into a placeholder text for an empty file;
- shifts the insertion up one line when the command runs for a completion.

Modules:

- `Strings` (`strings.dfy`): substring search (`indexOf(..) !== -1`), `split` and `join`, proved about each other.
- `Heuristics` (`heuristics.dfy`): the name heuristics (`_isNameBooleanLike` and the others) and their properties.
- `Syntax` (`syntax.dfy`): the settings (`Config`), and a syntax node with the facts the documenter reads from it.
- `Snippet` (`snippet.dfy`): the snippet under construction, as tokens (text, tab stop, placeholder, line break), and a `SnippetBuilder` class that appends them.
- `Emitters` (`emission.dfy`): for every emitter, a function giving exactly the tokens it appends, whether it raises, and the location `_documentNode` returns.
- `Documenter` (`documenter.dfy`): the emitters as methods that append to a `SnippetBuilder` step by step, as the source does. Each method is proved to append exactly what its `Emitters` function says.
- `Properties` and `DispatchProperties` (`properties.dfy`, `dispatch.dfy`): what the emitted comment contains, stated for all inputs.
- `Scenarios` (`scenarios.dfy`): complete comments for a few concrete declarations under the default settings.

A TypeError the source would raise (`getText()` on `undefined`, `members.find` on an object literal) is modelled as the outcome `Threw` or `threw == true`. It sits at the point where the source raises, with the text appended so far kept. The source raises in eight places:

- a getter whose parent has no `members` list, such as a getter in an object literal (src/documenter.ts:287-289; `Documenter.EmitReadonly`, `Properties.ReadonlyIffNoSetter`);
- a getter with no identifier, whose missing name is read with `getText()` (src/documenter.ts:286; `Emitters.ReadonlyPart`, `Documenter.EmitReadonly`);
- a setter with no identifier that `members.find` reaches before a setter of the getter's name, since the callback reads its name with `getText()` (src/documenter.ts:289-290; `Emitters.FindSetter`, `Properties.FindSetterIff`, `Documenter.FindSetterMember`);
- a property with no name when types are included, Hungarian notation is evaluated and no usable declared type is present (src/documenter.ts:303; `Emitters.PropertyTypePart`, `Documenter.EmitPropertyType`);
- a constructor of an anonymous class, whose name is read for the placeholder (src/documenter.ts:487-489; `Documenter.EmitConstructorDeclaration`);
- a nameless function (an arrow function, an anonymous function expression) for which `@returns` is written, with types included and inferred from names, and no declared return type (src/documenter.ts:369-375; `Properties.ReturnsShape`);
- a variable list in which a declaration without an initializer comes before the first arrow function, as in `let a, f = () => 0`, or a list with no arrow function at all that holds such a declaration, as in `let a;` (src/documenter.ts:573; `Emitters.FindArrowDeclaration`);
- a negative start line in completion mode, which `vs.Position` rejects, when the located node is on line 0 (src/documenter.ts:133; `Emitters.Respond`, `Documenter.InsertDocumentation`).

## Model

| member | source | states |
|---|---|---|
| Documenter.EmitDescriptionHeader | src/documenter.ts:206-219 | appends `@desc` and a tab stop, or a tab stop, a line break and a blank line, as `includeDescriptionTag` says |
| Documenter.EmitAuthor | src/documenter.ts:221-228 | appends `@author <name>` and a tab stop only when `includeAuthorTag` is set |
| Documenter.EmitName | src/documenter.ts:554-564 | appends `@name <name>`, or `@name undefined` when there is no name |
| Documenter.EmitModifiers | src/documenter.ts:531-552 | appends one line per protected/private/public modifier, in order, and nothing for other modifiers |
| Documenter.EmitHeritageClauses | src/documenter.ts:509-529 | appends every type of every heritage clause, in order, only when types are included |
| Documenter.EmitClauseTypes | src/documenter.ts:514-527 | appends one `@extends`/`@implements` line per type, with the type arguments joined by `, ` in angle brackets |
| Documenter.EmitClassDeclaration | src/documenter.ts:264-280 | appends header, author, modifiers, `@class` with the name when there is one, then the heritage lines |
| Documenter.FindSetterMember | src/documenter.ts:289-290 | returns the `members.find` result; it fails (raises) at a setter with no identifier before any match |
| Documenter.EmitPropertyDeclaration | src/documenter.ts:282-309 | appends header, `@readonly` for a getter without a setter, modifiers, then `@type`; raises where the source does |
| Documenter.EmitReadonly | src/documenter.ts:285-295 | appends `@readonly` exactly for a getter whose class has no setter of the same name; raises for a getter with no identifier or outside a class |
| Documenter.EmitPropertyType | src/documenter.ts:300-306 | appends `@type` for a declared type without `=>`, else the Hungarian type; raises on a nameless node under Hungarian evaluation |
| Documenter.SettleTypeName | src/documenter.ts:419-447 | settles the type name with the source's priority: default value literal, declared type (with `...` for rest), Hungarian notation, inference from the name, `{any}` |
| Documenter.EmitParameter | src/documenter.ts:416-466 | appends `@param`, the type when included, the name, the default in brackets when it is not empty, ` - ` and a tab stop |
| Documenter.EmitParameters | src/documenter.ts:398-414 | appends one `@param` line per parameter, and per element of an object binding pattern, in order |
| Documenter.EmitParameterOrPattern | src/documenter.ts:405-413 | documents a binding pattern element by element, and any other parameter as itself |
| Documenter.EmitBindingElements | src/documenter.ts:406-409 | appends one line per binding element, in order |
| Documenter.EmitReturns | src/documenter.ts:368-384 | appends `@returns` with the declared or inferred type only when the node returns a value or declares a non-void type; raises when inference needs a missing name |
| Documenter.EmitMethodDeclaration | src/documenter.ts:331-341 | appends `@name` (functions only), header, author, modifiers, parameters, returns |
| Documenter.EmitConstructorDeclaration | src/documenter.ts:486-495 | appends the `Creates an instance of <class>.` placeholder, author and parameters; raises for an anonymous class |
| Documenter.EmitFunctionExpression | src/documenter.ts:241-262 | documents in place under a property assignment, binary expression or property declaration, else at the variable ancestor, else fails with nothing appended |
| Documenter.FindArrow | src/documenter.ts:573 | returns the first declaration whose initializer is an arrow function; it raises at a declaration without an initializer before one |
| Documenter.EmitArrowFunction | src/documenter.ts:568-583 | for the first arrow-function declaration, appends `@name` of the first declaration, author, then the function expression's comment |
| Documenter.EmitSourceFile | src/documenter.ts:585-597 | appends `////`, `@page` with the stripped and shortened path, header, author, `////`, and returns (1, 0) |
| Documenter.DocumentNode | src/documenter.ts:162-204 | dispatches on the kind and appends and returns what `Emitters.DocumentNode` says for it |
| Documenter.EmitVariableDeclaration | src/documenter.ts:230-239 | documents the children in order until one is located or raises |
| Documenter.DocumentThis | src/documenter.ts:33-72 | shows a failure when there is no node or nothing is located, else inserts the built snippet at the located range |
| Documenter.InsertDocumentation | src/documenter.ts:132-139 | the range ends at the location and starts one line higher for a completion; a negative line raises |
| Emitters.FindArrowDeclaration | src/documenter.ts:573 | the result index is the first arrow-function initializer, or the first missing initializer, with no arrow function before it |
| Emitters.FirstExtension | src/documenter.ts:588 | finds the leftmost `.js`/`.ts`, and none occurs before it |
| Emitters.ExtensionRunEnd | src/documenter.ts:588 | the end of a maximal run of `.js`/`.ts` extensions, each three characters long |
| Emitters.LiteralType | src/documenter.ts:425-436 | the guessed type is `{number}`, `{string}` or `{boolean}`, and `{boolean}` exactly when no digit leads, no quote occurs and `true` or `false` occurs |
| Emitters.StripExtensions | src/documenter.ts:588 | a name is unchanged exactly when it holds no `.js` or `.ts`; the removed part is a multiple of three characters long (which part is stated by `DispatchProperties.StripExtensionsShape`) |
| Emitters.PagePath | src/documenter.ts:589-591 | a stripped name without `/` is the `@page` value as it is |
| Emitters.PrepareSource | src/documenter.ts:42-45 | an empty file gets the placeholder text with the caret at (1, 3), which lies inside that text; any other file is kept with its caret |
| Properties.ModifierTagsCount | src/documenter.ts:531-552 | there are as many modifier lines as visibility modifiers |
| Properties.ModifierTagsShape | src/documenter.ts:542-547 | `@protected`, `@private`, `@public` each appear iff the modifier is present, and nothing else is emitted |
| Properties.TypeTagsAreLines | src/documenter.ts:517-527 | the lines of one clause are exactly `<tag> <formatted type>`, one per type |
| Properties.ClauseTagsAreLines | src/documenter.ts:514-528 | the heritage lines are the type lines of every clause in order, as many as there are types |
| Properties.HeritageLineCount | src/documenter.ts:509-529 | one line per heritage type when types are included, and none otherwise |
| Properties.ElementDescriptorsInOrder | src/documenter.ts:406-409 | a binding pattern yields one descriptor per element, in order |
| Properties.ExpandLength | src/documenter.ts:405-413 | the number of documented parameters counts the elements of binding patterns |
| Properties.ExpandAppend | src/documenter.ts:405-413 | expanding parameters distributes over concatenation |
| Properties.ParamLinesAppend | src/documenter.ts:405-413 | parameter lines distribute over concatenation |
| Properties.ParamLineShape | src/documenter.ts:449-466 | a `@param` line is one line that starts with `@param`, holds the name, the type when included, and ends with ` - `, a tab stop and a line break |
| Properties.ParamLinesCount | src/documenter.ts:405-413 | one line per descriptor |
| Properties.ParameterTagsCount | src/documenter.ts:398-414 | one `@param` line per parameter and per binding element |
| Properties.ParameterTagsAppend | src/documenter.ts:405-413 | the lines of two parameter lists are the lines of each, in order |
| Properties.SimpleParameterTags | src/documenter.ts:410-412 | a plain parameter yields exactly its own line |
| Properties.ObjectPatternLines | src/documenter.ts:406-409 | a binding pattern yields one line per element, named after it, with no declared type |
| Properties.ParamTypePriority | src/documenter.ts:423-447 | a default value gives a literal type or `{any}`; a declared type wins otherwise; then Hungarian notation; then inference or `{any}` |
| Properties.DefaultValueIgnoresName | src/documenter.ts:424-437 | with a default value and no declared type, the type depends on the default value alone |
| Properties.LiteralTypeOrder | src/documenter.ts:424-437 | with types included, a default value and no declared type, the parameter type is `{number}` for a leading digit, else `{string}` for a quote, else `{boolean}` exactly when `true` or `false` occurs, else `{any}` |
| Properties.ReturnsShape | src/documenter.ts:368-384 | a `@returns` line appears iff the node returns a value or declares a non-void type; it raises exactly when inference needs a missing name |
| Properties.FindSetterIff | src/documenter.ts:289-290 | `true` only with a setter of that name, `false` only with none, and the search never raises when every setter has an identifier |
| Properties.PropertyTypeTokens | src/documenter.ts:300-306 | the type step never writes `@readonly` |
| Properties.PropertyTypeRule | src/documenter.ts:298-305 | with types included, a declared type without `=>` gives `@type` with the formatted type; otherwise, with Hungarian notation on, the name's Hungarian type when the name qualifies, a raise when there is no name; nothing when types are off |
| Properties.ReadonlyIffNoSetter | src/documenter.ts:285-295 | for a getter with an identifier in a class whose setters all have identifiers, `@readonly` appears iff no setter of the same name exists, and the test does not raise |
| Properties.NonGetterIsNotReadonly | src/documenter.ts:282-309 | a property, signature or setter is never marked `@readonly` |
| DispatchProperties.DispatchLocation | src/documenter.ts:162-204 | members are documented at their start (or raise); a source file at (1, 0); function expressions in place or at their variable; other kinds fail with nothing emitted |
| DispatchProperties.NotFoundEmitsNothing | src/documenter.ts:162-204 | outside variable lists, failing to document appends nothing |
| DispatchProperties.ChildrenNotFoundEmitNothing | src/documenter.ts:230-239 | when no child of a variable declaration is documented, nothing is appended |
| DispatchProperties.ListFailsAfterName | src/documenter.ts:568-583 | a variable list whose first arrow function has no variable ancestor (a list outside a variable statement) fails, but leaves `@name` of the first declaration and the author behind |
| DispatchProperties.StripExtensionsShape | src/documenter.ts:588 | the removed slice starts at the leftmost `.js`/`.ts`, consists of back-to-back extensions and ends where no further one starts, as the greedy first match of the regex does; a name without one is unchanged |
| DispatchProperties.PagePathShape | src/documenter.ts:588-591 | the `@page` value is the last two `/`-separated parts of the stripped name: a suffix starting at the beginning or right after a `/`, with exactly one `/` when the name has any, and the whole name when it has none |
| Emitters.SplitPlaceholder | src/documenter.ts:43 | the placeholder text of an empty file has exactly three lines, the middle one `///` |
| DispatchProperties.PreparedCaretInText | src/documenter.ts:42-47 | the caret of an empty file is moved into the placeholder text, and a non-empty file is left as is |
| DispatchProperties.InsertionRange | src/documenter.ts:59-71 | the range is empty, or one line taller for a completion; a source file comment goes at (1, 0); no node shows a failure |
| Heuristics.ScanMarkerIff | src/documenter.ts:351-353 | the scan finds a marker iff `is`, `has` or `can` followed by an upper-case letter or `_` occurs at or after the index |
| Heuristics.IsNameBooleanLike | src/documenter.ts:351-353 | a name is boolean-like iff `is`, `has` or `can` followed by an upper-case letter or `_` occurs anywhere in it |
| Heuristics.IsNameFunctionLike | src/documenter.ts:355-358 | a function-like name is one of the short, all lower-case callback names |
| Heuristics.IsHungarianNotation | src/documenter.ts:468-470 | every name with a prefix letter and an upper-case second letter has a type of its own in the table |
| Heuristics.BooleanLikeUnanchored | src/documenter.ts:351-353 | the pattern is not anchored: text around a boolean-like name keeps it boolean-like |
| Heuristics.NoMarkerInLowerCase | src/documenter.ts:351-353 | an all lower-case name is never boolean-like |
| Heuristics.FunctionLikeIsNotBooleanLike | src/documenter.ts:355-358 | the callback names are never boolean-like |
| Heuristics.InferParamTypeFromName | src/documenter.ts:386-396 | `{function}` iff the name is function-like, `{boolean}` iff boolean-like, else `{any}`; never both |
| Heuristics.InferReturnTypeFromName | src/documenter.ts:360-366 | `{boolean}` iff the marker occurs in the name, else the empty string |
| Heuristics.HungarianNotationType | src/documenter.ts:472-484 | a type other than `{any}` exactly for a name starting with one of `abefimos`, and always one of the table's types |
| Heuristics.ThisArgIsBooleanLike | src/documenter.ts:352 | `thisArg` is boolean-like, because the pattern is unanchored |
| Strings.ContainsIff | src/documenter.ts:301 | `Contains` holds iff the text occurs at some index |
| Strings.SplitPartsLackSeparator | src/documenter.ts:589 | no part of a split holds the separator |
| Strings.SplitWithoutSeparator | src/documenter.ts:589 | a string without the separator splits into itself |
| Strings.JoinSplit | src/documenter.ts:589-591 | joining the parts of a split gives back the string |
| Strings.JoinAppend | src/documenter.ts:591 | joining two non-empty lists puts one separator between them |
| Strings.JoinTailIsSuffix | src/documenter.ts:591 | joining the tail of a list gives a suffix of the whole join, starting right after a separator unless the tail is the whole list |
| Scenarios.ClassExtends | src/documenter.ts:264-280 | `export class Foo extends Bar<T>` gets a description line, `@class Foo` and `@extends Bar<T>` |
| Scenarios.AddFirstLine | src/documenter.ts:438-439 | a parameter with a declared type gets the formatted type |
| Scenarios.AddSecondLine | src/documenter.ts:424-427 | `b = 5` gets `{number}` and `[5]` |
| Scenarios.AddParameters | src/documenter.ts:398-414 | the two parameters of `add` get their lines in order |
| Scenarios.AddReturns | src/documenter.ts:368-384 | `add(..): number` gets `@returns` with the formatted type |
| Scenarios.MethodWithDefault | src/documenter.ts:331-341 | the whole comment of `private add(a: number, b = 5): number` |
| Scenarios.GetterWithoutSetter | src/documenter.ts:285-295 | a getter without a setter gets `@readonly` |
| Scenarios.DoublerLine | src/documenter.ts:421-446 | an untyped parameter without a default gets `{any}` |
| Scenarios.DoublerEmission | src/documenter.ts:241-262 | an arrow function in a variable is documented at the start of the variable statement |
| Scenarios.EmptyFile | src/documenter.ts:42-45 | an empty file is given the placeholder text with the caret at (1, 3), and its comment replaces lines 0 to 1 |
| Scenarios.ScriptPage | src/documenter.ts:588-591 | `a.ts` is documented as the page `a` |

## Left out

- The editor and the TypeScript language service are not part of this model: `_getSourceFile`, the language service host, and `utils.findChildForPosition`, `findFirstParent` and `nodeIsOfKind` used to find the node. The node under the caret, or none, is a parameter of `DocumentThis`.
- The functions of the utilities module are not part of this model:
  - `formatTypeName` is the uninterpreted parameter `fmt`.
  - `findNonVoidReturnInCurrentScope`, `findFirstChildOfKindDepthFirst` and `findFirstParent` are precomputed fields of the node.
  - `SnippetStringBuilder` is modelled only by what it appends. Tab-stop numbering and `toCommentValue` are not modelled.
- Reading `vs.workspace.getConfiguration()` is replaced by a `Config` value with the same defaults (src/documenter.ts:8-18, 207, 222-223).
- `editor.insertSnippet` and `_showFailureMessage` are reduced to the response values `Insert` and `ShowFailure`. The message text is not modelled.
- `traceNode`, `_printNodeInfo` and `dispose` write diagnostics and release resources; they take no part in documenting.
- The commented-out emitters are not modelled: interface, enum, type parameters and member-of.
- The boolean-like name check follows the code's unanchored `(?:is|has|can)[A-Z_]`, which also matches inside a name (`thisArg`), rather than a pattern anchored at the start.

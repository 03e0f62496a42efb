/** Name-based type guesses of the documenter (src/documenter.ts:351-396, 468-484):
    boolean-like and callback-like names, and the lettered-prefix ("Hungarian")
    convention. All of them are pure functions of the identifier text. */
module Heuristics {
  import opened Strings

  predicate IsUpper(c: char) { 'A' <= c <= 'Z' }

  /** The regular expression `(?:is|has|can)[A-Z_]` matches at index `i`
      with the prefix `p`. */
  predicate MarkerWith(name: string, p: string, i: nat)
  {
    OccursAt(name, p, i) && i + |p| < |name| &&
    (IsUpper(name[i + |p|]) || name[i + |p|] == '_')
  }

  predicate MarkerAt(name: string, i: nat)
  {
    MarkerWith(name, "is", i) || MarkerWith(name, "has", i) || MarkerWith(name, "can", i)
  }

  /** `RegExp.test` scanning for a match from index `i` onwards. */
  function ScanMarker(name: string, i: nat): bool
    decreases |name| - i
  {
    if i >= |name| then false
    else MarkerAt(name, i) || ScanMarker(name, i + 1)
  }

  /** `_isNameBooleanLike`: the test is not anchored, so it holds exactly
      when the marker occurs at some index of the name. */
  function IsNameBooleanLike(name: string): (r: bool)
    ensures r <==> exists k: nat :: MarkerAt(name, k)
  {
    ScanMarkerIff(name, 0);
    ScanMarker(name, 0)
  }

  /** `_isNameFunctionLike`: the name is one of a fixed list of short,
      all lower-case callback names. */
  function IsNameFunctionLike(name: string): (r: bool)
    ensures r ==> 2 <= |name| <= 8 && forall j :: 0 <= j < |name| ==> 'a' <= name[j] <= 'z'
  {
    name in ["cb", "callback", "done", "next", "fn"]
  }

  /** `_inferReturnTypeFromName`: `{boolean}` exactly when the marker occurs
      in the name, and otherwise nothing at all. */
  function InferReturnTypeFromName(name: string): (r: string)
    ensures r in {"{boolean}", ""}
    ensures r == "{boolean}" <==> exists k: nat :: MarkerAt(name, k)
  {
    if IsNameBooleanLike(name) then "{boolean}" else ""
  }

  /** `_inferParamTypeFromName`: `{function}` exactly for the callback
      names, `{boolean}` exactly for the boolean-like names, `{any}`
      otherwise; no name is both. */
  function InferParamTypeFromName(name: string): (r: string)
    ensures r == "{function}" <==> IsNameFunctionLike(name)
    ensures r == "{boolean}" <==> IsNameBooleanLike(name)
    ensures r == "{any}" <==> !IsNameFunctionLike(name) && !IsNameBooleanLike(name)
  {
    if IsNameFunctionLike(name) then
      FunctionLikeIsNotBooleanLike(name);
      "{function}"
    else if IsNameBooleanLike(name) then "{boolean}"
    else "{any}"
  }

  /** `_isHungarianNotation`: `^[abefimos][A-Z]`; every name it accepts has
      a type of its own in the table. */
  function IsHungarianNotation(name: string): (r: bool)
    ensures r ==> HungarianNotationType(name) != "{any}"
  {
    |name| >= 2 && name[0] in "abefimos" && IsUpper(name[1])
  }

  /** `_getHungarianNotationType`: a table on the first letter; `charAt(0)`
      of the empty name is the empty string, which falls to the default. A
      name gets a type other than `{any}` exactly when it starts with one of
      the eight prefix letters. */
  function HungarianNotationType(name: string): (r: string)
    ensures r != "{any}" <==> |name| >= 1 && name[0] in "abefimos"
    ensures r in {"{Array}", "{boolean}", "{Object}", "{function}", "{number}", "{string}", "{any}"}
  {
    if |name| == 0 then "{any}"
    else match name[0]
      case 'a' => "{Array}"
      case 'b' => "{boolean}"
      case 'e' => "{Object}"
      case 'f' => "{function}"
      case 'i' => "{number}"
      case 'm' => "{Object}"
      case 'o' => "{Object}"
      case 's' => "{string}"
      case _ => "{any}"
  }

  lemma {:induction false} ScanMarkerIff(name: string, i: nat)
    ensures ScanMarker(name, i) <==> exists k: nat :: i <= k && MarkerAt(name, k)
    decreases |name| - i
  {
    if i >= |name| {
      forall k: nat | i <= k ensures !MarkerAt(name, k) { }
    } else {
      ScanMarkerIff(name, i + 1);
      if !ScanMarker(name, i) {
        forall k: nat | i <= k ensures !MarkerAt(name, k) {
          if k > i { assert i + 1 <= k; }
        }
      }
    }
  }

  lemma MarkerShift(pre: string, name: string, post: string, k: nat)
    requires MarkerAt(name, k)
    ensures MarkerAt(pre + name + post, |pre| + k)
  {
    var w := pre + name + post;
    forall p | p in ["is", "has", "can"] && MarkerWith(name, p, k)
      ensures MarkerWith(w, p, |pre| + k)
    {
      assert w[|pre| + k..|pre| + k + |p|] == name[k..k + |p|];
      assert w[|pre| + k + |p|] == name[k + |p|];
    }
    assert MarkerWith(name, "is", k) || MarkerWith(name, "has", k) || MarkerWith(name, "can", k);
  }

  /** Unanchored: putting text before or after a boolean-like name keeps it
      boolean-like. */
  lemma BooleanLikeUnanchored(pre: string, name: string, post: string)
    requires IsNameBooleanLike(name)
    ensures IsNameBooleanLike(pre + name + post)
  {
    var k: nat :| MarkerAt(name, k);
    MarkerShift(pre, name, post, k);
  }

  /** A marker needs an upper-case letter or an underscore after it. */
  lemma NoMarkerInLowerCase(name: string)
    requires forall j :: 0 <= j < |name| ==> 'a' <= name[j] <= 'z'
    ensures !IsNameBooleanLike(name)
  {
    forall k: nat ensures !MarkerAt(name, k) {
      if k + 2 < |name| { assert !IsUpper(name[k + 2]) && name[k + 2] != '_'; }
      if k + 3 < |name| { assert !IsUpper(name[k + 3]) && name[k + 3] != '_'; }
    }
  }

  /** No callback-like name is boolean-like. */
  lemma FunctionLikeIsNotBooleanLike(name: string)
    requires IsNameFunctionLike(name)
    ensures !IsNameBooleanLike(name)
  {
    NoMarkerInLowerCase(name);
  }

  /** `thisArg` is taken for a boolean: the marker `isA` sits inside it. */
  lemma ThisArgIsBooleanLike()
    ensures IsNameBooleanLike("thisArg")
  {
    assert MarkerWith("thisArg", "is", 2);
  }
}

/**
 * The feature extractor: maps one input element, addressed inside its
 * document, to a feature record, and enumerates the classifiable input fields
 * of a document in document order.
 */
module Extractor {
  import opened Options
  import opened Text
  import opened Schema
  import opened Patterns
  import opened Dom

  /** Declared input types that have a slot of their own, with that slot's name. */
  const TypeMapping: map<string, string> := map[
    "text" := "type_text",
    "email" := "type_email",
    "password" := "type_password",
    "tel" := "type_tel",
    "number" := "type_number",
    "search" := "type_search",
    "url" := "type_url"
  ]

  /** The name of the type slot an (already lower-cased) input type selects. */
  function TypeSlotName(inputType: string): string
  {
    if inputType in TypeMapping then TypeMapping[inputType] else "type_other"
  }

  /**
   * Raises the type flag an input type selects: the slot named by the type
   * table, or `type_other` for a type the table does not list.
   */
  function SetInputType(f: FieldFeatures, inputType: string): (r: FieldFeatures)
    ensures OnlyChanges(f, r, {TypeGroup})
    ensures exists j :: RaisedAt(TypeFlags(f), TypeFlags(r), j) && FeatureNames()[j] == TypeSlotName(inputType)
  {
    if inputType in TypeMapping then
      MappedTypeRaisesItsSlot(f, inputType);
      SetByName(f, TypeMapping[inputType], 1.0)
    else
      var r := f.(typeOther := 1.0);
      assert RaisedAt(TypeFlags(f), TypeFlags(r), 7) && FeatureNames()[7] == "type_other";
      r
  }

  /** Setting the slot a listed type maps to raises exactly that type flag. */
  lemma MappedTypeRaisesItsSlot(f: FieldFeatures, inputType: string)
    requires inputType in TypeMapping
    ensures var r := SetByName(f, TypeMapping[inputType], 1.0);
      OnlyChanges(f, r, {TypeGroup}) &&
      exists j :: RaisedAt(TypeFlags(f), TypeFlags(r), j) && FeatureNames()[j] == TypeMapping[inputType]
  {
    var name := TypeMapping[inputType];
    var r := SetByName(f, name, 1.0);
    var j := TypeIndex(inputType);
    TypeIndexNamesSlot(inputType);
    assert name == FeatureNames()[j];
    if j == 0 {
      assert r == f.(typeText := 1.0);
    } else if j == 1 {
      assert r == f.(typeEmail := 1.0);
    } else if j == 2 {
      assert r == f.(typePassword := 1.0);
    } else if j == 3 {
      assert r == f.(typeTel := 1.0);
    } else if j == 4 {
      assert r == f.(typeNumber := 1.0);
    } else if j == 5 {
      assert r == f.(typeSearch := 1.0);
    } else {
      assert r == f.(typeUrl := 1.0);
    }
    assert RaisedAt(TypeFlags(f), TypeFlags(r), j);
    assert forall g :: g != TypeGroup ==> Slots(f, g) == Slots(r, g);
  }

  /** The position of the type flag an (already lower-cased) input type selects: `type_other` (7) for unlisted types. */
  function TypeIndex(inputType: string): (j: nat)
    ensures j < 8
  {
    match inputType
    case "text" => 0
    case "email" => 1
    case "password" => 2
    case "tel" => 3
    case "number" => 4
    case "search" => 5
    case "url" => 6
    case _ => 7
  }

  /** The flag at a type's position is the slot the type table names for it. */
  lemma TypeIndexNamesSlot(inputType: string)
    ensures FeatureNames()[TypeIndex(inputType)] == TypeSlotName(inputType)
  {
    var n := FeatureNames()[..8];
    assert n == ["type_text", "type_email", "type_password", "type_tel", "type_number", "type_search", "type_url", "type_other"];
    assert FeatureNames()[TypeIndex(inputType)] == n[TypeIndex(inputType)];
  }

  /** The type flags classify `inputType`: exactly one is set, the one at the type's position. */
  ghost predicate TypeClassified(flags: seq<real>, inputType: string)
  {
    |flags| == 8 && OneHot(flags) &&
    forall j :: 0 <= j < 8 ==> (flags[j] == 1.0 <==> j == TypeIndex(inputType))
  }

  /**
   * On a record with no type flag set, setting the input type leaves exactly
   * one flag set: the one at the type's position, which is the slot the table
   * names (`type_other` for unlisted types).
   */
  lemma InputTypeOneHot(f: FieldFeatures, inputType: string)
    requires forall j :: 0 <= j < 8 ==> TypeFlags(f)[j] == 0.0
    ensures TypeClassified(TypeFlags(SetInputType(f, inputType)), inputType)
    ensures FeatureNames()[TypeIndex(inputType)] == TypeSlotName(inputType)
  {
    var r := SetInputType(f, inputType);
    var j :| RaisedAt(TypeFlags(f), TypeFlags(r), j) && FeatureNames()[j] == TypeSlotName(inputType);
    RaisedZeroIsOneHot(TypeFlags(f), TypeFlags(r), j);
    TypeIndexNamesSlot(inputType);
    TypeNamesDistinct();
    assert j == TypeIndex(inputType);
  }

  /** The first eight slot names are pairwise distinct. */
  lemma TypeNamesDistinct()
    ensures forall j, k :: 0 <= j < k < 8 ==> FeatureNames()[j] != FeatureNames()[k]
  {
    var n := FeatureNames()[..8];
    assert n == ["type_text", "type_email", "type_password", "type_tel", "type_number", "type_search", "type_url", "type_other"];
  }

  /** Index of the autocomplete flag an (already lower-cased) hint selects, by first match in priority order. */
  ghost function AutocompleteRank(auto: string): nat
  {
    if Occurs("username", auto) then 0
    else if Occurs("email", auto) then 1
    else if Occurs("current-password", auto) then 2
    else if Occurs("new-password", auto) then 3
    else if Occurs("one-time-code", auto) then 4
    else if auto == "off" then 5
    else 6
  }

  /**
   * The autocomplete flags classify `auto`: exactly one is set, and each is set
   * exactly when its hint occurs and no hint of higher priority does.
   */
  ghost predicate AutocompleteClassified(flags: seq<real>, auto: string)
  {
    |flags| == 7 && OneHot(flags) &&
    (flags[0] == 1.0 <==> Occurs("username", auto)) &&
    (flags[1] == 1.0 <==> !Occurs("username", auto) && Occurs("email", auto)) &&
    (flags[2] == 1.0 <==> !Occurs("username", auto) && !Occurs("email", auto) && Occurs("current-password", auto)) &&
    (flags[3] == 1.0 <==> !Occurs("username", auto) && !Occurs("email", auto) && !Occurs("current-password", auto) &&
                          Occurs("new-password", auto)) &&
    (flags[4] == 1.0 <==> !Occurs("username", auto) && !Occurs("email", auto) && !Occurs("current-password", auto) &&
                          !Occurs("new-password", auto) && Occurs("one-time-code", auto)) &&
    (flags[5] == 1.0 <==> auto == "off") &&
    (flags[6] == 1.0 <==> !Occurs("username", auto) && !Occurs("email", auto) && !Occurs("current-password", auto) &&
                          !Occurs("new-password", auto) && !Occurs("one-time-code", auto) && auto != "off")
  }

  /** Raises the autocomplete flag of the first hint, in priority order, found in the lower-cased attribute. */
  function SetAutocomplete(f: FieldFeatures, autocomplete: string): (r: FieldFeatures)
    ensures OnlyChanges(f, r, {AutocompleteGroup})
    ensures RaisedAt(AutocompleteFlags(f), AutocompleteFlags(r), AutocompleteRank(Lower(autocomplete)))
  {
    var auto := Lower(autocomplete);
    var r :=
      if Contains(auto, "username") then f.(autoUsername := 1.0)
      else if Contains(auto, "email") then f.(autoEmail := 1.0)
      else if Contains(auto, "current-password") then f.(autoCurrentPassword := 1.0)
      else if Contains(auto, "new-password") then f.(autoNewPassword := 1.0)
      else if Contains(auto, "one-time-code") then f.(autoOneTimeCode := 1.0)
      else if auto == "off" then f.(autoOff := 1.0)
      else f.(autoOther := 1.0);
    AutocompleteGroupFrame(f, r);
    r
  }

  /** A record that keeps every group but the autocomplete flags changes only those. */
  lemma AutocompleteGroupFrame(f: FieldFeatures, r: FieldFeatures)
    requires TypeFlags(f) == TypeFlags(r) && NameSlots(f) == NameSlots(r) && IdSlots(f) == IdSlots(r)
    requires PlaceholderSlots(f) == PlaceholderSlots(r) && AriaLabelSlots(f) == AriaLabelSlots(r)
    requires ContextSlots(f) == ContextSlots(r) && AttributeFlags(f) == AttributeFlags(r)
    ensures OnlyChanges(f, r, {AutocompleteGroup})
  {
  }

  /** On a record with no autocomplete flag set, the hint is classified by first match in priority order. */
  lemma AutocompletePriority(f: FieldFeatures, autocomplete: string)
    requires forall j :: 0 <= j < 7 ==> AutocompleteFlags(f)[j] == 0.0
    ensures AutocompleteClassified(AutocompleteFlags(SetAutocomplete(f, autocomplete)), Lower(autocomplete))
  {
    var auto := Lower(autocomplete);
    var flags := AutocompleteFlags(SetAutocomplete(f, autocomplete));
    RaisedZeroIsOneHot(AutocompleteFlags(f), flags, AutocompleteRank(auto));
    if auto == "off" {
      assert !Occurs("username", auto) && !Occurs("email", auto) && !Occurs("current-password", auto) &&
             !Occurs("new-password", auto) && !Occurs("one-time-code", auto);
    }
  }

  /** A score in [0, 1]. */
  predicate Unit(x: real)
  {
    0.0 <= x <= 1.0
  }

  /** Every score slot lies in [0, 1]. */
  ghost predicate ScoresBounded(f: FieldFeatures)
  {
    && Unit(f.nameHasUser) && Unit(f.nameHasLogin) && Unit(f.nameHasEmail) && Unit(f.nameHasPass)
    && Unit(f.idHasUser) && Unit(f.idHasLogin) && Unit(f.idHasEmail) && Unit(f.idHasPass)
    && Unit(f.placeholderHasUser) && Unit(f.placeholderHasEmail) && Unit(f.placeholderHasPass)
    && Unit(f.ariaLabelHasUser) && Unit(f.ariaLabelHasEmail) && Unit(f.ariaLabelHasPass)
  }

  /**
   * Every score slot of `r` is the pattern score of its attribute of `e`
   * (absent read as the empty text) against its own table.
   */
  ghost predicate TextScored(r: FieldFeatures, e: Element)
  {
    var name := Attr(e, "name", ""); var id := Attr(e, "id", "");
    var placeholder := Attr(e, "placeholder", ""); var ariaLabel := Attr(e, "aria-label", "");
    && r.nameHasUser == MatchScore(name, UsernamePatterns) && r.nameHasLogin == MatchScore(name, LoginPatterns)
    && r.nameHasEmail == MatchScore(name, EmailPatterns) && r.nameHasPass == MatchScore(name, PasswordPatterns)
    && r.idHasUser == MatchScore(id, UsernamePatterns) && r.idHasLogin == MatchScore(id, LoginPatterns)
    && r.idHasEmail == MatchScore(id, EmailPatterns) && r.idHasPass == MatchScore(id, PasswordPatterns)
    && r.placeholderHasUser == MatchScore(placeholder, UsernamePatterns)
    && r.placeholderHasEmail == MatchScore(placeholder, EmailPatterns)
    && r.placeholderHasPass == MatchScore(placeholder, PasswordPatterns)
    && r.ariaLabelHasUser == MatchScore(ariaLabel, UsernamePatterns)
    && r.ariaLabelHasEmail == MatchScore(ariaLabel, EmailPatterns)
    && r.ariaLabelHasPass == MatchScore(ariaLabel, PasswordPatterns)
  }

  /** An attribute that is absent or empty scores 0 against every table. */
  lemma AbsentAttributeScoresZero(r: FieldFeatures, e: Element)
    requires TextScored(r, e)
    ensures Attr(e, "name", "") == "" ==>
      r.nameHasUser == 0.0 && r.nameHasLogin == 0.0 && r.nameHasEmail == 0.0 && r.nameHasPass == 0.0
    ensures Attr(e, "id", "") == "" ==>
      r.idHasUser == 0.0 && r.idHasLogin == 0.0 && r.idHasEmail == 0.0 && r.idHasPass == 0.0
    ensures Attr(e, "placeholder", "") == "" ==>
      r.placeholderHasUser == 0.0 && r.placeholderHasEmail == 0.0 && r.placeholderHasPass == 0.0
    ensures Attr(e, "aria-label", "") == "" ==>
      r.ariaLabelHasUser == 0.0 && r.ariaLabelHasEmail == 0.0 && r.ariaLabelHasPass == 0.0
  {
  }

  /** Each email slot is 1 when its attribute contains "mail" in any case and 0 otherwise. */
  lemma EmailSlotsAreIndicators(r: FieldFeatures, e: Element)
    requires TextScored(r, e)
    ensures r.nameHasEmail == if ContainsIgnoringCase(Attr(e, "name", ""), "mail") then 1.0 else 0.0
    ensures r.idHasEmail == if ContainsIgnoringCase(Attr(e, "id", ""), "mail") then 1.0 else 0.0
    ensures r.placeholderHasEmail == if ContainsIgnoringCase(Attr(e, "placeholder", ""), "mail") then 1.0 else 0.0
    ensures r.ariaLabelHasEmail == if ContainsIgnoringCase(Attr(e, "aria-label", ""), "mail") then 1.0 else 0.0
  {
    MailIndicator(Attr(e, "name", ""));
    MailIndicator(Attr(e, "id", ""));
    MailIndicator(Attr(e, "placeholder", ""));
    MailIndicator(Attr(e, "aria-label", ""));
  }

  /** The email score is the "mail" indicator, the empty text included. */
  lemma MailIndicator(text: string)
    ensures MatchScore(text, EmailPatterns) == if ContainsIgnoringCase(text, "mail") then 1.0 else 0.0
  {
    EmailScoreIsIndicator(text);
    if text == "" {
      assert |Lower(text)| < |Lower("mail")|;
    }
  }

  /** Each username and password slot is 0 exactly when no pattern of its table occurs in its attribute. */
  lemma UserPassSlotsZeroIffNoMatch(r: FieldFeatures, e: Element)
    requires TextScored(r, e)
    ensures r.nameHasUser == 0.0 <==> Attr(e, "name", "") == "" || MatchingPatterns(Attr(e, "name", ""), UsernamePatterns) == {}
    ensures r.nameHasPass == 0.0 <==> Attr(e, "name", "") == "" || MatchingPatterns(Attr(e, "name", ""), PasswordPatterns) == {}
    ensures r.idHasUser == 0.0 <==> Attr(e, "id", "") == "" || MatchingPatterns(Attr(e, "id", ""), UsernamePatterns) == {}
    ensures r.idHasPass == 0.0 <==> Attr(e, "id", "") == "" || MatchingPatterns(Attr(e, "id", ""), PasswordPatterns) == {}
    ensures r.placeholderHasUser == 0.0 <==>
      Attr(e, "placeholder", "") == "" || MatchingPatterns(Attr(e, "placeholder", ""), UsernamePatterns) == {}
    ensures r.placeholderHasPass == 0.0 <==>
      Attr(e, "placeholder", "") == "" || MatchingPatterns(Attr(e, "placeholder", ""), PasswordPatterns) == {}
    ensures r.ariaLabelHasUser == 0.0 <==>
      Attr(e, "aria-label", "") == "" || MatchingPatterns(Attr(e, "aria-label", ""), UsernamePatterns) == {}
    ensures r.ariaLabelHasPass == 0.0 <==>
      Attr(e, "aria-label", "") == "" || MatchingPatterns(Attr(e, "aria-label", ""), PasswordPatterns) == {}
  {
    ScoreZeroIffNoMatch(Attr(e, "name", ""), UsernamePatterns);
    ScoreZeroIffNoMatch(Attr(e, "name", ""), PasswordPatterns);
    ScoreZeroIffNoMatch(Attr(e, "id", ""), UsernamePatterns);
    ScoreZeroIffNoMatch(Attr(e, "id", ""), PasswordPatterns);
    ScoreZeroIffNoMatch(Attr(e, "placeholder", ""), UsernamePatterns);
    ScoreZeroIffNoMatch(Attr(e, "placeholder", ""), PasswordPatterns);
    ScoreZeroIffNoMatch(Attr(e, "aria-label", ""), UsernamePatterns);
    ScoreZeroIffNoMatch(Attr(e, "aria-label", ""), PasswordPatterns);
  }

  /**
   * Scores the name, id, placeholder and aria-label attributes (absent ones read
   * as the empty text) and records their normalised lengths.
   */
  function TextFeatures(f: FieldFeatures, e: Element): (r: FieldFeatures)
    ensures OnlyChanges(f, r, {NameGroup, IdGroup, PlaceholderGroup, AriaLabelGroup})
    ensures ScoresBounded(r) && TextScored(r, e)
    ensures r.parentIsForm == f.parentIsForm && r.parentIsDiv == f.parentIsDiv && r.parentIsSection == f.parentIsSection
    ensures r.siblingCount == f.siblingCount && r.hasPasswordSibling == f.hasPasswordSibling
    ensures r.hasEmailSibling == f.hasEmailSibling
    ensures r.formHasSubmit == f.formHasSubmit && r.formActionHasLogin == f.formActionHasLogin
    ensures r.nameLength * 50.0 == |Attr(e, "name", "")| as real && r.nameLength >= 0.0
    ensures r.idLength * 50.0 == |Attr(e, "id", "")| as real && r.idLength >= 0.0
    ensures r.placeholderLength * 100.0 == |Attr(e, "placeholder", "")| as real && r.placeholderLength >= 0.0
    ensures r.ariaLabelLength * 100.0 == |Attr(e, "aria-label", "")| as real && r.ariaLabelLength >= 0.0
    ensures r.nameHasLogin == if ContainsIgnoringCase(Attr(e, "name", ""), "login") then 1.0 else 0.0
    ensures r.idHasLogin == if ContainsIgnoringCase(Attr(e, "id", ""), "login") then 1.0 else 0.0
  {
    var name := Attr(e, "name", "");
    var id := Attr(e, "id", "");
    var placeholder := Attr(e, "placeholder", "");
    var ariaLabel := Attr(e, "aria-label", "");
    LoginScoreIsIndicator(name);
    LoginScoreIsIndicator(id);
    var r := f.(
      nameHasUser := MatchScore(name, UsernamePatterns),
      nameHasLogin := MatchScore(name, LoginPatterns),
      nameHasEmail := MatchScore(name, EmailPatterns),
      nameHasPass := MatchScore(name, PasswordPatterns),
      nameLength := |name| as real / 50.0,
      idHasUser := MatchScore(id, UsernamePatterns),
      idHasLogin := MatchScore(id, LoginPatterns),
      idHasEmail := MatchScore(id, EmailPatterns),
      idHasPass := MatchScore(id, PasswordPatterns),
      idLength := |id| as real / 50.0,
      placeholderHasUser := MatchScore(placeholder, UsernamePatterns),
      placeholderHasEmail := MatchScore(placeholder, EmailPatterns),
      placeholderHasPass := MatchScore(placeholder, PasswordPatterns),
      placeholderLength := |placeholder| as real / 100.0,
      ariaLabelHasUser := MatchScore(ariaLabel, UsernamePatterns),
      ariaLabelHasEmail := MatchScore(ariaLabel, EmailPatterns),
      ariaLabelHasPass := MatchScore(ariaLabel, PasswordPatterns),
      ariaLabelLength := |ariaLabel| as real / 100.0
    );
    TextGroupsFrame(f, r);
    r
  }

  /** A record that keeps the type, autocomplete, context and attribute groups changes only the text groups. */
  lemma TextGroupsFrame(f: FieldFeatures, r: FieldFeatures)
    requires TypeFlags(f) == TypeFlags(r) && AutocompleteFlags(f) == AutocompleteFlags(r)
    requires ContextSlots(f) == ContextSlots(r) && AttributeFlags(f) == AttributeFlags(r)
    ensures OnlyChanges(f, r, {NameGroup, IdGroup, PlaceholderGroup, AriaLabelGroup})
  {
  }

  /** A flag slot holds 0 or 1. */
  predicate IsFlag(x: real)
  {
    x == 0.0 || x == 1.0
  }

  /** The parent-tag flags are flags and at most one of them is set. */
  predicate AtMostOneParentFlag(f: FieldFeatures)
  {
    IsFlag(f.parentIsForm) && IsFlag(f.parentIsDiv) && IsFlag(f.parentIsSection) &&
    f.parentIsForm + f.parentIsDiv + f.parentIsSection <= 1.0
  }

  /** The direct children named "input", in order: `parent.find_all("input", recursive=False)`. */
  function InputChildren(children: seq<Element>): (r: seq<Element>)
    ensures |r| <= |children|
    ensures forall c :: c in r <==> c in children && c.tag == "input"
  {
    if children == [] then []
    else (if children[0].tag == "input" then [children[0]] else []) + InputChildren(children[1..])
  }

  /** A child input other than `input` (structurally: an identical twin counts as `input`) whose lower-cased type is `t`. */
  predicate TypedSibling(c: Element, input: Element, t: string)
  {
    c != input && Lower(Attr(c, "type", "")) == t
  }

  /** A record that keeps every group but the context slots changes only those. */
  lemma ContextGroupFrame(f: FieldFeatures, r: FieldFeatures)
    requires TypeFlags(f) == TypeFlags(r) && AutocompleteFlags(f) == AutocompleteFlags(r)
    requires NameSlots(f) == NameSlots(r) && IdSlots(f) == IdSlots(r)
    requires PlaceholderSlots(f) == PlaceholderSlots(r) && AriaLabelSlots(f) == AriaLabelSlots(r)
    requires AttributeFlags(f) == AttributeFlags(r)
    ensures OnlyChanges(f, r, {ContextGroup})
  {
  }

  /** A record that keeps every group but the attribute flags changes only those. */
  lemma AttributeGroupFrame(f: FieldFeatures, r: FieldFeatures)
    requires TypeFlags(f) == TypeFlags(r) && AutocompleteFlags(f) == AutocompleteFlags(r)
    requires NameSlots(f) == NameSlots(r) && IdSlots(f) == IdSlots(r)
    requires PlaceholderSlots(f) == PlaceholderSlots(r) && AriaLabelSlots(f) == AriaLabelSlots(r)
    requires ContextSlots(f) == ContextSlots(r)
    ensures OnlyChanges(f, r, {AttributeGroup})
  {
  }

  /** The parent-tag flags for a parent named `tag`: form, div, section, or none of them. */
  function ParentTagFlags(f: FieldFeatures, tag: string): (r: FieldFeatures)
    ensures OnlyChanges(f, r, {ContextGroup})
    ensures r == f.(parentIsForm := r.parentIsForm, parentIsDiv := r.parentIsDiv, parentIsSection := r.parentIsSection)
    ensures AtMostOneParentFlag(r)
    ensures r.parentIsForm == 1.0 <==> Lower(tag) == "form"
    ensures r.parentIsDiv == 1.0 <==> Lower(tag) == "div"
    ensures r.parentIsSection == 1.0 <==> Lower(tag) == "section"
  {
    var name := Lower(tag);
    var r := f.(
      parentIsForm := if name == "form" then 1.0 else 0.0,
      parentIsDiv := if name == "div" then 1.0 else 0.0,
      parentIsSection := if name == "section" then 1.0 else 0.0
    );
    ContextGroupFrame(f, r);
    r
  }

  /**
   * The sibling count over 10 (every child input of the parent, `input`
   * itself included) and the flags for another child input typed password or
   * email. The flags are only ever raised.
   */
  function SiblingFlags(f: FieldFeatures, parent: Element, input: Element): (r: FieldFeatures)
    ensures OnlyChanges(f, r, {ContextGroup})
    ensures r == f.(siblingCount := r.siblingCount, hasPasswordSibling := r.hasPasswordSibling,
                    hasEmailSibling := r.hasEmailSibling)
    ensures r.siblingCount * 10.0 == |InputChildren(parent.children)| as real
    ensures input in parent.children && input.tag == "input" ==> r.siblingCount >= 0.1
    ensures r.hasPasswordSibling == 1.0 <==>
      (f.hasPasswordSibling == 1.0 ||
       exists c :: c in parent.children && c.tag == "input" && TypedSibling(c, input, "password"))
    ensures r.hasEmailSibling == 1.0 <==>
      (f.hasEmailSibling == 1.0 ||
       exists c :: c in parent.children && c.tag == "input" && TypedSibling(c, input, "email"))
    ensures IsFlag(f.hasPasswordSibling) ==> IsFlag(r.hasPasswordSibling)
    ensures IsFlag(f.hasEmailSibling) ==> IsFlag(r.hasEmailSibling)
  {
    var siblings := InputChildren(parent.children);
    var password := exists c | c in siblings :: TypedSibling(c, input, "password");
    var email := exists c | c in siblings :: TypedSibling(c, input, "email");
    assert input in parent.children && input.tag == "input" ==> input in siblings;
    var r := f.(
      siblingCount := |siblings| as real / 10.0,
      hasPasswordSibling := if password then 1.0 else f.hasPasswordSibling,
      hasEmailSibling := if email then 1.0 else f.hasEmailSibling
    );
    ContextGroupFrame(f, r);
    r
  }

  /** The parent and sibling slots; an element without a parent keeps them all. */
  function ParentFeatures(f: FieldFeatures, root: Element, p: Path): (r: FieldFeatures)
    requires ValidPath(root, p)
  {
    if p == [] then f
    else
      var parent := ParentOf(root, p);
      SiblingFlags(ParentTagFlags(f, parent.tag), parent, At(root, p))
  }

  /** A submit control as `find(["button", "input"], attrs={"type": "submit"})` selects it. */
  predicate IsSubmitControl(e: Element)
  {
    (e.tag == "button" || e.tag == "input") && "type" in e.attrs && e.attrs["type"] == "submit"
  }

  /** Some proper descendant of `form` is a submit control. */
  ghost predicate ContainsSubmitControl(form: Element)
  {
    exists q :: q != [] && ValidPath(form, q) && IsSubmitControl(At(form, q))
  }

  /** Whether `form` contains a submit control, found by a document-order search. */
  function HasSubmitControl(form: Element): (b: bool)
    ensures b <==> ContainsSubmitControl(form)
  {
    var b := exists q | q in Descendants(form) :: IsSubmitControl(At(form, q));
    assert b ==> ContainsSubmitControl(form) by {
      if b {
        var q :| q in Descendants(form) && IsSubmitControl(At(form, q));
        assert q != [] && ValidPath(form, q);
      }
    }
    assert ContainsSubmitControl(form) ==> b by {
      if ContainsSubmitControl(form) {
        var q :| q != [] && ValidPath(form, q) && IsSubmitControl(At(form, q));
        DescendantsComplete(form, q);
      }
    }
    b
  }

  /**
   * The enclosing-form flags for a form element: whether it holds a submit
   * control, and whether its action mentions login, signin, auth or session
   * in any case.
   */
  function FormFlags(f: FieldFeatures, form: Element): (r: FieldFeatures)
    ensures OnlyChanges(f, r, {ContextGroup})
    ensures r == f.(formHasSubmit := r.formHasSubmit, formActionHasLogin := r.formActionHasLogin)
    ensures IsFlag(r.formHasSubmit) && IsFlag(r.formActionHasLogin)
    ensures r.formHasSubmit == 1.0 <==> ContainsSubmitControl(form)
    ensures r.formActionHasLogin == 1.0 <==> AnyMatches(Attr(form, "action", ""), AuthActionPatterns)
  {
    var submit := HasSubmitControl(form);
    var r := f.(
      formHasSubmit := if submit then 1.0 else 0.0,
      formActionHasLogin := if AnyMatches(Attr(form, "action", ""), AuthActionPatterns) then 1.0 else 0.0
    );
    ContextGroupFrame(f, r);
    r
  }

  /** The enclosing-form slots, from the nearest form ancestor; without one nothing changes. */
  function FormFeatures(f: FieldFeatures, root: Element, p: Path): (r: FieldFeatures)
    requires ValidPath(root, p)
  {
    match NearestAncestor(root, p, "form")
    case None => f
    case Some(k) => FormFlags(f, At(root, p[..k]))
  }

  /** The required, has-placeholder, has-aria-label and numeric-inputmode flags. */
  function PresenceFlags(f: FieldFeatures, e: Element): (r: FieldFeatures)
    ensures OnlyChanges(f, r, {AttributeGroup})
    ensures r == f.(isRequired := r.isRequired, hasPlaceholder := r.hasPlaceholder, hasAriaLabel := r.hasAriaLabel,
                    inputmodeNumeric := r.inputmodeNumeric)
    ensures IsFlag(r.isRequired) && IsFlag(r.hasPlaceholder) && IsFlag(r.hasAriaLabel) && IsFlag(r.inputmodeNumeric)
    ensures r.isRequired == 1.0 <==> "required" in e.attrs && e.attrs["required"] != ""
    ensures r.hasPlaceholder == 1.0 <==> "placeholder" in e.attrs && e.attrs["placeholder"] != ""
    ensures r.hasAriaLabel == 1.0 <==> "aria-label" in e.attrs && e.attrs["aria-label"] != ""
    ensures r.inputmodeNumeric == 1.0 <==> "inputmode" in e.attrs && e.attrs["inputmode"] == "numeric"
  {
    var r := f.(
      isRequired := if Attr(e, "required", "") != "" then 1.0 else 0.0,
      hasPlaceholder := if Attr(e, "placeholder", "") != "" then 1.0 else 0.0,
      hasAriaLabel := if Attr(e, "aria-label", "") != "" then 1.0 else 0.0,
      inputmodeNumeric := if Attr(e, "inputmode", "") == "numeric" then 1.0 else 0.0
    );
    AttributeGroupFrame(f, r);
    r
  }

  /**
   * The context slots: parent tag, siblings and enclosing form. Nothing
   * outside the context group changes.
   */
  function ContextFeatures(f: FieldFeatures, root: Element, p: Path): (r: FieldFeatures)
    requires ValidPath(root, p)
    ensures OnlyChanges(f, r, {ContextGroup})
    ensures r == f.(parentIsForm := r.parentIsForm, parentIsDiv := r.parentIsDiv, parentIsSection := r.parentIsSection,
                    siblingCount := r.siblingCount, hasPasswordSibling := r.hasPasswordSibling,
                    hasEmailSibling := r.hasEmailSibling, formHasSubmit := r.formHasSubmit,
                    formActionHasLogin := r.formActionHasLogin)
    ensures p == [] ==> r.parentIsForm == f.parentIsForm && r.parentIsDiv == f.parentIsDiv &&
                        r.parentIsSection == f.parentIsSection && r.siblingCount == f.siblingCount &&
                        r.hasPasswordSibling == f.hasPasswordSibling && r.hasEmailSibling == f.hasEmailSibling
    ensures p != [] ==> AtMostOneParentFlag(r)
    ensures p != [] ==> (r.parentIsForm == 1.0 <==> Lower(ParentOf(root, p).tag) == "form")
    ensures p != [] ==> (r.parentIsDiv == 1.0 <==> Lower(ParentOf(root, p).tag) == "div")
    ensures p != [] ==> (r.parentIsSection == 1.0 <==> Lower(ParentOf(root, p).tag) == "section")
    ensures p != [] ==> r.siblingCount * 10.0 == |InputChildren(ParentOf(root, p).children)| as real
    ensures p != [] && At(root, p).tag == "input" ==> r.siblingCount >= 0.1
    ensures p != [] ==>
      (r.hasPasswordSibling == 1.0 <==>
        (f.hasPasswordSibling == 1.0 ||
         exists c :: c in ParentOf(root, p).children && c.tag == "input" && TypedSibling(c, At(root, p), "password")))
    ensures p != [] ==>
      (r.hasEmailSibling == 1.0 <==>
        (f.hasEmailSibling == 1.0 ||
         exists c :: c in ParentOf(root, p).children && c.tag == "input" && TypedSibling(c, At(root, p), "email")))
    ensures IsFlag(f.hasPasswordSibling) ==> IsFlag(r.hasPasswordSibling)
    ensures IsFlag(f.hasEmailSibling) ==> IsFlag(r.hasEmailSibling)
    ensures NearestAncestor(root, p, "form").None? ==>
      r.formHasSubmit == f.formHasSubmit && r.formActionHasLogin == f.formActionHasLogin
    ensures NearestAncestor(root, p, "form").Some? ==>
      var form := At(root, p[..NearestAncestor(root, p, "form").value]);
      && IsFlag(r.formHasSubmit) && IsFlag(r.formActionHasLogin)
      && (r.formHasSubmit == 1.0 <==> ContainsSubmitControl(form))
      && (r.formActionHasLogin == 1.0 <==> AnyMatches(Attr(form, "action", ""), AuthActionPatterns))
  {
    FormFeatures(ParentFeatures(f, root, p), root, p)
  }

  /** The declared input type: the `type` attribute lower-cased, "text" when absent. */
  function InputType(e: Element): string
  {
    Lower(Attr(e, "type", "text"))
  }

  /**
   * The invariants every extracted record satisfies: one type flag and one
   * autocomplete flag, bounded scores, non-negative lengths and sibling count,
   * at most one parent flag, and 0/1 values in every other flag.
   */
  ghost predicate WellFormed(f: FieldFeatures)
  {
    && OneHot(TypeFlags(f)) && OneHot(AutocompleteFlags(f))
    && ScoresBounded(f)
    && f.nameLength >= 0.0 && f.idLength >= 0.0 && f.placeholderLength >= 0.0 && f.ariaLabelLength >= 0.0
    && AtMostOneParentFlag(f) && f.siblingCount >= 0.0
    && IsFlag(f.hasPasswordSibling) && IsFlag(f.hasEmailSibling)
    && IsFlag(f.formHasSubmit) && IsFlag(f.formActionHasLogin)
    && IsFlag(f.isRequired) && IsFlag(f.hasPlaceholder) && IsFlag(f.hasAriaLabel) && IsFlag(f.inputmodeNumeric)
  }

  /** The record after the type and autocomplete stages. */
  function Classified(e: Element): FieldFeatures
  {
    SetAutocomplete(SetInputType(Fresh(), InputType(e)), Attr(e, "autocomplete", ""))
  }

  /** The record after the four attribute-text stages. */
  function Scored(e: Element): FieldFeatures
  {
    TextFeatures(Classified(e), e)
  }

  /** The features of the input element at `p` in the document `root`. */
  function ExtractFromElement(root: Element, p: Path): FieldFeatures
    requires ValidPath(root, p)
  {
    var e := At(root, p);
    PresenceFlags(ContextFeatures(Scored(e), root, p), e)
  }

  /** Before the context stage every context slot still holds its zero. */
  lemma ScoredHasNoContext(e: Element)
    ensures var f := Scored(e);
      && f.parentIsForm == 0.0 && f.parentIsDiv == 0.0 && f.parentIsSection == 0.0
      && f.siblingCount == 0.0 && f.hasPasswordSibling == 0.0 && f.hasEmailSibling == 0.0
      && f.formHasSubmit == 0.0 && f.formActionHasLogin == 0.0
  {
    var f1 := SetInputType(Fresh(), InputType(e));
    var f2 := SetAutocomplete(f1, Attr(e, "autocomplete", ""));
    assert Slots(f2, ContextGroup) == Slots(f1, ContextGroup) == Slots(Fresh(), ContextGroup);
    assert ContextSlots(f2) == ContextSlots(Fresh());
    assert ContextSlots(f2)[0] == 0.0 && ContextSlots(f2)[1] == 0.0 && ContextSlots(f2)[2] == 0.0;
    assert ContextSlots(f2)[3] == 0.0 && ContextSlots(f2)[4] == 0.0 && ContextSlots(f2)[5] == 0.0;
    assert ContextSlots(f2)[6] == 0.0 && ContextSlots(f2)[7] == 0.0;
  }

  /** The stages after classification leave the type and autocomplete flags alone. */
  lemma LaterStagesKeepFlags(f: FieldFeatures, root: Element, p: Path)
    requires ValidPath(root, p)
    ensures var r := PresenceFlags(ContextFeatures(TextFeatures(f, At(root, p)), root, p), At(root, p));
      TypeFlags(r) == TypeFlags(f) && AutocompleteFlags(r) == AutocompleteFlags(f)
  {
    var e := At(root, p);
    var f3 := TextFeatures(f, e);
    assert Slots(f3, TypeGroup) == Slots(f, TypeGroup) && Slots(f3, AutocompleteGroup) == Slots(f, AutocompleteGroup);
    ContextKeepsFlags(f3, root, p);
    PresenceKeepsFlags(ContextFeatures(f3, root, p), e);
  }

  lemma ContextKeepsFlags(f: FieldFeatures, root: Element, p: Path)
    requires ValidPath(root, p)
    ensures var r := ContextFeatures(f, root, p);
      TypeFlags(r) == TypeFlags(f) && AutocompleteFlags(r) == AutocompleteFlags(f)
  {
    var r := ContextFeatures(f, root, p);
    assert Slots(r, TypeGroup) == Slots(f, TypeGroup) && Slots(r, AutocompleteGroup) == Slots(f, AutocompleteGroup);
  }

  lemma PresenceKeepsFlags(f: FieldFeatures, e: Element)
    ensures var r := PresenceFlags(f, e);
      TypeFlags(r) == TypeFlags(f) && AutocompleteFlags(r) == AutocompleteFlags(f)
  {
    var r := PresenceFlags(f, e);
    assert Slots(r, TypeGroup) == Slots(f, TypeGroup) && Slots(r, AutocompleteGroup) == Slots(f, AutocompleteGroup);
  }

  /** Exactly one type flag is raised: the one the declared type maps to. */
  lemma ExtractTypeClassified(root: Element, p: Path)
    requires ValidPath(root, p)
    ensures TypeClassified(TypeFlags(ExtractFromElement(root, p)), InputType(At(root, p)))
    ensures OneHot(TypeFlags(ExtractFromElement(root, p)))
  {
    var e := At(root, p);
    ClassifiedType(e);
    LaterStagesKeepFlags(Classified(e), root, p);
  }

  /** The type stage sees a record whose type flags are all zero, and the autocomplete stage keeps its result. */
  lemma ClassifiedType(e: Element)
    ensures TypeClassified(TypeFlags(Classified(e)), InputType(e))
  {
    var f1 := SetInputType(Fresh(), InputType(e));
    assert TypeFlags(Fresh()) == [0.0, 0.0, 0.0, 0.0, 0.0, 0.0, 0.0, 0.0];
    InputTypeOneHot(Fresh(), InputType(e));
    var f2 := SetAutocomplete(f1, Attr(e, "autocomplete", ""));
    assert Slots(f2, TypeGroup) == Slots(f1, TypeGroup);
  }

  /** The autocomplete stage sees a record whose autocomplete flags are all zero. */
  lemma ClassifiedAutocomplete(e: Element)
    ensures AutocompleteClassified(AutocompleteFlags(Classified(e)), Lower(Attr(e, "autocomplete", "")))
  {
    var f1 := SetInputType(Fresh(), InputType(e));
    assert Slots(f1, AutocompleteGroup) == Slots(Fresh(), AutocompleteGroup);
    assert AutocompleteFlags(f1) == [0.0, 0.0, 0.0, 0.0, 0.0, 0.0, 0.0];
    AutocompletePriority(f1, Attr(e, "autocomplete", ""));
  }

  /** Exactly one autocomplete flag is raised: the highest-priority hint present. */
  lemma ExtractAutocompleteClassified(root: Element, p: Path)
    requires ValidPath(root, p)
    ensures AutocompleteClassified(AutocompleteFlags(ExtractFromElement(root, p)),
                                   Lower(Attr(At(root, p), "autocomplete", "")))
  {
    var e := At(root, p);
    ClassifiedAutocomplete(e);
    LaterStagesKeepFlags(Classified(e), root, p);
  }

  /**
   * The attribute-text slots of the extracted record: scores in [0, 1],
   * lengths proportional to the attribute lengths, and the login slots as
   * 0/1 indicators of "login" occurring in any case.
   */
  lemma ExtractTextScores(root: Element, p: Path)
    requires ValidPath(root, p)
    ensures var r := ExtractFromElement(root, p); var e := At(root, p);
      && ScoresBounded(r) && TextScored(r, e)
      && r.nameLength * 50.0 == |Attr(e, "name", "")| as real && r.nameLength >= 0.0
      && r.idLength * 50.0 == |Attr(e, "id", "")| as real && r.idLength >= 0.0
      && r.placeholderLength * 100.0 == |Attr(e, "placeholder", "")| as real && r.placeholderLength >= 0.0
      && r.ariaLabelLength * 100.0 == |Attr(e, "aria-label", "")| as real && r.ariaLabelLength >= 0.0
      && r.nameHasLogin == (if ContainsIgnoringCase(Attr(e, "name", ""), "login") then 1.0 else 0.0)
      && r.idHasLogin == (if ContainsIgnoringCase(Attr(e, "id", ""), "login") then 1.0 else 0.0)
  {
    var e := At(root, p);
    var f4 := ContextFeatures(Scored(e), root, p);
    assert PresenceFlags(f4, e) == ExtractFromElement(root, p);
  }

  /**
   * The parent and sibling slots of the extracted record. A detached element
   * keeps them at zero; otherwise the parent's tag decides at most one parent
   * flag, the count covers every child input of the parent, and a sibling flag
   * is raised exactly when another child input has that type.
   */
  lemma ExtractParentContext(root: Element, p: Path)
    requires ValidPath(root, p)
    ensures var r := ExtractFromElement(root, p);
      p == [] ==>
        && r.parentIsForm == 0.0 && r.parentIsDiv == 0.0 && r.parentIsSection == 0.0
        && r.siblingCount == 0.0 && r.hasPasswordSibling == 0.0 && r.hasEmailSibling == 0.0
    ensures var r := ExtractFromElement(root, p);
      p != [] ==>
        var parent := ParentOf(root, p); var input := At(root, p);
        && AtMostOneParentFlag(r)
        && (r.parentIsForm == 1.0 <==> Lower(parent.tag) == "form")
        && (r.parentIsDiv == 1.0 <==> Lower(parent.tag) == "div")
        && (r.parentIsSection == 1.0 <==> Lower(parent.tag) == "section")
        && r.siblingCount * 10.0 == |InputChildren(parent.children)| as real
        && (input.tag == "input" ==> r.siblingCount >= 0.1)
        && IsFlag(r.hasPasswordSibling) && IsFlag(r.hasEmailSibling)
        && (r.hasPasswordSibling == 1.0 <==>
              exists c :: c in parent.children && c.tag == "input" && TypedSibling(c, input, "password"))
        && (r.hasEmailSibling == 1.0 <==>
              exists c :: c in parent.children && c.tag == "input" && TypedSibling(c, input, "email"))
  {
    var e := At(root, p);
    ScoredHasNoContext(e);
    var f4 := ContextFeatures(Scored(e), root, p);
    assert PresenceFlags(f4, e) == ExtractFromElement(root, p);
  }

  /**
   * The enclosing-form slots of the extracted record: zero without a form
   * ancestor, otherwise the submit and action flags of the nearest one.
   */
  lemma ExtractFormContext(root: Element, p: Path)
    requires ValidPath(root, p)
    ensures var r := ExtractFromElement(root, p);
      NearestAncestor(root, p, "form").None? ==> r.formHasSubmit == 0.0 && r.formActionHasLogin == 0.0
    ensures var r := ExtractFromElement(root, p);
      NearestAncestor(root, p, "form").Some? ==>
        var form := At(root, p[..NearestAncestor(root, p, "form").value]);
        && IsFlag(r.formHasSubmit) && IsFlag(r.formActionHasLogin)
        && (r.formHasSubmit == 1.0 <==> ContainsSubmitControl(form))
        && (r.formActionHasLogin == 1.0 <==> AnyMatches(Attr(form, "action", ""), AuthActionPatterns))
  {
    var e := At(root, p);
    ScoredHasNoContext(e);
    var f4 := ContextFeatures(Scored(e), root, p);
    assert PresenceFlags(f4, e) == ExtractFromElement(root, p);
  }

  /** The presence flags of the extracted record, read from the element's own attributes. */
  lemma ExtractPresence(root: Element, p: Path)
    requires ValidPath(root, p)
    ensures var r := ExtractFromElement(root, p); var e := At(root, p);
      && IsFlag(r.isRequired) && IsFlag(r.hasPlaceholder) && IsFlag(r.hasAriaLabel) && IsFlag(r.inputmodeNumeric)
      && (r.isRequired == 1.0 <==> "required" in e.attrs && e.attrs["required"] != "")
      && (r.hasPlaceholder == 1.0 <==> "placeholder" in e.attrs && e.attrs["placeholder"] != "")
      && (r.hasAriaLabel == 1.0 <==> "aria-label" in e.attrs && e.attrs["aria-label"] != "")
      && (r.inputmodeNumeric == 1.0 <==> "inputmode" in e.attrs && e.attrs["inputmode"] == "numeric")
  {
    var e := At(root, p);
    assert PresenceFlags(ContextFeatures(Scored(e), root, p), e) == ExtractFromElement(root, p);
  }

  /** Every extracted record satisfies the record invariants. */
  lemma ExtractWellFormed(root: Element, p: Path)
    requires ValidPath(root, p)
    ensures WellFormed(ExtractFromElement(root, p))
  {
    ExtractTypeClassified(root, p);
    ExtractAutocompleteClassified(root, p);
    ExtractTextScores(root, p);
    ExtractParentContext(root, p);
    ExtractFormContext(root, p);
    ExtractPresence(root, p);
  }

  /** Input types that are not fields and are skipped. */
  const ExcludedTypes: set<string> := {"hidden", "submit", "button", "image", "reset"}

  /** An input element whose declared type is not excluded. */
  predicate IsField(e: Element)
  {
    e.tag == "input" && InputType(e) !in ExcludedTypes
  }

  /** The paths among `ps` that lead to fields, in their original order. */
  function FieldsAmong(doc: Element, ps: seq<Path>): (r: seq<Path>)
    requires forall q :: q in ps ==> ValidPath(doc, q)
    ensures forall q :: q in r <==> q in ps && IsField(At(doc, q))
    ensures InDocumentOrder(ps) ==> InDocumentOrder(r)
  {
    if ps == [] then []
    else
      var rest := FieldsAmong(doc, ps[1..]);
      assert InDocumentOrder(ps) ==> forall q :: q in rest ==> Before(ps[0], q) by {
        if InDocumentOrder(ps) {
          forall q | q in rest ensures Before(ps[0], q) {
            var k :| 1 <= k < |ps| && ps[k] == q;
          }
        }
      }
      if IsField(At(doc, ps[0])) then [ps[0]] + rest else rest
  }

  /** The paths of every field of the document, in document order. */
  function FieldPaths(doc: Element): (r: seq<Path>)
    ensures forall q :: q in r <==> q != [] && ValidPath(doc, q) && IsField(At(doc, q))
    ensures InDocumentOrder(r)
  {
    var all := Descendants(doc);
    assert forall q :: q != [] && ValidPath(doc, q) ==> q in all by {
      forall q | q != [] && ValidPath(doc, q) ensures q in all {
        DescendantsComplete(doc, q);
      }
    }
    FieldsAmong(doc, all)
  }

  /** A field's path is among the field paths. */
  lemma FieldPathsMember(doc: Element, q: Path)
    requires q != [] && ValidPath(doc, q) && IsField(At(doc, q))
    ensures q in FieldPaths(doc)
  {
  }

  /** Every field path leads to a field. */
  lemma FieldPathsOnlyFields(doc: Element, q: Path)
    requires q in FieldPaths(doc)
    ensures q != [] && ValidPath(doc, q) && IsField(At(doc, q))
  {
  }

  /** What the extractor reports for one field. */
  datatype FieldRecord = FieldRecord(features: FieldFeatures, elementId: string, elementName: string, inputType: string)

  /** The record of the field at `p`. */
  function RecordOf(doc: Element, p: Path): (r: FieldRecord)
    requires ValidPath(doc, p)
  {
    var e := At(doc, p);
    FieldRecord(ExtractFromElement(doc, p), Attr(e, "id", ""), Attr(e, "name", ""), InputType(e))
  }

  /** One record per field of the document, in document order. */
  function ExtractFeaturesFromHtml(doc: Element): (rs: seq<FieldRecord>)
    ensures |rs| == |FieldPaths(doc)|
    ensures forall i :: 0 <= i < |rs| ==> rs[i].inputType !in ExcludedTypes
  {
    var ps := FieldPaths(doc);
    seq(|ps|, i requires 0 <= i < |ps| => RecordOf(doc, ps[i]))
  }

  /**
   * The records match the fields of the document one to one, in document
   * order: the i-th record describes the i-th field, every record's features
   * satisfy the record invariants, and its identifiers are the field's
   * attributes (empty when absent).
   */
  lemma HtmlRecordsDescribeFields(doc: Element)
    ensures var rs := ExtractFeaturesFromHtml(doc); var ps := FieldPaths(doc);
      forall i :: 0 <= i < |rs| ==>
        var e := At(doc, ps[i]);
        && IsField(e)
        && rs[i].features == ExtractFromElement(doc, ps[i])
        && WellFormed(rs[i].features)
        && rs[i].elementId == Attr(e, "id", "") && rs[i].elementName == Attr(e, "name", "")
        && rs[i].inputType == InputType(e)
  {
    var ps := FieldPaths(doc);
    forall i | 0 <= i < |ps| ensures WellFormed(ExtractFromElement(doc, ps[i])) {
      ExtractWellFormed(doc, ps[i]);
    }
  }
}

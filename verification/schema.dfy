/**
 * The feature schema: a fixed record of 45 numeric slots, its flattening to a
 * vector, and the list of slot names. A trained model's weights are bound to
 * slot positions, so the vector order and the name order must agree.
 */
module Schema {
  import opened Options

  /** Number of slots; also the input width of the exported classifier. */
  const SlotCount: nat := 45

  /**
   * One input field's features. Flags hold 0.0 or 1.0; scores and normalised
   * lengths hold reals. Declaration order is slot order.
   */
  datatype FieldFeatures = FieldFeatures(
    typeText: real,
    typeEmail: real,
    typePassword: real,
    typeTel: real,
    typeNumber: real,
    typeSearch: real,
    typeUrl: real,
    typeOther: real,
    autoUsername: real,
    autoEmail: real,
    autoCurrentPassword: real,
    autoNewPassword: real,
    autoOneTimeCode: real,
    autoOff: real,
    autoOther: real,
    nameHasUser: real,
    nameHasLogin: real,
    nameHasEmail: real,
    nameHasPass: real,
    nameLength: real,
    idHasUser: real,
    idHasLogin: real,
    idHasEmail: real,
    idHasPass: real,
    idLength: real,
    placeholderHasUser: real,
    placeholderHasEmail: real,
    placeholderHasPass: real,
    placeholderLength: real,
    ariaLabelHasUser: real,
    ariaLabelHasEmail: real,
    ariaLabelHasPass: real,
    ariaLabelLength: real,
    parentIsForm: real,
    parentIsDiv: real,
    parentIsSection: real,
    siblingCount: real,
    hasPasswordSibling: real,
    hasEmailSibling: real,
    formHasSubmit: real,
    formActionHasLogin: real,
    isRequired: real,
    hasPlaceholder: real,
    hasAriaLabel: real,
    inputmodeNumeric: real
  )

  /** A record whose slots are all zero: the dataclass defaults. */
  function Fresh(): FieldFeatures
  {
    FieldFeatures(0.0, 0.0, 0.0, 0.0, 0.0, 0.0, 0.0, 0.0, 0.0, 0.0, 0.0, 0.0, 0.0, 0.0, 0.0, 0.0, 0.0, 0.0, 0.0, 0.0, 0.0, 0.0, 0.0, 0.0, 0.0, 0.0, 0.0, 0.0, 0.0, 0.0, 0.0, 0.0, 0.0, 0.0, 0.0, 0.0, 0.0, 0.0, 0.0, 0.0, 0.0, 0.0, 0.0, 0.0, 0.0)
  }

  /** Values of the eight input-type flags, in slot order. */
  function TypeFlags(f: FieldFeatures): seq<real>
  {
    [f.typeText, f.typeEmail, f.typePassword, f.typeTel, f.typeNumber, f.typeSearch, f.typeUrl, f.typeOther]
  }

  /** Values of the seven autocomplete flags, in slot order. */
  function AutocompleteFlags(f: FieldFeatures): seq<real>
  {
    [f.autoUsername, f.autoEmail, f.autoCurrentPassword, f.autoNewPassword, f.autoOneTimeCode, f.autoOff, f.autoOther]
  }

  /** Values of the name-attribute scores and length, in slot order. */
  function NameSlots(f: FieldFeatures): seq<real>
  {
    [f.nameHasUser, f.nameHasLogin, f.nameHasEmail, f.nameHasPass, f.nameLength]
  }

  /** Values of the id-attribute scores and length, in slot order. */
  function IdSlots(f: FieldFeatures): seq<real>
  {
    [f.idHasUser, f.idHasLogin, f.idHasEmail, f.idHasPass, f.idLength]
  }

  /** Values of the placeholder scores and length, in slot order. */
  function PlaceholderSlots(f: FieldFeatures): seq<real>
  {
    [f.placeholderHasUser, f.placeholderHasEmail, f.placeholderHasPass, f.placeholderLength]
  }

  /** Values of the aria-label scores and length, in slot order. */
  function AriaLabelSlots(f: FieldFeatures): seq<real>
  {
    [f.ariaLabelHasUser, f.ariaLabelHasEmail, f.ariaLabelHasPass, f.ariaLabelLength]
  }

  /** Values of the parent, sibling and enclosing-form slots, in slot order. */
  function ContextSlots(f: FieldFeatures): seq<real>
  {
    [f.parentIsForm, f.parentIsDiv, f.parentIsSection, f.siblingCount, f.hasPasswordSibling, f.hasEmailSibling, f.formHasSubmit, f.formActionHasLogin]
  }

  /** Values of the required, placeholder, aria-label and inputmode flags, in slot order. */
  function AttributeFlags(f: FieldFeatures): seq<real>
  {
    [f.isRequired, f.hasPlaceholder, f.hasAriaLabel, f.inputmodeNumeric]
  }

  /** The slot groups, in slot order. */
  datatype Group =
    TypeGroup | AutocompleteGroup | NameGroup | IdGroup | PlaceholderGroup | AriaLabelGroup | ContextGroup | AttributeGroup

  /** The slots of one group. */
  function Slots(f: FieldFeatures, g: Group): seq<real>
  {
    match g
    case TypeGroup => TypeFlags(f)
    case AutocompleteGroup => AutocompleteFlags(f)
    case NameGroup => NameSlots(f)
    case IdGroup => IdSlots(f)
    case PlaceholderGroup => PlaceholderSlots(f)
    case AriaLabelGroup => AriaLabelSlots(f)
    case ContextGroup => ContextSlots(f)
    case AttributeGroup => AttributeFlags(f)
  }

  /** `r` agrees with `f` on every group outside `gs`. */
  ghost predicate OnlyChanges(f: FieldFeatures, r: FieldFeatures, gs: set<Group>)
  {
    forall g :: g !in gs ==> Slots(f, g) == Slots(r, g)
  }

  /** Exactly one entry is 1 and all others are 0. */
  ghost predicate OneHot(s: seq<real>)
  {
    exists j :: 0 <= j < |s| && s[j] == 1.0 && forall k :: 0 <= k < |s| && k != j ==> s[k] == 0.0
  }

  /** `r` is `s` with entry `j` raised to 1. */
  ghost predicate RaisedAt(s: seq<real>, r: seq<real>, j: int)
  {
    0 <= j < |s| && r == s[j := 1.0]
  }

  /** Raising one entry of an all-zero list gives a one-hot list. */
  lemma RaisedZeroIsOneHot(s: seq<real>, r: seq<real>, j: int)
    requires forall k :: 0 <= k < |s| ==> s[k] == 0.0
    requires RaisedAt(s, r, j)
    ensures OneHot(r)
  {
    assert r[j] == 1.0;
  }

  /** Sets the slot a name denotes, the way `setattr` does; other names leave the record alone. */
  function SetByName(f: FieldFeatures, name: string, v: real): FieldFeatures
  {
    match name
    case "type_text" => f.(typeText := v)
    case "type_email" => f.(typeEmail := v)
    case "type_password" => f.(typePassword := v)
    case "type_tel" => f.(typeTel := v)
    case "type_number" => f.(typeNumber := v)
    case "type_search" => f.(typeSearch := v)
    case "type_url" => f.(typeUrl := v)
    case "type_other" => f.(typeOther := v)
    case "auto_username" => f.(autoUsername := v)
    case "auto_email" => f.(autoEmail := v)
    case "auto_current_password" => f.(autoCurrentPassword := v)
    case "auto_new_password" => f.(autoNewPassword := v)
    case "auto_one_time_code" => f.(autoOneTimeCode := v)
    case "auto_off" => f.(autoOff := v)
    case "auto_other" => f.(autoOther := v)
    case "name_has_user" => f.(nameHasUser := v)
    case "name_has_login" => f.(nameHasLogin := v)
    case "name_has_email" => f.(nameHasEmail := v)
    case "name_has_pass" => f.(nameHasPass := v)
    case "name_length" => f.(nameLength := v)
    case "id_has_user" => f.(idHasUser := v)
    case "id_has_login" => f.(idHasLogin := v)
    case "id_has_email" => f.(idHasEmail := v)
    case "id_has_pass" => f.(idHasPass := v)
    case "id_length" => f.(idLength := v)
    case "placeholder_has_user" => f.(placeholderHasUser := v)
    case "placeholder_has_email" => f.(placeholderHasEmail := v)
    case "placeholder_has_pass" => f.(placeholderHasPass := v)
    case "placeholder_length" => f.(placeholderLength := v)
    case "aria_label_has_user" => f.(ariaLabelHasUser := v)
    case "aria_label_has_email" => f.(ariaLabelHasEmail := v)
    case "aria_label_has_pass" => f.(ariaLabelHasPass := v)
    case "aria_label_length" => f.(ariaLabelLength := v)
    case "parent_is_form" => f.(parentIsForm := v)
    case "parent_is_div" => f.(parentIsDiv := v)
    case "parent_is_section" => f.(parentIsSection := v)
    case "sibling_count" => f.(siblingCount := v)
    case "has_password_sibling" => f.(hasPasswordSibling := v)
    case "has_email_sibling" => f.(hasEmailSibling := v)
    case "form_has_submit" => f.(formHasSubmit := v)
    case "form_action_has_login" => f.(formActionHasLogin := v)
    case "is_required" => f.(isRequired := v)
    case "has_placeholder" => f.(hasPlaceholder := v)
    case "has_aria_label" => f.(hasAriaLabel := v)
    case "inputmode_numeric" => f.(inputmodeNumeric := v)
    case _ => f
  }

  /** The slots in model order. */
  function ToVector(f: FieldFeatures): (v: seq<real>)
    ensures |v| == SlotCount
  {
    TypeFlags(f) + AutocompleteFlags(f) + NameSlots(f) + IdSlots(f) + PlaceholderSlots(f) + AriaLabelSlots(f) + ContextSlots(f) + AttributeFlags(f)
  }

  /** Rebuilds a record from a vector in model order. */
  function FromVector(v: seq<real>): FieldFeatures
    requires |v| == SlotCount
  {
    FieldFeatures(
      v[0],
      v[1],
      v[2],
      v[3],
      v[4],
      v[5],
      v[6],
      v[7],
      v[8],
      v[9],
      v[10],
      v[11],
      v[12],
      v[13],
      v[14],
      v[15],
      v[16],
      v[17],
      v[18],
      v[19],
      v[20],
      v[21],
      v[22],
      v[23],
      v[24],
      v[25],
      v[26],
      v[27],
      v[28],
      v[29],
      v[30],
      v[31],
      v[32],
      v[33],
      v[34],
      v[35],
      v[36],
      v[37],
      v[38],
      v[39],
      v[40],
      v[41],
      v[42],
      v[43],
      v[44]
    )
  }

  /** The slot names in model order. */
  function FeatureNames(): (names: seq<string>)
    ensures |names| == SlotCount
  {
    ["type_text", "type_email", "type_password", "type_tel", "type_number", "type_search", "type_url", "type_other"] +
    ["auto_username", "auto_email", "auto_current_password", "auto_new_password", "auto_one_time_code", "auto_off", "auto_other"] +
    ["name_has_user", "name_has_login", "name_has_email", "name_has_pass", "name_length"] +
    ["id_has_user", "id_has_login", "id_has_email", "id_has_pass", "id_length"] +
    ["placeholder_has_user", "placeholder_has_email", "placeholder_has_pass", "placeholder_length"] +
    ["aria_label_has_user", "aria_label_has_email", "aria_label_has_pass", "aria_label_length"] +
    ["parent_is_form", "parent_is_div", "parent_is_section", "sibling_count", "has_password_sibling", "has_email_sibling", "form_has_submit", "form_action_has_login"] +
    ["is_required", "has_placeholder", "has_aria_label", "inputmode_numeric"]
  }

  /** The slot a name denotes, read as an attribute access on the record. */
  function Lookup(f: FieldFeatures, name: string): Option<real>
  {
    match name
    case "type_text" => Some(f.typeText)
    case "type_email" => Some(f.typeEmail)
    case "type_password" => Some(f.typePassword)
    case "type_tel" => Some(f.typeTel)
    case "type_number" => Some(f.typeNumber)
    case "type_search" => Some(f.typeSearch)
    case "type_url" => Some(f.typeUrl)
    case "type_other" => Some(f.typeOther)
    case "auto_username" => Some(f.autoUsername)
    case "auto_email" => Some(f.autoEmail)
    case "auto_current_password" => Some(f.autoCurrentPassword)
    case "auto_new_password" => Some(f.autoNewPassword)
    case "auto_one_time_code" => Some(f.autoOneTimeCode)
    case "auto_off" => Some(f.autoOff)
    case "auto_other" => Some(f.autoOther)
    case "name_has_user" => Some(f.nameHasUser)
    case "name_has_login" => Some(f.nameHasLogin)
    case "name_has_email" => Some(f.nameHasEmail)
    case "name_has_pass" => Some(f.nameHasPass)
    case "name_length" => Some(f.nameLength)
    case "id_has_user" => Some(f.idHasUser)
    case "id_has_login" => Some(f.idHasLogin)
    case "id_has_email" => Some(f.idHasEmail)
    case "id_has_pass" => Some(f.idHasPass)
    case "id_length" => Some(f.idLength)
    case "placeholder_has_user" => Some(f.placeholderHasUser)
    case "placeholder_has_email" => Some(f.placeholderHasEmail)
    case "placeholder_has_pass" => Some(f.placeholderHasPass)
    case "placeholder_length" => Some(f.placeholderLength)
    case "aria_label_has_user" => Some(f.ariaLabelHasUser)
    case "aria_label_has_email" => Some(f.ariaLabelHasEmail)
    case "aria_label_has_pass" => Some(f.ariaLabelHasPass)
    case "aria_label_length" => Some(f.ariaLabelLength)
    case "parent_is_form" => Some(f.parentIsForm)
    case "parent_is_div" => Some(f.parentIsDiv)
    case "parent_is_section" => Some(f.parentIsSection)
    case "sibling_count" => Some(f.siblingCount)
    case "has_password_sibling" => Some(f.hasPasswordSibling)
    case "has_email_sibling" => Some(f.hasEmailSibling)
    case "form_has_submit" => Some(f.formHasSubmit)
    case "form_action_has_login" => Some(f.formActionHasLogin)
    case "is_required" => Some(f.isRequired)
    case "has_placeholder" => Some(f.hasPlaceholder)
    case "has_aria_label" => Some(f.hasAriaLabel)
    case "inputmode_numeric" => Some(f.inputmodeNumeric)
    case _ => None
  }

  /**
   * The name at position i of the name list denotes the slot at position i of
   * the vector, for every record.
   */
  lemma NamesMatchVector(f: FieldFeatures)
    ensures forall i :: 0 <= i < SlotCount ==> Lookup(f, FeatureNames()[i]) == Some(ToVector(f)[i])
  {
    NamesMatchLeading(f);
    NamesMatchMiddle(f);
    NamesMatchTrailing(f);
  }

  /** `NamesMatchVector` on the type, autocomplete and name slots. */
  lemma NamesMatchLeading(f: FieldFeatures)
    ensures forall i :: 0 <= i < 20 ==> Lookup(f, FeatureNames()[i]) == Some(ToVector(f)[i])
  {
    forall i | 0 <= i < 20
      ensures Lookup(f, FeatureNames()[i]) == Some(ToVector(f)[i])
    {
      SlotCases(i);
    }
  }

  /** `NamesMatchVector` on the id, placeholder and aria-label slots. */
  lemma NamesMatchMiddle(f: FieldFeatures)
    ensures forall i :: 20 <= i < 33 ==> Lookup(f, FeatureNames()[i]) == Some(ToVector(f)[i])
  {
    forall i | 20 <= i < 33
      ensures Lookup(f, FeatureNames()[i]) == Some(ToVector(f)[i])
    {
      SlotCases(i);
    }
  }

  /** `NamesMatchVector` on the context and attribute slots. */
  lemma NamesMatchTrailing(f: FieldFeatures)
    ensures forall i :: 33 <= i < SlotCount ==> Lookup(f, FeatureNames()[i]) == Some(ToVector(f)[i])
  {
    forall i | 33 <= i < SlotCount
      ensures Lookup(f, FeatureNames()[i]) == Some(ToVector(f)[i])
    {
      SlotCases(i);
    }
  }

  /** Rebuilding a record from a vector and flattening it gives the vector back. */
  lemma VectorRoundTrip(v: seq<real>)
    requires |v| == SlotCount
    ensures ToVector(FromVector(v)) == v
  {
    var w := ToVector(FromVector(v));
    forall i | 0 <= i < SlotCount
      ensures w[i] == v[i]
    {
      SlotCases(i);
    }
  }

  /** Flattening a record and rebuilding it gives the record back. */
  lemma RecordRoundTrip(f: FieldFeatures)
    ensures FromVector(ToVector(f)) == f
  {
  }

  /** A slot index is one of the 45 literal positions. */
  lemma SlotCases(i: int)
    requires 0 <= i < SlotCount
    ensures i == 0 || i == 1 || i == 2 || i == 3 || i == 4 || i == 5 || i == 6 || i == 7 || i == 8 || i == 9 || i == 10 || i == 11 || i == 12 || i == 13 || i == 14 || i == 15 || i == 16 || i == 17 || i == 18 || i == 19 || i == 20 || i == 21 || i == 22 || i == 23 || i == 24 || i == 25 || i == 26 || i == 27 || i == 28 || i == 29 || i == 30 || i == 31 || i == 32 || i == 33 || i == 34 || i == 35 || i == 36 || i == 37 || i == 38 || i == 39 || i == 40 || i == 41 || i == 42 || i == 43 || i == 44
  {
  }
}

/**
 * Worked examples on concrete inputs: the first catalog entry (GitHub's login
 * form), autocomplete priority, and the exclusion of structural inputs.
 */
module Scenarios {
  import opened Options
  import opened Text
  import opened Schema
  import opened Patterns
  import opened Dom
  import opened Extractor
  import opened Dataset

  /** The GitHub login form, as parsed: a document holding one form with two labels and three inputs. */
  function GitHubLogin(): Element
  {
    Element("[document]", map[], [
      Element("form", map["action" := "/session", "method" := "post"], [
        Element("label", map["for" := "login_field"], []),
        Element("input", map["type" := "text", "name" := "login", "id" := "login_field",
                             "autocomplete" := "username"], []),
        Element("label", map["for" := "password"], []),
        Element("input", map["type" := "password", "name" := "password", "id" := "password",
                             "autocomplete" := "current-password"], []),
        Element("input", map["type" := "submit", "name" := "commit", "value" := "Sign in"], [])
      ])
    ])
  }

  /** The catalog entry for the GitHub login form. */
  function GitHubSite(): Site
  {
    Site("GitHub Login", map["login" := "username", "password" := "password"], GitHubLogin())
  }

  /** Only the login and password inputs are fields: the labels are not inputs, and the commit input is a submit. */
  lemma GitHubFieldShape(q: Path)
    requires q != [] && ValidPath(GitHubLogin(), q) && IsField(At(GitHubLogin(), q))
    ensures q == [0, 1] || q == [0, 3]
  {
    var doc := GitHubLogin();
    var form := doc.children[0];
    assert q[0] == 0;
    assert At(doc, q) == At(form, q[1..]);
    assert q[1..] != [];
    var c := form.children[q[1]];
    assert Lower("submit") == "submit";
    assert q[1..][1..] == q[2..];
    assert At(form, q[1..]) == At(c, q[2..]);
    assert ValidPath(c, q[2..]) && c.children == [];
    assert q[2..] == [];
    assert q == [0, q[1]];
  }

  /** The login input is a field. */
  lemma GitHubLoginIsField(doc: Element)
    requires doc == GitHubLogin()
    ensures ValidPath(doc, [0, 1]) && IsField(At(doc, [0, 1]))
  {
  }

  /** The password input is a field. */
  lemma GitHubPasswordIsField(doc: Element)
    requires doc == GitHubLogin()
    ensures ValidPath(doc, [0, 3]) && IsField(At(doc, [0, 3]))
  {
  }

  /** The login and password inputs are among the field paths. */
  lemma GitHubFieldMembers(doc: Element)
    requires doc == GitHubLogin()
    ensures [0, 1] in FieldPaths(doc) && [0, 3] in FieldPaths(doc)
  {
    GitHubLoginIsField(doc);
    FieldPathsMember(doc, [0, 1]);
    GitHubPasswordIsField(doc);
    FieldPathsMember(doc, [0, 3]);
  }

  /** A path before itself does not exist. */
  lemma {:induction false} BeforeIrreflexive(p: Path)
    ensures !Before(p, p)
    decreases |p|
  {
    if p != [] {
      BeforeIrreflexive(p[1..]);
    }
  }

  /** A list in document order repeats no path. */
  lemma NoRepeat(ps: seq<Path>, i: nat, j: nat)
    requires InDocumentOrder(ps) && i < j < |ps|
    ensures ps[i] != ps[j]
  {
    BeforeIrreflexive(ps[i]);
  }

  /** A list in document order holding both [0, 1] and [0, 3] and nothing else is exactly those two, in that order. */
  lemma {:induction false} OrderedPair(ps: seq<Path>)
    requires InDocumentOrder(ps) && [0, 1] in ps && [0, 3] in ps
    requires forall k :: 0 <= k < |ps| ==> ps[k] == [0, 1] || ps[k] == [0, 3]
    ensures ps == [[0, 1], [0, 3]]
  {
    BeforeIrreflexive([0, 1]);
    BeforeIrreflexive([0, 3]);
    assert !Before([0, 3], [0, 1]);
    if |ps| > 2 {
      NoRepeat(ps, 0, 1);
      NoRepeat(ps, 1, 2);
      NoRepeat(ps, 0, 2);
      assert false;
    }
    var j :| 0 <= j < |ps| && ps[j] == [0, 1];
    var k :| 0 <= k < |ps| && ps[k] == [0, 3];
    if j > k {
      assert false;
    }
    assert j == 0 && k == 1;
  }

  /** The two text-like inputs are the fields, in document order; the submit input and the labels are not. */
  lemma GitHubFields(doc: Element)
    requires doc == GitHubLogin()
    ensures FieldPaths(doc) == [[0, 1], [0, 3]]
  {
    var ps := FieldPaths(doc);
    GitHubFieldMembers(doc);
    forall k | 0 <= k < |ps| ensures ps[k] == [0, 1] || ps[k] == [0, 3] {
      FieldPathsOnlyFields(doc, ps[k]);
      GitHubFieldShape(ps[k]);
    }
    OrderedPair(ps);
  }

  // ---------------------------------------------------------------------------
  // Consequences of the extraction lemmas, for any document

  /** A record whose type flags classify "text" has type_text set and type_password clear. */
  lemma TextTypeSlots(f: FieldFeatures)
    requires TypeClassified(TypeFlags(f), "text")
    ensures f.typeText == 1.0 && f.typePassword == 0.0
  {
    var flags := TypeFlags(f);
    assert TypeIndex("text") == 0;
    assert flags[2] != 1.0;
  }

  /** An autocomplete hint mentioning "username" raises auto_username and nothing else. */
  lemma UsernameHintSlots(root: Element, p: Path)
    requires ValidPath(root, p) && Occurs("username", Lower(Attr(At(root, p), "autocomplete", "")))
    ensures var r := ExtractFromElement(root, p); r.autoUsername == 1.0 && r.autoCurrentPassword == 0.0
  {
    ExtractAutocompleteClassified(root, p);
    UsernameHintRecord(ExtractFromElement(root, p), Lower(Attr(At(root, p), "autocomplete", "")));
  }

  /** A record whose autocomplete flags classify a hint mentioning "username" has auto_username set and auto_current_password clear. */
  lemma UsernameHintRecord(f: FieldFeatures, auto: string)
    requires AutocompleteClassified(AutocompleteFlags(f), auto) && Occurs("username", auto)
    ensures f.autoUsername == 1.0 && f.autoCurrentPassword == 0.0
  {
    var flags := AutocompleteFlags(f);
    assert flags[0] == 1.0 && flags[2] != 1.0;
  }

  /**
   * An input directly inside a form, among three child inputs, one of them
   * another password input and none an email input.
   */
  lemma FormChildSlots(root: Element, p: Path)
    requires ValidPath(root, p) && p != []
    requires Lower(ParentOf(root, p).tag) == "form"
    requires |InputChildren(ParentOf(root, p).children)| == 3
    requires exists c :: c in ParentOf(root, p).children && c.tag == "input" && TypedSibling(c, At(root, p), "password")
    requires forall c :: c in ParentOf(root, p).children && c.tag == "input" ==> !TypedSibling(c, At(root, p), "email")
    ensures var r := ExtractFromElement(root, p);
      && r.parentIsForm == 1.0 && r.parentIsDiv == 0.0 && r.siblingCount * 10.0 == 3.0
      && r.hasPasswordSibling == 1.0 && r.hasEmailSibling == 0.0
  {
    ExtractParentContext(root, p);
  }

  /** An input whose nearest form has a submit control and a login-like action. */
  lemma LoginFormSlots(root: Element, p: Path, k: nat)
    requires ValidPath(root, p) && NearestAncestor(root, p, "form") == Some(k)
    requires ContainsSubmitControl(At(root, p[..k]))
    requires AnyMatches(Attr(At(root, p[..k]), "action", ""), AuthActionPatterns)
    ensures var r := ExtractFromElement(root, p); r.formHasSubmit == 1.0 && r.formActionHasLogin == 1.0
  {
    ExtractFormContext(root, p);
  }

  // ---------------------------------------------------------------------------
  // The login field of the GitHub form

  /** The login input is typed text: its type flag is type_text. */
  lemma GitHubLoginType(doc: Element)
    requires doc == GitHubLogin()
    ensures ValidPath(doc, [0, 1])
    ensures var r := ExtractFromElement(doc, [0, 1]); r.typeText == 1.0 && r.typePassword == 0.0
  {
    GitHubLoginIsField(doc);
    assert InputType(At(doc, [0, 1])) == "text";
    ExtractTypeClassified(doc, [0, 1]);
    TextTypeSlots(ExtractFromElement(doc, [0, 1]));
  }

  /** The login input's autocomplete hint "username" raises auto_username alone. */
  lemma GitHubLoginAutocomplete(doc: Element)
    requires doc == GitHubLogin()
    ensures ValidPath(doc, [0, 1])
    ensures var r := ExtractFromElement(doc, [0, 1]); r.autoUsername == 1.0 && r.autoCurrentPassword == 0.0
  {
    GitHubLoginHint(doc);
    UsernameHintSlots(doc, [0, 1]);
  }

  /** The login input's autocomplete hint mentions "username". */
  lemma GitHubLoginHint(doc: Element)
    requires doc == GitHubLogin()
    ensures ValidPath(doc, [0, 1]) && Occurs("username", Lower(Attr(At(doc, [0, 1]), "autocomplete", "")))
  {
    GitHubLoginIsField(doc);
    var hint := Attr(At(doc, [0, 1]), "autocomplete", "");
    assert hint == "username";
    LowerKeepsLowerCase(hint);
    assert OccursAt("username", hint, 0);
  }

  /** The parent of the login input is the form. */
  lemma GitHubLoginParentIsForm(doc: Element)
    requires doc == GitHubLogin()
    ensures ValidPath(doc, [0, 1]) && ParentOf(doc, [0, 1]) == At(doc, [0])
  {
    var p: Path := [0, 1];
    assert p[..|p| - 1] == [0];
  }

  /** The form's child inputs: login, password and commit. */
  lemma GitHubFormInputs(form: Element)
    requires form == GitHubLogin().children[0]
    ensures |InputChildren(form.children)| == 3
  {
    var cs := form.children;
    assert cs[1..][1..][1..][1..] == [cs[4]];
  }

  /** The form's password input is a sibling of the login input typed password. */
  lemma GitHubPasswordSibling(form: Element, input: Element)
    requires form == GitHubLogin().children[0] && input == form.children[1]
    ensures form.children[3] in form.children && form.children[3].tag == "input"
    ensures TypedSibling(form.children[3], input, "password")
  {
    assert form.children[3].attrs["type"] != input.attrs["type"];
    assert Lower("password") == "password";
  }

  /** No child input of the form is typed email. */
  lemma GitHubNoEmailSibling(form: Element, input: Element)
    requires form == GitHubLogin().children[0] && input == form.children[1]
    ensures forall c :: c in form.children && c.tag == "input" ==> !TypedSibling(c, input, "email")
  {
    var cs := form.children;
    assert |cs| == 5 && cs[0].tag == "label" && cs[2].tag == "label";
    assert Attr(cs[3], "type", "") == "password" && Attr(cs[4], "type", "") == "submit";
    NoEmailAmong(cs, input);
  }

  /**
   * Among a label, `input`, a label, a password input and a submit input, no
   * input other than `input` is typed email.
   */
  lemma NoEmailAmong(cs: seq<Element>, input: Element)
    requires |cs| == 5 && cs[0].tag == "label" && cs[1] == input && cs[2].tag == "label"
    requires Attr(cs[3], "type", "") == "password" && Attr(cs[4], "type", "") == "submit"
    ensures forall c :: c in cs && c.tag == "input" ==> !TypedSibling(c, input, "email")
  {
    assert |Lower(Attr(cs[3], "type", ""))| == 8 && |Lower(Attr(cs[4], "type", ""))| == 6;
    forall i | 0 <= i < |cs| && cs[i].tag == "input" ensures !TypedSibling(cs[i], input, "email") {
      if i == 3 {
        assert |Lower(Attr(cs[i], "type", ""))| != |"email"|;
      } else if i == 4 {
        assert |Lower(Attr(cs[i], "type", ""))| != |"email"|;
      }
    }
  }

  /** The parent, count and sibling facts of the login input. */
  lemma GitHubLoginNeighbours(doc: Element)
    requires doc == GitHubLogin()
    ensures ValidPath(doc, [0, 1])
    ensures Lower(ParentOf(doc, [0, 1]).tag) == "form"
    ensures |InputChildren(ParentOf(doc, [0, 1]).children)| == 3
    ensures exists c :: c in ParentOf(doc, [0, 1]).children && c.tag == "input" && TypedSibling(c, At(doc, [0, 1]), "password")
    ensures forall c :: c in ParentOf(doc, [0, 1]).children && c.tag == "input" ==> !TypedSibling(c, At(doc, [0, 1]), "email")
  {
    GitHubLoginParentIsForm(doc);
    var form := At(doc, [0]);
    assert form == doc.children[0];
    assert Lower("form") == "form";
    GitHubFormInputs(form);
    assert At(doc, [0, 1]) == form.children[1];
    GitHubPasswordSibling(form, form.children[1]);
    GitHubNoEmailSibling(form, form.children[1]);
  }

  /** The login input sits directly in the form, next to a password input and no email input. */
  lemma GitHubLoginParent(doc: Element)
    requires doc == GitHubLogin()
    ensures ValidPath(doc, [0, 1])
    ensures var r := ExtractFromElement(doc, [0, 1]);
      && r.parentIsForm == 1.0 && r.parentIsDiv == 0.0 && r.siblingCount * 10.0 == 3.0
      && r.hasPasswordSibling == 1.0 && r.hasEmailSibling == 0.0
  {
    GitHubLoginNeighbours(doc);
    FormChildSlots(doc, [0, 1]);
  }

  /** The nearest form above the login input is the document's first child. */
  lemma GitHubLoginNearestForm(doc: Element)
    requires doc == GitHubLogin()
    ensures ValidPath(doc, [0, 1]) && NearestAncestor(doc, [0, 1], "form") == Some(1)
  {
    var p: Path := [0, 1];
    assert p[..1] == [0] && p[..0] == [];
    assert At(doc, []) == doc && doc.tag == "[document]" && doc.tag != "form";
    assert !HasTagAt(doc, [], "form");
    assert HasTagAt(doc, p[..1], "form");
  }

  /** The GitHub form holds the commit submit input. */
  lemma GitHubFormHasSubmit(form: Element)
    requires form == GitHubLogin().children[0]
    ensures ContainsSubmitControl(form)
  {
    assert ValidPath(form, [4]) && IsSubmitControl(At(form, [4]));
  }

  /** The GitHub form's action "/session" mentions "session". */
  lemma GitHubFormAction(form: Element)
    requires form == GitHubLogin().children[0]
    ensures AnyMatches(Attr(form, "action", ""), AuthActionPatterns)
  {
    assert Attr(form, "action", "") == "/session";
    SessionActionMatches(Attr(form, "action", ""));
  }

  /** The action "/session" contains the fourth authentication fragment, "session". */
  lemma SessionActionMatches(action: string)
    requires action == "/session"
    ensures AnyMatches(action, AuthActionPatterns)
  {
    var pat := AuthActionPatterns[3];
    assert pat == "session";
    LowerKeepsLowerCase(action);
    LowerKeepsLowerCase(pat);
    assert OccursAt(Lower(pat), Lower(action), 1);
    assert Contains(Lower(action), Lower(pat));
  }

  /** The form holding the login input has a submit control and posts to "/session". */
  lemma GitHubLoginForm(doc: Element)
    requires doc == GitHubLogin()
    ensures ValidPath(doc, [0, 1])
    ensures var r := ExtractFromElement(doc, [0, 1]); r.formHasSubmit == 1.0 && r.formActionHasLogin == 1.0
  {
    GitHubLoginNearestForm(doc);
    var p: Path := [0, 1];
    assert p[..1] == [0];
    GitHubFormHasSubmit(At(doc, [0]));
    GitHubFormAction(At(doc, [0]));
    LoginFormSlots(doc, p, 1);
  }

  /** The i-th sample of a catalog entry carries the label its entry gives the i-th field's name. */
  lemma SiteSampleLabel(site: Site, i: nat)
    requires i < |FieldPaths(site.document)|
    ensures var ss := SiteSamples(site); var e := At(site.document, FieldPaths(site.document)[i]);
      i < |ss| && ss[i].classLabel == LabelFor(site.labels, Attr(e, "name", "")) &&
      ss[i].elementName == Attr(e, "name", "")
  {
  }

  /** A catalog entry whose fields are the login and password inputs at [0, 1] and [0, 3]. */
  lemma TwoFieldLabels(site: Site)
    requires FieldPaths(site.document) == [[0, 1], [0, 3]]
    requires Attr(At(site.document, [0, 1]), "name", "") == "login"
    requires Attr(At(site.document, [0, 3]), "name", "") == "password"
    requires site.labels == map["login" := "username", "password" := "password"]
    ensures var ss := SiteSamples(site);
      |ss| == 2 && ss[0].classLabel == "username" && ss[1].classLabel == "password" &&
      ss[0].elementName == "login" && ss[1].elementName == "password"
  {
    var ps := FieldPaths(site.document);
    assert ps[0] == [0, 1] && ps[1] == [0, 3];
    LoginPasswordMap(site.labels);
    SiteSampleLabel(site, 0);
    SiteSampleLabel(site, 1);
  }

  /** The GitHub entry's label map sends "login" to username and "password" to password. */
  lemma LoginPasswordMap(labels: map<string, string>)
    requires labels == map["login" := "username", "password" := "password"]
    ensures LabelFor(labels, "login") == "username" && LabelFor(labels, "password") == "password"
  {
  }

  /** The login and password inputs are named "login" and "password". */
  lemma GitHubFieldNames(doc: Element)
    requires doc == GitHubLogin()
    ensures ValidPath(doc, [0, 1]) && Attr(At(doc, [0, 1]), "name", "") == "login"
    ensures ValidPath(doc, [0, 3]) && Attr(At(doc, [0, 3]), "name", "") == "password"
  {
    var form := doc.children[0];
    assert At(doc, [0, 1]) == form.children[1] && At(doc, [0, 3]) == form.children[3];
  }

  /** The catalog labels the two fields username and password, in document order. */
  lemma GitHubLabels(doc: Element, site: Site)
    requires doc == GitHubLogin()
    requires site == Site("GitHub Login", map["login" := "username", "password" := "password"], doc)
    ensures var ss := SiteSamples(site);
      |ss| == 2 && ss[0].classLabel == "username" && ss[1].classLabel == "password" &&
      ss[0].elementName == "login" && ss[1].elementName == "password"
  {
    GitHubFields(doc);
    GitHubFieldNames(doc);
    TwoFieldLabels(site);
  }

  // ---------------------------------------------------------------------------
  // Small cases

  /** "username email" mentions both hints; the username hint wins and the email flag stays 0. */
  lemma UsernameEmailHint(hint: string)
    requires hint == "username email"
    ensures var r := SetAutocomplete(Fresh(), hint);
      r.autoUsername == 1.0 && r.autoEmail == 0.0 && OneHot(AutocompleteFlags(r))
  {
    assert Lower(hint) == hint;
    assert OccursAt("username", hint, 0);
    AutocompletePriority(Fresh(), hint);
  }

  /** Structural inputs are skipped whatever the case of their type. */
  lemma StructuralInputsSkipped(hidden: Element, submit: Element)
    requires hidden == Element("input", map["type" := "Hidden"], [])
    requires submit == Element("input", map["type" := "SUBMIT"], [])
    ensures !IsField(hidden) && !IsField(submit)
  {
    assert Attr(hidden, "type", "text") == "Hidden" && Lower("Hidden") == "hidden";
    assert Attr(submit, "type", "text") == "SUBMIT" && Lower("SUBMIT") == "submit";
  }

  /** An input without a type attribute is a text field; an element that is not an input is never a field. */
  lemma UntypedInputIsField(bare: Element, button: Element)
    requires bare == Element("input", map[], [])
    requires button == Element("button", map["type" := "text"], [])
    ensures IsField(bare) && InputType(bare) == "text"
    ensures !IsField(button)
  {
    assert Attr(bare, "type", "text") == "text" && Lower("text") == "text";
  }
}

# Login-field feature encoder and training corpus, in Dafny

This project models the core of the model-training package of a login-form
field detector. That core has three parts:

- the **feature encoder**, which turns one `<input>` element of an
  already-parsed HTML document into a fixed record of 45 numeric slots;
- the **corpus builder**, which labels every field of a catalog of sample
  sites and adds the fields of negative examples as "none";
- the **augmentation stage**, which grows the corpus with perturbed copies of
  labelled samples.

It also covers how the training script maps class labels to class codes and
decodes saved rows.

The modules follow the program's structure:

| module | file | what it holds |
|---|---|---|
| `Options` | options.dfy | `Option` and `Result` |
| `Text` | text.dfy | ASCII lower-casing; substring search, exact and case-insensitive |
| `Schema` | schema.dfy | the 45-slot `FieldFeatures` record; `ToVector`, `FromVector`, `FeatureNames`; slot groups |
| `Patterns` | patterns.dfy | the pattern tables and the pattern score `MatchScore` |
| `Dom` | dom.dfy | an abstract parsed document (`Element(tag, attrs, children)`); elements addressed by child-index paths; document order |
| `Extractor` | extractor.dfy | the per-element encoder (`ExtractFromElement`) and the per-document field walk (`ExtractFeaturesFromHtml`) |
| `Dataset` | dataset.dfy | `TrainingSample`; `BuildDataset`; `AugmentDataset` driven by explicit random draws; the saved-row layout |
| `Training` | labels.dfy | the label codes, their inverse, and `LoadDataset` |
| `Scenarios` | scenarios.dfy | the "GitHub Login" catalog entry as a concrete tree, with lemmas about its samples |

## How the model reads the code

- **Slots.** Every slot is a `real`.
- **Element address.** An element is a path of child indices from the document root. The root stands for the parser's `[document]` node, so every input in a parsed document has a parent.
- **Document order.** This is lexicographic order on paths (`Dom.Before`). `Dom.Descendants` is the pre-order walk `find_all` performs.
- **Case.** `.lower()` and the `re.I` flag are ASCII lower-casing.
- **Pattern matching.** Every pattern is a literal fragment. Matching a pattern is therefore case-insensitive substring search.
- **Form action.** The action alternation `login|signin|auth|session` is "any of four fragments occurs" (`Patterns.AuthActionPatterns`).
- **Element equality.** Equality on parsed tags is structural. The sibling check `sibling != input_elem` is therefore datatype inequality: an attribute-identical twin of the input does not count as a sibling.
- **Random draws.** The generator becomes an explicit sequence of `Dataset.Round` draws. Each round holds the `random.choice` index, the two `random.random()` coins and the two unit draws behind `random.uniform(0.3, 0.8)`.

The code behaves as follows on points a reader might not expect:

- **Type flags.** There are eight type flags, not seven: `type_other` is a slot of its own.
- **Sibling count.** `sibling_count` counts every direct-child input of the parent, the element itself included. Only the password/email sibling flags leave the element out.
- **Required flag.** `is_required` tests whether the `required` attribute's value is non-empty. A bare `required`, whose parsed value is the empty text, gives 0.
- **Dropout.** The autocomplete dropout clears three of the seven autocomplete flags and raises `auto_other`. An augmented sample can therefore carry two autocomplete flags (`Dataset.DropoutCanRaiseTwoAutocompleteFlags`). The one-flag property is stated only for extracted records.
- **Submit control.** A submit control is a descendant `button` or `input` whose `type` attribute is exactly `submit`. The test is case-sensitive, as the attribute filter of `find` is.

## Model

| member | source | states |
|---|---|---|
| Schema.ToVector | packages/model-training/src/features.py:61-111 | the flattened record has exactly 45 entries |
| Schema.FeatureNames | packages/model-training/src/features.py:113-161 | the name list has exactly 45 entries |
| Schema.NamesMatchVector | packages/model-training/src/features.py:61-161 | for every record, the i-th name denotes the slot at position i of the vector (name order equals vector order) |
| Schema.VectorRoundTrip | packages/model-training/src/features.py:61-111 | rebuilding a record from any 45-entry vector and flattening it gives that vector back |
| Text.Contains | packages/model-training/src/features.py:286-294 | the left-to-right scan is true exactly when the fragment occurs in the text (Python's `in`) |
| Text.ContainsIgnoringCaseMeaning | packages/model-training/src/features.py:301-305 | a case-insensitive search succeeds exactly when some window of the text equals the pattern up to ASCII case |
| Patterns.MatchScore | packages/model-training/src/features.py:301-305 | every score lies in [0, 1], and the empty text scores 0 |
| Patterns.ScoreZeroIffNoMatch | packages/model-training/src/features.py:301-305 | a score is 0 exactly when the text is empty or no pattern occurs in it |
| Patterns.MatchScoreFormula | packages/model-training/src/features.py:301-305 | for non-empty text, the score is min(3k/n, 1), where k counts the patterns occurring in any case among n |
| Patterns.ScoreSaturation | packages/model-training/src/features.py:305 | a score is 1 exactly when at least a third of the patterns occur |
| Patterns.LoginScoreIsIndicator | packages/model-training/src/features.py:222-229 | against the one-pattern login list, the score is 1 when "login" occurs in any case and 0 otherwise |
| Patterns.EmailScoreIsIndicator | packages/model-training/src/features.py:179-183 | the email score is 1 when the text contains "mail" in any case and 0 otherwise, because one match out of three already saturates |
| Extractor.SetInputType | packages/model-training/src/features.py:269-282 | only type flags change, and exactly one is raised: the slot whose name the type table gives, or `type_other` |
| Extractor.InputTypeOneHot | packages/model-training/src/features.py:269-282 | on a record with no type flag set, exactly one of the 8 type flags is 1, and it is the one named by the table (`type_other` for unmapped types) |
| Extractor.TypeIndexNamesSlot | packages/model-training/src/features.py:269-282 | the position a type selects among the 8 type flags carries the slot name the type table gives (`type_other` for unmapped types) |
| Extractor.ClassifiedType | packages/model-training/src/features.py:212-215 | the first stage of extraction leaves exactly one type flag set, the one the element's lower-cased type selects |
| Extractor.SetAutocomplete | packages/model-training/src/features.py:284-299 | only autocomplete flags change, and the one raised is the rank of the first matching hint in the lower-cased attribute |
| Extractor.AutocompletePriority | packages/model-training/src/features.py:284-299 | on a clear record, exactly one of 7 flags is set; each is set exactly when its hint occurs and no higher-priority hint does; `auto_off` only for the exact text "off" |
| Extractor.TextFeatures | packages/model-training/src/features.py:220-256 | only the name/id/placeholder/aria-label slots change; each of the 14 score slots is the pattern score of its attribute (absent read as empty) against its own table, so every score lies in [0, 1]; the lengths are the attribute lengths over 50 or 100; the login slots are 0/1 indicators |
| Extractor.ParentTagFlags | packages/model-training/src/features.py:310-313 | at most one parent flag is set, and each is set exactly when the lower-cased parent tag is form, div or section |
| Extractor.SiblingFlags | packages/model-training/src/features.py:315-324 | the count is the number of the parent's direct-child inputs over 10; a sibling flag is raised exactly when another child input has that lower-cased type |
| Extractor.HasSubmitControl | packages/model-training/src/features.py:328-329 | the document-order search succeeds exactly when some proper descendant of the form is a button or input typed "submit" |
| Extractor.FormFlags | packages/model-training/src/features.py:327-334 | the submit flag is set exactly when the form holds a submit control; the action flag exactly when the action contains login, signin, auth or session in any case |
| Extractor.ContextFeatures | packages/model-training/src/features.py:307-334 | only context slots change; a parentless element keeps its parent and sibling slots; otherwise they follow the parent; without a form ancestor the form slots are unchanged, and with one they describe the nearest form |
| Extractor.PresenceFlags | packages/model-training/src/features.py:260-265 | `is_required`, `has_placeholder` and `has_aria_label` are set exactly when the attribute is present and non-empty; `inputmode_numeric` exactly when inputmode is "numeric" |
| Extractor.ExtractTypeClassified | packages/model-training/src/features.py:212-215 | an extracted record has exactly one type flag set: the one the lower-cased `type` (default "text") maps to |
| Extractor.ExtractAutocompleteClassified | packages/model-training/src/features.py:217-218 | an extracted record's autocomplete flags classify the lower-cased `autocomplete` attribute (default "") by first-match priority |
| Extractor.ExtractTextScores | packages/model-training/src/features.py:220-256 | an extracted record scores each attribute against its own table, has bounded scores, lengths of name/id over 50 and placeholder/aria-label over 100, and 0/1 login indicators |
| Extractor.AbsentAttributeScoresZero | packages/model-training/src/features.py:220-256 | an absent or empty name, id, placeholder or aria-label scores 0 against every table |
| Extractor.EmailSlotsAreIndicators | packages/model-training/src/features.py:220-256 | each of the four email slots is 1 exactly when its attribute contains "mail" in any case, and 0 otherwise |
| Extractor.UserPassSlotsZeroIffNoMatch | packages/model-training/src/features.py:220-256 | each username and password slot is 0 exactly when its attribute is empty or no pattern of its table occurs in it |
| Extractor.ExtractParentContext | packages/model-training/src/features.py:308-324 | a parentless element has zero parent and sibling slots; otherwise it has at most one parent flag, a count that includes itself, and sibling flags iff another child input has that type |
| Extractor.ExtractFormContext | packages/model-training/src/features.py:326-334 | with no form ancestor, `form_has_submit` and `form_action_has_login` are 0; otherwise they are the nearest form's submit and action flags |
| Extractor.ExtractPresence | packages/model-training/src/features.py:260-265 | an extracted record's presence flags read the element's own attributes |
| Extractor.ExtractWellFormed | packages/model-training/src/features.py:209-267 | every extracted record has one type flag, one autocomplete flag, bounded scores, non-negative lengths and count, and at most one parent flag; every other flag is 0 or 1 |
| Extractor.FieldsAmong | packages/model-training/src/features.py:342-345 | the kept paths are exactly those leading to non-excluded inputs, in their original order |
| Extractor.FieldPaths | packages/model-training/src/features.py:342-345 | a path is listed exactly when it leads to an input whose lower-cased type is not hidden/submit/button/image/reset; the list is in document order |
| Extractor.ExtractFeaturesFromHtml | packages/model-training/src/features.py:337-358 | one record per field and never an excluded input type |
| Extractor.HtmlRecordsDescribeFields | packages/model-training/src/features.py:342-356 | the i-th record describes the i-th field in document order: its features, its id and name (empty when absent), and its input type; every record is well formed |
| Dom.DescendantsComplete | packages/model-training/src/features.py:342 | the document walk reaches every element of the tree |
| Dataset.SiteSamples | packages/model-training/src/dataset.py:302-318 | one sample per field of a catalog entry, in document order, with that field's features, id and name, the entry's name as source, and the label `labels.get(name, "none")` |
| Dataset.NegativeSamples | packages/model-training/src/dataset.py:320-331 | one sample per field of a negative example, in document order, every one labelled "none" with the example's name as source |
| Dataset.CatalogSamples | packages/model-training/src/dataset.py:302-318 | the catalog contributes one sample per field, and every sample carries the label its own entry gives its field name |
| Dataset.NegativeCorpus | packages/model-training/src/dataset.py:320-331 | the negative examples contribute one sample per field, all labelled "none" and naming a negative example as source |
| Dataset.BuildDataset | packages/model-training/src/dataset.py:299-333 | the corpus holds all catalog samples, then all negative samples; every sample not labelled "none" has the label its entry gives its field name |
| Dataset.CatalogSplit | packages/model-training/src/dataset.py:302-318 | the samples of catalog entry k come after those of the entries before it and before those after it |
| Dataset.NegativeSplit | packages/model-training/src/dataset.py:320-331 | the samples of negative example k come after those of the examples before it and before those after it |
| Dataset.BuildDatasetSiteOrder | packages/model-training/src/dataset.py:299-333 | entry k's samples sit between those of earlier and later entries, ahead of every negative sample (catalog order) |
| Dataset.BuildDatasetNegativeOrder | packages/model-training/src/dataset.py:299-333 | after all catalog samples, negative example k's samples sit between those of earlier and later examples |
| Dataset.ConcatMapSplit | packages/model-training/src/dataset.py:302-331 | in a concatenation of per-item blocks, item k's block follows the earlier blocks and precedes the later ones |
| Dataset.FuzzedScore | packages/model-training/src/dataset.py:373-374 | a fuzzed score drawn from a unit draw lies in [0.3, 0.8) |
| Dataset.Perturb | packages/model-training/src/dataset.py:361-384 | a synthesized sample copies label, id and name, suffixes the source with "_augmented", and differs from its base only in the username/email/current-password/other autocomplete flags (exactly when the dropout coin is below 0.3) and, for username samples only, in the two name scores (then in [0.3, 0.8)) |
| Dataset.DropoutCanRaiseTwoAutocompleteFlags | packages/model-training/src/dataset.py:366-370 | dropout of a new-password sample leaves two autocomplete flags set |
| Dataset.UsefulDrawsPrefix | packages/model-training/src/dataset.py:355-359 | a prefix of the draws never holds more labelled picks than the whole |
| Dataset.UsefulDrawsOfUnlabelledBase | packages/model-training/src/dataset.py:358-359 | a base corpus with no labelled sample yields no labelled pick |
| Dataset.AugmentDataset | packages/model-training/src/dataset.py:336-386 | the input stays a prefix; on success the length is max(len, target) and, for the draws used, the m-th appended sample is the perturbation of the m-th pick not labelled "none" under that round's coins and draws; an empty base fails when a sample is needed; an all-"none" base never reaches a larger target |
| Dataset.LabelledRounds | packages/model-training/src/dataset.py:355-359 | the picks that are not skipped, in draw order: as many as the labelled-pick count, each a round of the draws whose pick is labelled |
| Dataset.SynthesizedFromLabelledPicks | packages/model-training/src/dataset.py:355-384 | the m-th sample synthesized from a run of draws is the perturbation of the m-th labelled pick under that round |
| Dataset.SynthesizedAreAugmented | packages/model-training/src/dataset.py:355-384 | every synthesized sample is labelled and is a perturbed copy of a labelled base sample |
| Dataset.RowOf | packages/model-training/src/dataset.py:392-398 | a row holds a 45-entry vector that decodes back to the sample's features, and the sample's label, source, id and name verbatim |
| Dataset.SaveRows | packages/model-training/src/dataset.py:389-399 | one row per sample, in order, each decoding to its sample |
| Dataset.SavedRowColumns | packages/model-training/src/dataset.py:393 | column j of a saved row holds the slot named by the j-th feature name |
| Dataset.AugmentedRowAsWritten | packages/model-training/src/dataset.py:361-364 | the row the code writes for a synthesized sample decodes to its base's features, not to its own |
| Training.LabelCode | packages/model-training/src/train.py:35 | a code lies in [0, 5): the mapped code of a known label, 4 ("none") for any other |
| Training.LabelCodesDistinct | packages/model-training/src/train.py:15-21 | the five labels have distinct codes, and the codes are exactly 0 to 4 |
| Training.ReverseInverts | packages/model-training/src/train.py:23 | the reverse mapping undoes the mapping on every label and the mapping undoes it on every code; its keys are the mapping's values |
| Training.LoadDataset | packages/model-training/src/train.py:26-39 | one feature row and one code per input row, in order; every code is below 5; the code maps back to the row's label exactly when the label is known |
| Training.SaveLoadRoundTrip | packages/model-training/src/train.py:79 | a saved row has the exported model's input width of 45, decodes to its sample's features, and its code maps back to a known label |
| Scenarios.GitHubFields | packages/model-training/src/dataset.py:30-37 | the GitHub Login form has exactly two fields, the login input then the password input; the submit input is skipped |
| Scenarios.GitHubLoginType | packages/model-training/src/dataset.py:33 | the login input is classified as a text field |
| Scenarios.GitHubLoginAutocomplete | packages/model-training/src/dataset.py:33 | the login input's hint raises `auto_username` and not `auto_current_password` |
| Scenarios.GitHubLoginNeighbours | packages/model-training/src/dataset.py:31-37 | the login input's parent is the form; it has three child inputs, one a password sibling and none an email sibling |
| Scenarios.GitHubLoginForm | packages/model-training/src/dataset.py:31-37 | the login input's form has a submit control, and its action "/session" counts as an authentication action |
| Scenarios.GitHubLabels | packages/model-training/src/dataset.py:24-37 | the entry yields two samples labelled "username" and "password", in that order |
| Scenarios.UsernameEmailHint | packages/model-training/src/features.py:286-289 | the hint "username email" raises `auto_username` and not `auto_email` |
| Scenarios.StructuralInputsSkipped | packages/model-training/src/features.py:343-345 | inputs typed "Hidden" and "SUBMIT" are skipped: the type test ignores case |
| Scenarios.UntypedInputIsField | packages/model-training/src/features.py:343-345 | an input without a type attribute is a field typed "text"; a button is not a field, whatever its type |
| Scenarios.SessionActionMatches | packages/model-training/src/features.py:332-334 | the action "/session" matches the authentication-action patterns |
| Scenarios.GitHubFieldNames | packages/model-training/src/dataset.py:33-35 | the GitHub Login inputs at [0, 1] and [0, 3] are named "login" and "password" |

## Left out

- HTML parsing with BeautifulSoup: the model starts from a parsed tree. Text nodes are not modelled, because no rule reads them.
- General regular expressions: every pattern is a literal fragment, so matching is substring search. Case folding covers ASCII only; the `re.I` folding of non-ASCII letters is not modelled.
- The `float32` cast in `to_vector`: slots are exact reals, so no rounding is modelled.
- The Python random generator: its outputs are the `rounds` parameter. `Dataset.AugmentDataset` requires every draw to be in range (a valid index, unit values in [0, 1)), as the generator guarantees.
- Dataset.AugmentDataset: when the draws run out before the target is reached, the model returns `OutOfRandomness`. With a base corpus labelled "none" throughout, the source loops forever; the model shows that no supply of draws is ever enough.
- Dataset.FuzzedScore: `random.uniform(0.3, 0.8)` is modelled as `0.3 + 0.5u` with u in [0, 1), giving [0.3, 0.8). Floating-point rounding could in principle reach 0.8 itself.
- JSON and file I/O in `save_dataset` and `load_dataset`; the dictionary rows become the `Row` datatype.
- Training, evaluation and export (`train_model`, `evaluate_model`, `export_to_onnx`, `verify_onnx_model`, `main`): they are calls into xgboost, sklearn, onnx and onnxruntime. Only the class count 5 and the export input width 45 are kept.
- The `__main__` printing and `pipeline.py`: they are orchestration with no logic of their own.
- The literal site catalog and negative examples: only the GitHub Login entry is encoded as a concrete tree. `BuildDataset` takes the catalog as a parameter.
- The `TOTP_PATTERNS` table and the local pattern lists in `augment_dataset`: no feature reads them.
- The `url` of a catalog entry: no rule reads it.

## Findings

| source | as written | input that shows it | evidently intended | confidence | as-written member | corrected member |
|---|---|---|---|---|---|---|
| packages/model-training/src/dataset.py:361-364 with 393 | The attribute-copy loop walks `dir(base.features)`, so it also copies the bound method `to_vector` onto the copy as an instance attribute. `save_dataset` then calls the copy's `to_vector`, which flattens the base record, so a synthesized row carries its base's features. | A sample labelled "username" with `auto_username = 1`, augmented with a dropout coin below 0.3: the sample's record has `auto_username = 0`, but its saved row still holds 1 (the same loss applies to the fuzzed name scores). | Each saved row holds the features of its own sample, perturbations included. | high; not executed | Dataset.AugmentedRowAsWritten, Dataset.AugmentedRowLosesDropout | Dataset.RowOf, Dataset.SaveRows |

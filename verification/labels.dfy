/**
 * The training side of the corpus: the label codes, their inverse, and the
 * decoding of saved rows into a feature matrix and a code vector.
 */
module Training {
  import opened Schema
  import opened Dataset

  /** The class code of each label. */
  const LabelMapping: map<string, int> := map["username" := 0, "password" := 1, "email" := 2, "totp" := 3, "none" := 4]

  /** The label of each class code: `LabelMapping` inverted (`ReverseInverts` shows it is the inverse). */
  const ReverseMapping: map<int, string> := map[0 := "username", 1 := "password", 2 := "email", 3 := "totp", 4 := "none"]

  /** The number of classes the classifier is trained for. */
  const NumClass: nat := 5

  /** The width of the exported model's input. */
  const ExportInputWidth: nat := 45

  /** The code of a label; a label the mapping does not know counts as "none". */
  function LabelCode(text: string): (c: int)
    ensures 0 <= c < NumClass
    ensures text in LabelMapping ==> c == LabelMapping[text]
    ensures text !in LabelMapping ==> c == LabelMapping["none"]
  {
    if text in LabelMapping then LabelMapping[text] else 4
  }

  /** Distinct labels get distinct codes, and the codes are exactly 0 to 4. */
  lemma LabelCodesDistinct()
    ensures forall a, b :: a in LabelMapping && b in LabelMapping && a != b ==> LabelMapping[a] != LabelMapping[b]
    ensures forall c :: c in LabelMapping.Values <==> 0 <= c < NumClass
  {
    assert LabelMapping.Keys == {"username", "password", "email", "totp", "none"};
    assert LabelMapping["username"] == 0 && LabelMapping["password"] == 1 && LabelMapping["email"] == 2;
    assert LabelMapping["totp"] == 3 && LabelMapping["none"] == 4;
    forall c | 0 <= c < NumClass ensures c in LabelMapping.Values {
      if c == 0 { assert LabelMapping["username"] == c; }
      else if c == 1 { assert LabelMapping["password"] == c; }
      else if c == 2 { assert LabelMapping["email"] == c; }
      else if c == 3 { assert LabelMapping["totp"] == c; }
      else { assert LabelMapping["none"] == c; }
    }
  }

  /**
   * The reverse mapping is the inverse of the mapping: it undoes it on every
   * label, and the mapping undoes it on every code, so its keys are exactly the
   * mapping's values.
   */
  lemma ReverseInverts()
    ensures forall text :: text in LabelMapping ==> LabelMapping[text] in ReverseMapping &&
                                                      ReverseMapping[LabelMapping[text]] == text
    ensures forall c :: c in ReverseMapping ==> ReverseMapping[c] in LabelMapping &&
                                                LabelMapping[ReverseMapping[c]] == c
    ensures ReverseMapping.Keys == LabelMapping.Values
    ensures forall c :: 0 <= c < NumClass ==> c in ReverseMapping && LabelCode(ReverseMapping[c]) == c
  {
    assert LabelMapping.Keys == {"username", "password", "email", "totp", "none"};
    assert ReverseMapping.Keys == {0, 1, 2, 3, 4};
    LabelCodesDistinct();
  }

  /**
   * Decodes saved rows into the feature matrix and the class codes, row by
   * row: each feature row is the saved vector, each code the label's code.
   */
  method LoadDataset(rows: seq<Row>) returns (x: seq<seq<real>>, y: seq<int>)
    ensures |x| == |rows| && |y| == |rows|
    ensures forall i :: 0 <= i < |rows| ==> x[i] == rows[i].features
    ensures forall i :: 0 <= i < |rows| ==> 0 <= y[i] < NumClass
    ensures forall i :: 0 <= i < |rows| ==> (rows[i].classLabel in LabelMapping <==> y[i] != 4 || rows[i].classLabel == "none")
    ensures forall i :: 0 <= i < |rows| && rows[i].classLabel in LabelMapping ==>
      ReverseMapping[y[i]] == rows[i].classLabel
  {
    ReverseInverts();
    x := [];
    y := [];
    var i := 0;
    while i < |rows|
      invariant i <= |rows| && |x| == i && |y| == i
      invariant forall j :: 0 <= j < i ==> x[j] == rows[j].features && y[j] == LabelCode(rows[j].classLabel)
    {
      x := x + [rows[i].features];
      y := y + [LabelCode(rows[i].classLabel)];
      i := i + 1;
    }
  }

  /**
   * Saving a corpus and loading it back gives, per sample, a vector of the
   * exported model's width that decodes to the sample's features, and a code
   * that maps back to the sample's label when the label is a known one.
   */
  lemma SaveLoadRoundTrip(samples: seq<TrainingSample>, i: nat)
    requires i < |samples|
    ensures var row := SaveRows(samples)[i];
      && |row.features| == ExportInputWidth
      && FromVector(row.features) == samples[i].features
      && (samples[i].classLabel in LabelMapping ==> ReverseMapping[LabelCode(row.classLabel)] == samples[i].classLabel)
  {
    ReverseInverts();
  }
}

/**
 * The corpus builder, the augmentation stage and the row layout of the saved
 * corpus.
 */
module Dataset {
  import opened Options
  import opened Schema
  import opened Dom
  import opened Extractor

  /** A labelled feature record with its provenance. */
  datatype TrainingSample = TrainingSample(
    features: FieldFeatures,
    classLabel: string,
    source: string,
    elementId: string,
    elementName: string)

  /** A catalog entry: a named form snippet and the labels of its fields, keyed by `name` attribute. */
  datatype Site = Site(name: string, labels: map<string, string>, document: Element)

  /** A named form snippet with no authentication field. */
  datatype NegativeExample = NegativeExample(name: string, document: Element)

  /** The label a catalog entry gives a field name; "none" for a name it does not list. */
  function LabelFor(labels: map<string, string>, elementName: string): string
  {
    if elementName in labels then labels[elementName] else "none"
  }

  /** One sample per field of a catalog entry, in document order. */
  function SiteSamples(site: Site): (ss: seq<TrainingSample>)
    ensures |ss| == |FieldPaths(site.document)|
    ensures forall i :: 0 <= i < |ss| ==>
      var p := FieldPaths(site.document)[i]; var e := At(site.document, p);
      && ss[i].features == ExtractFromElement(site.document, p)
      && ss[i].elementId == Attr(e, "id", "") && ss[i].elementName == Attr(e, "name", "")
      && ss[i].source == site.name
      && ss[i].classLabel == LabelFor(site.labels, Attr(e, "name", ""))
    ensures forall s :: s in ss ==> s.source == site.name && s.classLabel == LabelFor(site.labels, s.elementName)
  {
    var recs := ExtractFeaturesFromHtml(site.document);
    HtmlRecordsDescribeFields(site.document);
    seq(|recs|, i requires 0 <= i < |recs| =>
      TrainingSample(recs[i].features, LabelFor(site.labels, recs[i].elementName), site.name,
                     recs[i].elementId, recs[i].elementName))
  }

  /** One sample labelled "none" per field of a negative example, in document order. */
  function NegativeSamples(example: NegativeExample): (ss: seq<TrainingSample>)
    ensures |ss| == |FieldPaths(example.document)|
    ensures forall i :: 0 <= i < |ss| ==>
      var p := FieldPaths(example.document)[i]; var e := At(example.document, p);
      && ss[i].features == ExtractFromElement(example.document, p)
      && ss[i].elementId == Attr(e, "id", "") && ss[i].elementName == Attr(e, "name", "")
      && ss[i].source == example.name
      && ss[i].classLabel == "none"
    ensures forall s :: s in ss ==> s.classLabel == "none" && s.source == example.name
  {
    var recs := ExtractFeaturesFromHtml(example.document);
    HtmlRecordsDescribeFields(example.document);
    seq(|recs|, i requires 0 <= i < |recs| =>
      TrainingSample(recs[i].features, "none", example.name, recs[i].elementId, recs[i].elementName))
  }

  /** The number of fields over a list of documents. */
  function FieldCount(docs: seq<Element>): nat
  {
    if docs == [] then 0 else |FieldPaths(docs[0])| + FieldCount(docs[1..])
  }

  /** The documents of the catalog entries, in order. */
  function SiteDocuments(sites: seq<Site>): (docs: seq<Element>)
    ensures |docs| == |sites|
    ensures forall i :: 0 <= i < |sites| ==> docs[i] == sites[i].document
  {
    seq(|sites|, i requires 0 <= i < |sites| => sites[i].document)
  }

  /** The documents of the negative examples, in order. */
  function NegativeDocuments(examples: seq<NegativeExample>): (docs: seq<Element>)
    ensures |docs| == |examples|
    ensures forall i :: 0 <= i < |examples| ==> docs[i] == examples[i].document
  {
    seq(|examples|, i requires 0 <= i < |examples| => examples[i].document)
  }

  /** A sample's label came from the label map of the catalog entry it names as its source. */
  ghost predicate LabelledBySite(s: TrainingSample, sites: seq<Site>)
  {
    exists site :: site in sites && s.source == site.name && s.classLabel == LabelFor(site.labels, s.elementName)
  }

  /**
   * The samples of every catalog entry, entry after entry. Each carries the
   * label its entry gives its field name.
   */
  function CatalogSamples(sites: seq<Site>): (ss: seq<TrainingSample>)
    ensures |ss| == FieldCount(SiteDocuments(sites))
    ensures forall s :: s in ss ==> LabelledBySite(s, sites)
  {
    if sites == [] then []
    else
      var head := SiteSamples(sites[0]);
      var tail := CatalogSamples(sites[1..]);
      assert SiteDocuments(sites)[1..] == SiteDocuments(sites[1..]);
      LabelledByFirst(head, sites);
      LabelledByLater(tail, sites);
      head + tail
  }

  /** Samples labelled by the first catalog entry are labelled by the catalog. */
  lemma LabelledByFirst(ss: seq<TrainingSample>, sites: seq<Site>)
    requires sites != []
    requires forall s :: s in ss ==> s.source == sites[0].name && s.classLabel == LabelFor(sites[0].labels, s.elementName)
    ensures forall s :: s in ss ==> LabelledBySite(s, sites)
  {
    assert sites[0] in sites;
  }

  /** Samples labelled by the catalog's later entries are labelled by the catalog. */
  lemma LabelledByLater(ss: seq<TrainingSample>, sites: seq<Site>)
    requires sites != []
    requires forall s :: s in ss ==> LabelledBySite(s, sites[1..])
    ensures forall s :: s in ss ==> LabelledBySite(s, sites)
  {
    forall s | s in ss ensures LabelledBySite(s, sites) {
      var site :| site in sites[1..] && s.source == site.name && s.classLabel == LabelFor(site.labels, s.elementName);
      assert site in sites;
    }
  }

  /** A sample names one of the negative examples as its source. */
  ghost predicate FromNegative(s: TrainingSample, examples: seq<NegativeExample>)
  {
    exists x :: x in examples && s.source == x.name
  }

  /** The samples of every negative example, example after example, all labelled "none". */
  function NegativeCorpus(examples: seq<NegativeExample>): (ss: seq<TrainingSample>)
    ensures |ss| == FieldCount(NegativeDocuments(examples))
    ensures forall s :: s in ss ==> s.classLabel == "none" && FromNegative(s, examples)
  {
    if examples == [] then []
    else
      var head := NegativeSamples(examples[0]);
      var tail := NegativeCorpus(examples[1..]);
      assert NegativeDocuments(examples)[1..] == NegativeDocuments(examples[1..]);
      FromFirstNegative(head, examples);
      FromLaterNegative(tail, examples);
      head + tail
  }

  /** Samples sourced from the first negative example are sourced from the list. */
  lemma FromFirstNegative(ss: seq<TrainingSample>, examples: seq<NegativeExample>)
    requires examples != []
    requires forall s :: s in ss ==> s.source == examples[0].name
    ensures forall s :: s in ss ==> FromNegative(s, examples)
  {
    assert examples[0] in examples;
  }

  /** Samples sourced from the later negative examples are sourced from the list. */
  lemma FromLaterNegative(ss: seq<TrainingSample>, examples: seq<NegativeExample>)
    requires examples != []
    requires forall s :: s in ss ==> FromNegative(s, examples[1..])
    ensures forall s :: s in ss ==> FromNegative(s, examples)
  {
    forall s | s in ss ensures FromNegative(s, examples) {
      var x :| x in examples[1..] && s.source == x.name;
      assert x in examples;
    }
  }

  /**
   * The base corpus: the catalog's samples, then the negative examples'
   * samples. A sample labelled other than "none" always carries the label its
   * catalog entry gives its field name.
   */
  function BuildDataset(sites: seq<Site>, negatives: seq<NegativeExample>): (ds: seq<TrainingSample>)
    ensures |ds| == FieldCount(SiteDocuments(sites)) + FieldCount(NegativeDocuments(negatives))
    ensures forall i :: 0 <= i < FieldCount(SiteDocuments(sites)) ==> LabelledBySite(ds[i], sites)
    ensures forall i :: FieldCount(SiteDocuments(sites)) <= i < |ds| ==> ds[i].classLabel == "none"
    ensures forall s :: s in ds && s.classLabel != "none" ==> LabelledBySite(s, sites)
  {
    var catalog := CatalogSamples(sites);
    var negative := NegativeCorpus(negatives);
    assert forall i :: 0 <= i < |catalog| ==> catalog[i] in catalog;
    assert forall i :: 0 <= i < |negative| ==> negative[i] in negative;
    catalog + negative
  }

  /** The blocks `f` gives each item, concatenated in order. */
  function ConcatMap<A, T>(xs: seq<A>, f: A -> seq<T>): seq<T>
  {
    if xs == [] then [] else f(xs[0]) + ConcatMap(xs[1..], f)
  }

  /** The block of item `k` comes after the blocks of the items before it and before those after it. */
  lemma {:induction false} ConcatMapSplit<A, T>(xs: seq<A>, f: A -> seq<T>, k: nat)
    requires k < |xs|
    ensures ConcatMap(xs, f) == ConcatMap(xs[..k], f) + f(xs[k]) + ConcatMap(xs[k + 1..], f)
  {
    if k == 0 {
      assert xs[..0] == [] && xs[1..] == xs[k + 1..];
    } else {
      ConcatMapSplit(xs[1..], f, k - 1);
      assert xs[1..][k - 1] == xs[k] && xs[1..][k..] == xs[k + 1..];
      assert xs[..k][0] == xs[0] && xs[..k][1..] == xs[1..][..k - 1];
    }
  }

  /** The catalog's samples are the entries' samples, entry after entry. */
  lemma {:induction false} CatalogIsConcat(sites: seq<Site>)
    ensures CatalogSamples(sites) == ConcatMap(sites, SiteSamples)
  {
    if sites != [] {
      CatalogIsConcat(sites[1..]);
    }
  }

  /** The negative corpus is the examples' samples, example after example. */
  lemma {:induction false} NegativeIsConcat(examples: seq<NegativeExample>)
    ensures NegativeCorpus(examples) == ConcatMap(examples, NegativeSamples)
  {
    if examples != [] {
      NegativeIsConcat(examples[1..]);
    }
  }

  /** The samples of catalog entry `k` come after those of the entries before it and before those after it. */
  lemma CatalogSplit(sites: seq<Site>, k: nat)
    requires k < |sites|
    ensures CatalogSamples(sites) == CatalogSamples(sites[..k]) + SiteSamples(sites[k]) + CatalogSamples(sites[k + 1..])
  {
    CatalogIsConcat(sites);
    CatalogIsConcat(sites[..k]);
    CatalogIsConcat(sites[k + 1..]);
    ConcatMapSplit(sites, SiteSamples, k);
  }

  /** The samples of negative example `k` come after those of the examples before it and before those after it. */
  lemma NegativeSplit(examples: seq<NegativeExample>, k: nat)
    requires k < |examples|
    ensures NegativeCorpus(examples) ==
      NegativeCorpus(examples[..k]) + NegativeSamples(examples[k]) + NegativeCorpus(examples[k + 1..])
  {
    NegativeIsConcat(examples);
    NegativeIsConcat(examples[..k]);
    NegativeIsConcat(examples[k + 1..]);
    ConcatMapSplit(examples, NegativeSamples, k);
  }

  /**
   * The base corpus in catalog order, catalog side: the samples of entry `k`
   * sit between those of the entries before and after it, and every catalog
   * sample precedes the negative examples' samples.
   */
  lemma BuildDatasetSiteOrder(sites: seq<Site>, negatives: seq<NegativeExample>, k: nat)
    requires k < |sites|
    ensures BuildDataset(sites, negatives) ==
      CatalogSamples(sites[..k]) + SiteSamples(sites[k]) + CatalogSamples(sites[k + 1..]) + NegativeCorpus(negatives)
  {
    CatalogSplit(sites, k);
  }

  /**
   * The base corpus in catalog order, negative side: after every catalog
   * sample, the samples of negative example `k` sit between those of the
   * examples before and after it.
   */
  lemma BuildDatasetNegativeOrder(sites: seq<Site>, negatives: seq<NegativeExample>, k: nat)
    requires k < |negatives|
    ensures BuildDataset(sites, negatives) ==
      CatalogSamples(sites) + NegativeCorpus(negatives[..k]) + NegativeSamples(negatives[k]) +
      NegativeCorpus(negatives[k + 1..])
  {
    NegativeSplit(negatives, k);
    AppendSplit(CatalogSamples(sites), NegativeCorpus(negatives[..k]), NegativeSamples(negatives[k]),
                NegativeCorpus(negatives[k + 1..]));
  }

  /** Appending a sequence split in three is appending its parts. */
  lemma AppendSplit<T>(a: seq<T>, x: seq<T>, y: seq<T>, z: seq<T>)
    ensures a + (x + y + z) == a + x + y + z
  {
  }

  // ---------------------------------------------------------------------------
  // Augmentation

  /**
   * The draws of one loop iteration: the index `random.choice` picks, the
   * dropout and fuzz coins of `random.random()`, and the two unit draws behind
   * `random.uniform`. Draws after the pick are ignored when the pick is
   * labelled "none".
   */
  datatype Round = Round(pick: nat, dropout: real, fuzz: real, userDraw: real, loginDraw: real)

  /** A draw of `random.random()`: in [0, 1). */
  predicate UnitDraw(x: real)
  {
    0.0 <= x < 1.0
  }

  /** The draws a generator can produce for a base corpus of `n` samples. */
  predicate ValidRound(r: Round, n: nat)
  {
    r.pick < n && UnitDraw(r.dropout) && UnitDraw(r.fuzz) && UnitDraw(r.userDraw) && UnitDraw(r.loginDraw)
  }

  const DropoutRate: real := 0.3
  const FuzzRate: real := 0.2
  const FuzzLow: real := 0.3
  const FuzzHigh: real := 0.8

  /** `random.uniform(0.3, 0.8)` for the unit draw `u`: low + (high - low) * u. */
  function FuzzedScore(u: real): (x: real)
    requires UnitDraw(u)
    ensures FuzzLow <= x < FuzzHigh
  {
    0.3 + (0.8 - 0.3) * u
  }

  /** Autocomplete dropout: clear the username, email and current-password flags and raise "other". */
  function Dropout(f: FieldFeatures): FieldFeatures
  {
    f.(autoUsername := 0.0, autoEmail := 0.0, autoCurrentPassword := 0.0, autoOther := 1.0)
  }

  /**
   * `s` is a perturbed copy of `base`: same label and identifiers, source
   * suffixed "_augmented", and features equal to the base's except that the
   * username/email/current-password/other autocomplete flags may be replaced
   * by (0, 0, 0, 1), and, for a username sample only, the name's user and
   * login scores may be replaced by values in [0.3, 0.8).
   */
  ghost predicate PerturbationOf(base: TrainingSample, s: TrainingSample)
  {
    var f := base.features; var g := s.features;
    && s.classLabel == base.classLabel && s.elementId == base.elementId && s.elementName == base.elementName
    && s.source == base.source + "_augmented"
    && g == f.(autoUsername := g.autoUsername, autoEmail := g.autoEmail, autoCurrentPassword := g.autoCurrentPassword,
               autoOther := g.autoOther, nameHasUser := g.nameHasUser, nameHasLogin := g.nameHasLogin)
    && ((g.autoUsername, g.autoEmail, g.autoCurrentPassword, g.autoOther) ==
          (f.autoUsername, f.autoEmail, f.autoCurrentPassword, f.autoOther) ||
        (g.autoUsername, g.autoEmail, g.autoCurrentPassword, g.autoOther) == (0.0, 0.0, 0.0, 1.0))
    && ((g.nameHasUser, g.nameHasLogin) == (f.nameHasUser, f.nameHasLogin) ||
        (base.classLabel == "username" &&
         FuzzLow <= g.nameHasUser < FuzzHigh && FuzzLow <= g.nameHasLogin < FuzzHigh))
  }

  /**
   * The synthesized sample for `base` under the draws of `round`: a perturbed
   * copy whose autocomplete dropout happens exactly on a low dropout coin and
   * whose name scores are redrawn exactly on a low fuzz coin for a username
   * sample.
   */
  function Perturb(base: TrainingSample, round: Round): (s: TrainingSample)
    requires UnitDraw(round.userDraw) && UnitDraw(round.loginDraw)
    ensures PerturbationOf(base, s)
    ensures var f := base.features; var g := s.features;
      round.dropout < DropoutRate ==>
        g.autoUsername == 0.0 && g.autoEmail == 0.0 && g.autoCurrentPassword == 0.0 && g.autoOther == 1.0
    ensures var f := base.features; var g := s.features;
      round.dropout >= DropoutRate ==>
        g.autoUsername == f.autoUsername && g.autoEmail == f.autoEmail &&
        g.autoCurrentPassword == f.autoCurrentPassword && g.autoOther == f.autoOther
    ensures var g := s.features;
      round.fuzz < FuzzRate && base.classLabel == "username" ==>
        FuzzLow <= g.nameHasUser < FuzzHigh && FuzzLow <= g.nameHasLogin < FuzzHigh
    ensures var f := base.features; var g := s.features;
      !(round.fuzz < FuzzRate && base.classLabel == "username") ==>
        g.nameHasUser == f.nameHasUser && g.nameHasLogin == f.nameHasLogin
  {
    var f := base.features;
    var dropped := if round.dropout < DropoutRate then Dropout(f) else f;
    var fuzzed :=
      if round.fuzz < FuzzRate && base.classLabel == "username" then
        dropped.(nameHasUser := FuzzedScore(round.userDraw), nameHasLogin := FuzzedScore(round.loginDraw))
      else dropped;
    TrainingSample(fuzzed, base.classLabel, base.source + "_augmented", base.elementId, base.elementName)
  }

  /**
   * Dropout leaves the new-password, one-time-code and off flags alone, so a
   * base with one of them raised comes out with two autocomplete flags set.
   */
  lemma DropoutCanRaiseTwoAutocompleteFlags()
    ensures var base := TrainingSample(Fresh().(typePassword := 1.0, autoNewPassword := 1.0), "password", "s", "", "pw");
      var g := Perturb(base, Round(0, 0.0, 0.5, 0.0, 0.0)).features;
      g.autoNewPassword == 1.0 && g.autoOther == 1.0 && !OneHot(AutocompleteFlags(g))
  {
    var base := TrainingSample(Fresh().(typePassword := 1.0, autoNewPassword := 1.0), "password", "s", "", "pw");
    var g := Perturb(base, Round(0, 0.0, 0.5, 0.0, 0.0)).features;
    assert AutocompleteFlags(g)[3] == 1.0 && AutocompleteFlags(g)[6] == 1.0;
  }

  /** The reason augmentation stops without a corpus. */
  datatype AugmentError =
    | EmptyBase        // `random.choice` on an empty base corpus raises IndexError
    | OutOfRandomness  // the draws ran out before the target was reached

  /** The number of rounds whose pick is a sample not labelled "none". */
  function UsefulDraws(samples: seq<TrainingSample>, rounds: seq<Round>): (n: nat)
    requires forall i :: 0 <= i < |rounds| ==> ValidRound(rounds[i], |samples|)
    ensures n <= |rounds|
  {
    if rounds == [] then 0
    else
      var last := rounds[|rounds| - 1];
      assert ValidRound(last, |samples|);
      UsefulDraws(samples, rounds[..|rounds| - 1]) + (if samples[last.pick].classLabel != "none" then 1 else 0)
  }

  lemma {:induction false} UsefulDrawsPrefix(samples: seq<TrainingSample>, rounds: seq<Round>, k: nat)
    requires forall i :: 0 <= i < |rounds| ==> ValidRound(rounds[i], |samples|)
    requires k <= |rounds|
    ensures UsefulDraws(samples, rounds[..k]) <= UsefulDraws(samples, rounds)
    decreases |rounds| - k
  {
    if k < |rounds| {
      assert rounds[..k + 1][..k] == rounds[..k];
      UsefulDrawsPrefix(samples, rounds, k + 1);
    } else {
      assert rounds[..k] == rounds;
    }
  }

  lemma {:induction false} UsefulDrawsOfUnlabelledBase(samples: seq<TrainingSample>, rounds: seq<Round>)
    requires forall i :: 0 <= i < |rounds| ==> ValidRound(rounds[i], |samples|)
    requires forall s :: s in samples ==> s.classLabel == "none"
    ensures UsefulDraws(samples, rounds) == 0
  {
    if rounds != [] {
      UsefulDrawsOfUnlabelledBase(samples, rounds[..|rounds| - 1]);
      assert samples[rounds[|rounds| - 1].pick] in samples;
    }
  }

  /** The rounds whose pick is a sample not labelled "none", in draw order. */
  function LabelledRounds(samples: seq<TrainingSample>, rounds: seq<Round>): (u: seq<Round>)
    requires forall i :: 0 <= i < |rounds| ==> ValidRound(rounds[i], |samples|)
    ensures |u| == UsefulDraws(samples, rounds)
    ensures forall m :: 0 <= m < |u| ==>
      u[m] in rounds && ValidRound(u[m], |samples|) && samples[u[m].pick].classLabel != "none"
  {
    if rounds == [] then []
    else
      var last := rounds[|rounds| - 1];
      var prev := LabelledRounds(samples, rounds[..|rounds| - 1]);
      assert ValidRound(last, |samples|);
      assert forall m :: 0 <= m < |prev| ==> prev[m] in rounds;
      prev + (if samples[last.pick].classLabel != "none" then [last] else [])
  }

  /**
   * The samples augmentation synthesizes from `rounds`: the m-th is the
   * perturbation of the m-th labelled pick under that round's coins and draws.
   */
  function Synthesized(samples: seq<TrainingSample>, rounds: seq<Round>): (ss: seq<TrainingSample>)
    requires forall i :: 0 <= i < |rounds| ==> ValidRound(rounds[i], |samples|)
    ensures |ss| == UsefulDraws(samples, rounds)
  {
    if rounds == [] then []
    else
      var last := rounds[|rounds| - 1];
      var prev := Synthesized(samples, rounds[..|rounds| - 1]);
      assert ValidRound(last, |samples|);
      if samples[last.pick].classLabel != "none" then prev + [Perturb(samples[last.pick], last)] else prev
  }

  /**
   * The m-th synthesized sample is the perturbation of the m-th labelled pick
   * under that round's coins and draws.
   */
  lemma {:induction false} SynthesizedFromLabelledPicks(samples: seq<TrainingSample>, rounds: seq<Round>)
    requires forall i :: 0 <= i < |rounds| ==> ValidRound(rounds[i], |samples|)
    ensures var ss := Synthesized(samples, rounds); var u := LabelledRounds(samples, rounds);
      |ss| == |u| && forall m :: 0 <= m < |u| ==> ss[m] == Perturb(samples[u[m].pick], u[m])
  {
    if rounds != [] {
      var front := rounds[..|rounds| - 1];
      SynthesizedFromLabelledPicks(samples, front);
      var ss := Synthesized(samples, rounds);
      var u := LabelledRounds(samples, rounds);
      var ps := Synthesized(samples, front);
      var pu := LabelledRounds(samples, front);
      assert forall m :: 0 <= m < |pu| ==> u[m] == pu[m] && ss[m] == ps[m];
    }
  }

  /** `s` is a perturbed copy of some base sample not labelled "none". */
  ghost predicate AugmentedFrom(samples: seq<TrainingSample>, s: TrainingSample)
  {
    exists j :: 0 <= j < |samples| && samples[j].classLabel != "none" && PerturbationOf(samples[j], s)
  }

  function Max(a: int, b: int): int
  {
    if a < b then b else a
  }

  /** `out` is `samples` followed by, for each round of `u` in order, the perturbation of that round's pick. */
  ghost predicate PerturbsLabelledPicks(samples: seq<TrainingSample>, u: seq<Round>, out: seq<TrainingSample>)
  {
    && |out| == |samples| + |u|
    && forall m :: 0 <= m < |u| ==>
         u[m].pick < |samples| && UnitDraw(u[m].userDraw) && UnitDraw(u[m].loginDraw) &&
         out[|samples| + m] == Perturb(samples[u[m].pick], u[m])
  }

  /**
   * `out` is the base corpus followed by the samples synthesized from the
   * first `k` draws, for some `k`, so that its m-th added sample perturbs the
   * m-th labelled pick of those draws: it has length max(|samples|, targetSize),
   * keeps the base as a prefix, and every added sample is a labelled perturbed
   * copy of a labelled base sample.
   */
  ghost predicate AugmentedCorpus(samples: seq<TrainingSample>, targetSize: int, rounds: seq<Round>,
                                  out: seq<TrainingSample>)
    requires forall i :: 0 <= i < |rounds| ==> ValidRound(rounds[i], |samples|)
  {
    && |out| == Max(|samples|, targetSize)
    && |samples| <= |out| && out[..|samples|] == samples
    && (exists k :: 0 <= k <= |rounds| && out == samples + Synthesized(samples, rounds[..k]) &&
                    PerturbsLabelledPicks(samples, LabelledRounds(samples, rounds[..k]), out))
    && (forall i :: |samples| <= i < |out| ==> out[i].classLabel != "none" && AugmentedFrom(samples, out[i]))
  }

  /**
   * Grows the corpus to `targetSize` with perturbed copies of randomly picked
   * base samples, skipping picks labelled "none". On success the base corpus
   * is kept as a prefix, the length is exactly max(|samples|, targetSize), and
   * the m-th added sample is the perturbation of the m-th labelled pick under
   * that round's coins and draws. It
   * succeeds exactly when no sample is needed or the draws hold enough
   * labelled picks; an empty base corpus is an error as soon as a sample is
   * needed, and a base with no labelled sample never reaches a larger target.
   */
  method AugmentDataset(samples: seq<TrainingSample>, targetSize: int, rounds: seq<Round>)
    returns (result: Result<seq<TrainingSample>, AugmentError>)
    requires forall i :: 0 <= i < |rounds| ==> ValidRound(rounds[i], |samples|)
    ensures result.Failure? && result.error == EmptyBase <==> samples == [] && targetSize > 0
    ensures result.Success? <==>
      |samples| >= targetSize || (samples != [] && UsefulDraws(samples, rounds) >= targetSize - |samples|)
    ensures result.Success? ==> AugmentedCorpus(samples, targetSize, rounds, result.value)
    ensures (forall s :: s in samples ==> s.classLabel == "none") && |samples| < targetSize ==> result.Failure?
  {
    if forall s :: s in samples ==> s.classLabel == "none" {
      UsefulDrawsOfUnlabelledBase(samples, rounds);
    }
    var augmented := samples;
    var k := 0;
    while |augmented| < targetSize
      invariant k <= |rounds|
      invariant |augmented| <= Max(|samples|, targetSize)
      invariant augmented == samples + Synthesized(samples, rounds[..k])
      decreases |rounds| - k
    {
      if samples == [] {
        return Failure(EmptyBase);
      }
      if k == |rounds| {
        assert rounds[..k] == rounds;
        return Failure(OutOfRandomness);
      }
      var round := rounds[k];
      var base := samples[round.pick];
      DrawStep(samples, rounds, k, augmented);
      k := k + 1;
      if base.classLabel == "none" {
        continue;
      }
      var copy := Perturb(base, round);
      augmented := augmented + [copy];
    }
    SuccessfulAugmentation(samples, targetSize, rounds, k, augmented);
    return Success(augmented);
  }

  /** What the corpus holds once the loop reaches the target after `k` draws. */
  lemma SuccessfulAugmentation(samples: seq<TrainingSample>, targetSize: int, rounds: seq<Round>, k: nat,
                               augmented: seq<TrainingSample>)
    requires forall i :: 0 <= i < |rounds| ==> ValidRound(rounds[i], |samples|)
    requires k <= |rounds| && augmented == samples + Synthesized(samples, rounds[..k])
    requires targetSize <= |augmented| <= Max(|samples|, targetSize)
    ensures AugmentedCorpus(samples, targetSize, rounds, augmented)
    ensures |samples| >= targetSize || UsefulDraws(samples, rounds) >= targetSize - |samples|
  {
    UsefulDrawsPrefix(samples, rounds, k);
    SynthesizedPerturbsPicks(samples, rounds[..k]);
    var added := Synthesized(samples, rounds[..k]);
    SynthesizedAreAugmented(samples, rounds[..k]);
    assert augmented[..|samples|] == samples;
    forall i | |samples| <= i < |augmented|
      ensures augmented[i].classLabel != "none" && AugmentedFrom(samples, augmented[i])
    {
      assert augmented[i] == added[i - |samples|];
    }
  }

  /** The base corpus followed by the synthesized samples perturbs the labelled picks in order. */
  lemma SynthesizedPerturbsPicks(samples: seq<TrainingSample>, rounds: seq<Round>)
    requires forall i :: 0 <= i < |rounds| ==> ValidRound(rounds[i], |samples|)
    ensures PerturbsLabelledPicks(samples, LabelledRounds(samples, rounds), samples + Synthesized(samples, rounds))
  {
    SynthesizedFromLabelledPicks(samples, rounds);
    var u := LabelledRounds(samples, rounds);
    var ss := Synthesized(samples, rounds);
    var out := samples + ss;
    forall m | 0 <= m < |u|
      ensures out[|samples| + m] == Perturb(samples[u[m].pick], u[m])
    {
      assert out[|samples| + m] == ss[m];
    }
  }

  /**
   * One more draw appends the perturbation of its pick when the pick is
   * labelled, and leaves the corpus alone otherwise.
   */
  lemma DrawStep(samples: seq<TrainingSample>, rounds: seq<Round>, k: nat, augmented: seq<TrainingSample>)
    requires forall i :: 0 <= i < |rounds| ==> ValidRound(rounds[i], |samples|)
    requires k < |rounds| && augmented == samples + Synthesized(samples, rounds[..k])
    ensures ValidRound(rounds[k], |samples|)
    ensures samples[rounds[k].pick].classLabel == "none" ==>
      augmented == samples + Synthesized(samples, rounds[..k + 1])
    ensures samples[rounds[k].pick].classLabel != "none" ==>
      augmented + [Perturb(samples[rounds[k].pick], rounds[k])] == samples + Synthesized(samples, rounds[..k + 1])
  {
    SynthesizedStep(samples, rounds, k);
    var before := Synthesized(samples, rounds[..k]);
    var after := Synthesized(samples, rounds[..k + 1]);
    var base := samples[rounds[k].pick];
    var added := if base.classLabel != "none" then [Perturb(base, rounds[k])] else [];
    ExtendBoth(samples, before, after, added, augmented);
    assert base.classLabel == "none" ==> augmented + added == augmented;
  }

  /** Appending to a corpus `base + before` the items that extend `before` to `after` gives `base + after`. */
  lemma ExtendBoth<T>(base: seq<T>, before: seq<T>, after: seq<T>, added: seq<T>, out: seq<T>)
    requires out == base + before && after == before + added
    ensures out + added == base + after
  {
  }

  /** The samples synthesized from one more draw: one more when its pick is labelled. */
  lemma SynthesizedStep(samples: seq<TrainingSample>, rounds: seq<Round>, k: nat)
    requires forall i :: 0 <= i < |rounds| ==> ValidRound(rounds[i], |samples|)
    requires k < |rounds|
    ensures ValidRound(rounds[k], |samples|)
    ensures Synthesized(samples, rounds[..k + 1]) ==
      Synthesized(samples, rounds[..k]) +
      (if samples[rounds[k].pick].classLabel != "none" then [Perturb(samples[rounds[k].pick], rounds[k])] else [])
  {
    assert rounds[..k + 1][..k] == rounds[..k];
    assert rounds[..k + 1][k] == rounds[k];
    assert ValidRound(rounds[k], |samples|);
  }

  /** Every synthesized sample is labelled and is a perturbed copy of a labelled base sample. */
  lemma SynthesizedAreAugmented(samples: seq<TrainingSample>, rounds: seq<Round>)
    requires forall i :: 0 <= i < |rounds| ==> ValidRound(rounds[i], |samples|)
    ensures var ss := Synthesized(samples, rounds);
      forall m :: 0 <= m < |ss| ==> ss[m].classLabel != "none" && AugmentedFrom(samples, ss[m])
  {
    var ss := Synthesized(samples, rounds);
    var u := LabelledRounds(samples, rounds);
    SynthesizedFromLabelledPicks(samples, rounds);
    forall m | 0 <= m < |ss|
      ensures ss[m].classLabel != "none" && AugmentedFrom(samples, ss[m])
    {
      var r := u[m];
      assert PerturbationOf(samples[r.pick], ss[m]);
    }
  }

  // ---------------------------------------------------------------------------
  // Saved rows

  /** One saved corpus row: the 45-slot vector and the sample's strings, verbatim. */
  datatype Row = Row(features: seq<real>, classLabel: string, source: string, elementId: string, elementName: string)

  /** The row of a sample: its own features in slot order. */
  function RowOf(s: TrainingSample): (row: Row)
    ensures |row.features| == SlotCount && FromVector(row.features) == s.features
    ensures row.classLabel == s.classLabel && row.source == s.source
    ensures row.elementId == s.elementId && row.elementName == s.elementName
  {
    RecordRoundTrip(s.features);
    Row(ToVector(s.features), s.classLabel, s.source, s.elementId, s.elementName)
  }

  /** The rows of a corpus, one per sample, in order; each decodes back to its sample. */
  function SaveRows(samples: seq<TrainingSample>): (rows: seq<Row>)
    ensures |rows| == |samples|
    ensures forall i :: 0 <= i < |samples| ==>
      && |rows[i].features| == SlotCount && FromVector(rows[i].features) == samples[i].features
      && rows[i].classLabel == samples[i].classLabel && rows[i].source == samples[i].source
      && rows[i].elementId == samples[i].elementId && rows[i].elementName == samples[i].elementName
  {
    seq(|samples|, i requires 0 <= i < |samples| => RowOf(samples[i]))
  }

  /** Column j of a saved row holds the slot named by the j-th feature name. */
  lemma SavedRowColumns(samples: seq<TrainingSample>, i: nat)
    requires i < |samples|
    ensures forall j :: 0 <= j < SlotCount ==>
      Lookup(samples[i].features, FeatureNames()[j]) == Some(SaveRows(samples)[i].features[j])
  {
    var row := SaveRows(samples)[i];
    assert row == RowOf(samples[i]);
    NamesMatchVector(samples[i].features);
  }

  /**
   * The row the source writes for a synthesized sample. The attribute-copy
   * loop also copies the base record's bound `to_vector` method onto the copy,
   * where it shadows the class's method, so the copy's vector is its base's.
   */
  function AugmentedRowAsWritten(base: TrainingSample, round: Round): (row: Row)
    requires UnitDraw(round.userDraw) && UnitDraw(round.loginDraw)
    ensures |row.features| == SlotCount && FromVector(row.features) == base.features
    ensures var s := Perturb(base, round);
      row.classLabel == s.classLabel && row.source == s.source && row.elementName == s.elementName
  {
    var s := Perturb(base, round);
    RecordRoundTrip(base.features);
    Row(ToVector(base.features), s.classLabel, s.source, s.elementId, s.elementName)
  }

  /** A dropped-out username sample whose saved row still shows the dropped autocomplete flag. */
  lemma AugmentedRowLosesDropout()
    ensures var base := TrainingSample(Fresh().(autoUsername := 1.0), "username", "site", "login", "login");
      var round := Round(0, 0.0, 0.5, 0.0, 0.0);
      && FromVector(AugmentedRowAsWritten(base, round).features).autoUsername == 1.0
      && Perturb(base, round).features.autoUsername == 0.0
      && AugmentedRowAsWritten(base, round) != RowOf(Perturb(base, round))
  {
  }
}

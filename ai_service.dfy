/**
 * services/aiService.ts: the lazily loaded classifier handle, the RGBA to
 * RGB copy of a decoded image, and the synthesis of structured findings
 * from the classifier's 15 class probabilities.
 *
 * Probabilities are `real`: the source computes with IEEE doubles, which
 * this model does not follow.
 */
module AiService {
  import opened Wrappers
  import opened Types
  import opened StableSort

  /** The classifier's output classes, in the order of ANOMALY_CLASSES. */
  datatype AnomalyClass =
    | Atelectasis | Cardiomegaly | Consolidation | Edema | Effusion
    | Emphysema | Fibrosis | Hernia | Infiltration | Mass
    | Nodule | PleuralThickening | Pneumonia | Pneumothorax | Normal

  const AnomalyClasses: seq<AnomalyClass> := [
    Atelectasis, Cardiomegaly, Consolidation, Edema, Effusion,
    Emphysema, Fibrosis, Hernia, Infiltration, Mass,
    Nodule, PleuralThickening, Pneumonia, Pneumothorax, Normal]

  const ClassCount: nat := 15

  /** Position of a class in ANOMALY_CLASSES, i.e. in the probability vector. */
  function ClassIndex(c: AnomalyClass): (i: nat)
    ensures i < ClassCount == |AnomalyClasses| && AnomalyClasses[i] == c
  {
    match c
    case Atelectasis => 0
    case Cardiomegaly => 1
    case Consolidation => 2
    case Edema => 3
    case Effusion => 4
    case Emphysema => 5
    case Fibrosis => 6
    case Hernia => 7
    case Infiltration => 8
    case Mass => 9
    case Nodule => 10
    case PleuralThickening => 11
    case Pneumonia => 12
    case Pneumothorax => 13
    case Normal => 14
  }

  /** The class label as the source spells it; no two classes share one. */
  function ClassName(c: AnomalyClass): (r: string)
    ensures ClassNamed(r) == Some(c)
  {
    match c
    case Atelectasis => "Atelectasis"
    case Cardiomegaly => "Cardiomegaly"
    case Consolidation => "Consolidation"
    case Edema => "Edema"
    case Effusion => "Effusion"
    case Emphysema => "Emphysema"
    case Fibrosis => "Fibrosis"
    case Hernia => "Hernia"
    case Infiltration => "Infiltration"
    case Mass => "Mass"
    case Nodule => "Nodule"
    case PleuralThickening => "Pleural_Thickening"
    case Pneumonia => "Pneumonia"
    case Pneumothorax => "Pneumothorax"
    case Normal => "Normal"
  }

  /** The class a finding's `type` names, if any. */
  function ClassNamed(name: string): Option<AnomalyClass>
  {
    if name == "Atelectasis" then Some(Atelectasis)
    else if name == "Cardiomegaly" then Some(Cardiomegaly)
    else if name == "Consolidation" then Some(Consolidation)
    else if name == "Edema" then Some(Edema)
    else if name == "Effusion" then Some(Effusion)
    else if name == "Emphysema" then Some(Emphysema)
    else if name == "Fibrosis" then Some(Fibrosis)
    else if name == "Hernia" then Some(Hernia)
    else if name == "Infiltration" then Some(Infiltration)
    else if name == "Mass" then Some(Mass)
    else if name == "Nodule" then Some(Nodule)
    else if name == "Pleural_Thickening" then Some(PleuralThickening)
    else if name == "Pneumonia" then Some(Pneumonia)
    else if name == "Pneumothorax" then Some(Pneumothorax)
    else if name == "Normal" then Some(Normal)
    else None
  }

  /** LOCATIONS_MAP: the anatomical regions a class is reported at, in table order. */
  function Locations(c: AnomalyClass): (r: seq<string>)
    ensures 2 <= |r| <= 3
  {
    match c
    case Atelectasis => ["Lower lung zones", "Right middle lobe", "Left lower lobe"]
    case Cardiomegaly => ["Cardiac silhouette", "Mediastinal contour"]
    case Consolidation => ["Right lung field", "Left lung field", "Bilateral lung bases"]
    case Edema => ["Bilateral perihilar regions", "Lower lung zones", "Peripheral lung fields"]
    case Effusion => ["Right costophrenic angle", "Left costophrenic angle", "Bilateral pleural spaces"]
    case Emphysema => ["Upper lung zones", "Bilateral lung fields", "Peripheral lung regions"]
    case Fibrosis => ["Lower lung zones", "Peripheral lung fields", "Bilateral lung bases"]
    case Hernia => ["Diaphragmatic contour", "Lower chest region"]
    case Infiltration => ["Right lung field", "Left lung field", "Perihilar regions"]
    case Mass => ["Right lung field", "Left lung field", "Hilar region"]
    case Nodule => ["Upper lung zones", "Middle lung zones", "Lower lung zones"]
    case PleuralThickening => ["Right pleural surface", "Left pleural surface", "Bilateral pleural spaces"]
    case Pneumonia => ["Right lung field", "Left lung field", "Bilateral lung bases"]
    case Pneumothorax => ["Right pleural space", "Left pleural space", "Apical region"]
    case Normal => ["Clear lung fields", "Normal cardiac silhouette", "Clear costophrenic angles"]
  }

  /** DESCRIPTIONS_MAP: the canonical description of a class. */
  function Description(c: AnomalyClass): string
  {
    match c
    case Atelectasis =>
      "Areas of collapsed or poorly ventilated lung tissue, potentially indicating underlying obstruction or compression."
    case Cardiomegaly =>
      "Enlarged cardiac silhouette suggesting possible heart enlargement, requiring correlation with clinical findings."
    case Consolidation =>
      "Dense opacity indicating airspace filling, typically associated with infection or inflammation."
    case Edema =>
      "Increased interstitial markings and fluid accumulation suggesting pulmonary edema, requires assessment of cardiac function."
    case Effusion =>
      "Fluid accumulation in pleural space affecting lung expansion and respiratory function."
    case Emphysema =>
      "Increased lucency and altered lung architecture indicating airspace enlargement and tissue destruction."
    case Fibrosis =>
      "Scarring and architectural distortion of lung tissue suggesting chronic inflammatory or fibrotic process."
    case Hernia =>
      "Abnormal protrusion through the diaphragm, potentially affecting cardiopulmonary function."
    case Infiltration =>
      "Patchy opacities suggesting inflammatory or infectious process with varied distribution."
    case Mass =>
      "Well-defined opacity requiring further investigation to determine nature and malignancy potential."
    case Nodule =>
      "Small rounded opacity requiring follow-up to assess stability and characteristics."
    case PleuralThickening =>
      "Abnormal thickening of pleural surfaces suggesting chronic inflammatory or fibrotic changes."
    case Pneumonia =>
      "Consolidative changes indicating active infection requiring appropriate antimicrobial therapy."
    case Pneumothorax =>
      "Air in pleural space causing lung collapse, requires immediate evaluation of extent and intervention if necessary."
    case Normal =>
      "No significant abnormalities detected. Lung fields are clear with normal cardiac silhouette and costophrenic angles."
  }

  const ConfidenceThreshold: real := 0.5
  const DefaultNormalConfidence: real := 0.95

  /** An entry of `detectedConditions`: a class whose probability cleared the threshold. */
  datatype Condition = Condition(cls: AnomalyClass, probability: real)

  /** The sort key of `detectedConditions.sort((a, b) => b.probability - a.probability)`. */
  function Probability(c: Condition): real { c.probability }

  /** The position a condition had before sorting. */
  function ClassRank(c: Condition): int { ClassIndex(c.cls) }

  /** The conditions the selection loop has pushed after visiting the first `n` probabilities. */
  function Detected(p: seq<real>, n: nat): (r: seq<Condition>)
    requires n <= |p| == ClassCount
    ensures |r| <= n
    ensures forall j :: 0 <= j < |r| ==> r[j].probability >= ConfidenceThreshold
  {
    if n == 0 then []
    else
      Detected(p, n - 1)
      + (if p[n - 1] >= ConfidenceThreshold then [Condition(AnomalyClasses[n - 1], p[n - 1])] else [])
  }

  /** `String.prototype.toLowerCase` on ASCII letters: no capital is left, and other characters stay. */
  function ToLower(s: string): (r: string)
    ensures |r| == |s|
    ensures forall i :: 0 <= i < |r| ==> !('A' <= r[i] <= 'Z')
    ensures forall i :: 0 <= i < |s| && !('A' <= s[i] <= 'Z') ==> r[i] == s[i]
    ensures forall i :: 0 <= i < |s| && 'A' <= s[i] <= 'Z' ==>
      'a' <= r[i] <= 'z' && r[i] as int - 'a' as int == s[i] as int - 'A' as int
  {
    seq(|s|, i requires 0 <= i < |s| => LowerChar(s[i]))
  }

  function LowerChar(c: char): char
  {
    if 'A' <= c <= 'Z' then (c as int + 32) as char else c
  }

  /**
   * The lookup tables the synthesis reads: a class's label, its
   * LOCATIONS_MAP entry and its DESCRIPTIONS_MAP entry. The synthesis is
   * stated for any tables; Catalog holds the ones of aiService.ts.
   */
  datatype Tables = Tables(
    name: AnomalyClass -> string,
    locations: AnomalyClass -> seq<string>,
    description: AnomalyClass -> string)

  const Catalog: Tables := Tables(ClassName, Locations, Description)

  /** Every class has two or three locations, as in LOCATIONS_MAP. */
  ghost predicate WellFormed(t: Tables)
  {
    forall c :: 2 <= |t.locations(c)| <= 3
  }

  /** No two classes share a label. */
  ghost predicate NamesDistinct(t: Tables)
  {
    forall c1, c2 :: t.name(c1) == t.name(c2) ==> c1 == c2
  }

  lemma CatalogWellFormed()
    ensures WellFormed(Catalog) && NamesDistinct(Catalog)
  {
  }

  /** The description of a class's second and third findings. */
  function SecondaryDescription(t: Tables, c: AnomalyClass): string
  {
    "Additional " + ToLower(t.name(c)) + " findings in this region."
  }

  /**
   * The finding pushed for the k-th location of a class: the first carries
   * the class probability and the canonical description, later ones less.
   */
  function Finding(t: Tables, c: Condition, k: nat): (a: DetectedAnomaly)
    requires k < |t.locations(c.cls)|
    ensures k == 0 ==> a.confidence == c.probability && a.description == t.description(c.cls)
    ensures c.probability > 0.0 && k > 0 ==> a.confidence < c.probability
  {
    DetectedAnomaly(
      t.name(c.cls),
      t.locations(c.cls)[k],
      c.probability * (1.0 - (k as real) * 0.1),
      if k == 0 then t.description(c.cls) else SecondaryDescription(t, c.cls))
  }

  /** The findings one class contributes: one per location, in table order. */
  function ClassFindings(t: Tables, c: Condition): (r: seq<DetectedAnomaly>)
    ensures |r| == |t.locations(c.cls)|
    ensures forall k :: 0 <= k < |r| ==> r[k].kind == t.name(c.cls) && r[k].location == t.locations(c.cls)[k]
  {
    seq(|t.locations(c.cls)|, k requires 0 <= k < |t.locations(c.cls)| => Finding(t, c, k))
  }

  lemma DecayIsStrict(p: real, k: nat, l: nat)
    requires p > 0.0 && k < l
    ensures p * (1.0 - (k as real) * 0.1) > p * (1.0 - (l as real) * 0.1)
  {
    assert p * (1.0 - (k as real) * 0.1) - p * (1.0 - (l as real) * 0.1) == p * ((l - k) as real) * 0.1;
  }

  lemma DecayStaysInUnitInterval(p: real, k: nat)
    requires 0.0 <= p <= 1.0 && k <= 2
    ensures 0.0 <= p * (1.0 - (k as real) * 0.1) <= 1.0
  {
    if k == 0 {
      assert p * (1.0 - (k as real) * 0.1) == p;
    } else if k == 1 {
      assert p * (1.0 - (k as real) * 0.1) == p * 0.9;
    } else {
      assert p * (1.0 - (k as real) * 0.1) == p * 0.8;
    }
  }

  /**
   * A class's findings name the class and its locations in table order.
   * The first carries the class probability and the canonical
   * description; the k-th is scaled by 1 - 0.1k and carries the
   * secondary text.
   */
  lemma ClassFindingsSpec(t: Tables, c: Condition)
    requires WellFormed(t)
    ensures |ClassFindings(t, c)| == |t.locations(c.cls)|
    ensures forall k :: 0 <= k < |ClassFindings(t, c)| ==>
      && ClassFindings(t, c)[k].kind == t.name(c.cls)
      && ClassFindings(t, c)[k].location == t.locations(c.cls)[k]
      && ClassFindings(t, c)[k].confidence == c.probability * (1.0 - (k as real) * 0.1)
    ensures ClassFindings(t, c)[0].confidence == c.probability
    ensures ClassFindings(t, c)[0].description == t.description(c.cls)
    ensures forall k :: 1 <= k < |ClassFindings(t, c)| ==> ClassFindings(t, c)[k].description == SecondaryDescription(t, c.cls)
  {
    assert 2 <= |t.locations(c.cls)|;
    var r := ClassFindings(t, c);
    assert r[0] == Finding(t, c, 0);
  }

  /** With a positive class probability, the confidences of a class's findings strictly decrease. */
  lemma ConfidenceDecreasing(t: Tables, c: Condition)
    requires WellFormed(t) && c.probability > 0.0
    ensures forall k, l :: 0 <= k < l < |ClassFindings(t, c)| ==> ClassFindings(t, c)[k].confidence > ClassFindings(t, c)[l].confidence
  {
    var r := ClassFindings(t, c);
    forall k, l | 0 <= k < l < |r| ensures r[k].confidence > r[l].confidence {
      assert r[k] == Finding(t, c, k) && r[l] == Finding(t, c, l);
      assert r[k].confidence == c.probability * (1.0 - (k as real) * 0.1);
      assert r[l].confidence == c.probability * (1.0 - (l as real) * 0.1);
      DecayIsStrict(c.probability, k, l);
    }
  }

  /** With a class probability in [0, 1], every confidence of its findings is in [0, 1]. */
  lemma ConfidenceBounded(t: Tables, c: Condition)
    requires WellFormed(t) && 0.0 <= c.probability <= 1.0
    ensures forall k :: 0 <= k < |ClassFindings(t, c)| ==> 0.0 <= ClassFindings(t, c)[k].confidence <= 1.0
  {
    var r := ClassFindings(t, c);
    assert |r| <= 3;
    forall k | 0 <= k < |r| ensures 0.0 <= r[k].confidence <= 1.0 {
      assert r[k] == Finding(t, c, k);
      DecayStaysInUnitInterval(c.probability, k);
    }
  }

  /** What the expansion loop adds for one sorted condition: nothing for "Normal". */
  function Contribution(t: Tables, c: Condition): seq<DetectedAnomaly>
  {
    if c.cls == Normal then [] else ClassFindings(t, c)
  }

  /// Expansion

  /** Concatenation of blocks of findings, in order. */
  function Flatten(bs: seq<seq<DetectedAnomaly>>): seq<DetectedAnomaly>
  {
    if bs == [] then [] else Flatten(bs[..|bs| - 1]) + bs[|bs| - 1]
  }

  /** Total length of the blocks. */
  function LengthSum(bs: seq<seq<DetectedAnomaly>>): nat
  {
    if bs == [] then 0 else LengthSum(bs[..|bs| - 1]) + |bs[|bs| - 1]|
  }

  /** Each finding of a flattening comes from one block; later findings from later blocks. */
  ghost function Origin(bs: seq<seq<DetectedAnomaly>>, n: nat): (m: nat)
    requires n < |Flatten(bs)|
    ensures m < |bs| && Flatten(bs)[n] in bs[m]
  {
    var init := bs[..|bs| - 1];
    if n < |Flatten(init)| then
      var m := Origin(init, n);
      assert bs[m] == init[m];
      assert Flatten(bs)[n] == Flatten(init)[n];
      m
    else
      assert Flatten(bs)[n] == bs[|bs| - 1][n - |Flatten(init)|];
      |bs| - 1
  }

  lemma {:induction false} OriginMonotone(bs: seq<seq<DetectedAnomaly>>, n1: nat, n2: nat)
    requires n1 <= n2 < |Flatten(bs)|
    ensures Origin(bs, n1) <= Origin(bs, n2)
  {
    var init := bs[..|bs| - 1];
    if n2 < |Flatten(init)| {
      OriginMonotone(init, n1, n2);
    }
  }

  /** Each block appears in the flattening contiguously, at offset `o`. */
  lemma {:induction false} FlattenHasBlock(bs: seq<seq<DetectedAnomaly>>, m: nat) returns (o: nat)
    requires m < |bs|
    ensures o + |bs[m]| <= |Flatten(bs)|
    ensures Flatten(bs)[o..o + |bs[m]|] == bs[m]
  {
    var init := bs[..|bs| - 1];
    var b := bs[m];
    if m == |bs| - 1 {
      o := |Flatten(init)|;
      assert Flatten(bs)[o..o + |b|] == b;
    } else {
      assert init[m] == b;
      o := FlattenHasBlock(init, m);
      assert Flatten(bs)[o..o + |b|] == Flatten(init)[o..o + |b|];
    }
  }

  lemma {:induction false} FlattenLength(bs: seq<seq<DetectedAnomaly>>)
    ensures |Flatten(bs)| == LengthSum(bs)
  {
    if bs != [] {
      FlattenLength(bs[..|bs| - 1]);
    }
  }

  lemma {:induction false} LengthSumAppend(a: seq<seq<DetectedAnomaly>>, b: seq<seq<DetectedAnomaly>>)
    ensures LengthSum(a + b) == LengthSum(a) + LengthSum(b)
  {
    if b != [] {
      var b' := b[..|b| - 1];
      assert (a + b)[..|a + b| - 1] == a + b';
      assert (a + b)[|a + b| - 1] == b[|b| - 1];
      LengthSumAppend(a, b');
    } else {
      assert a + b == a;
    }
  }

  /** The block each condition contributes, in order. */
  function Blocks(t: Tables, s: seq<Condition>): seq<seq<DetectedAnomaly>>
  {
    seq(|s|, i requires 0 <= i < |s| => Contribution(t, s[i]))
  }

  /** The findings of the expansion loop after it has visited the conditions `s`. */
  function Expand(t: Tables, s: seq<Condition>): seq<DetectedAnomaly>
  {
    Flatten(Blocks(t, s))
  }

  /** The number of findings the conditions `s` contribute. */
  function BlockTotal(t: Tables, s: seq<Condition>): nat
  {
    LengthSum(Blocks(t, s))
  }

  lemma BlocksAppend(t: Tables, a: seq<Condition>, b: seq<Condition>)
    ensures Blocks(t, a + b) == Blocks(t, a) + Blocks(t, b)
  {
  }

  /** The expansion loop extends its output by the block of the next condition. */
  lemma ExpandStep(t: Tables, s: seq<Condition>, n: nat)
    requires n < |s|
    ensures Expand(t, s[..n + 1]) == Expand(t, s[..n]) + Contribution(t, s[n])
  {
    assert Blocks(t, s[..n + 1])[..n] == Blocks(t, s[..n]);
  }

  /** Each condition's findings appear in the expansion contiguously, at offset `o`. */
  lemma ExpandHasBlock(t: Tables, s: seq<Condition>, m: nat) returns (o: nat)
    requires m < |s|
    ensures o + |Contribution(t, s[m])| <= |Expand(t, s)|
    ensures Expand(t, s)[o..o + |Contribution(t, s[m])|] == Contribution(t, s[m])
  {
    o := FlattenHasBlock(Blocks(t, s), m);
  }

  lemma ExpandLength(t: Tables, s: seq<Condition>)
    ensures |Expand(t, s)| == BlockTotal(t, s)
  {
    FlattenLength(Blocks(t, s));
  }

  lemma BlockTotalAppend(t: Tables, a: seq<Condition>, b: seq<Condition>)
    ensures BlockTotal(t, a + b) == BlockTotal(t, a) + BlockTotal(t, b)
  {
    BlocksAppend(t, a, b);
    LengthSumAppend(Blocks(t, a), Blocks(t, b));
  }

  /** A single condition expands to its own block. */
  lemma ExpandSingle(t: Tables, x: Condition)
    ensures Expand(t, [x]) == Contribution(t, x)
    ensures BlockTotal(t, [x]) == |Contribution(t, x)|
  {
    var bx := Blocks(t, [x]);
    assert bx == [Contribution(t, x)];
    assert bx[..|bx| - 1] == [];
    assert Flatten(bx) == Flatten(bx[..|bx| - 1]) + bx[0];
    assert LengthSum(bx) == LengthSum(bx[..|bx| - 1]) + |bx[0]|;
  }

  lemma BlockTotalCons(t: Tables, x: Condition, s: seq<Condition>)
    ensures BlockTotal(t, [x] + s) == |Contribution(t, x)| + BlockTotal(t, s)
  {
    BlockTotalAppend(t, [x], s);
    ExpandSingle(t, x);
  }

  lemma {:induction false} BlockTotalInsert(t: Tables, x: Condition, s: seq<Condition>, key: Condition -> real)
    ensures BlockTotal(t, Insert(x, s, key)) == |Contribution(t, x)| + BlockTotal(t, s)
  {
    if s == [] || key(s[0]) <= key(x) {
      BlockTotalCons(t, x, s);
    } else {
      BlockTotalInsert(t, x, s[1..], key);
      BlockTotalCons(t, s[0], Insert(x, s[1..], key));
      BlockTotalCons(t, s[0], s[1..]);
      assert s == [s[0]] + s[1..];
    }
  }

  /** Sorting does not change how many findings the conditions contribute. */
  lemma {:induction false} BlockTotalSort(t: Tables, s: seq<Condition>, key: Condition -> real)
    ensures BlockTotal(t, SortDesc(s, key)) == BlockTotal(t, s)
  {
    if s != [] {
      BlockTotalSort(t, s[1..], key);
      BlockTotalInsert(t, s[0], SortDesc(s[1..], key), key);
      BlockTotalCons(t, s[0], s[1..]);
      assert s == [s[0]] + s[1..];
    }
  }

  /// The synthesis

  /** The fallback test: nothing cleared the threshold, or only "Normal" did. */
  predicate NormalOnly(detected: seq<Condition>)
  {
    |detected| == 0 || (|detected| == 1 && detected[0].cls == Normal)
  }

  function NormalFinding(t: Tables, detected: seq<Condition>): DetectedAnomaly
    requires WellFormed(t)
  {
    DetectedAnomaly(
      t.name(Normal),
      t.locations(Normal)[0],
      if |detected| > 0 then detected[0].probability else DefaultNormalConfidence,
      t.description(Normal))
  }

  /** The findings `detectAnomalies` returns for the probability vector `p`: never none. */
  function Synthesize(t: Tables, p: seq<real>): (r: seq<DetectedAnomaly>)
    requires WellFormed(t) && |p| == ClassCount
    ensures |r| > 0
  {
    var detected := Detected(p, |p|);
    if NormalOnly(detected) then [NormalFinding(t, detected)]
    else
      ExpansionNonEmpty(t, p);
      Expand(t, SortDesc(detected, Probability))
  }

  /** Past the fallback test some class other than "Normal" qualified, so the expansion yields findings. */
  lemma ExpansionNonEmpty(t: Tables, p: seq<real>)
    requires WellFormed(t) && |p| == ClassCount
    requires !NormalOnly(Detected(p, |p|))
    ensures |Expand(t, SortDesc(Detected(p, |p|), Probability))| > 0
  {
    var d := Detected(p, |p|);
    DetectedSpec(p, |p|);
    // "Normal" is the last class, so it heads the selection only when alone.
    var x := d[0];
    var s := SortDesc(d, Probability);
    SortDescSpec(d, Probability);
    assert x in s;
    var m :| 0 <= m < |s| && s[m] == x;
    var _ := ExpandHasBlock(t, s, m);
  }

  /** The inner loop of the expansion: push one finding per location of the condition's class. */
  method PushClassFindings(t: Tables, anomalies: seq<DetectedAnomaly>, condition: Condition)
    returns (r: seq<DetectedAnomaly>)
    ensures r == anomalies + ClassFindings(t, condition)
  {
    r := anomalies;
    var locations := t.locations(condition.cls);
    var k := 0;
    assert |ClassFindings(t, condition)| == |locations|;
    while k < |locations|
      invariant 0 <= k <= |locations|
      invariant r == anomalies + ClassFindings(t, condition)[..k]
    {
      assert ClassFindings(t, condition)[k] == Finding(t, condition, k);
      var description := if k == 0 then t.description(condition.cls) else SecondaryDescription(t, condition.cls);
      var finding := DetectedAnomaly(t.name(condition.cls), locations[k], condition.probability * (1.0 - (k as real) * 0.1), description);
      assert finding == Finding(t, condition, k);
      assert (anomalies + ClassFindings(t, condition)[..k]) + [finding] == anomalies + (ClassFindings(t, condition)[..k] + [finding]);
      r := r + [finding];
      assert ClassFindings(t, condition)[..k + 1] == ClassFindings(t, condition)[..k] + [Finding(t, condition, k)];
      k := k + 1;
    }
    assert ClassFindings(t, condition)[..k] == ClassFindings(t, condition);
  }

  /** detectAnomalies after inference: threshold, fallback, stable sort, expansion. */
  method SynthesizeFindings(t: Tables, p: seq<real>) returns (anomalies: seq<DetectedAnomaly>)
    requires WellFormed(t) && |p| == ClassCount
    ensures anomalies == Synthesize(t, p)
  {
    var detected: seq<Condition> := [];
    var i := 0;
    while i < |p|
      invariant 0 <= i <= |p|
      invariant detected == Detected(p, i)
    {
      if p[i] >= ConfidenceThreshold {
        detected := detected + [Condition(AnomalyClasses[i], p[i])];
      }
      i := i + 1;
    }

    if |detected| == 0 || (|detected| == 1 && detected[0].cls == Normal) {
      var confidence := if |detected| > 0 then detected[0].probability else DefaultNormalConfidence;
      anomalies := [DetectedAnomaly(t.name(Normal), t.locations(Normal)[0], confidence, t.description(Normal))];
      assert NormalOnly(detected);
      return;
    }

    var sorted := new Condition[|detected|](j requires 0 <= j < |detected| => detected[j]);
    assert sorted[..] == detected;
    SortInPlace(sorted, Probability);
    var order := sorted[..];

    anomalies := [];
    var n := 0;
    while n < |order|
      invariant 0 <= n <= |order|
      invariant anomalies == Expand(t, order[..n])
    {
      ExpandStep(t, order, n);
      if order[n].cls != Normal {
        anomalies := PushClassFindings(t, anomalies, order[n]);
      }
      n := n + 1;
    }
    assert order[..n] == order;
    assert !NormalOnly(detected);
  }

  /// Properties of the synthesis

  /** The selection loop keeps exactly the classes with probability >= 0.5, in ANOMALY_CLASSES order. */
  lemma {:induction false} DetectedSpec(p: seq<real>, n: nat)
    requires n <= |p| == ClassCount
    ensures forall j :: 0 <= j < |Detected(p, n)| ==>
      var c := Detected(p, n)[j];
      ClassIndex(c.cls) < n && c.probability == p[ClassIndex(c.cls)] && c.probability >= ConfidenceThreshold
    ensures forall i :: 0 <= i < n && p[i] >= ConfidenceThreshold ==> Condition(AnomalyClasses[i], p[i]) in Detected(p, n)
    ensures RankIncreasing(Detected(p, n), ClassRank)
  {
    if n > 0 {
      DetectedSpec(p, n - 1);
      ClassIndexOfEntry(n - 1);
    }
  }

  lemma ClassIndexOfEntry(i: nat)
    requires i < ClassCount
    ensures ClassIndex(AnomalyClasses[i]) == i
  {
  }

  /** When at most class i can clear the threshold, the selection keeps it alone or nothing. */
  lemma {:induction false} DetectedOnly(p: seq<real>, i: nat, n: nat)
    requires n <= |p| == ClassCount && i < ClassCount
    requires forall j :: 0 <= j < ClassCount && j != i ==> p[j] < ConfidenceThreshold
    ensures Detected(p, n) == if i < n && p[i] >= ConfidenceThreshold then [Condition(AnomalyClasses[i], p[i])] else []
  {
    if n > 0 {
      DetectedOnly(p, i, n - 1);
    }
  }

  /** No class other than "Normal" qualifies: the result is the single canonical Normal finding. */
  lemma NormalFallback(t: Tables, p: seq<real>)
    requires WellFormed(t) && |p| == ClassCount
    requires forall i :: 0 <= i < ClassCount - 1 ==> p[i] < ConfidenceThreshold
    ensures Synthesize(t, p) == [DetectedAnomaly(
      t.name(Normal),
      t.locations(Normal)[0],
      if p[14] >= ConfidenceThreshold then p[14] else DefaultNormalConfidence,
      t.description(Normal))]
  {
    DetectedOnly(p, 14, |p|);
    assert NormalOnly(Detected(p, |p|));
  }

  /** Exactly one class other than "Normal" qualifies, whether or not "Normal" does: the result is that class's findings. */
  lemma SingleClass(t: Tables, p: seq<real>, i: nat)
    requires WellFormed(t) && |p| == ClassCount
    requires i < ClassCount - 1 && p[i] >= ConfidenceThreshold
    requires forall j :: 0 <= j < ClassCount - 1 && j != i ==> p[j] < ConfidenceThreshold
    ensures Synthesize(t, p) == ClassFindings(t, Condition(AnomalyClasses[i], p[i]))
  {
    var x := Condition(AnomalyClasses[i], p[i]);
    var s, m := AbnormalSorted(t, p, i);
    ClassIndexOfEntry(i);
    var o := ExpandHasBlock(t, s, m);
    ExpandLength(t, s);
    BlockTotalSort(t, Detected(p, |p|), Probability);
    BlockTotalDetected(t, p, |p|);
    QualifyingOnly(t, p, i, |p|);
    assert |Expand(t, s)| == |ClassFindings(t, x)|;
    assert Expand(t, s) == Expand(t, s)[o..o + |ClassFindings(t, x)|];
  }

  /** When at most class i qualifies among the classes other than "Normal", only its locations count. */
  lemma {:induction false} QualifyingOnly(t: Tables, p: seq<real>, i: nat, n: nat)
    requires n <= |p| == ClassCount && i < ClassCount - 1 && p[i] >= ConfidenceThreshold
    requires forall j :: 0 <= j < ClassCount - 1 && j != i ==> p[j] < ConfidenceThreshold
    ensures QualifyingLocations(t, p, n) == if i < n then |t.locations(AnomalyClasses[i])| else 0
  {
    if n > 0 {
      QualifyingOnly(t, p, i, n - 1);
    }
  }

  /** Some class other than "Normal" qualifies, so its condition is in the sorted list and no fallback happens. */
  lemma AbnormalSorted(t: Tables, p: seq<real>, i: nat) returns (s: seq<Condition>, m: nat)
    requires WellFormed(t) && |p| == ClassCount
    requires i < ClassCount - 1 && p[i] >= ConfidenceThreshold
    ensures s == SortDesc(Detected(p, |p|), Probability)
    ensures Synthesize(t, p) == Expand(t, s)
    ensures m < |s| && s[m] == Condition(AnomalyClasses[i], p[i])
    ensures forall c :: c in s ==> c.probability == p[ClassIndex(c.cls)] && c.probability >= ConfidenceThreshold
    ensures forall j :: 0 <= j < |s| ==> s[j].probability == p[ClassIndex(s[j].cls)]
  {
    var d := Detected(p, |p|);
    DetectedSpec(p, |p|);
    var x := Condition(AnomalyClasses[i], p[i]);
    assert x in d;
    ClassIndexOfEntry(i);
    assert !NormalOnly(d);
    s := SortDesc(d, Probability);
    SortDescSpec(d, Probability);
    assert x in s;
    m :| 0 <= m < |s| && s[m] == x;
    forall c | c in s ensures c.probability == p[ClassIndex(c.cls)] && c.probability >= ConfidenceThreshold {
      assert c in d;
      var j :| 0 <= j < |d| && d[j] == c;
    }
  }

  /** A finding of the expansion belongs to a class other than "Normal", as ClassFindings builds it. */
  lemma ContributionOrigin(t: Tables, s: seq<Condition>, n: nat) returns (m: nat)
    requires WellFormed(t)
    requires n < |Expand(t, s)|
    ensures m == Origin(Blocks(t, s), n)
    ensures s[m].cls != Normal
    ensures Expand(t, s)[n] in ClassFindings(t, s[m])
    ensures Expand(t, s)[n].kind == t.name(s[m].cls)
  {
    m := Origin(Blocks(t, s), n);
    ClassFindingsSpec(t, s[m]);
    var k :| 0 <= k < |ClassFindings(t, s[m])| && ClassFindings(t, s[m])[k] == Expand(t, s)[n];
  }

  /** Finding a ranks before finding b: a's class has the higher probability, or an equal one and comes first in ANOMALY_CLASSES. */
  ghost predicate RanksBefore(t: Tables, p: seq<real>, a: DetectedAnomaly, b: DetectedAnomaly)
    requires |p| == ClassCount
  {
    exists ca, cb :: t.name(ca) == a.kind && t.name(cb) == b.kind && Outranks(p, ca, cb)
  }

  /** Class ca has the higher probability, or an equal one and comes no later in ANOMALY_CLASSES. */
  predicate Outranks(p: seq<real>, ca: AnomalyClass, cb: AnomalyClass)
    requires |p| == ClassCount
  {
    p[ClassIndex(ca)] > p[ClassIndex(cb)] || (p[ClassIndex(ca)] == p[ClassIndex(cb)] && ClassIndex(ca) <= ClassIndex(cb))
  }

  /** A finding of a qualifying class other than "Normal", exactly as that class produces it. */
  ghost predicate FromQualifyingClass(t: Tables, p: seq<real>, a: DetectedAnomaly)
    requires |p| == ClassCount
  {
    exists c :: t.name(c) == a.kind && c != Normal && p[ClassIndex(c)] >= ConfidenceThreshold
      && a in ClassFindings(t, Condition(c, p[ClassIndex(c)]))
  }

  /** Some pathological class qualifies: no Normal finding, and every finding belongs to a qualifying class. */
  lemma AbnormalFindings(t: Tables, p: seq<real>, i: nat)
    requires WellFormed(t) && NamesDistinct(t) && |p| == ClassCount
    requires i < ClassCount - 1 && p[i] >= ConfidenceThreshold
    ensures |Synthesize(t, p)| > 0
    ensures forall a :: a in Synthesize(t, p) ==> a.kind != t.name(Normal) && FromQualifyingClass(t, p, a)
  {
    var s, m := AbnormalSorted(t, p, i);
    var _ := ExpandHasBlock(t, s, m);
    ClassIndexOfEntry(i);
    ClassFindingsSpec(t, s[m]);
    forall a | a in Synthesize(t, p) ensures a.kind != t.name(Normal) && FromQualifyingClass(t, p, a) {
      var n :| 0 <= n < |Expand(t, s)| && Expand(t, s)[n] == a;
      var o := ContributionOrigin(t, s, n);
      assert s[o] in s;
      assert s[o] == Condition(s[o].cls, p[ClassIndex(s[o].cls)]);
    }
  }

  /** In a list sorted by probability, stably, an earlier condition's class outranks a later one's. */
  lemma SortedOutranks(p: seq<real>, s: seq<Condition>, o1: nat, o2: nat)
    requires |p| == ClassCount
    requires KeyThenRank(s, Probability, ClassRank)
    requires forall j :: 0 <= j < |s| ==> s[j].probability == p[ClassIndex(s[j].cls)]
    requires o1 <= o2 < |s|
    ensures Outranks(p, s[o1].cls, s[o2].cls)
  {
    if o1 < o2 {
      assert Probability(s[o1]) > Probability(s[o2])
        || (Probability(s[o1]) == Probability(s[o2]) && ClassRank(s[o1]) < ClassRank(s[o2]));
    }
  }

  /** Two findings of an expansion of conditions sorted by probability, stably, are ranked. */
  lemma PairRanked(t: Tables, p: seq<real>, s: seq<Condition>, n1: nat, n2: nat)
    requires WellFormed(t) && |p| == ClassCount
    requires KeyThenRank(s, Probability, ClassRank)
    requires forall j :: 0 <= j < |s| ==> s[j].probability == p[ClassIndex(s[j].cls)]
    requires n1 < n2 < |Expand(t, s)|
    ensures RanksBefore(t, p, Expand(t, s)[n1], Expand(t, s)[n2])
  {
    var o1 := ContributionOrigin(t, s, n1);
    var o2 := ContributionOrigin(t, s, n2);
    OriginMonotone(Blocks(t, s), n1, n2);
    SortedOutranks(p, s, o1, o2);
    var c1, c2 := s[o1].cls, s[o2].cls;
    assert t.name(c1) == Expand(t, s)[n1].kind && t.name(c2) == Expand(t, s)[n2].kind && Outranks(p, c1, c2);
  }

  /** Findings of a more probable class come first; ties keep ANOMALY_CLASSES order. */
  lemma FindingsRankedByProbability(t: Tables, p: seq<real>, i: nat)
    requires WellFormed(t) && |p| == ClassCount
    requires i < ClassCount - 1 && p[i] >= ConfidenceThreshold
    ensures forall n1, n2 :: 0 <= n1 < n2 < |Synthesize(t, p)| ==> RanksBefore(t, p, Synthesize(t, p)[n1], Synthesize(t, p)[n2])
  {
    var s, _ := AbnormalSorted(t, p, i);
    DetectedSpec(p, |p|);
    SortDescStable(Detected(p, |p|), Probability, ClassRank);
    forall n1, n2 | 0 <= n1 < n2 < |Expand(t, s)|
      ensures RanksBefore(t, p, Expand(t, s)[n1], Expand(t, s)[n2])
    {
      PairRanked(t, p, s, n1, n2);
    }
  }

  /** Each qualifying class other than "Normal" contributes all its locations, contiguously and in table order. */
  lemma QualifyingClassContributes(t: Tables, p: seq<real>, i: nat) returns (o: nat)
    requires WellFormed(t) && |p| == ClassCount
    requires i < ClassCount - 1 && p[i] >= ConfidenceThreshold
    ensures var b := ClassFindings(t, Condition(AnomalyClasses[i], p[i]));
      o + |b| <= |Synthesize(t, p)| && Synthesize(t, p)[o..o + |b|] == b
  {
    var s, m := AbnormalSorted(t, p, i);
    ClassIndexOfEntry(i);
    o := ExpandHasBlock(t, s, m);
  }

  /** Sum of the location counts of the qualifying classes among the first n, "Normal" excluded. */
  function QualifyingLocations(t: Tables, p: seq<real>, n: nat): nat
    requires n <= |p| == ClassCount
  {
    if n == 0 then 0
    else
      QualifyingLocations(t, p, n - 1)
      + (if p[n - 1] >= ConfidenceThreshold && n - 1 != ClassIndex(Normal) then |t.locations(AnomalyClasses[n - 1])| else 0)
  }

  lemma {:induction false} BlockTotalDetected(t: Tables, p: seq<real>, n: nat)
    requires WellFormed(t) && n <= |p| == ClassCount
    ensures BlockTotal(t, Detected(p, n)) == QualifyingLocations(t, p, n)
  {
    if n > 0 {
      BlockTotalDetected(t, p, n - 1);
      if p[n - 1] >= ConfidenceThreshold {
        var x := Condition(AnomalyClasses[n - 1], p[n - 1]);
        assert Detected(p, n) == Detected(p, n - 1) + [x];
        BlockTotalAppend(t, Detected(p, n - 1), [x]);
        ExpandSingle(t, x);
        ClassIndexOfEntry(n - 1);
        assert |ClassFindings(t, x)| == |t.locations(x.cls)|;
      } else {
        assert Detected(p, n) == Detected(p, n - 1);
      }
    }
  }

  /** Some pathological class qualifies: the number of findings is the sum of their location counts. */
  lemma FindingCount(t: Tables, p: seq<real>, i: nat)
    requires WellFormed(t) && |p| == ClassCount
    requires i < ClassCount - 1 && p[i] >= ConfidenceThreshold
    ensures |Synthesize(t, p)| == QualifyingLocations(t, p, ClassCount)
  {
    var s, _ := AbnormalSorted(t, p, i);
    ExpandLength(t, s);
    BlockTotalSort(t, Detected(p, |p|), Probability);
    BlockTotalDetected(t, p, |p|);
  }

  lemma LowerPneumonia()
    ensures ToLower("Pneumonia") == "pneumonia"
  {
    var s := "Pneumonia";
    forall i | 0 <= i < |s| ensures ToLower(s)[i] == "pneumonia"[i] {
    }
  }

  lemma PneumoniaSecondary()
    ensures SecondaryDescription(Catalog, Pneumonia) == "Additional " + "pneumonia" + " findings in this region."
  {
    LowerPneumonia();
  }

  lemma PneumoniaEntries()
    ensures Catalog.name(Pneumonia) == "Pneumonia"
    ensures Catalog.locations(Pneumonia) == ["Right lung field", "Left lung field", "Bilateral lung bases"]
    ensures Catalog.description(Pneumonia) == Description(Pneumonia)
  {
  }

  /** The findings of Pneumonia at probability 0.8 under the tables of aiService.ts. */
  lemma PneumoniaFindings()
    ensures ClassFindings(Catalog, Condition(Pneumonia, 0.8)) == [
      DetectedAnomaly("Pneumonia", "Right lung field", 0.8, Description(Pneumonia)),
      DetectedAnomaly("Pneumonia", "Left lung field", 0.72, "Additional " + "pneumonia" + " findings in this region."),
      DetectedAnomaly("Pneumonia", "Bilateral lung bases", 0.64, "Additional " + "pneumonia" + " findings in this region.")]
  {
    var x := Condition(Pneumonia, 0.8);
    PneumoniaSecondary();
    PneumoniaEntries();
    var r := ClassFindings(Catalog, x);
    assert |r| == 3;
    assert r[0] == Finding(Catalog, x, 0);
    assert r[1] == Finding(Catalog, x, 1);
    assert r[2] == Finding(Catalog, x, 2);
  }

  /** A worked example: Pneumonia at 0.8, Normal at 0.1, everything else 0. */
  lemma PneumoniaExample()
    ensures WellFormed(Catalog)
    ensures var p := [0.0, 0.0, 0.0, 0.0, 0.0, 0.0, 0.0, 0.0, 0.0, 0.0, 0.0, 0.0, 0.8, 0.0, 0.1];
      Synthesize(Catalog, p) == ClassFindings(Catalog, Condition(Pneumonia, 0.8))
  {
    CatalogWellFormed();
    var p := [0.0, 0.0, 0.0, 0.0, 0.0, 0.0, 0.0, 0.0, 0.0, 0.0, 0.0, 0.0, 0.8, 0.0, 0.1];
    SingleClass(Catalog, p, 12);
  }

  /// The image buffer

  /**
   * The RGBA to RGB loop of imageToTensor: one pass over the decoded
   * pixels, copying red, green and blue and dropping alpha.
   */
  method StripAlpha(data: seq<byte>, width: nat, height: nat) returns (buffer: array<byte>)
    requires |data| == 4 * (width * height)
    ensures fresh(buffer)
    ensures buffer.Length == 3 * (width * height)
    ensures forall k :: 0 <= k < buffer.Length ==> buffer[k] == data[4 * (k / 3) + k % 3]
  {
    buffer := new byte[width * height * 3];
    var offset := 0;
    var i := 0;
    ghost var pixels := 0;
    while i < |data|
      invariant 0 <= pixels <= width * height
      invariant i == 4 * pixels && offset == 3 * pixels
      invariant forall k :: 0 <= k < offset ==> buffer[k] == data[4 * (k / 3) + k % 3]
    {
      buffer[offset] := data[i];
      offset := offset + 1;
      buffer[offset] := data[i + 1];
      offset := offset + 1;
      buffer[offset] := data[i + 2];
      offset := offset + 1;
      i := i + 4;
      pixels := pixels + 1;
    }
  }

  /// The classifier handle

  /** A loaded graph model, identified by where it was loaded from. */
  datatype GraphModel = GraphModel(url: string)

  const LoadFailed: string := "Failed to load AI model"
  const AnalysisFailed: string := "Failed to analyze X-ray image. Please try again."

  /** The module-level `model` variable of aiService.ts. */
  class ModelSlot {
    var model: Option<GraphModel>
    /** How many times the loader has been invoked. */
    ghost var loadAttempts: nat

    constructor ()
      ensures model == None && loadAttempts == 0
    {
      model := None;
      loadAttempts := 0;
    }

    /**
     * initializeModel. `loaded` is what the loader (backend setup, URL
     * lookup, loadGraphModel) yields if it is invoked now: None when it throws.
     */
    method InitializeModel(loaded: Option<GraphModel>) returns (r: Result<GraphModel, string>)
      modifies this
      ensures old(model).Some? ==> model == old(model) && r == Success(old(model).value)
      ensures old(model).Some? ==> loadAttempts == old(loadAttempts)
      ensures old(model).None? ==> model == loaded && loadAttempts == old(loadAttempts) + 1
      ensures old(model).None? && loaded.Some? ==> r == Success(loaded.value)
      ensures old(model).None? && loaded.None? ==> r == Failure(LoadFailed)
    {
      if model.None? {
        loadAttempts := loadAttempts + 1;
        if loaded.None? {
          return Failure(LoadFailed);
        }
        model := loaded;
      }
      r := Success(model.value);
    }

    /**
     * detectAnomalies with inference abstracted: `probabilities` is the
     * classifier's output for the image. Any failure surfaces as one error.
     */
    method DetectAnomalies(loaded: Option<GraphModel>, probabilities: seq<real>)
      returns (r: Result<seq<DetectedAnomaly>, string>)
      requires |probabilities| == ClassCount
      modifies this
      ensures model == if old(model).Some? then old(model) else loaded
      ensures model.Some? ==> r == Success(Synthesize(Catalog, probabilities))
      ensures model.None? ==> r == Failure(AnalysisFailed)
      ensures loadAttempts == old(loadAttempts) + (if old(model).None? then 1 else 0)
    {
      CatalogWellFormed();
      var handle := InitializeModel(loaded);
      if handle.Failure? {
        return Failure(AnalysisFailed);
      }
      var anomalies := SynthesizeFindings(Catalog, probabilities);
      r := Success(anomalies);
    }
  }
}

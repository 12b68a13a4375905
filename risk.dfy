/** `classify_risk_level`: the four-level risk rating of one additive record,
    a first-match-wins cascade over exact code sets and then keywords in the
    lower-cased classes and name. */
module RiskClassifier {
  import opened Wrappers
  import opened Text
  import opened Taxonomy

  /** The `(risk_level, risk_color)` pair the classifier returns. */
  type RiskPair = (string, string)

  /** The four levels the classifier can produce, each with its pair. */
  datatype RiskLevel = GREEN | YELLOW | ORANGE | RED
  {
    function Pair(): RiskPair {
      match this
      case GREEN => ("GREEN", "green")
      case YELLOW => ("YELLOW", "yellow")
      case ORANGE => ("ORANGE", "orange")
      case RED => ("RED", "red")
    }
  }

  const RISK_PAIRS: set<RiskPair> := {GREEN.Pair(), YELLOW.Pair(), ORANGE.Pair(), RED.Pair()}

  // The three code sets of `classify_risk_level`, each the union of the
  // groups it lists under its comments.

  /** The union of a list of sets. */
  function Union(groups: seq<set<string>>): set<string>
    decreases |groups|
  {
    if groups == [] then {} else groups[0] + Union(groups[1..])
  }

  /** A code is in the union exactly when some group holds it. */
  lemma {:induction false} UnionHas(groups: seq<set<string>>, code: string)
    ensures code in Union(groups) <==> exists k :: 0 <= k < |groups| && code in groups[k]
    decreases |groups|
  {
    if groups != [] {
      UnionHas(groups[1..], code);
      if exists k :: 0 <= k < |groups| && code in groups[k] {
        var k :| 0 <= k < |groups| && code in groups[k];
        if k > 0 {
          assert groups[1..][k - 1] == groups[k];
        }
      }
    }
  }

  const HYPERACTIVITY_COLOURS: set<string> :=
    {"102", "104", "110", "122", "124", "129", "131", "132", "133", "127", "154", "180"}
  const CONTROVERSIAL_SWEETENERS: set<string> := {"951", "954", "955", "961"}
  const SULFITES: set<string> := {"220", "221", "222", "223", "224", "225", "226", "227", "228"}
  const NITRATES_NITRITES: set<string> := {"249", "250", "251", "252"}
  const GLUTAMATES: set<string> := {"621", "622", "623", "624", "625"}
  const CONTROVERSIAL_PRESERVATIVES: set<string> :=
    {"210", "211", "212", "213", "214", "215", "216", "217", "218", "219"}
  const TRANS_FAT_RELATED: set<string> := {"441", "442"}
  const ALUMINIUM_COMPOUNDS: set<string> := {"173", "541", "554", "555", "556", "559"}
  const QUESTIONABLE_EMULSIFIERS: set<string> := {"407a", "425", "466"}

  /** Codes with documented health concerns. */
  const HIGH_RISK_GROUPS: seq<set<string>> := [
    HYPERACTIVITY_COLOURS, CONTROVERSIAL_SWEETENERS, SULFITES, NITRATES_NITRITES, GLUTAMATES,
    CONTROVERSIAL_PRESERVATIVES, TRANS_FAT_RELATED, ALUMINIUM_COMPOUNDS, QUESTIONABLE_EMULSIFIERS]
  const HIGH_RISK_ADDITIVES: set<string> := Union(HIGH_RISK_GROUPS)

  const PHOSPHATES: set<string> := {"338", "339", "340", "341", "343", "450", "451", "452"}
  const CARRAGEENAN: set<string> := {"407"}
  const RESTRICTED_ANTIOXIDANTS: set<string> := {"320", "321", "310", "311", "312", "319", "324"}
  const SYNTHETIC_COLOURS: set<string> := {"123", "155", "160b", "161g", "163"}
  const CONTROVERSIAL_THICKENERS: set<string> :=
    {"414", "415", "418", "460", "461", "462", "463", "464", "465", "466", "468", "469"}
  const BROMATES: set<string> := {"924", "925", "926", "927", "928"}
  const AMMONIA_CARAMELS: set<string> := {"150c", "150d"}

  /** Codes with some concerns but in wide use. */
  const MODERATE_RISK_GROUPS: seq<set<string>> := [
    PHOSPHATES, CARRAGEENAN, RESTRICTED_ANTIOXIDANTS, SYNTHETIC_COLOURS, CONTROVERSIAL_THICKENERS,
    BROMATES, AMMONIA_CARAMELS]
  const MODERATE_RISK_ADDITIVES: set<string> := Union(MODERATE_RISK_GROUPS)

  const VITAMINS: set<string> := {
    "101", "101i", "101ii",
    "300", "301", "302", "303", "304", "304i", "304ii",
    "306", "307", "307a", "307b", "307c", "308", "309"
  }
  const NATURAL_COLOURS: set<string> := {
    "100",
    "140", "140i", "140ii",
    "160a", "160ai", "160aii",
    "160c", "160d", "160e", "160f",
    "161a", "161b", "161c", "161d", "161e", "161f", "161h", "161i", "161j",
    "162",
    "163a", "163b", "163c", "163d", "163e", "163f"
  }
  const NATURAL_ACIDS_AND_SALTS: set<string> := {
    "330",
    "331", "331i", "331ii", "331iii",
    "332", "332i", "332ii",
    "333", "333i", "333ii", "333iii",
    "334",
    "335", "335i", "335ii",
    "336", "336i", "336ii",
    "337"
  }
  const NATURAL_EXTRACTS: set<string> := {
    "150a",
    "200", "202", "203",
    "270",
    "290",
    "322", "322i", "322ii",
    "401", "402", "403", "404", "405", "406",
    "407",
    "410", "412", "413", "415", "416", "417",
    "440", "440i", "440ii",
    "471"
  }
  const NATURAL_MINERALS: set<string> := {
    "500", "500i", "500ii", "500iii",
    "501", "501i", "501ii",
    "503", "503i", "503ii",
    "504", "504i", "504ii",
    "507", "508", "509", "511", "513",
    "514", "514i", "514ii",
    "515", "515i", "515ii",
    "516", "517", "518"
  }
  const NATURAL_SWEETENERS: set<string> := {
    "420", "420i", "420ii",
    "965", "965i", "965ii",
    "967", "968", "960"
  }
  const GASES: set<string> := {"938", "939", "941", "942", "948", "949"}

  /** Vitamins, natural colours, acids, salts, gums, minerals, sweeteners and gases. */
  const SAFE_GROUPS: seq<set<string>> := [
    VITAMINS, NATURAL_COLOURS, NATURAL_ACIDS_AND_SALTS, NATURAL_EXTRACTS, NATURAL_MINERALS,
    NATURAL_SWEETENERS, GASES]
  const SAFE_ADDITIVES: set<string> := Union(SAFE_GROUPS)

  const COLOUR_CLASSES := ["colour", "color"]
  const COLOUR_DANGERS := ["artificial", "synthetic", "azo"]
  const PRESERVATIVE_CONCERNS := ["benzoate", "sulfite", "nitrite", "nitrate"]
  const SWEETENER_CONCERNS := ["artificial", "aspartame", "saccharin", "acesulfame"]
  const NATURAL_CLASSES := ["antioxidant", "vitamin", "mineral"]
  const NATURAL_NAMES := ["natural", "vitamin", "mineral", "citric", "lactic", "ascorbic"]
  const TEXTURE_CLASSES := ["emulsifier", "thickener", "stabiliser", "stabilizer"]

  /** The colour of every pair is the lower-case spelling of its level,
      and distinct levels have distinct pairs. */
  lemma PairSpellsLevel(l: RiskLevel)
    ensures l.Pair() in RISK_PAIRS
    ensures l.Pair().1 == Lower(l.Pair().0)
  {
    match l
    case GREEN => assert Lower("GREEN") == "green";
    case YELLOW => assert Lower("YELLOW") == "yellow";
    case ORANGE => assert Lower("ORANGE") == "orange";
    case RED => assert Lower("RED") == "red";
  }

  lemma PairInjective(l: RiskLevel, m: RiskLevel)
    requires l.Pair() == m.Pair()
    ensures l == m
  {
    assert |l.Pair().0| == |m.Pair().0|;
    assert l.Pair().0[0] == m.Pair().0[0];
  }

  /** `classify_risk_level`: never fails and always yields one of the four
      pairs, whose colour is the lower-case of its level. */
  function ClassifyRiskLevel(additive: Record): (r: RiskPair)
    ensures r in RISK_PAIRS
    ensures r.1 == Lower(r.0)
  {
    PairSpellsLevel(RiskLevelOf(additive));
    RiskLevelOf(additive).Pair()
  }

  /** What the cascade looks at: the code's membership in each of the
      three sets, and the lower-cased classes and name. */
  datatype Facts = Facts(inHigh: bool, inModerate: bool, inSafe: bool, classes: string, name: string)

  function Observe(additive: Record): (f: Facts)
    ensures f.inHigh <==> Code(additive) in HIGH_RISK_ADDITIVES
    ensures f.inModerate <==> Code(additive) in MODERATE_RISK_ADDITIVES
    ensures f.inSafe <==> Code(additive) in SAFE_ADDITIVES
    ensures f.classes == Classes(additive) && f.name == Name(additive)
  {
    var code := Code(additive);
    Facts(code in HIGH_RISK_ADDITIVES, code in MODERATE_RISK_ADDITIVES, code in SAFE_ADDITIVES,
          Classes(additive), Name(additive))
  }

  /** The cascade itself, in `classify_risk_level`'s order: exact code sets first,
      then keywords in the classes and the name. */
  function RiskLevelOf(additive: Record): RiskLevel {
    Decide(Observe(additive))
  }

  /** The level depends on nothing but the code's membership in the three
      sets and the lower-cased classes and name: two records that agree on
      those are rated alike, whatever else they hold. */
  lemma LevelReadsOnlyFacts(a: Record, b: Record)
    requires (Code(a) in HIGH_RISK_ADDITIVES <==> Code(b) in HIGH_RISK_ADDITIVES)
    requires (Code(a) in MODERATE_RISK_ADDITIVES <==> Code(b) in MODERATE_RISK_ADDITIVES)
    requires (Code(a) in SAFE_ADDITIVES <==> Code(b) in SAFE_ADDITIVES)
    requires Classes(a) == Classes(b) && Name(a) == Name(b)
    ensures RiskLevelOf(a) == RiskLevelOf(b)
  {
    assert Observe(a) == Observe(b);
  }

  function Decide(f: Facts): RiskLevel {
    var classes, name := f.classes, f.name;
    if f.inHigh then RED
    else if f.inModerate then ORANGE
    else if f.inSafe then GREEN
    else if Contains(classes, "colour") || Contains(classes, "color") then
      if ContainsAny(name, COLOUR_DANGERS) then ORANGE else YELLOW
    else if Contains(classes, "preservative") then
      if ContainsAny(name, PRESERVATIVE_CONCERNS) then ORANGE else YELLOW
    else if Contains(classes, "sweetener") then
      if Contains(name, "artificial") || ContainsAny(name, ["aspartame", "saccharin", "acesulfame"]) then ORANGE else YELLOW
    else if ContainsAny(classes, NATURAL_CLASSES) then GREEN
    else if ContainsAny(name, NATURAL_NAMES) then GREEN
    else if ContainsAny(classes, TEXTURE_CLASSES) then YELLOW
    else YELLOW
  }

  /** The same cascade written as data, as an ordered list of guarded
      outcomes evaluated first to last. */
  datatype Guard =
    | CodeIn(codes: CodeSet)
    | ClassesHaveAny(keywords: seq<string>)
    | NameHasAny(keywords: seq<string>)
    | Both(left: Guard, right: Guard)
    | Always

  datatype Rule = Rule(guard: Guard, outcome: RiskLevel)

  /** The three fixed code sets, named rather than carried, so that a rule
      list stays small. */
  datatype CodeSet = HighRisk | ModerateRisk | Safe

  predicate Holds(g: Guard, f: Facts) {
    match g
    case CodeIn(HighRisk) => f.inHigh
    case CodeIn(ModerateRisk) => f.inModerate
    case CodeIn(Safe) => f.inSafe
    case ClassesHaveAny(keywords) => ContainsAny(f.classes, keywords)
    case NameHasAny(keywords) => ContainsAny(f.name, keywords)
    case Both(left, right) => Holds(left, f) && Holds(right, f)
    case Always => true
  }

  const RISK_RULES: seq<Rule> := [
    Rule(CodeIn(HighRisk), RED),
    Rule(CodeIn(ModerateRisk), ORANGE),
    Rule(CodeIn(Safe), GREEN),
    Rule(Both(ClassesHaveAny(COLOUR_CLASSES), NameHasAny(COLOUR_DANGERS)), ORANGE),
    Rule(ClassesHaveAny(COLOUR_CLASSES), YELLOW),
    Rule(Both(ClassesHaveAny(["preservative"]), NameHasAny(PRESERVATIVE_CONCERNS)), ORANGE),
    Rule(ClassesHaveAny(["preservative"]), YELLOW),
    Rule(Both(ClassesHaveAny(["sweetener"]), NameHasAny(SWEETENER_CONCERNS)), ORANGE),
    Rule(ClassesHaveAny(["sweetener"]), YELLOW),
    Rule(ClassesHaveAny(NATURAL_CLASSES), GREEN),
    Rule(NameHasAny(NATURAL_NAMES), GREEN),
    Rule(ClassesHaveAny(TEXTURE_CLASSES), YELLOW),
    Rule(Always, YELLOW)
  ]

  /** The outcome of the first rule at or after `from` whose guard holds. */
  function FirstMatch(rules: seq<Rule>, from: nat, f: Facts): (r: Option<RiskLevel>)
    requires from <= |rules|
    ensures r.None? <==> forall k :: from <= k < |rules| ==> !Holds(rules[k].guard, f)
    ensures r.Some? ==> exists k :: (from <= k < |rules| && Holds(rules[k].guard, f) &&
      r.value == rules[k].outcome && forall j :: from <= j < k ==> !Holds(rules[j].guard, f))
    decreases |rules| - from
  {
    if from == |rules| then None
    else if Holds(rules[from].guard, f) then Some(rules[from].outcome)
    else FirstMatch(rules, from + 1, f)
  }

  /** The classifier's branches are exactly the rule list read first to
      last: the if-chain and the data agree on every record. */
  lemma ClassifyFollowsRules(additive: Record)
    ensures FirstMatch(RISK_RULES, 0, Observe(additive)) == Some(RiskLevelOf(additive))
  {
    DecideFollowsRules(Observe(additive));
  }

  lemma DecideFollowsRules(f: Facts)
    ensures FirstMatch(RISK_RULES, 0, f) == Some(Decide(f))
  {
    CodeRules(f);
    ColourRules(f);
    PreservativeRules(f);
    SweetenerRules(f);
    NaturalRules(f);
  }

  lemma CodeRules(f: Facts)
    ensures FirstMatch(RISK_RULES, 0, f) ==
      if f.inHigh then Some(RED)
      else if f.inModerate then Some(ORANGE)
      else if f.inSafe then Some(GREEN)
      else FirstMatch(RISK_RULES, 3, f)
  {
    assert FirstMatch(RISK_RULES, 2, f) == if f.inSafe then Some(GREEN) else FirstMatch(RISK_RULES, 3, f);
  }

  lemma ColourRules(f: Facts)
    ensures FirstMatch(RISK_RULES, 3, f) ==
      if Contains(f.classes, "colour") || Contains(f.classes, "color") then
        Some(if ContainsAny(f.name, COLOUR_DANGERS) then ORANGE else YELLOW)
      else FirstMatch(RISK_RULES, 5, f)
  {
    ContainsAnyCons(f.classes, "colour", ["color"]);
    ContainsAnyCons(f.classes, "color", []);
    assert COLOUR_CLASSES == ["colour"] + ["color"];
    assert ["color"] == ["color"] + [];
    var guard := RISK_RULES[3].guard;
    assert guard == Both(ClassesHaveAny(COLOUR_CLASSES), NameHasAny(COLOUR_DANGERS));
    assert Holds(guard, f) <==> Holds(guard.left, f) && Holds(guard.right, f);
    assert FirstMatch(RISK_RULES, 3, f) ==
      if ContainsAny(f.classes, COLOUR_CLASSES) && ContainsAny(f.name, COLOUR_DANGERS) then Some(ORANGE)
      else FirstMatch(RISK_RULES, 4, f);
    assert FirstMatch(RISK_RULES, 4, f) ==
      if ContainsAny(f.classes, COLOUR_CLASSES) then Some(YELLOW) else FirstMatch(RISK_RULES, 5, f);
  }

  lemma PreservativeRules(f: Facts)
    ensures FirstMatch(RISK_RULES, 5, f) ==
      if Contains(f.classes, "preservative") then
        Some(if ContainsAny(f.name, PRESERVATIVE_CONCERNS) then ORANGE else YELLOW)
      else FirstMatch(RISK_RULES, 7, f)
  {
    ContainsAnyCons(f.classes, "preservative", []);
    assert ["preservative"] == ["preservative"] + [];
    var guard := RISK_RULES[5].guard;
    assert guard == Both(ClassesHaveAny(["preservative"]), NameHasAny(PRESERVATIVE_CONCERNS));
    assert Holds(guard, f) <==> Holds(guard.left, f) && Holds(guard.right, f);
    assert FirstMatch(RISK_RULES, 5, f) ==
      if ContainsAny(f.classes, ["preservative"]) && ContainsAny(f.name, PRESERVATIVE_CONCERNS) then Some(ORANGE)
      else FirstMatch(RISK_RULES, 6, f);
    assert FirstMatch(RISK_RULES, 6, f) ==
      if Contains(f.classes, "preservative") then Some(YELLOW) else FirstMatch(RISK_RULES, 7, f);
  }

  lemma SweetenerRules(f: Facts)
    ensures FirstMatch(RISK_RULES, 7, f) ==
      if Contains(f.classes, "sweetener") then
        Some(if Contains(f.name, "artificial") || ContainsAny(f.name, ["aspartame", "saccharin", "acesulfame"]) then ORANGE else YELLOW)
      else FirstMatch(RISK_RULES, 9, f)
  {
    ContainsAnyCons(f.classes, "sweetener", []);
    ContainsAnyCons(f.name, "artificial", ["aspartame", "saccharin", "acesulfame"]);
    assert ["sweetener"] == ["sweetener"] + [];
    assert SWEETENER_CONCERNS == ["artificial"] + ["aspartame", "saccharin", "acesulfame"];
    var guard := RISK_RULES[7].guard;
    assert guard == Both(ClassesHaveAny(["sweetener"]), NameHasAny(SWEETENER_CONCERNS));
    assert Holds(guard, f) <==> Holds(guard.left, f) && Holds(guard.right, f);
    assert FirstMatch(RISK_RULES, 7, f) ==
      if ContainsAny(f.classes, ["sweetener"]) && ContainsAny(f.name, SWEETENER_CONCERNS) then Some(ORANGE)
      else FirstMatch(RISK_RULES, 8, f);
    assert FirstMatch(RISK_RULES, 8, f) ==
      if Contains(f.classes, "sweetener") then Some(YELLOW) else FirstMatch(RISK_RULES, 9, f);
  }

  lemma NaturalRules(f: Facts)
    ensures FirstMatch(RISK_RULES, 9, f) ==
      if ContainsAny(f.classes, NATURAL_CLASSES) || ContainsAny(f.name, NATURAL_NAMES) then Some(GREEN) else Some(YELLOW)
  {
    assert FirstMatch(RISK_RULES, 12, f) == Some(YELLOW);
    assert FirstMatch(RISK_RULES, 11, f) == Some(YELLOW);
  }

  /** A code in the high-risk set is RED whatever its classes and name. */
  lemma HighRiskCodeIsRed(additive: Record)
    requires Code(additive) in HIGH_RISK_ADDITIVES
    ensures RiskLevelOf(additive) == RED
  {
  }

  /** Listed twice, a code takes the level of the set checked first:
      "466" is high and moderate, "407" and "415" are moderate and safe. */
  lemma OverlappingCodesResolveInOrder(additive: Record)
    ensures Code(additive) == "466" ==> RiskLevelOf(additive) == RED
    ensures Code(additive) == "407" || Code(additive) == "415" ==> RiskLevelOf(additive) == ORANGE
  {
    var code := Code(additive);
    if code == "466" {
      assert code in HIGH_RISK_GROUPS[8];
      ListedIn(HIGH_RISK_GROUPS, 8, code);
    }
    if code == "407" {
      NotHighRisk(code);
      assert code in MODERATE_RISK_GROUPS[1];
      ListedIn(MODERATE_RISK_GROUPS, 1, code);
    }
    if code == "415" {
      NotHighRisk(code);
      assert code in MODERATE_RISK_GROUPS[4];
      ListedIn(MODERATE_RISK_GROUPS, 4, code);
    }
  }

  lemma ListedIn(groups: seq<set<string>>, k: nat, code: string)
    requires k < |groups| && code in groups[k]
    ensures code in Union(groups)
  {
    UnionHas(groups, code);
  }

  /** "407" and "415" are in no group of the high-risk set. */
  lemma NotHighRisk(code: string)
    requires code == "407" || code == "415"
    ensures code !in HIGH_RISK_ADDITIVES
  {
    assert code !in HYPERACTIVITY_COLOURS;
    assert code !in CONTROVERSIAL_SWEETENERS;
    assert code !in SULFITES;
    assert code !in NITRATES_NITRITES;
    assert code !in GLUTAMATES;
    assert code !in CONTROVERSIAL_PRESERVATIVES;
    assert code !in TRANS_FAT_RELATED;
    assert code !in ALUMINIUM_COMPOUNDS;
    assert code !in QUESTIONABLE_EMULSIFIERS;
    UnionHas(HIGH_RISK_GROUPS, code);
  }

  /** Every listed code starts with a digit, so no set holds a code written
      with its "E" prefix: such a code is judged by its keywords alone. */
  lemma PrefixedCodesMissTheSets(code: string)
    requires |code| > 0 && code[0] == 'E'
    ensures NoCodeMatch(code)
  {
    PrefixedNotHighRisk(code);
    PrefixedNotModerateRisk(code);
    PrefixedNotSafe(code);
  }

  lemma PrefixedNotSafe(code: string)
    requires |code| > 0 && code[0] == 'E'
    ensures code !in SAFE_ADDITIVES
  {
    PrefixedNotNaturalColourOrSalt(code);
    PrefixedNotNaturalExtractOrMineral(code);
    assert code !in VITAMINS;
    assert code !in NATURAL_SWEETENERS;
    assert code !in GASES;
    UnionHas(SAFE_GROUPS, code);
  }

  lemma PrefixedNotNaturalColourOrSalt(code: string)
    requires |code| > 0 && code[0] == 'E'
    ensures code !in NATURAL_COLOURS && code !in NATURAL_ACIDS_AND_SALTS
  {
    assert code !in NATURAL_COLOURS;
  }

  lemma PrefixedNotNaturalExtractOrMineral(code: string)
    requires |code| > 0 && code[0] == 'E'
    ensures code !in NATURAL_EXTRACTS && code !in NATURAL_MINERALS
  {
    assert code !in NATURAL_EXTRACTS;
  }

  lemma PrefixedNotHighRisk(code: string)
    requires |code| > 0 && code[0] == 'E'
    ensures code !in HIGH_RISK_ADDITIVES
  {
    assert code !in HYPERACTIVITY_COLOURS;
    assert code !in CONTROVERSIAL_SWEETENERS;
    assert code !in SULFITES;
    assert code !in NITRATES_NITRITES;
    assert code !in GLUTAMATES;
    assert code !in CONTROVERSIAL_PRESERVATIVES;
    assert code !in TRANS_FAT_RELATED;
    assert code !in ALUMINIUM_COMPOUNDS;
    assert code !in QUESTIONABLE_EMULSIFIERS;
    UnionHas(HIGH_RISK_GROUPS, code);
  }

  lemma PrefixedNotModerateRisk(code: string)
    requires |code| > 0 && code[0] == 'E'
    ensures code !in MODERATE_RISK_ADDITIVES
  {
    assert code !in PHOSPHATES;
    assert code !in CARRAGEENAN;
    assert code !in RESTRICTED_ANTIOXIDANTS;
    assert code !in SYNTHETIC_COLOURS;
    assert code !in CONTROVERSIAL_THICKENERS;
    assert code !in BROMATES;
    assert code !in AMMONIA_CARAMELS;
    UnionHas(MODERATE_RISK_GROUPS, code);
  }


  /** The level is RED exactly for the high-risk codes. */
  lemma RedExactly(additive: Record)
    ensures RiskLevelOf(additive) == RED <==> Code(additive) in HIGH_RISK_ADDITIVES
  {
  }

  /** Whether a record falls to the keyword rules, and which of the three
      class families (colour, preservative, sweetener) it hits first. */
  predicate NoCodeMatch(code: string) {
    code !in HIGH_RISK_ADDITIVES && code !in MODERATE_RISK_ADDITIVES && code !in SAFE_ADDITIVES
  }

  predicate IsColour(classes: string) {
    Contains(classes, "colour") || Contains(classes, "color")
  }

  predicate IsPreservative(classes: string) {
    !IsColour(classes) && Contains(classes, "preservative")
  }

  predicate IsSweetener(classes: string) {
    !IsColour(classes) && !Contains(classes, "preservative") && Contains(classes, "sweetener")
  }

  /** GREEN exactly for a safe code not listed earlier, or, with no code
      match and none of the three families, a natural class or name. */
  lemma GreenExactly(additive: Record)
    ensures var code, classes, name := Code(additive), Classes(additive), Name(additive);
      RiskLevelOf(additive) == GREEN <==>
        (code !in HIGH_RISK_ADDITIVES && code !in MODERATE_RISK_ADDITIVES && code in SAFE_ADDITIVES) ||
        (NoCodeMatch(code) && !IsColour(classes) && !Contains(classes, "preservative") && !Contains(classes, "sweetener") &&
         (ContainsAny(classes, NATURAL_CLASSES) || ContainsAny(name, NATURAL_NAMES)))
  {
  }

  /** ORANGE exactly for a moderate code not listed as high, or, with no
      code match, a family whose name keyword signals concern. */
  lemma OrangeExactly(additive: Record)
    ensures var code, classes, name := Code(additive), Classes(additive), Name(additive);
      RiskLevelOf(additive) == ORANGE <==>
        (code !in HIGH_RISK_ADDITIVES && code in MODERATE_RISK_ADDITIVES) ||
        (NoCodeMatch(code) &&
          ((IsColour(classes) && ContainsAny(name, COLOUR_DANGERS)) ||
           (IsPreservative(classes) && ContainsAny(name, PRESERVATIVE_CONCERNS)) ||
           (IsSweetener(classes) && ContainsAny(name, SWEETENER_CONCERNS))))
  {
    ContainsAnyCons(Name(additive), "artificial", ["aspartame", "saccharin", "acesulfame"]);
    assert SWEETENER_CONCERNS == ["artificial"] + ["aspartame", "saccharin", "acesulfame"];
  }

  /** Matching ignores case: upper-casing the classes and the name leaves
      the level unchanged. */
  lemma ClassifyIgnoresCase(additive: Record)
    ensures RiskLevelOf(additive["additives_classes" := Upper(Get(additive, "additives_classes", ""))]
                                       ["name" := Upper(Get(additive, "name", ""))])
         == RiskLevelOf(additive)
  {
    var shouted := additive["additives_classes" := Upper(Get(additive, "additives_classes", ""))]
                           ["name" := Upper(Get(additive, "name", ""))];
    LowerUpper(Get(additive, "additives_classes", ""));
    LowerUpper(Get(additive, "name", ""));
    assert Classes(shouted) == Classes(additive);
    assert Name(shouted) == Name(additive);
  }

  /** The curated records: Curcumin and Riboflavin are colours with no
      concerning name, so YELLOW; Ascorbic acid is an antioxidant, so GREEN.
      Their codes carry the "E" prefix, so no code set applies to them. */
  lemma ManualAdditivesRisk(now: string)
    ensures var m := ManualAdditives(now);
      RiskLevelOf(m[0]) == YELLOW && RiskLevelOf(m[1]) == YELLOW && RiskLevelOf(m[2]) == GREEN
  {
    var m := ManualAdditives(now);
    ManualAdditivesFields(now);
    CurcuminLevel(m[0]);
    RiboflavinLevel(m[1]);
    AscorbicAcidLevel(m[2]);
  }

  /** A record no code set lists, classed as a colour, with no
      concerning word in its name, is YELLOW. */
  lemma PlainColourIsYellow(additive: Record)
    requires NoCodeMatch(Code(additive)) && IsColour(Classes(additive))
    requires !ContainsAny(Name(additive), COLOUR_DANGERS)
    ensures RiskLevelOf(additive) == YELLOW
  {
  }

  lemma CurcuminLevel(r: Record)
    requires Code(r) == "E100" && Classes(r) == "natural colour" && Name(r) == "curcumin"
    ensures RiskLevelOf(r) == YELLOW
  {
    PrefixedCodesMissTheSets(Code(r));
    CurcuminWords();
    PlainColourIsYellow(r);
  }

  lemma CurcuminWords()
    ensures IsColour("natural colour") && !ContainsAny("curcumin", COLOUR_DANGERS)
  {
    ContainsAt("natural colour", "colour", 8);
    NotContainsLetter("curcumin", "artificial", 0);
    NotContainsLetter("curcumin", "synthetic", 0);
    NotContainsLetter("curcumin", "azo", 0);
  }

  lemma RiboflavinLevel(r: Record)
    requires Code(r) == "E101" && Classes(r) == "natural vitamin colour" && Name(r) == "riboflavin"
    ensures RiskLevelOf(r) == YELLOW
  {
    PrefixedCodesMissTheSets(Code(r));
    RiboflavinWords();
    PlainColourIsYellow(r);
  }

  lemma RiboflavinWords()
    ensures IsColour("natural vitamin colour") && !ContainsAny("riboflavin", COLOUR_DANGERS)
  {
    ContainsAt("natural vitamin colour", "colour", 16);
    NotContainsLetter("riboflavin", "synthetic", 0);
    assert !OccursAt("riboflavin", "artificial", 0) by {
      assert "riboflavin"[0] != "artificial"[0];
    }
    NotContainsLetter("riboflavin", "azo", 1);
  }

  lemma AscorbicAcidLevel(r: Record)
    requires Code(r) == "E300" && Classes(r) == "natural antioxidant vitamin" && Name(r) == "ascorbic acid"
    ensures RiskLevelOf(r) == GREEN
  {
    PrefixedCodesMissTheSets(Code(r));
    AscorbicAcidWords(Classes(r));
    GreenExactly(r);
  }

  lemma AscorbicAcidWords(c: string)
    requires c == "natural antioxidant vitamin"
    ensures !IsColour(c) && !Contains(c, "preservative") && !Contains(c, "sweetener")
    ensures ContainsAny(c, NATURAL_CLASSES)
  {
    NoColourOrPreservative(c);
    NoSweetenerButAntioxidant(c);
  }

  lemma NoColourOrPreservative(c: string)
    requires c == "natural antioxidant vitamin"
    ensures !Contains(c, "colour") && !Contains(c, "color") && !Contains(c, "preservative")
  {
    NotContainsLetter(c, "colour", 0);
    NotContainsLetter(c, "color", 0);
    NotContainsLetter(c, "preservative", 0);
  }

  lemma NoSweetenerButAntioxidant(c: string)
    requires c == "natural antioxidant vitamin"
    ensures !Contains(c, "sweetener") && Contains(c, "antioxidant")
  {
    NotContainsLetter(c, "sweetener", 0);
    HasAntioxidant(c);
  }

  lemma HasAntioxidant(c: string)
    requires c == "natural antioxidant vitamin"
    ensures Contains(c, "antioxidant")
  {
    assert c == "natural " + "antioxidant" + " vitamin";
    ContainsInfix("natural ", "antioxidant", " vitamin");
  }
}

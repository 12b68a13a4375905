/** `get_additive_category`: the display category of an additive, taken from
    the first keyword of a fixed, ordered table that occurs in its
    lower-cased classes; "Other" when none does. */
module CategoryResolver {
  import opened Text
  import opened Taxonomy
  import RiskClassifier

  /** The display categories; `Label` is the text stored in the
      `category` column. */
  datatype Category =
    | FoodColors | Preservatives | Antioxidants | Sweeteners | Emulsifiers | Stabilizers
    | Thickeners | FlavorEnhancers | AcidityRegulators | AntiCakingAgents | Other
  {
    function Label(): string {
      match this
      case FoodColors => "Food Colors"
      case Preservatives => "Preservatives"
      case Antioxidants => "Antioxidants"
      case Sweeteners => "Sweeteners"
      case Emulsifiers => "Emulsifiers"
      case Stabilizers => "Stabilizers"
      case Thickeners => "Thickeners"
      case FlavorEnhancers => "Flavor Enhancers"
      case AcidityRegulators => "Acidity Regulators"
      case AntiCakingAgents => "Anti-Caking Agents"
      case Other => "Other"
    }
  }

  /** A category the table can name: any but `Other`. */
  type Named = c: Category | !c.Other? witness FoodColors

  /** `get_additive_category`'s `category_mapping`, in the order its dict
      literal lists it (Python dicts iterate in insertion order). */
  const CATEGORY_MAPPING: seq<(string, Named)> := [
    ("colour", FoodColors),
    ("color", FoodColors),
    ("preservative", Preservatives),
    ("antioxidant", Antioxidants),
    ("sweetener", Sweeteners),
    ("emulsifier", Emulsifiers),
    ("stabiliser", Stabilizers),
    ("stabilizer", Stabilizers),
    ("thickener", Thickeners),
    ("flavour enhancer", FlavorEnhancers),
    ("flavor enhancer", FlavorEnhancers),
    ("acidity regulator", AcidityRegulators),
    ("anti-caking", AntiCakingAgents)
  ]

  /** The category of the first entry of `table` at or after `from` whose
      keyword occurs in `classes`, or `Other`. */
  function FirstCategory(table: seq<(string, Named)>, from: nat, classes: string): (r: Category)
    requires from <= |table|
    ensures r == Other <==> forall k :: from <= k < |table| ==> !Contains(classes, table[k].0)
    ensures r != Other ==> exists k :: (from <= k < |table| && Contains(classes, table[k].0) &&
      r == table[k].1 && forall j :: from <= j < k ==> !Contains(classes, table[j].0))
    decreases |table| - from
  {
    if from == |table| then Other
    else if Contains(classes, table[from].0) then table[from].1
    else FirstCategory(table, from + 1, classes)
  }

  /** The category of a record, read from its lower-cased classes. */
  function CategoryOf(additive: Record): Category {
    FirstCategory(CATEGORY_MAPPING, 0, Classes(additive))
  }

  /** `get_additive_category`: try the keywords in table order and return
      the category of the first that occurs. */
  method GetAdditiveCategory(additive: Record) returns (category: Category)
    ensures category == CategoryOf(additive)
  {
    var classes := Classes(additive);
    category := FindCategory(CATEGORY_MAPPING, classes);
  }

  /** The loop of `get_additive_category`: try the keywords in table order
      and return the category of the first that occurs. */
  method FindCategory(table: seq<(string, Named)>, classes: string) returns (category: Category)
    ensures category == FirstCategory(table, 0, classes)
  {
    var i := 0;
    while i < |table|
      invariant 0 <= i <= |table|
      invariant FirstCategory(table, i, classes) == FirstCategory(table, 0, classes)
    {
      var (keyword, target) := table[i];
      if Contains(classes, keyword) {
        return target;
      }
      i := i + 1;
    }
    return Other;
  }

  /** The first entry whose keyword occurs decides, whatever follows it. */
  lemma FirstHitDecides(table: seq<(string, Named)>, classes: string, k: nat)
    requires k < |table| && Contains(classes, table[k].0)
    requires forall j :: 0 <= j < k ==> !Contains(classes, table[j].0)
    ensures FirstCategory(table, 0, classes) == table[k].1
  {
    var r := FirstCategory(table, 0, classes);
    var k' :| 0 <= k' < |table| && Contains(classes, table[k'].0) && r == table[k'].1 &&
      forall j :: 0 <= j < k' ==> !Contains(classes, table[j].0);
    assert k' == k;
  }

  /** The keywords of the first entries, as the lemmas below read them. */
  lemma MappingKeywords()
    ensures CATEGORY_MAPPING[0] == ("colour", FoodColors) && CATEGORY_MAPPING[1] == ("color", FoodColors)
    ensures CATEGORY_MAPPING[2].0 == "preservative" && CATEGORY_MAPPING[3] == ("antioxidant", Antioxidants)
    ensures CATEGORY_MAPPING[4].0 == "sweetener" && CATEGORY_MAPPING[5].0 == "emulsifier"
    ensures CATEGORY_MAPPING[6] == ("stabiliser", Stabilizers)
    ensures forall k :: 2 <= k < |CATEGORY_MAPPING| ==> CATEGORY_MAPPING[k].1 != FoodColors
  {
  }

  /** A record is filed under "Food Colors" exactly when the risk
      classifier treats its classes as a colour. */
  lemma FoodColorsExactlyColours(additive: Record)
    ensures CategoryOf(additive) == FoodColors <==> RiskClassifier.IsColour(Classes(additive))
  {
    MappingKeywords();
    var classes := Classes(additive);
    if RiskClassifier.IsColour(classes) {
      ColourClassesAreFoodColors(classes);
    }
    if CategoryOf(additive) == FoodColors {
      var k :| 0 <= k < |CATEGORY_MAPPING| && Contains(classes, CATEGORY_MAPPING[k].0) &&
        FoodColors == CATEGORY_MAPPING[k].1;
      assert k == 0 || k == 1;
    }
  }

  /** Matching ignores case, as the classes are lower-cased first. */
  lemma CategoryIgnoresCase(additive: Record)
    ensures CategoryOf(additive["additives_classes" := Upper(Get(additive, "additives_classes", ""))]) == CategoryOf(additive)
  {
    LowerUpper(Get(additive, "additives_classes", ""));
  }

  /** Classes naming a colour are filed under "Food Colors", whatever else
      they name. */
  lemma ColourClassesAreFoodColors(classes: string)
    requires RiskClassifier.IsColour(classes)
    ensures FirstCategory(CATEGORY_MAPPING, 0, classes) == FoodColors
  {
    MappingKeywords();
    if Contains(classes, "colour") {
      FirstHitDecides(CATEGORY_MAPPING, classes, 0);
    } else {
      FirstHitDecides(CATEGORY_MAPPING, classes, 1);
    }
  }

  /** The table is read in order, not by best fit: a thickener that is also a
      stabiliser is filed under "Stabilizers", whose keyword comes first. */
  lemma StabiliserBeforeThickener(classes: string)
    requires classes == "thickener stabiliser"
    ensures FirstCategory(CATEGORY_MAPPING, 0, classes) == Stabilizers
  {
    MappingKeywords();
    StabiliserWords(classes);
    FirstHitDecides(CATEGORY_MAPPING, classes, 6);
  }

  lemma StabiliserWords(classes: string)
    requires classes == "thickener stabiliser"
    ensures !Contains(classes, "colour") && !Contains(classes, "color") && !Contains(classes, "preservative")
    ensures !Contains(classes, "antioxidant") && !Contains(classes, "sweetener") && !Contains(classes, "emulsifier")
    ensures Contains(classes, "stabiliser")
  {
    NotColourOrPreservative(classes);
    NotAntioxidantSweetenerOrEmulsifier(classes);
    assert classes == "thickener " + "stabiliser" + "";
    ContainsInfix("thickener ", "stabiliser", "");
  }

  lemma NotColourOrPreservative(classes: string)
    requires classes == "thickener stabiliser"
    ensures !Contains(classes, "colour") && !Contains(classes, "color") && !Contains(classes, "preservative")
  {
    NotContainsLetter(classes, "colour", 1);
    NotContainsLetter(classes, "color", 1);
    NotContainsLetter(classes, "preservative", 0);
  }

  lemma NotAntioxidantSweetenerOrEmulsifier(classes: string)
    requires classes == "thickener stabiliser"
    ensures !Contains(classes, "antioxidant") && !Contains(classes, "sweetener") && !Contains(classes, "emulsifier")
  {
    NotContainsLetter(classes, "antioxidant", 5);
    NotContainsLetter(classes, "sweetener", 1);
    NotContainsLetter(classes, "emulsifier", 1);
  }

  /** The curated records: Curcumin and Riboflavin are "Food Colors",
      Ascorbic acid is an "Antioxidants" entry. */
  lemma ManualAdditivesCategory(now: string)
    ensures var m := ManualAdditives(now);
      CategoryOf(m[0]) == FoodColors && CategoryOf(m[1]) == FoodColors && CategoryOf(m[2]) == Antioxidants
  {
    var m := ManualAdditives(now);
    ManualAdditivesFields(now);
    CuratedColour(Classes(m[0]));
    CuratedColour(Classes(m[1]));
    AntioxidantClasses(Classes(m[2]));
  }

  lemma CuratedColour(classes: string)
    requires classes == "natural colour" || classes == "natural vitamin colour"
    ensures FirstCategory(CATEGORY_MAPPING, 0, classes) == FoodColors
  {
    if classes == "natural colour" {
      ColourWord(classes, "natural ");
    } else {
      ColourWord(classes, "natural vitamin ");
    }
    ColourClassesAreFoodColors(classes);
  }

  lemma ColourWord(classes: string, pre: string)
    requires classes == pre + "colour"
    ensures RiskClassifier.IsColour(classes)
  {
    assert classes == pre + "colour" + "";
    ContainsInfix(pre, "colour", "");
  }

  lemma AntioxidantClasses(classes: string)
    requires classes == "natural antioxidant vitamin"
    ensures FirstCategory(CATEGORY_MAPPING, 0, classes) == Antioxidants
  {
    MappingKeywords();
    RiskClassifier.NoColourOrPreservative(classes);
    RiskClassifier.NoSweetenerButAntioxidant(classes);
    FirstHitDecides(CATEGORY_MAPPING, classes, 3);
  }
}

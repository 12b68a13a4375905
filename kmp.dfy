/** The Kotlin consumer of the generated file: the `RiskLevel` enum, the
    Room DAO's WHERE clauses as filters over the rows of the `additives`
    table, the repository's lookups and the search use case. */
module KmpIntegration {
  import opened Wrappers
  import opened Text
  import RiskClassifier

  /** `enum class RiskLevel(vietnameseName, color)`, in declaration order. */
  datatype RiskLevel = GREEN | YELLOW | ORANGE | RED
  {
    function Color(): string {
      match this
      case GREEN => "green"
      case YELLOW => "yellow"
      case ORANGE => "orange"
      case RED => "red"
    }

    function VietnameseName(): string {
      match this
      case GREEN => "Xanh Lá"
      case YELLOW => "Vàng"
      case ORANGE => "Cam"
      case RED => "Đỏ"
    }

    /** The constant's own name, as `RiskLevel.name` spells it. */
    function Name(): string {
      match this
      case GREEN => "GREEN"
      case YELLOW => "YELLOW"
      case ORANGE => "ORANGE"
      case RED => "RED"
    }

    /** How far the level is from GREEN. */
    function Severity(): nat {
      match this
      case GREEN => 0
      case YELLOW => 1
      case ORANGE => 2
      case RED => 3
    }
  }

  /** `RiskLevel.values()`. */
  const VALUES: seq<RiskLevel> := [GREEN, YELLOW, ORANGE, RED]

  /** No two levels share a colour. */
  lemma ColorsDistinct(l: RiskLevel, m: RiskLevel)
    ensures l.Color() == m.Color() <==> l == m
  {
  }

  /** `levels.find { it.color == color }`: the first level whose colour
      is `color`, or null. */
  function Find(levels: seq<RiskLevel>, color: string): (r: Option<RiskLevel>)
    ensures r.None? <==> forall i :: 0 <= i < |levels| ==> levels[i].Color() != color
    ensures r.Some? ==> exists i :: (0 <= i < |levels| && levels[i] == r.value &&
      forall j :: 0 <= j < i ==> levels[j].Color() != color)
    ensures r.Some? ==> r.value.Color() == color
  {
    if levels == [] then None
    else if levels[0].Color() == color then Some(levels[0])
    else
      var rest := Find(levels[1..], color);
      if rest.Some? then
        var i :| 0 <= i < |levels[1..]| && levels[1..][i] == rest.value &&
          (forall j :: 0 <= j < i ==> levels[1..][j].Color() != color);
        assert levels[i + 1] == rest.value;
        rest
      else rest
  }

  /** `RiskLevel.values().find { it.color == color } ?: RiskLevel.YELLOW`:
      the level with that colour, or YELLOW when no level has it. */
  function FromColor(color: string): (r: RiskLevel)
    ensures r.Color() == color || (r == YELLOW && forall m: RiskLevel :: m.Color() != color)
  {
    match Find(VALUES, color)
    case Some(l) => l
    case None =>
      assert forall m: RiskLevel :: m.Color() != color by {
        forall m: RiskLevel
          ensures m.Color() != color
        {
          assert VALUES[m.Severity()] == m;
        }
      }
      YELLOW
  }

  /** The lookup inverts `color`, and every other string falls back to
      YELLOW. */
  lemma FromColorSpec(color: string, l: RiskLevel)
    ensures FromColor(color) == l <==>
      l.Color() == color || (l == YELLOW && forall m: RiskLevel :: m.Color() != color)
  {
    var r := FromColor(color);
    ColorsDistinct(r, l);
  }

  /** Every level is found again from its own colour. */
  lemma FromColorInverse(l: RiskLevel)
    ensures FromColor(l.Color()) == l
  {
    FromColorSpec(l.Color(), l);
  }

  /** The colours the generator stores are the ones the enum knows: a row
      written by the creator is read back under the level of the same
      name, never through the fallback. */
  lemma StoredColorsReadBack(p: RiskClassifier.RiskPair)
    requires p in RiskClassifier.RISK_PAIRS
    ensures FromColor(p.1).Name() == p.0
  {
    var l: RiskLevel :| l.Color() == p.1 && l.Name() == p.0 by {
      if p == RiskClassifier.RiskLevel.GREEN.Pair() {
        assert GREEN.Color() == p.1 && GREEN.Name() == p.0;
      } else if p == RiskClassifier.RiskLevel.YELLOW.Pair() {
        assert YELLOW.Color() == p.1 && YELLOW.Name() == p.0;
      } else if p == RiskClassifier.RiskLevel.ORANGE.Pair() {
        assert ORANGE.Color() == p.1 && ORANGE.Name() == p.0;
      } else {
        assert RED.Color() == p.1 && RED.Name() == p.0;
      }
    }
    FromColorInverse(l);
  }

  /** The Room entity `Additive`; nullable columns are options. */
  datatype Additive = Additive(
    id: int, eNumber: string, nameEn: string, nameVi: string,
    riskLevel: string, riskColor: string, category: Option<string>,
    descriptionEn: Option<string>, descriptionVi: Option<string>,
    vegetarian: Option<string>, vegan: Option<string>,
    efsaEvaluation: Option<string>, efsaUrl: Option<string>, efsaDate: Option<string>,
    additivesClasses: Option<string>, sources: Option<string>,
    lastUpdated: string, createdAt: Option<string>)

  /** `SELECT * FROM additives WHERE <keep>`: the rows that satisfy the
      clause, in table order. */
  function Where(rows: seq<Additive>, keep: Additive -> bool): (r: seq<Additive>)
    ensures |r| <= |rows|
    ensures forall a :: a in r <==> a in rows && keep(a)
    ensures forall a :: multiset(r)[a] == if keep(a) then multiset(rows)[a] else 0
  {
    if rows == [] then []
    else
      var rest := Where(rows[1..], keep);
      assert rows == [rows[0]] + rows[1..];
      if keep(rows[0]) then [rows[0]] + rest else rest
  }

  /** `WHERE x = 'yes'` on a nullable column: NULL never compares equal. */
  predicate IsYes(column: Option<string>) {
    column == Some("yes")
  }

  /** `getByENumber`: `WHERE e_number = :eNumber`, the first such row or
      null. */
  function GetByENumber(rows: seq<Additive>, eNumber: string): (r: Option<Additive>)
    ensures r.None? <==> forall a :: a in rows ==> a.eNumber != eNumber
    ensures r.Some? ==> r.value in rows && r.value.eNumber == eNumber
  {
    var hits := Where(rows, (a: Additive) => a.eNumber == eNumber);
    assert forall a :: a in rows && a.eNumber == eNumber ==> a in hits;
    if hits == [] then None else Some(hits[0])
  }

  /** `getByRiskLevel`: `WHERE risk_color = :riskColor`, exactly the rows
      of that colour. */
  function GetByRiskLevel(rows: seq<Additive>, riskColor: string): (r: seq<Additive>)
    ensures forall a :: a in r <==> a in rows && a.riskColor == riskColor
  {
    Where(rows, (a: Additive) => a.riskColor == riskColor)
  }

  /** `getVegetarianFriendly`: `WHERE vegetarian = 'yes'`; a NULL column
      is never selected. */
  function GetVegetarianFriendly(rows: seq<Additive>): (r: seq<Additive>)
    ensures forall a :: a in r <==> a in rows && a.vegetarian == Some("yes")
  {
    Where(rows, (a: Additive) => IsYes(a.vegetarian))
  }

  /** `getVeganFriendly`: `WHERE vegan = 'yes'`; a NULL column is never
      selected. */
  function GetVeganFriendly(rows: seq<Additive>): (r: seq<Additive>)
    ensures forall a :: a in r <==> a in rows && a.vegan == Some("yes")
  {
    Where(rows, (a: Additive) => IsYes(a.vegan))
  }

  /** `getByCategory`: `WHERE category = :category`; a NULL category is
      never selected. */
  function GetByCategory(rows: seq<Additive>, category: string): (r: seq<Additive>)
    ensures forall a :: a in r <==> a in rows && a.category == Some(category)
  {
    Where(rows, (a: Additive) => a.category == Some(category))
  }

  /** `AdditiveRepository.getAdditiveByENumber`: the DAO asked with the
      upper-cased code, so a code typed in any case finds the row stored
      under its upper case. */
  function GetAdditiveByENumber(rows: seq<Additive>, eNumber: string): (r: Option<Additive>)
    ensures r.None? <==> forall a :: a in rows ==> a.eNumber != Upper(eNumber)
    ensures r.Some? ==> r.value in rows && r.value.eNumber == Upper(eNumber)
  {
    GetByENumber(rows, Upper(eNumber))
  }

  /** `AdditiveRepository.getAdditivesByRiskLevel`: the DAO asked with the
      level's colour, so exactly the rows stored with that colour. */
  function GetAdditivesByRiskLevel(rows: seq<Additive>, level: RiskLevel): (r: seq<Additive>)
    ensures forall a :: a in r <==> a in rows && a.riskColor == level.Color()
  {
    GetByRiskLevel(rows, level.Color())
  }

  /** `AdditiveSearchResult`. */
  datatype SearchResult =
    | Found(additive: Additive, riskLevel: RiskLevel, isVegetarian: bool, isVegan: bool)
    | NotFound(searchedENumber: string)

  /** `AdditiveSearchUseCase.searchForIngredientScanning`: Found exactly
      when a row is stored under the upper-cased code, otherwise NotFound
      with the code as typed. A found row is stored under that code, rated
      by its colour, and flagged vegetarian or vegan exactly when its
      column says "yes". */
  function SearchForIngredientScanning(rows: seq<Additive>, eNumber: string): (r: SearchResult)
    ensures r.Found? <==> exists a :: a in rows && a.eNumber == Upper(eNumber)
    ensures r.NotFound? ==> r.searchedENumber == eNumber
    ensures r.Found? ==> r.additive in rows && r.additive.eNumber == Upper(eNumber)
    ensures r.Found? ==> (r.riskLevel.Color() == r.additive.riskColor ||
      (r.riskLevel == YELLOW && forall m: RiskLevel :: m.Color() != r.additive.riskColor))
    ensures r.Found? ==> ((r.isVegetarian <==> IsYes(r.additive.vegetarian)) &&
      (r.isVegan <==> IsYes(r.additive.vegan)))
  {
    match GetAdditiveByENumber(rows, eNumber)
    case Some(a) => Found(a, FromColor(a.riskColor), a.vegetarian == Some("yes"), a.vegan == Some("yes"))
    case None => NotFound(eNumber)
  }

  /** Upper-casing twice is upper-casing once. */
  lemma UpperUpper(s: string)
    ensures Upper(Upper(s)) == Upper(s)
  {
  }

  /** Typing the code in lower case finds the same row: only the result
      for a miss remembers the spelling. */
  lemma SearchIgnoresCase(rows: seq<Additive>, eNumber: string)
    ensures SearchForIngredientScanning(rows, Upper(eNumber)) ==
      match SearchForIngredientScanning(rows, eNumber)
      case NotFound(_) => NotFound(Upper(eNumber))
      case found => found
  {
    UpperUpper(eNumber);
  }

  /** `AdditiveSearchUseCase.getHealthyAlternatives`: nothing for a GREEN
      additive; for every other level exactly the rows coloured "green",
      each of which reads back as GREEN, a strictly lower severity than
      the current one. */
  function GetHealthyAlternatives(rows: seq<Additive>, current: RiskLevel): (r: seq<Additive>)
    ensures current == GREEN ==> r == []
    ensures current != GREEN ==> forall a :: a in r <==> a in rows && a.riskColor == "green"
    ensures forall a :: a in r ==>
      FromColor(a.riskColor) == GREEN && FromColor(a.riskColor).Severity() < current.Severity()
  {
    FromColorInverse(GREEN);
    match current
    case RED | ORANGE => GetAdditivesByRiskLevel(rows, GREEN)
    case YELLOW => GetAdditivesByRiskLevel(rows, GREEN)
    case GREEN => []
  }
}

/** Take-home pay and company comparison of src/lib/salaryCalculator.ts.

    The source multiplies by decimal rates in floating point and floors;
    here every rate is an exact fraction and `Math.floor(x * p / q)` is
    the integer division `(x * p) / q`, which floors for a positive q. */
module Salary {
  import opened Wrappers
  import opened JsObject

  /** `Math.floor(x * num / den)` for an exact rate num/den. */
  function FloorRate(x: int, num: nat, den: nat): (r: int)
    requires den > 0
    ensures r * den <= x * num < (r + 1) * den
  {
    (x * num) / den
  }

  /** The six deductions of the breakdown, in won per month. */
  datatype Breakdown = Breakdown(
    pension: int,
    healthInsurance: int,
    longTermCare: int,
    employment: int,
    incomeTax: int,
    localIncomeTax: int)

  function Total(b: Breakdown): int {
    b.pension + b.healthInsurance + b.longTermCare + b.employment + b.incomeTax + b.localIncomeTax
  }

  /** `TakeHomePayResult` without the float `taxRate`. */
  datatype TakeHome = TakeHome(monthlyTakeHome: int, monthlyGross: int, annualTax: int, breakdown: Breakdown)

  const PensionCap := 5530000

  /** The bracket rate of the simplified income tax, in percent. */
  function IncomeTaxPercent(monthly: int): (p: nat)
    ensures p in {3, 8, 12, 15}
  {
    if monthly <= 2000000 then 3
    else if monthly <= 4000000 then 8
    else if monthly <= 8000000 then 12
    else 15
  }

  /** `Math.floor(annualSalaryWon / 12)` with the salary given in units of
      10,000 won. */
  function MonthlyGross(annualSalary: int): int {
    (annualSalary * 10000) / 12
  }

  function Deductions(monthly: int): Breakdown {
    var pensionBase := if monthly < PensionCap then monthly else PensionCap;
    var health := FloorRate(monthly, 3545, 100000);
    var tax := FloorRate(monthly, IncomeTaxPercent(monthly), 100);
    Breakdown(
      FloorRate(pensionBase, 45, 1000),
      health,
      FloorRate(health, 1281, 10000),
      FloorRate(monthly, 9, 1000),
      tax,
      FloorRate(tax, 1, 10))
  }

  /** `calculateTakeHomePay`. */
  function CalculateTakeHomePay(annualSalary: int): (r: TakeHome)
    ensures r.monthlyGross == MonthlyGross(annualSalary)
    ensures r.breakdown == Deductions(r.monthlyGross)
    ensures r.monthlyTakeHome + Total(r.breakdown) == r.monthlyGross
    ensures r.annualTax == 12 * Total(r.breakdown)
  {
    var monthly := MonthlyGross(annualSalary);
    var b := Deductions(monthly);
    TakeHome(monthly - Total(b), monthly, Total(b) * 12, b)
  }

  /** The pension contribution never exceeds 4.5% of the cap. */
  lemma PensionCapped(annualSalary: int)
    ensures CalculateTakeHomePay(annualSalary).breakdown.pension <= (PensionCap * 45) / 1000
    ensures (PensionCap * 45) / 1000 == 248850
  {
    var monthly := MonthlyGross(annualSalary);
    var base := if monthly < PensionCap then monthly else PensionCap;
    assert base * 45 <= PensionCap * 45;
  }

  /** Income tax is the bracket rate of the whole monthly gross, and the
      local income tax is a tenth of it, both floored. */
  lemma IncomeTaxByBracket(annualSalary: int)
    ensures var r := CalculateTakeHomePay(annualSalary);
            var m := r.monthlyGross;
            && (m <= 2000000 ==> r.breakdown.incomeTax == (m * 3) / 100)
            && (2000000 < m <= 4000000 ==> r.breakdown.incomeTax == (m * 8) / 100)
            && (4000000 < m <= 8000000 ==> r.breakdown.incomeTax == (m * 12) / 100)
            && (8000000 < m ==> r.breakdown.incomeTax == (m * 15) / 100)
            && r.breakdown.localIncomeTax == r.breakdown.incomeTax / 10
  {
  }

  /** For a non-negative salary every deduction is non-negative and the
      take-home pay is more than 70% of the gross. */
  lemma TakeHomeBounds(annualSalary: nat)
    ensures var r := CalculateTakeHomePay(annualSalary);
            && r.monthlyGross >= 0
            && r.breakdown.pension >= 0 && r.breakdown.healthInsurance >= 0
            && r.breakdown.longTermCare >= 0 && r.breakdown.employment >= 0
            && r.breakdown.incomeTax >= 0 && r.breakdown.localIncomeTax >= 0
            && 10 * r.monthlyTakeHome >= 7 * r.monthlyGross
  {
    var m := MonthlyGross(annualSalary);
    assert m >= 0;
    var b := Deductions(m);
    InsuranceBounds(m);
    TaxBounds(m);
    assert 1000 * Total(b) <= 45 * m + 36 * m + 5 * m + 9 * m + 150 * m + 15 * m;
  }

  lemma InsuranceBounds(m: nat)
    ensures var b := Deductions(m);
            && 0 <= b.pension && b.pension * 1000 <= m * 45
            && 0 <= b.healthInsurance && b.healthInsurance * 1000 <= m * 36
            && 0 <= b.longTermCare && b.longTermCare * 1000 <= m * 5
            && 0 <= b.employment && b.employment * 1000 <= m * 9
  {
    var b := Deductions(m);
    assert b.healthInsurance * 100000 <= m * 3545;
    assert b.longTermCare * 10000 <= b.healthInsurance * 1281;
  }

  lemma TaxBounds(m: nat)
    ensures var b := Deductions(m);
            && 0 <= b.incomeTax && b.incomeTax * 100 <= m * 15
            && 0 <= b.localIncomeTax && b.localIncomeTax * 10 <= b.incomeTax
  {
    var p := IncomeTaxPercent(m);
    assert m * p <= m * 15 by {
      if p == 3 {} else if p == 8 {} else if p == 12 {}
    }
  }

  /** Because the bracket rate applies to the whole gross, a raise across a
      bracket boundary can lower the take-home pay: 24,010,000 won a year
      takes home less than 24,000,000. */
  lemma BracketCliff()
    ensures CalculateTakeHomePay(2400).monthlyTakeHome > CalculateTakeHomePay(2401).monthlyTakeHome
  {
    assert MonthlyGross(2400) == 2000000 && MonthlyGross(2401) == 2000833;
    assert Deductions(2000000) == Breakdown(90000, 70900, 9082, 18000, 60000, 6000);
    assert Deductions(2000833) == Breakdown(90037, 70929, 9086, 18007, 160066, 16006);
  }

  // ---------------------------------------------------------------------
  // compareCompanies
  // ---------------------------------------------------------------------

  datatype Benefits = Benefits(annualLeave: nat, welfarePoints: nat)

  const Industries: seq<string> := ["제조업", "IT서비스", "금융", "유통", "건설", "의료", "기타"]

  /** `industryBenefits[industry] || industryBenefits['기타']`; None for an
      inherited member such as `constructor`, a truthy function that the
      `||` keeps and whose `leave` and `welfare` are `undefined`. */
  function IndustryBenefits(industry: string): (b: Option<Benefits>)
    ensures b.None? <==> IsInheritedKey(industry)
  {
    if IsInheritedKey(industry) then None
    else
      match industry
      case "제조업" => Some(Benefits(15, 500000))
      case "IT서비스" => Some(Benefits(18, 1200000))
      case "금융" => Some(Benefits(17, 1500000))
      case "유통" => Some(Benefits(15, 800000))
      case "건설" => Some(Benefits(15, 600000))
      case "의료" => Some(Benefits(16, 1000000))
      case _ => Some(Benefits(15, 500000))
  }

  /** `automationLevel[industry] || 50`; None for an inherited member,
      whose subtraction gives NaN. */
  function AutomationLevel(industry: string): (level: Option<nat>)
    ensures level.None? <==> IsInheritedKey(industry)
  {
    if IsInheritedKey(industry) then None
    else
      match industry
      case "제조업" => Some(50)
      case "IT서비스" => Some(150)
      case "금융" => Some(100)
      case "유통" => Some(80)
      case "건설" => Some(40)
      case "의료" => Some(60)
      case _ => Some(50)
  }

  /** An industry outside the table gets the 기타 benefits and automation
      level, unless its name is an inherited member, which yields neither. */
  lemma UnknownIndustryFallsBack(industry: string)
    ensures industry !in Industries && !IsInheritedKey(industry) ==>
              IndustryBenefits(industry) == IndustryBenefits("기타") &&
              AutomationLevel(industry) == AutomationLevel("기타")
    ensures IsInheritedKey(industry) ==> IndustryBenefits(industry).None? && AutomationLevel(industry).None?
    ensures IndustryBenefits("기타") == Some(Benefits(15, 500000)) && AutomationLevel("기타") == Some(50)
  {
  }

  datatype Recommendation = Recommendation(name: string, industry: string, avgSalary: string, matchScore: nat)

  const RecommendedCompanies: seq<Recommendation> := [
    Recommendation("네이버파이낸셜", "핀테크", "연봉 6,500만원", 92),
    Recommendation("카카오페이", "핀테크", "연봉 6,200만원", 88),
    Recommendation("삼성SDS", "IT서비스", "연봉 5,800만원", 85)
  ]

  datatype CompanyInput = CompanyInput(
    currentSalary: int,
    currentIndustry: string,
    targetSalary: int,
    targetIndustry: string)

  /** `CompanyComparison` without the random culture-fit score. */
  datatype Comparison = Comparison(
    current: TakeHome,
    target: TakeHome,
    monthlyDifference: int,
    annualDifference: int,
    currentBenefits: Option<Benefits>,
    targetBenefits: Option<Benefits>,
    timeSavedPerYear: Option<nat>,   // None for NaN
    recommended: seq<Recommendation>)

  function Abs(x: int): nat { if x < 0 then -x else x }

  /** `Math.abs(target - current)`, NaN when either level is. */
  function LevelGap(target: Option<nat>, current: Option<nat>): Option<nat> {
    if target.Some? && current.Some? then Some(Abs(target.value - current.value)) else None
  }

  /** `compareCompanies`. */
  function CompareCompanies(input: CompanyInput): (c: Comparison)
    ensures c.current == CalculateTakeHomePay(input.currentSalary)
    ensures c.target == CalculateTakeHomePay(input.targetSalary)
    ensures c.monthlyDifference == c.target.monthlyTakeHome - c.current.monthlyTakeHome
    ensures c.annualDifference == 12 * c.monthlyDifference
    ensures c.recommended == RecommendedCompanies
  {
    var cur := CalculateTakeHomePay(input.currentSalary);
    var tgt := CalculateTakeHomePay(input.targetSalary);
    var diff := tgt.monthlyTakeHome - cur.monthlyTakeHome;
    Comparison(cur, tgt, diff, diff * 12,
               IndustryBenefits(input.currentIndustry), IndustryBenefits(input.targetIndustry),
               LevelGap(AutomationLevel(input.targetIndustry), AutomationLevel(input.currentIndustry)),
               RecommendedCompanies)
  }

  function Swapped(input: CompanyInput): CompanyInput {
    CompanyInput(input.targetSalary, input.targetIndustry, input.currentSalary, input.currentIndustry)
  }

  /** Swapping the two companies negates the differences, swaps the
      benefits and keeps the time saved. */
  lemma CompareSwapped(input: CompanyInput)
    ensures var c, s := CompareCompanies(input), CompareCompanies(Swapped(input));
            && s.monthlyDifference == -c.monthlyDifference
            && s.annualDifference == -c.annualDifference
            && s.currentBenefits == c.targetBenefits && s.targetBenefits == c.currentBenefits
            && s.timeSavedPerYear == c.timeSavedPerYear
  {
  }

  /** Same industry on both sides saves no time; an unknown industry is
      treated as 기타. An inherited member on the current side makes the
      saved time NaN. */
  lemma SameIndustrySavesNothing(input: CompanyInput)
    requires input.currentIndustry == input.targetIndustry
             || (input.currentIndustry !in Industries && input.targetIndustry == "기타")
    ensures !IsInheritedKey(input.currentIndustry) ==> CompareCompanies(input).timeSavedPerYear == Some(0)
    ensures IsInheritedKey(input.currentIndustry) ==> CompareCompanies(input).timeSavedPerYear.None?
  {
  }
}

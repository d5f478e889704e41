/** Constants and display helpers of src/types/beta-onboarding.ts: the
    credit cost of each tool, the participant cap, the number of free
    spots, the won value of a credit amount and how many uses of each tool
    a credit balance buys. */
module BetaOnboarding {
  import opened Wrappers
  import opened Decimal

  datatype Tool = QrGenerator | ImageSearch | BlogGenerator | ReportGenerator | EmailAutomation

  /** `TOOL_CREDIT_COSTS`. */
  function ToolCost(t: Tool): (c: nat)
    ensures c >= 1
  {
    match t
    case QrGenerator => 2
    case ImageSearch => 1
    case BlogGenerator => 3
    case ReportGenerator => 5
    case EmailAutomation => 2
  }

  /** `BETA_CONFIG.MAX_PARTICIPANTS`. */
  const MaxParticipants: int := 100

  /** `spotsRemaining` of `getBetaStatus`. */
  function SpotsRemaining(currentParticipants: int): (s: int)
    ensures s >= 0
    ensures s == 0 <==> currentParticipants >= MaxParticipants
    ensures currentParticipants <= MaxParticipants ==> s + currentParticipants == MaxParticipants
  {
    if MaxParticipants - currentParticipants > 0 then MaxParticipants - currentParticipants else 0
  }

  /** The part of `isOpen` that does not depend on the date. */
  predicate HasRoom(currentParticipants: int) {
    currentParticipants < MaxParticipants
  }

  lemma RoomIffSpots(currentParticipants: int)
    ensures HasRoom(currentParticipants) <==> SpotsRemaining(currentParticipants) > 0
  {
  }

  // ---------------------------------------------------------------------
  // formatCredits
  // ---------------------------------------------------------------------

  /** The won value as `formatCredits` writes it: in 만원 from 10000 won
      on, otherwise as a plain won amount. */
  datatype ValueText =
    | Manwon(text: string)   // `${valueInKRW / 10000}만원`, `text` the number
    | Won(krw: int)          // `${valueInKRW.toLocaleString()}원`

  /** `${amount / 10}` for an amount of at least 10: the quotient, and one
      decimal when the amount is not a multiple of ten (JavaScript prints
      a tenth as one digit). */
  function Tenths(amount: nat): (s: string)
  {
    if amount % 10 == 0 then NatToString(amount / 10)
    else NatToString(amount / 10) + "." + [DigitChar(amount % 10)]
  }

  datatype CreditDisplay = CreditDisplay(amount: int, formatted: string, value: ValueText)

  /** Lines 321-333: one credit is worth 1000 won. */
  function FormatCredits(amount: int): (d: CreditDisplay)
    ensures d.formatted == "크레딧 " + IntToString(amount) + "개"
    ensures d.value.Manwon? <==> amount * 1000 >= 10000
    ensures d.value.Won? ==> d.value.krw == amount * 1000
  {
    var valueInKrw := amount * 1000;
    CreditDisplay(amount, "크레딧 " + IntToString(amount) + "개",
                  if valueInKrw >= 10000 then Manwon(Tenths(amount)) else Won(valueInKrw))
  }

  /** Reads a 만원 number back into credits: `q` or `q.r` is `10q + r`. */
  function ReadTenths(s: string): Option<nat> {
    match ParseNatPrefix(s)
    case None => None
    case Some((q, rest)) =>
      if rest == [] then Some(10 * q)
      else if |rest| == 2 && rest[0] == '.' && IsDigit(rest[1]) then Some(10 * q + DigitValue(rest[1]))
      else None
  }

  lemma DivModTen(q: nat, r: nat)
    requires r < 10
    ensures (10 * q + r) / 10 == q && (10 * q + r) % 10 == r
  {
  }

  lemma TenthsOf(q: nat, r: nat)
    requires r < 10
    ensures Tenths(10 * q + r) ==
              if r == 0 then NatToString(q) else NatToString(q) + "." + [DigitChar(r)]
  {
    var a := 10 * q + r;
    DivModTen(q, r);
    assert a / 10 == q && a % 10 == r;
  }

  lemma ReadTenthsOf(s: string, q: nat, rest: string)
    requires ParseNatPrefix(s) == Some((q, rest))
    requires |rest| == 2 && rest[0] == '.' && IsDigit(rest[1])
    ensures ReadTenths(s) == Some(10 * q + DigitValue(rest[1]))
  {
  }

  lemma TenthsRoundTrip(q: nat, r: nat)
    requires r < 10
    ensures ReadTenths(Tenths(10 * q + r)) == Some(10 * q + r)
  {
    TenthsOf(q, r);
    if r == 0 {
      WholeRoundTrip(q);
    } else {
      FractionRoundTrip(q, r);
    }
  }

  lemma WholeRoundTrip(q: nat)
    ensures ReadTenths(NatToString(q)) == Some(10 * q)
  {
    var d := NatToString(q);
    ParseNatToString(q, []);
    assert d + [] == d;
  }

  lemma FractionRoundTrip(q: nat, r: nat)
    requires 0 < r < 10
    ensures ReadTenths(NatToString(q) + "." + [DigitChar(r)]) == Some(10 * q + r)
  {
    var d, c := NatToString(q), DigitChar(r);
    var rest := "." + [c];
    ParseNatToString(q, rest);
    assert d + "." + [c] == d + rest;
    ReadTenthsOf(d + rest, q, rest);
  }

  /** The 만원 figure is exactly the credit amount divided by ten. */
  lemma ManwonRoundTrip(amount: int)
    requires amount * 1000 >= 10000
    ensures FormatCredits(amount).value.Manwon?
    ensures ReadTenths(FormatCredits(amount).value.text) == Some(amount)
  {
    assert amount >= 10;
    var a: nat := amount;
    var q, r := SplitTen(a);
    assert FormatCredits(amount).value == Manwon(Tenths(a));
    TenthsRoundTrip(q, r);
  }

  lemma SplitTen(a: nat) returns (q: nat, r: nat)
    ensures r < 10 && a == 10 * q + r
  {
    q, r := a / 10, a % 10;
  }

  /** Ten credits and more are shown in 만원, fewer in won. */
  lemma ManwonFromTenCredits(amount: int)
    ensures FormatCredits(amount).value.Manwon? <==> amount >= 10
  {
  }

  // ---------------------------------------------------------------------
  // estimateUsage
  // ---------------------------------------------------------------------

  datatype UsageEstimate = UsageEstimate(toolName: string, tool: Tool, count: int)

  /** The tools `estimateUsage` lists, in its order. */
  function EstimatedTools(): seq<(string, Tool)> {
    [("블로그 작성", BlogGenerator), ("이미지 검색", ImageSearch),
     ("QR 코드 생성", QrGenerator), ("보고서 작성", ReportGenerator)]
  }

  /** Lines 345-368: `Math.floor(credits / cost)` for each tool. */
  function EstimateUsage(credits: int): (r: seq<UsageEstimate>)
    ensures |r| == 4
    ensures forall i :: 0 <= i < 4 ==>
              r[i].toolName == EstimatedTools()[i].0 && r[i].tool == EstimatedTools()[i].1
    ensures forall i :: 0 <= i < 4 ==>
              r[i].count * ToolCost(r[i].tool) <= credits < (r[i].count + 1) * ToolCost(r[i].tool)
  {
    var tools := EstimatedTools();
    seq(4, i requires 0 <= i < 4 => UsageEstimate(tools[i].0, tools[i].1, credits / ToolCost(tools[i].1)))
  }

  /** More credits never buy fewer uses of any tool. */
  lemma EstimateMonotone(c1: int, c2: int)
    requires c1 <= c2
    ensures forall i :: 0 <= i < 4 ==> EstimateUsage(c1)[i].count <= EstimateUsage(c2)[i].count
  {
    assert c1 / 3 <= c2 / 3 && c1 / 1 <= c2 / 1 && c1 / 2 <= c2 / 2 && c1 / 5 <= c2 / 5;
  }

  /** A report costs five credits, so 12 credits buy 4 blogs, 12 image
      searches, 6 QR codes and 2 reports. */
  lemma EstimateForTwelve()
    ensures [EstimateUsage(12)[0].count, EstimateUsage(12)[1].count,
             EstimateUsage(12)[2].count, EstimateUsage(12)[3].count] == [4, 12, 6, 2]
  {
  }
}

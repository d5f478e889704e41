/** The exchange-rate automation setup endpoint
    (src/app/api/exchange-rate/setup/route.ts, POST).

    The request body's fields are modelled as JSON values of the shapes the
    handler distinguishes; the in-memory settings dictionary is a map field
    of `SettingsStore`. The clock (`Date.now()`, `new Date().toISOString()`)
    is a parameter. */
module ExchangeRateSetup {
  import opened Wrappers
  import opened Decimal

  /** A JSON request field, as far as the checks look at it: absent
      (`undefined`), some value that is not an array, or an array. */
  datatype ListField = Absent | NotAList | List(items: seq<string>)

  /** The `sendTime` field: a falsy non-string (`undefined`, `null`, `0`,
      `false`), a string, or a truthy value that is not a string (an
      array, a number, an object), carried with the text `String(value)`
      that `RegExp.prototype.test` converts it to. */
  datatype TimeField = Falsy | Text(s: string) | NonString(shown: string)

  /** The text the regex is tested on. */
  function TestedText(f: TimeField): string {
    match f
    case Falsy => "undefined"
    case Text(s) => s
    case NonString(shown) => shown
  }

  /** `!sendTime`: true for a falsy value and for "". */
  predicate IsFalsy(f: TimeField) {
    f.Falsy? || f == Text("")
  }

  /** The destructured body; `includeBokReference` is None when absent. */
  datatype SetupRequest = SetupRequest(
    currencies: ListField,
    emails: ListField,
    sendTime: TimeField,
    includeBokReference: Option<bool>)

  /** One stored automation setting; `sendTime` is stored as it came. */
  datatype Setting = Setting(
    currencies: seq<string>,
    emails: seq<string>,
    sendTime: TimeField,
    includeBokReference: bool,
    createdAt: string,
    isActive: bool)

  datatype Response =
    | BadRequest(error: string)    // status 400
    | ServerError(error: string)   // status 500
    | Created(settingId: string, currencies: seq<string>, emailCount: nat,
              sendTime: string, includeBokReference: bool, nextRun: string)

  function Status(r: Response): int {
    match r
    case BadRequest(_) => 400
    case ServerError(_) => 500
    case Created(_, _, _, _, _, _) => 200
  }

  const CurrenciesRequired := "통화 목록이 필요합니다"
  const EmailsRequired := "이메일 목록이 필요합니다"
  const BadTimeFormat := "올바른 시간 형식이 아닙니다 (HH:MM)"
  const SetupFailed := "자동화 설정 중 오류가 발생했습니다"

  predicate IsNonEmptyList(f: ListField) {
    f.List? && |f.items| > 0
  }

  predicate InRange(c: char, lo: char, hi: char) {
    lo <= c <= hi
  }

  /** `/^([01]?[0-9]|2[0-3]):[0-5][0-9]$/.test(s)`. */
  predicate MatchesSendTime(s: string) {
    if |s| == 4 then
      InRange(s[0], '0', '9') && s[1] == ':' && InRange(s[2], '0', '5') && InRange(s[3], '0', '9')
    else if |s| == 5 then
      ((InRange(s[0], '0', '1') && InRange(s[1], '0', '9')) || (s[0] == '2' && InRange(s[1], '0', '3')))
      && s[2] == ':' && InRange(s[3], '0', '5') && InRange(s[4], '0', '9')
    else false
  }

  function D(c: char): nat requires InRange(c, '0', '9') { (c - '0') as nat }

  function Digit(n: nat): char requires n < 10 { ('0' as int + n) as char }

  /** Two-digit rendering with a leading zero. */
  function Pad2(n: nat): (s: string)
    requires n < 100
    ensures |s| == 2
  {
    [Digit(n / 10), Digit(n % 10)]
  }

  /** The hour a matching text names. */
  function HourOf(s: string): nat
    requires MatchesSendTime(s)
  {
    if |s| == 4 then D(s[0]) else 10 * D(s[0]) + D(s[1])
  }

  /** The minute a matching text names. */
  function MinuteOf(s: string): nat
    requires MatchesSendTime(s)
  {
    10 * D(s[|s| - 2]) + D(s[|s| - 1])
  }

  /** Every accepted text names an hour 0-23 and a minute 0-59, and is
      that time written H:MM or HH:MM. */
  lemma AcceptedIsClockTime(s: string)
    requires MatchesSendTime(s)
    ensures HourOf(s) <= 23 && MinuteOf(s) <= 59
    ensures s == (if |s| == 4 then [Digit(HourOf(s))] else Pad2(HourOf(s))) + ":" + Pad2(MinuteOf(s))
  {
    var n := |s|;
    DigitOfD(s[n - 2]);
    DigitOfD(s[n - 1]);
    Pad2Of(D(s[n - 2]), D(s[n - 1]));
    DigitOfD(s[0]);
    if n == 5 {
      DigitOfD(s[1]);
      Pad2Of(D(s[0]), D(s[1]));
      assert s == [s[0], s[1]] + ":" + [s[3], s[4]];
    } else {
      assert s == [s[0]] + ":" + [s[2], s[3]];
    }
  }

  lemma DigitOfD(c: char)
    requires InRange(c, '0', '9')
    ensures D(c) < 10 && Digit(D(c)) == c
  {
  }

  lemma Pad2Of(a: nat, b: nat)
    requires a < 10 && b < 10
    ensures Pad2(10 * a + b) == [Digit(a), Digit(b)]
  {
    assert (10 * a + b) / 10 == a && (10 * a + b) % 10 == b;
  }

  /** Conversely, every hour 0-23 and minute 0-59 is accepted, written
      with a padded hour and, for hours below ten, without. */
  lemma ClockTimeIsAccepted(h: nat, m: nat)
    requires h <= 23 && m <= 59
    ensures MatchesSendTime(Pad2(h) + ":" + Pad2(m))
    ensures HourOf(Pad2(h) + ":" + Pad2(m)) == h && MinuteOf(Pad2(h) + ":" + Pad2(m)) == m
    ensures h < 10 ==> MatchesSendTime([Digit(h)] + ":" + Pad2(m))
                       && HourOf([Digit(h)] + ":" + Pad2(m)) == h
  {
  }

  lemma RejectsOutOfRange()
    ensures !MatchesSendTime("24:00") && !MatchesSendTime("12:60") && !MatchesSendTime("123:00")
    ensures !MatchesSendTime("9:5") && !MatchesSendTime("")
    ensures MatchesSendTime("9:05") && MatchesSendTime("09:05") && MatchesSendTime("23:59")
  {
  }

  /** The checks of lines 146-165, in order: the first failing one decides
      the message; None when all pass. */
  function Rejection(req: SetupRequest): (r: Option<string>)
    ensures r.None? <==> IsNonEmptyList(req.currencies) && IsNonEmptyList(req.emails)
                         && !IsFalsy(req.sendTime) && MatchesSendTime(TestedText(req.sendTime))
    ensures r.None? ==> (req.sendTime.Text? || req.sendTime.NonString?)
    ensures !IsNonEmptyList(req.currencies) ==> r == Some(CurrenciesRequired)
    ensures IsNonEmptyList(req.currencies) && !IsNonEmptyList(req.emails) ==> r == Some(EmailsRequired)
    ensures IsNonEmptyList(req.currencies) && IsNonEmptyList(req.emails) && r.Some? ==> r == Some(BadTimeFormat)
  {
    if !IsNonEmptyList(req.currencies) then Some(CurrenciesRequired)
    else if !IsNonEmptyList(req.emails) then Some(EmailsRequired)
    else if IsFalsy(req.sendTime) || !MatchesSendTime(TestedText(req.sendTime)) then Some(BadTimeFormat)
    else None
  }

  /** `exchange-rate-${Date.now()}`. */
  function SettingId(nowMillis: nat): string {
    "exchange-rate-" + NatToString(nowMillis)
  }

  class SettingsStore {
    var settings: map<string, Setting>

    constructor ()
      ensures settings == map[]
    {
      settings := map[];
    }

    /** The handler. `body` is None when `request.json()` fails or yields
        `null`, which makes the destructuring throw into the 500 path; any
        other value destructures, missing fields reading as `undefined`.
        A rejected request stores nothing. An accepted one stores an
        active setting under the id built from the clock, replacing one
        made in the same millisecond; then `setupScheduler` calls
        `sendTime.split(':')`, which throws for a non-string, so such a
        send time answers 500 with the setting already stored. */
    method Post(body: Option<SetupRequest>, nowMillis: nat, createdAt: string) returns (resp: Response)
      modifies this
      ensures body.None? ==> resp == ServerError(SetupFailed)
      ensures body.Some? && Rejection(body.value).Some? ==> resp == BadRequest(Rejection(body.value).value)
      ensures body.None? || Rejection(body.value).Some? ==> settings == old(settings)
      ensures resp.Created? <==> body.Some? && Rejection(body.value).None? && body.value.sendTime.Text?
      ensures body.Some? && Rejection(body.value).None? ==>
                var req := body.value;
                var bok := req.includeBokReference.GetOr(true);
                settings == old(settings)[SettingId(nowMillis) :=
                  Setting(req.currencies.items, req.emails.items, req.sendTime, bok, createdAt, true)]
      ensures body.Some? && Rejection(body.value).None? && body.value.sendTime.NonString? ==>
                resp == ServerError(SetupFailed)
      ensures resp.Created? ==>
                var req := body.value;
                var bok := req.includeBokReference.GetOr(true);
                resp == Created(SettingId(nowMillis), req.currencies.items, |req.emails.items|,
                                req.sendTime.s, bok, "매일 " + req.sendTime.s)
    {
      if body.None? {
        return ServerError(SetupFailed);
      }
      var req := body.value;
      var rejection := Rejection(req);
      if rejection.Some? {
        return BadRequest(rejection.value);
      }
      var bok := req.includeBokReference.GetOr(true);
      var id := SettingId(nowMillis);
      settings := settings[id := Setting(req.currencies.items, req.emails.items, req.sendTime,
                                         bok, createdAt, true)];
      if req.sendTime.NonString? {
        return ServerError(SetupFailed);
      }
      resp := Created(id, req.currencies.items, |req.emails.items|, req.sendTime.s, bok,
                      "매일 " + req.sendTime.s);
    }
  }

  /** The array `["09:05"]` is converted to "09:05" and passes the checks,
      but the stored setting is followed by a 500 answer. */
  lemma ArraySendTimePasses(currencies: seq<string>, emails: seq<string>)
    requires |currencies| > 0 && |emails| > 0
    ensures Rejection(SetupRequest(List(currencies), List(emails), NonString("09:05"), None)).None?
  {
  }

  /** Setting ids from different instants differ, so a later setup never
      overwrites an earlier one made in another millisecond. */
  lemma SettingIdsDistinct(t1: nat, t2: nat)
    requires t1 != t2
    ensures SettingId(t1) != SettingId(t2)
  {
    var p := "exchange-rate-";
    if SettingId(t1) == SettingId(t2) {
      assert NatToString(t1) == SettingId(t1)[|p|..];
      assert NatToString(t2) == SettingId(t2)[|p|..];
      NatToStringInjective(t1, t2);
    }
  }
}

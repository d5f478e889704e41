# workfree-market core logic in Dafny

This project models the sequential business logic of the workfree-market
repository and proves properties of that model. The repository is a
Korean work-automation marketplace: a Next.js site with tools and a beta
programme, a Python news-briefing crawler, and an Outlook add-in
(WorkFree.AutoMailer).

Each core source file is one Dafny module:

| module | source | form |
|---|---|---|
| `BriefingScheduler`, `CronClock` | search-crawler/scheduler.py | class `SchedulerManager` over a job table (`map`), plus the briefing callback as a method |
| `ExchangeRateSetup` | src/app/api/exchange-rate/setup/route.ts | pure validation, plus class `SettingsStore` for the in-memory settings record |
| `Gamification` | src/types/gamification.ts | functions, plus the accumulating loops as methods |
| `Salary` | src/lib/salaryCalculator.ts | functions |
| `CopilotChunks` | src/lib/copilot.ts | the `while` loop as a method, proved against a chunking predicate |
| `WorkExitTest` | src/lib/workExitTest.ts | tally loop as a method, argmax as a function |
| `Permissions` | src/lib/permissions.ts | functions over the constant role and service tables |
| `AutoReply` | WorkFree.AutoMailer/AutoReplyService.cs | predicates |
| `Attachments` | WorkFree.AutoMailer/AttachmentManager.cs | sanitising loop and counter loop as methods, over `Path` functions |
| `QueryExpansion` | src/lib/rag/supabaseRAG.ts | the push loop with its `added` flag as a method |
| `Chatbot` | src/lib/rag/chatbot.ts | the early-return loop as a method |
| `Services` | src/lib/services.ts | class `Catalogue` over the shared service array |
| `EmailTemplate` | src/app/tools/email-template/page.tsx | recursive `replace` scan, plus the initialisation loop as a method |
| `SignatureColor` | src/app/tools/signature-maker/page.tsx | functions following JavaScript's `parseInt`, `>>`, `&` and `toString(16)` |
| `BetaOnboarding` | src/types/beta-onboarding.ts | functions |
| `BetaMissions` | src/lib/beta/missions.ts | pure transitions on a store value, plus class `MissionStore` |
| `KitOptions` | src/components/KitOptionsModal.tsx | class `KitOptionsModal`, with the total loop as a method |

Five helper modules are shared by the others:
- `Wrappers`: `Option`.
- `Decimal`: decimal digits, `NatToString`, and a prefix parser used to state round trips of formatted text.
- `Strings`: `IndexOf`, `Contains`, `ReplaceFirst`, ASCII case mapping and `Join`.
- `CronClock`: a minute clock for the scheduler.
- `JsObject`: the member names every JavaScript object literal inherits from `Object.prototype`, which a lookup `obj[name]` finds besides the object's own keys.

Time in the scheduler is counted in minutes from a Monday 00:00 in the
scheduler's time zone. A weekly cron trigger fires at one minute-of-day
on a set of weekdays. `NextFire` is the earliest such minute at or after
now.

JavaScript floating-point rates become exact rationals. Salary rates are
exact decimal fractions (4.5% is 45/1000, 3.545% is 3545/100000), and the
Pro and Business conversion factors are 6/5 and 3/2.

## Model

| member | source | states |
|---|---|---|
| BriefingScheduler.JobId | search-crawler/scheduler.py:79 | the job id is `briefing_` followed by the user id |
| BriefingScheduler.JobIdInjective | search-crawler/scheduler.py:79 | two users never share a job id |
| BriefingScheduler.Split | search-crawler/scheduler.py:74 | `str.split(':')` gives at least one part, and no part holds the separator |
| BriefingScheduler.JoinSplit | search-crawler/scheduler.py:74 | joining the parts of a split with the separator gives back the original text |
| BriefingScheduler.ParseTime | search-crawler/scheduler.py:74 | `map(int, time_str.split(':'))` unpacks into hour and minute exactly when there are two parts and both are integers |
| BriefingScheduler.ParseTwoDigitTime | search-crawler/scheduler.py:74 | any "H:M" written from an hour below 24 and a minute below 60 parses back to those numbers |
| BriefingScheduler.SplitNoSep | search-crawler/scheduler.py:74 | text without the separator splits into itself alone |
| BriefingScheduler.SplitConcat | search-crawler/scheduler.py:74 | `a:b` with no separator in `a` or `b` splits into exactly `[a, b]` |
| BriefingScheduler.NextRun | search-crawler/scheduler.py:150 | a job has no next run time exactly when it is paused; otherwise the next run is a firing minute of its trigger, not before now |
| BriefingScheduler.ListedAll | search-crawler/scheduler.py:163-177 | when no job is left to visit, the list has one entry per job, each entry describes its job, and no job id appears twice |
| BriefingScheduler.ListedStep | search-crawler/scheduler.py:168-175 | appending the entry of one unvisited job keeps the loop invariant of `get_all_schedules` |
| BriefingScheduler.EntriesStep | search-crawler/scheduler.py:170-175 | the appended entry is the one describing its job, and visited jobs stay described |
| BriefingScheduler.AllListedStep | search-crawler/scheduler.py:168 | after the step, every visited job id has an entry |
| BriefingScheduler.DistinctStep | search-crawler/scheduler.py:168 | appending an unvisited job keeps the entries' job ids distinct |
| BriefingScheduler.SchedulerManager.constructor | search-crawler/scheduler.py:165 | a new manager has an empty job table |
| BriefingScheduler.SchedulerManager.RemoveSchedule | search-crawler/scheduler.py:131-141 | the user's job is gone afterwards; the result is true exactly when it existed; it never fails |
| BriefingScheduler.SchedulerManager.AddUserSchedule | search-crawler/scheduler.py:48-129 | the new job table and the result are those of `Registered`, including both error paths |
| BriefingScheduler.SchedulerManager.GetSchedule | search-crawler/scheduler.py:143-161 | None exactly when the user has no job; otherwise the job's id, the user, the job's name, its next run time and its trigger |
| BriefingScheduler.SchedulerManager.GetNextRunTime | search-crawler/scheduler.py:179-187 | None for an unknown user; otherwise the job's next run time, which is None while paused |
| BriefingScheduler.SchedulerManager.GetAllSchedules | search-crawler/scheduler.py:163-177 | exactly one entry per registered job, each describing that job, with no job listed twice |
| BriefingScheduler.SchedulerManager.PauseSchedule | search-crawler/scheduler.py:189-199 | sets the paused flag of the user's job; false, with nothing changed, when there is no job |
| BriefingScheduler.SchedulerManager.ResumeSchedule | search-crawler/scheduler.py:201-211 | clears the paused flag of the user's job; false, with nothing changed, when there is no job |
| BriefingScheduler.ReRegisterReplaces | search-crawler/scheduler.py:79-108 | when the second time parses, registering after an earlier registration of the same user gives the same table and result as registering alone: the old job leaves no trace |
| BriefingScheduler.RegisterLeavesOneJob | search-crawler/scheduler.py:79-115 | after a successful registration, the user's job is the only job carrying that user. It holds the request data, is not paused, and the reported next run is its trigger's next firing. All other jobs are unchanged |
| BriefingScheduler.RejectedTriggerDropsOldJob | search-crawler/scheduler.py:82-90 | when the trigger is rejected, the old job has already been removed, so the user is left with no job |
| BriefingScheduler.MalformedTimeChangesNothing | search-crawler/scheduler.py:74 | a time that does not parse raises before anything is removed: the table is unchanged |
| BriefingScheduler.RegisterSucceedsIff | search-crawler/scheduler.py:74-90 | a parsed time registers exactly when hour is 0..23, minute is 0..59 and the weekdays are a non-empty list of 0..6 |
| BriefingScheduler.RemoveIdempotent | search-crawler/scheduler.py:131-141 | a second removal changes nothing and returns false |
| BriefingScheduler.SetPausedFlipsOnlyFlag | search-crawler/scheduler.py:189-211 | pause and resume report whether the job exists, keep the table's keys, change only the paused flag of that one job, and change nothing when it is missing |
| BriefingScheduler.PauseResumeRestores | search-crawler/scheduler.py:189-211 | pausing and then resuming a running job restores the table |
| BriefingScheduler.CollectedFront | search-crawler/scheduler.py:235-242 | the collected results are the first keyword's results followed by those of the remaining keywords, each keyword's Google results before its Naver results |
| BriefingScheduler.CollectedEmptyIff | search-crawler/scheduler.py:235-246 | the collection is empty exactly when every keyword yields no results |
| BriefingScheduler.SendScheduledBriefing | search-crawler/scheduler.py:214-264 | no mail exactly when the collection is empty. Otherwise one `send_email` goes to the job's address with the ', '-joined keywords, the report of all results and their count. A failing send is caught and reported |
| CronClock.NextOnWeekdayIsLeast | search-crawler/scheduler.py:85-90 | the chosen minute is on the weekday at the slot, within a week of now, and no later than any other such minute at or after now |
| CronClock.MinNextIsLeast | search-crawler/scheduler.py:85-90 | over a list of weekdays, the chosen minute is the earliest firing minute at or after now |
| CronClock.NextFire | search-crawler/scheduler.py:85-90 | the next firing is within a week of now and is a minute the trigger fires at |
| CronClock.NextFireIsEarliest | search-crawler/scheduler.py:85-90 | no firing minute at or after now comes before `NextFire` |
| CronClock.NextFireAtSlot | search-crawler/scheduler.py:85-90 | at a firing minute, the next firing is now |
| ExchangeRateSetup.Pad2 | src/app/api/exchange-rate/setup/route.ts:160 | a number below 100 is written in two characters |
| ExchangeRateSetup.AcceptedIsClockTime | src/app/api/exchange-rate/setup/route.ts:160 | every accepted time is a clock time, hour ≤ 23 and minute ≤ 59, written as H:MM or HH:MM |
| ExchangeRateSetup.DigitOfD | src/app/api/exchange-rate/setup/route.ts:160 | reading a digit and writing it back gives the same character |
| ExchangeRateSetup.Pad2Of | src/app/api/exchange-rate/setup/route.ts:160 | two digits `a`, `b` are written as `ab` |
| ExchangeRateSetup.ClockTimeIsAccepted | src/app/api/exchange-rate/setup/route.ts:160 | every clock time written as HH:MM, or as H:MM for hours below 10, is accepted and reads back to the same hour and minute |
| ExchangeRateSetup.RejectsOutOfRange | src/app/api/exchange-rate/setup/route.ts:160 | "24:00", "12:60", "123:00", "9:5" and "" are refused; "9:05", "09:05" and "23:59" are accepted |
| ExchangeRateSetup.Rejection | src/app/api/exchange-rate/setup/route.ts:146-165 | a request passes exactly when currencies and emails are non-empty arrays and the send time is truthy and its string conversion matches, so an array such as ["09:05"] passes. Errors are reported in the source's order: currencies, then emails, then the time |
| ExchangeRateSetup.SettingsStore.constructor | src/app/api/exchange-rate/setup/route.ts:141-210 | the settings record starts empty |
| ExchangeRateSetup.SettingsStore.Post | src/app/api/exchange-rate/setup/route.ts:141-210 | an unreadable or `null` body gives 500, and an invalid one gives 400 with the first error; neither changes the store. A valid one stores one active entry (isActive = true) under `exchange-rate-<now>`; with a string send time it answers with the details, with a non-string one `split` throws and it answers 500, the entry staying stored |
| ExchangeRateSetup.ArraySendTimePasses | src/app/api/exchange-rate/setup/route.ts:160 | the send time `["09:05"]` passes the checks, by its string conversion |
| ExchangeRateSetup.SettingIdsDistinct | src/app/api/exchange-rate/setup/route.ts:168 | setup ids made at different milliseconds differ |
| Gamification.RequirementTable | src/types/gamification.ts:109-121 | the table has an entry exactly for levels 1 to 10 |
| Gamification.XPToNextGrows | src/types/gamification.ts:160-169 | the XP needed for the next level strictly grows with the level, by 500 per level from level 10 on |
| Gamification.CumulativeStep | src/types/gamification.ts:172-188 | the start XP of level l+1 is the start XP of l plus the XP to go from l to l+1 |
| Gamification.XPForLevel | src/types/gamification.ts:172-188 | the loop sums the per-level requirements below the level, and gives 0 for levels ≤ 1 |
| Gamification.LevelProgress | src/types/gamification.ts:191-206 | from level 1 on, XP still to go plus XP already gained equals the level's requirement |
| Gamification.TimeToCredits | src/types/gamification.ts:210-216 | the credits are the floor of minutes/15 times the plan's factor |
| Gamification.BasicPlansCreditPerQuarterHour | src/types/gamification.ts:210-216 | free and starter give one credit per full 15 minutes |
| Gamification.TimeToCreditsMonotone | src/types/gamification.ts:210-216 | more minutes never give fewer credits |
| Gamification.HigherPlanNotWorse | src/types/gamification.ts:124-129 | for the same minutes, free ≤ pro ≤ business |
| Gamification.JsRem | src/types/gamification.ts:221 | JavaScript `%` agrees with the mathematical remainder on non-negative operands and stays strictly between -b and b |
| Gamification.FormatTimeShape | src/types/gamification.ts:219-228 | from 60 minutes on the text is "h시간 m분" with m = minutes mod 60; below 60 it is "m분" |
| Gamification.ParseDurationOfParts | src/types/gamification.ts:224 | a text starting with h and "시간 " followed by a minutes text reads as h·60 + m |
| Gamification.ParseMinutesOf | src/types/gamification.ts:226 | "m분" reads back as m |
| Gamification.ParseHoursAndMinutes | src/types/gamification.ts:224 | "h시간 m분" reads back as h·60 + m |
| Gamification.FormatTimeRoundTrip | src/types/gamification.ts:219-228 | the formatted time of any non-negative minute count reads back to that count |
| Gamification.FormatTimeNegative | src/types/gamification.ts:219-228 | a negative count has hours < 0, so it is shown as minutes only, with JavaScript's negative remainder |
| Salary.FloorRate | src/lib/salaryCalculator.ts:83-107 | `Math.floor(x * rate)` for an exact rate num/den: the greatest r with r·den ≤ x·num |
| Salary.IncomeTaxPercent | src/lib/salaryCalculator.ts:96-104 | the income tax rate is one of 3, 8, 12 or 15 percent |
| Salary.CalculateTakeHomePay | src/lib/salaryCalculator.ts:77-131 | take-home pay plus the six deductions equals the monthly gross; the annual tax is twelve times the monthly deductions |
| Salary.PensionCapped | src/lib/salaryCalculator.ts:82-83 | the pension never exceeds floor(5,530,000 × 4.5%) = 248,850 |
| Salary.IncomeTaxByBracket | src/lib/salaryCalculator.ts:95-107 | income tax is 3/8/12/15% of the monthly gross by bracket (≤ 2M, ≤ 4M, ≤ 8M, above), and local tax is a tenth of it, rounded down |
| Salary.TakeHomeBounds | src/lib/salaryCalculator.ts:77-131 | for a non-negative salary every deduction is non-negative and take-home pay is at least 70% of the gross |
| Salary.InsuranceBounds | src/lib/salaryCalculator.ts:81-92 | each insurance deduction is non-negative and at most its rate times the gross |
| Salary.TaxBounds | src/lib/salaryCalculator.ts:95-107 | income tax is at most 15% of the gross, and local tax at most a tenth of income tax |
| Salary.BracketCliff | src/lib/salaryCalculator.ts:96-99 | because the whole salary is taxed at the bracket rate, 2401만원 a year takes home less than 2400만원 |
| Salary.UnknownIndustryFallsBack | src/lib/salaryCalculator.ts:154-181 | an industry outside the table gets the benefits and automation level of 기타, except an inherited object member such as "constructor", which gets undefined benefits and a NaN level |
| Salary.CompareCompanies | src/lib/salaryCalculator.ts:138-224 | both sides are computed by the take-home calculation, the monthly difference is target minus current, and the annual difference is twelve times that |
| Salary.IndustryBenefits | src/lib/salaryCalculator.ts:154-166 | the benefits are undefined exactly for inherited object members, which the `||` does not replace |
| Salary.AutomationLevel | src/lib/salaryCalculator.ts:171-181 | the level is NaN exactly for inherited object members |
| Salary.CompareSwapped | src/lib/salaryCalculator.ts:150-221 | swapping current and target negates both differences, swaps the benefits and keeps the saved time |
| Salary.SameIndustrySavesNothing | src/lib/salaryCalculator.ts:181 | the same industry on both sides, or an unknown one against 기타, saves no time; when the current industry is an inherited object member the saved time is NaN |
| CopilotChunks.OffsetIsProduct | src/lib/copilot.ts:51 | chunk i starts at i·(chunkSize − overlap) |
| CopilotChunks.ChunkText | src/lib/copilot.ts:39-55 | the loop's output is the chunking of the text: no chunks for empty text, chunk i is the window at offset i, and it stops at the first chunk that reaches the end |
| CopilotChunks.ChunkShape | src/lib/copilot.ts:43-49 | with 0 ≤ overlap < chunkSize, every chunk is non-empty and at most chunkSize long, and the last chunk runs to the end of the text |
| CopilotChunks.ReassembleChunks | src/lib/copilot.ts:43-52 | chunk 0, then each later chunk without its first `overlap` characters, gives back the text |
| CopilotChunks.ReassemblePrefix | src/lib/copilot.ts:43-52 | reassembling the first k chunks gives the text up to the end of chunk k−1 |
| CopilotChunks.ReassembleStep | src/lib/copilot.ts:43-52 | adding chunk k−1 extends the reassembled prefix to the end of that chunk |
| CopilotChunks.ReassembleSnoc | src/lib/copilot.ts:43-52 | reassembling one chunk more appends that chunk without its overlap |
| CopilotChunks.DropOverlap | src/lib/copilot.ts:44-51 | a later chunk without its overlap is the text between the previous chunk's end and its own end |
| CopilotChunks.ChunkingUnique | src/lib/copilot.ts:39-55 | a text has only one chunking for given size and overlap |
| CopilotChunks.LengthBelow | src/lib/copilot.ts:43-52 | two chunkings of the same text have no different lengths (one direction of uniqueness) |
| CopilotChunks.DefaultsChunkEvery800 | src/lib/copilot.ts:39 | with the defaults (1000, 200), chunk i starts inside the text at 800·i and holds up to 1000 characters |
| WorkExitTest.Scores.Add | src/lib/workExitTest.ts:46 | adding a weight changes that type's score by the weight and no other score |
| WorkExitTest.Tally | src/lib/workExitTest.ts:38-47 | each type's score is the sum of the weights of the answers of that type |
| WorkExitTest.PickIsLastMaximum | src/lib/workExitTest.ts:49-51 | the reduce picks a type with the maximal score, and every type later in key order scores strictly less |
| WorkExitTest.PickUnique | src/lib/workExitTest.ts:49-51 | that characterisation fixes the result |
| WorkExitTest.CalculateResult | src/lib/workExitTest.ts:37-53 | the returned type has a score ≥ every type's, and no later type in optimizer, harmonizer, planner, innovator order ties it |
| WorkExitTest.NoAnswersGiveInnovator | src/lib/workExitTest.ts:49-51 | with no answers all scores are 0 and the result is innovator |
| WorkExitTest.ScoreAppend | src/lib/workExitTest.ts:45-47 | the score of two answer lists together is the sum of their scores |
| WorkExitTest.ScorePermutation | src/lib/workExitTest.ts:45-47 | reordering the answers does not change any score |
| WorkExitTest.RemoveAtMultiset | src/lib/workExitTest.ts:45-47 | removing one answer removes exactly that answer from the answers' multiset |
| WorkExitTest.ScoreRemoveAt | src/lib/workExitTest.ts:45-47 | a score is the score without one answer plus that answer's contribution |
| WorkExitTest.ResultPermutationInvariant | src/lib/workExitTest.ts:37-53 | the result does not depend on the order of the answers |
| Permissions.HasAnyPermission | src/lib/permissions.ts:58-60 | true exactly when the role holds some listed permission |
| Permissions.HasAllPermissions | src/lib/permissions.ts:65-67 | true exactly when the role holds every listed permission |
| Permissions.EmptyPermissionLists | src/lib/permissions.ts:58-67 | no role has any of an empty list, and every role has all of it |
| Permissions.RolesAreNested | src/lib/permissions.ts:20-53 | buyer ⊆ seller ⊆ admin, admin holds every permission, an unknown role holds none, and buyer cannot sell nor seller administer |
| Permissions.AllImpliesAny | src/lib/permissions.ts:58-67 | for a non-empty list, having all implies having some |
| Permissions.DashboardRoutes | src/lib/permissions.ts:72-82 | admin goes to /admin/dashboard, seller to /seller/dashboard and every other role to /my/dashboard; the admin route is used exactly by roles holding admin access |
| Permissions.CanAccessService | src/lib/permissions.ts:100-104 | a service without a required permission is open to all; otherwise access means holding that permission. An inherited object member such as "constructor" counts as guarded by a function no role holds, so every role is refused |
| Permissions.ServiceAccess | src/lib/permissions.ts:87-104 | access is nested like the roles, and admin reaches exactly the services whose names are not inherited object members. Buyers reach the QR generator but not kit upload, sellers do not reach the admin panel, anyone reaches an unlisted page, and nobody reaches "constructor" |
| AutoReply.HasKeyword | WorkFree.AutoMailer/AutoReplyService.cs:96-98 | true exactly when there is a subject and it contains some keyword |
| AutoReply.DomainAllowed | WorkFree.AutoMailer/AutoReplyService.cs:111-112 | true exactly when the sender ends with some allowed domain, ignoring case |
| AutoReply.ShouldReplyIff | WorkFree.AutoMailer/AutoReplyService.cs:92-127 | a reply is sent exactly when the subject has a keyword, the domain list is empty or the sender ends with one of them, and the sender is not excluded |
| AutoReply.NoSubjectOrNoKeywords | WorkFree.AutoMailer/AutoReplyService.cs:96-101 | a missing subject or an empty keyword list means no reply |
| AutoReply.ExcludedNeverAnswered | WorkFree.AutoMailer/AutoReplyService.cs:119-125 | an excluded sender is never answered |
| AutoReply.MissingSenderActsAsEmpty | WorkFree.AutoMailer/AutoReplyService.cs:110-122 | a missing sender address decides as the empty address does |
| AutoReply.UpperIdempotent | WorkFree.AutoMailer/AutoReplyService.cs:112 | upper-casing twice is upper-casing once |
| AutoReply.DomainTestIgnoresCase | WorkFree.AutoMailer/AutoReplyService.cs:111-112 | with no exclusions, upper-casing the sender does not change the decision |
| AutoReply.ExclusionIsCaseSensitive | WorkFree.AutoMailer/AutoReplyService.cs:123 | the exclusion list compares exactly, so "BOSS@corp.com" is answered while "boss@corp.com" is not |
| AutoReply.ReplyBody | WorkFree.AutoMailer/AutoReplyService.cs:54-55 | the reply HTML is the template followed by the draft's HTML body |
| Attachments.Combine | WorkFree.AutoMailer/AttachmentManager.cs:39 | `Path.Combine` of a non-empty relative part adds one `\` unless the first part already ends in a separator |
| Attachments.LastSep | WorkFree.AutoMailer/AttachmentManager.cs:59 | the last separator position, or none when there is none |
| Attachments.LastDot | WorkFree.AutoMailer/AttachmentManager.cs:60 | the last '.' position, or none when there is none |
| Attachments.GetFileName | WorkFree.AutoMailer/AttachmentManager.cs:59 | the file name part holds no separator |
| Attachments.Extension | WorkFree.AutoMailer/AttachmentManager.cs:60 | `Path.GetExtension` is empty or starts with '.' |
| Attachments.StemAndExtension | WorkFree.AutoMailer/AttachmentManager.cs:59-60 | for a file name not ending in '.', the name without extension followed by the extension is the file name |
| Attachments.InvalidFileNameChars | WorkFree.AutoMailer/AttachmentManager.cs:142 | `Path.GetInvalidFileNameChars()` lists 41 characters in the .NET Framework order |
| Attachments.InvalidCharsListed | WorkFree.AutoMailer/AttachmentManager.cs:142 | a character is in that list exactly when it is a control character or one of `"<>|:*?\/` |
| Attachments.Sanitized | WorkFree.AutoMailer/AttachmentManager.cs:140-148 | each character is replaced on its own: same length, and the character at each position depends only on the original character there |
| Attachments.ReplaceChar | WorkFree.AutoMailer/AttachmentManager.cs:145 | `string.Replace(c, '_')` replaces exactly the occurrences of c |
| Attachments.SanitizeFileName | WorkFree.AutoMailer/AttachmentManager.cs:140-148 | the replacement loop over the invalid characters gives the sanitised name |
| Attachments.SanitizeProperties | WorkFree.AutoMailer/AttachmentManager.cs:140-148 | sanitising keeps the length, leaves no invalid character, keeps every valid character and is idempotent |
| Attachments.SanitizeKeepsValidName | WorkFree.AutoMailer/AttachmentManager.cs:140-148 | a name without invalid characters is unchanged |
| Attachments.SanitizedNotRooted | WorkFree.AutoMailer/AttachmentManager.cs:38-39 | a sanitised sender name holds no separator, so it cannot replace the base path in `Path.Combine` |
| Attachments.Padded | WorkFree.AutoMailer/AttachmentManager.cs:33 | the number is written as exactly `width` digits |
| Attachments.DateFolder | WorkFree.AutoMailer/AttachmentManager.cs:33 | the date folder is yyyy-MM-dd: ten characters, digits with dashes at 4 and 7 |
| Attachments.SaveDirectoryShape | WorkFree.AutoMailer/AttachmentManager.cs:27-39 | the folder is base\yyyy-MM-dd\sender, with the sanitised sender name and "Unknown" for a missing one |
| Attachments.AllTakenStep | WorkFree.AutoMailer/AttachmentManager.cs:57-62 | one more taken try extends the run of taken tries |
| Attachments.FirstFreeUnique | WorkFree.AutoMailer/AttachmentManager.cs:56-63 | there is only one first free counter |
| Attachments.CounterBound | WorkFree.AutoMailer/AttachmentManager.cs:56-63 | only finitely many numbered names are taken, so the counter loop ends |
| Attachments.FreePath | WorkFree.AutoMailer/AttachmentManager.cs:51-63 | the chosen path does not exist, compared without regard to case, and it is the plain name or `{stem}_{n}{ext}` with the smallest free n ≥ 1 |
| Attachments.CaseIsIgnored | WorkFree.AutoMailer/AttachmentManager.cs:57 | paths that differ only in case name the same file for `File.Exists` |
| Attachments.CaseClashNumbered | WorkFree.AutoMailer/AttachmentManager.cs:56-63 | next to an existing `D\a.txt` the attachment `A.TXT` is saved as `D\A_1.TXT` |
| Attachments.SaveAttachments | WorkFree.AutoMailer/AttachmentManager.cs:20-79 | no attachments means nothing happens. Otherwise every attachment is saved, in order, under the first free name, counting the files saved before it. No saved path existed before, and no two are the same, even up to case |
| Attachments.SavedAllStep | WorkFree.AutoMailer/AttachmentManager.cs:48-65 | saving the next attachment at its first free path keeps the loop invariant |
| Attachments.SavedAllMeans | WorkFree.AutoMailer/AttachmentManager.cs:48-65 | once every attachment is saved, each was saved at its first free path, none overwrote an existing file, and no two share a path, with paths compared without regard to case |
| Attachments.SavedPathsAreFresh | WorkFree.AutoMailer/AttachmentManager.cs:56-63 | a saved path is neither an existing file nor an earlier attachment, even up to case, and the counter is 0 exactly when the plain name was free |
| QueryExpansion.FirstSupplier | src/lib/rag/supabaseRAG.ts:63-72 | the first key, in insertion order, that occurs in the query and has a related word |
| QueryExpansion.ExpandQuery | src/lib/rag/supabaseRAG.ts:60-74 | the push loop with its `added` flag returns the query followed by at most the one variant of the first matching key |
| QueryExpansion.ExpandedShape | src/lib/rag/supabaseRAG.ts:60-74 | the result starts with the query and has one or two entries |
| QueryExpansion.DefaultValuesNonEmpty | src/lib/rag/supabaseRAG.ts:46-58 | every key of the built-in table has related words |
| QueryExpansion.SecondQueryIff | src/lib/rag/supabaseRAG.ts:63-72 | with non-empty word lists, there is a second entry exactly when the query contains a key. It is the query with that first matching key replaced by the key's first word |
| QueryExpansion.VariantReplacesFirstOccurrence | src/lib/rag/supabaseRAG.ts:67 | the variant replaces only the first occurrence of the key; a query with no key stays alone |
| Chatbot.FirstAnswer | src/lib/rag/chatbot.ts:133-139 | null exactly when the query contains no key; otherwise the answer of the first contained key |
| Chatbot.GetQuickAnswer | src/lib/rag/chatbot.ts:126-139 | the early-return loop returns that answer |
| Chatbot.NoAnswerIff | src/lib/rag/chatbot.ts:126-139 | with the built-in table, null exactly when the query contains none of 안녕, 고마워, 감사 |
| Chatbot.EarlierKeyWins | src/lib/rag/chatbot.ts:133-137 | when several keys occur, the first one in insertion order answers |
| Chatbot.GreetingWins | src/lib/rag/chatbot.ts:127-137 | a query containing 안녕 gets the greeting, whatever else it contains |
| Services.Filter | src/lib/services.ts:330 | the filtered list is no longer than the list and holds exactly the elements that pass |
| Services.FilterConcat | src/lib/services.ts:330 | filtering distributes over concatenation |
| Services.FilterAll | src/lib/services.ts:330 | filtering a list whose elements all pass keeps it whole |
| Services.FilterCount | src/lib/services.ts:330 | filtering keeps every copy of a passing element and drops every copy of a failing one |
| Services.Insert | src/lib/services.ts:336 | inserting adds exactly the one element |
| Services.InsertSorted | src/lib/services.ts:336 | inserting into a list sorted by descending popularity keeps it sorted |
| Services.SortByPopularity | src/lib/services.ts:336 | the sort yields descending popularity and is a permutation |
| Services.InsertStable | src/lib/services.ts:336 | among services of equal popularity, insertion keeps the inserted one after those already present |
| Services.InsertUnfold | src/lib/services.ts:336 | an element more popular than the last one is inserted before it |
| Services.InsertPast | src/lib/services.ts:336 | moving past a last element of other popularity keeps the equal-popularity order |
| Services.FilterSwap | src/lib/services.ts:336 | an element the filter drops can be moved without changing what survives |
| Services.SortStable | src/lib/services.ts:336 | the sort is stable: services of each popularity keep their original order |
| Services.SortKeepsSorted | src/lib/services.ts:336 | an already sorted array is left as it is |
| Services.ContainsEmpty | src/lib/services.ts:344 | the empty query occurs in every string |
| Services.FindById | src/lib/services.ts:352 | none exactly when no service has the id; otherwise the first service that has it |
| Services.Catalogue.constructor | src/lib/services.ts:329-353 | the catalogue starts as the given service array |
| Services.Catalogue.ByCategory | src/lib/services.ts:329-331 | exactly the services of the category |
| Services.Catalogue.Popular | src/lib/services.ts:334-338 | the shared array becomes sorted by popularity, and the first four of it are returned |
| Services.Catalogue.Search | src/lib/services.ts:341-348 | exactly the services whose lower-cased name, description or some tag contains the lower-cased query |
| Services.Catalogue.ById | src/lib/services.ts:351-353 | a found service is in the catalogue with that id; none exactly when no service has it |
| Services.PopularIsTop | src/lib/services.ts:334-338 | the popular list has min(4, n) services from the catalogue, sorted, none less popular than a service left out |
| Services.SortPermutesCategory | src/lib/services.ts:329-338 | after the in-place sort, a category lookup yields the same services as before, possibly reordered |
| Services.EmptySearchIsAll | src/lib/services.ts:341-348 | the empty query returns the whole catalogue in order |
| Services.ByIdIsFirst | src/lib/services.ts:351-353 | the lookup returns the first service with the id |
| EmailTemplate.CloseFrom | src/app/tools/email-template/page.tsx:259 | the first '}' at or after a position, or none |
| EmailTemplate.PlaceholderEnd | src/app/tools/email-template/page.tsx:259 | a match of `\{([^}]+)\}` at the start: '{', a non-empty name without '}', then '}' |
| EmailTemplate.PlaceholderOf | src/app/tools/email-template/page.tsx:259 | `{k}` with a valid name matches with the name k |
| EmailTemplate.ReplacesPlaceholder | src/app/tools/email-template/page.tsx:258-262 | a placeholder with a non-empty value becomes the value; one with an empty or missing value stays as written |
| EmailTemplate.PlainPrefix | src/app/tools/email-template/page.tsx:258-262 | text without '{' is copied unchanged in front of the rest |
| EmailTemplate.NoPlaceholdersUnchanged | src/app/tools/email-template/page.tsx:258-262 | text in which no position starts a match of the pattern is returned unchanged |
| EmailTemplate.NoBraceNoPlaceholder | src/app/tools/email-template/page.tsx:258 | text without '{' holds no match |
| EmailTemplate.UnmatchedBracesKept | src/app/tools/email-template/page.tsx:258-262 | "a{b", "{}" and "x}{y" are returned unchanged |
| EmailTemplate.BlankValuesUnchanged | src/app/tools/email-template/page.tsx:258-262 | when every value is empty the text is returned unchanged |
| EmailTemplate.BlankPlaceholder | src/app/tools/email-template/page.tsx:260 | with empty values a matched placeholder is put back as it was |
| EmailTemplate.BlankVariables | src/app/tools/email-template/page.tsx:270-274 | the initial variables are exactly the template's names, each with the empty value |
| EmailTemplate.GeneratePreview | src/app/tools/email-template/page.tsx:286-293 | no template selected gives an empty subject and content |
| EmailTemplate.PreviewAfterSelection | src/app/tools/email-template/page.tsx:265-293 | right after selection the preview is the raw subject and content |
| SignatureColor.HexDigitValue | src/app/tools/signature-maker/page.tsx:64 | a hex digit has a value below 16 |
| SignatureColor.HexChar | src/app/tools/signature-maker/page.tsx:68 | a value below 16 is written as a lower-case digit with that value |
| SignatureColor.HexCharOfValue | src/app/tools/signature-maker/page.tsx:68 | a lower-case digit is written back as itself |
| SignatureColor.Pow16 | src/app/tools/signature-maker/page.tsx:64 | powers of 16 are positive |
| SignatureColor.HexValue | src/app/tools/signature-maker/page.tsx:64 | the value of k hex digits is below 16^k |
| SignatureColor.HexValueConcat | src/app/tools/signature-maker/page.tsx:64 | the value of a + b is value(a)·16^|b| + value(b) |
| SignatureColor.LowerHexUnique | src/app/tools/signature-maker/page.tsx:68 | lower-case hex texts of one length with equal value are equal |
| SignatureColor.ToHex | src/app/tools/signature-maker/page.tsx:68 | `toString(16)` gives at least one lower-case hex digit |
| SignatureColor.ValueOfToHex | src/app/tools/signature-maker/page.tsx:68 | `toString(16)` is read back by `parseInt(_, 16)` to the number |
| SignatureColor.ToHexLength | src/app/tools/signature-maker/page.tsx:68 | a number below 16^k has at most k hex digits |
| SignatureColor.Zeros | src/app/tools/signature-maker/page.tsx:68 | padding is made of '0' digits |
| SignatureColor.ZerosValue | src/app/tools/signature-maker/page.tsx:68 | zeros have value 0 |
| SignatureColor.PadStart6 | src/app/tools/signature-maker/page.tsx:68 | `padStart(6, '0')` gives six characters from a shorter text and leaves a longer one alone |
| SignatureColor.PadKeepsValue | src/app/tools/signature-maker/page.tsx:68 | padding keeps the text lower-case hex and keeps its value |
| SignatureColor.ZerosPrefixValue | src/app/tools/signature-maker/page.tsx:68 | leading zeros do not change the value |
| SignatureColor.LeadingHexCount | src/app/tools/signature-maker/page.tsx:64 | `parseInt` reads the longest run of hex digits at the start |
| SignatureColor.ToInt32 | src/app/tools/signature-maker/page.tsx:65-67 | the 32-bit conversion before `>>` and `&` lands in the int32 range and keeps values below 2^31 |
| SignatureColor.Clamp | src/app/tools/signature-maker/page.tsx:65-67 | `max(0, min(255, x))` is in 0..255 and keeps values already there |
| SignatureColor.AdjustedChannels | src/app/tools/signature-maker/page.tsx:63-67 | the adjusted channels are always in 0..255, whatever the input text |
| SignatureColor.PackedBound | src/app/tools/signature-maker/page.tsx:68 | three channels pack into a number below 2^24 |
| SignatureColor.PackedInjective | src/app/tools/signature-maker/page.tsx:68 | different channels pack into different numbers |
| SignatureColor.SixDigits | src/app/tools/signature-maker/page.tsx:64-67 | six hex digits are worth their three two-digit groups in base 256 |
| SignatureColor.EncodeShape | src/app/tools/signature-maker/page.tsx:68 | the output is '#' and six lower-case hex digits whose value is the packed channels |
| SignatureColor.DecodePacked | src/app/tools/signature-maker/page.tsx:64-67 | the channels read from a #rrggbb colour are in range and pack back to its hex value |
| SignatureColor.DecodeEncode | src/app/tools/signature-maker/page.tsx:62-69 | the written colour reads back to the channels it was written from |
| SignatureColor.ValidColorChannels | src/app/tools/signature-maker/page.tsx:63-67 | for a #rrggbb colour the shifts and masks yield exactly its rr, gg and bb |
| SignatureColor.AdjustsEachChannel | src/app/tools/signature-maker/page.tsx:62-69 | for a #rrggbb colour the result is a lower-case #rrggbb colour whose channels are the clamped sums |
| SignatureColor.AdjustMonotone | src/app/tools/signature-maker/page.tsx:65-67 | a larger amount never darkens any channel |
| SignatureColor.LowerHex | src/app/tools/signature-maker/page.tsx:68 | lower-casing hex digits keeps the length and gives lower-case hex |
| SignatureColor.LowerHexValue | src/app/tools/signature-maker/page.tsx:68 | lower-casing does not change a hex value |
| SignatureColor.SameChannelsSameValue | src/app/tools/signature-maker/page.tsx:64-67 | colours with the same channels have the same hex value |
| SignatureColor.AdjustByZero | src/app/tools/signature-maker/page.tsx:62-69 | adjusting by 0 gives the colour in lower case |
| BetaOnboarding.ToolCost | src/types/beta-onboarding.ts:243-249 | each tool costs at least one credit |
| BetaOnboarding.SpotsRemaining | src/types/beta-onboarding.ts:296 | max(0, 100 − participants): never negative, zero exactly from 100 participants on, and spots plus participants make 100 below that |
| BetaOnboarding.RoomIffSpots | src/types/beta-onboarding.ts:292-296 | the participant part of `isOpen` holds exactly when spots remain |
| BetaOnboarding.FormatCredits | src/types/beta-onboarding.ts:321-333 | the text is "크레딧 n개"; the value is in 만원 exactly when amount × 1000 ≥ 10000, otherwise amount × 1000 won |
| BetaOnboarding.DivModTen | src/types/beta-onboarding.ts:324 | 10q + r splits back into q and r |
| BetaOnboarding.TenthsOf | src/types/beta-onboarding.ts:324 | amount / 10 is written as q, or as q.r for a remainder r ≠ 0 |
| BetaOnboarding.ReadTenthsOf | src/types/beta-onboarding.ts:324 | "q.r" reads as 10q + r |
| BetaOnboarding.TenthsRoundTrip | src/types/beta-onboarding.ts:324 | the written tenths read back to the amount |
| BetaOnboarding.WholeRoundTrip | src/types/beta-onboarding.ts:324 | "q" reads as 10q |
| BetaOnboarding.FractionRoundTrip | src/types/beta-onboarding.ts:324 | "q.r" with 0 < r < 10 reads as 10q + r |
| BetaOnboarding.SplitTen | src/types/beta-onboarding.ts:324 | every amount is 10q + r with r < 10 |
| BetaOnboarding.ManwonRoundTrip | src/types/beta-onboarding.ts:322-324 | the 만원 figure is exactly the value in won divided by 10000 |
| BetaOnboarding.ManwonFromTenCredits | src/types/beta-onboarding.ts:322-325 | ten credits and more are shown in 만원, fewer in won |
| BetaOnboarding.EstimateUsage | src/types/beta-onboarding.ts:345-368 | four tools in fixed order (blog, image search, QR, report), each with count × cost ≤ credits < (count + 1) × cost |
| BetaOnboarding.EstimateMonotone | src/types/beta-onboarding.ts:345-368 | more credits never buy fewer uses |
| BetaOnboarding.EstimateForTwelve | src/types/beta-onboarding.ts:345-368 | 12 credits buy 4 blogs, 12 image searches, 6 QR codes and 2 reports |
| BetaMissions.Find | src/lib/beta/missions.ts:149 | `find`: none exactly when nothing matches; otherwise the first match |
| BetaMissions.ActiveOf | src/lib/beta/missions.ts:46-57 | the mission query returns exactly the active missions |
| BetaMissions.ProgressOf | src/lib/beta/missions.ts:137-161 | no tester gives no entries; otherwise one entry per active mission, completed exactly when its id is in the tester's list |
| BetaMissions.FirstWithOrderUnique | src/lib/beta/missions.ts:149 | the first mission with a given order is unique |
| BetaMissions.LockedIffFirst | src/lib/beta/missions.ts:150-153 | a mission is locked exactly when its order is above 1 and the first mission of the previous order exists and is not completed |
| BetaMissions.LockedIff | src/lib/beta/missions.ts:147-158 | the progress entry's lock flag is that rule applied to its mission |
| BetaMissions.UnlockedCases | src/lib/beta/missions.ts:150-153 | order ≤ 1, or all previous-order missions completed, means unlocked |
| BetaMissions.CompleteIdempotent | src/lib/beta/missions.ts:179-181 | completing a mission a second time changes nothing |
| BetaMissions.CompleteEffect | src/lib/beta/missions.ts:164-213 | the store changes exactly when the outcome is Done, and NotFound exactly when the mission or the tester is missing. On Done, only this tester changes: the id is appended, reward and time are added, completion and VIP are set when the count reaches the active missions (plus the bonus), and one completion record is added |
| BetaMissions.CompleteKeepsNoDuplicates | src/lib/beta/missions.ts:179-200 | no tester's completed list ever holds an id twice |
| BetaMissions.CompletingPredecessorUnlocks | src/lib/beta/missions.ts:150-200 | completing the only mission of the previous order unlocks a mission |
| BetaMissions.RegisterExisting | src/lib/beta/missions.ts:78-81 | an existing tester keeps its number and nothing changes |
| BetaMissions.RegisterFull | src/lib/beta/missions.ts:87-89 | at 100 testers a new user is refused with null and nothing changes |
| BetaMissions.RegisterNew | src/lib/beta/missions.ts:91-112 | a new user gets number count + 1 and is added, with every other tester unchanged |
| BetaMissions.SignupKeepsOthers | src/lib/beta/missions.ts:105-110 | the automatic sign-up completion changes no other tester and no beta number |
| BetaMissions.AddKeepsNumbersValid | src/lib/beta/missions.ts:91-103 | beta numbers stay distinct and within 1..count when a tester is added |
| BetaMissions.UpdateKeepsNumbersValid | src/lib/beta/missions.ts:199-205 | updating a tester without touching its number keeps the numbers valid |
| BetaMissions.AppendFresh | src/lib/beta/missions.ts:195 | appending an id not yet present keeps the list free of duplicates |
| BetaMissions.CompleteKeepsOthers | src/lib/beta/missions.ts:164-213 | completion keeps the tester set, every other tester and the tester's number |
| BetaMissions.RegisterKeepsNumbersValid | src/lib/beta/missions.ts:76-113 | registration keeps the beta numbers distinct and within 1..count |
| BetaMissions.UpdateKeepsValid | src/lib/beta/missions.ts:199-205 | the store invariant survives an update keeping number and duplicate-freedom |
| BetaMissions.AddKeepsValid | src/lib/beta/missions.ts:91-103 | the store invariant survives adding a fresh tester |
| BetaMissions.CompleteDone | src/lib/beta/missions.ts:183-212 | a found mission not yet completed by an existing tester is completed: the tester is updated and one record added |
| BetaMissions.MissionStore.constructor | src/lib/beta/missions.ts:26-28 | the store starts with the missions, no testers and no completions |
| BetaMissions.MissionStore.GetUserMissionProgress | src/lib/beta/missions.ts:137-161 | an unknown user gets no entries, a tester one per active mission |
| BetaMissions.MissionStore.CompleteMission | src/lib/beta/missions.ts:164-213 | the new store and outcome are those of `Complete`, and the store invariant is kept |
| BetaMissions.MissionStore.RegisterBetaTester | src/lib/beta/missions.ts:76-113 | the new store and result are those of `Register`, and the store invariant is kept |
| BetaMissions.FormatTimeSavedShape | src/lib/beta/missions.ts:256-267 | "m분" below an hour, "h시간" on whole hours, "h시간 m분" otherwise |
| BetaMissions.ParseTimeSavedOfParts | src/lib/beta/missions.ts:265 | "h시간 " followed by a minutes text reads as h·60 + m |
| BetaMissions.ParseHoursMinutes | src/lib/beta/missions.ts:265 | "h시간 m분" reads back as h·60 + m |
| BetaMissions.FormatTimeSavedRoundTrip | src/lib/beta/missions.ts:256-267 | the formatted time of any non-negative minute count reads back to that count |
| KitOptions.Without | src/components/KitOptionsModal.tsx:36 | the filter removes the id and keeps every other id |
| KitOptions.WithoutKeepsNoDuplicates | src/components/KitOptionsModal.tsx:36 | filtering keeps the selection free of duplicates |
| KitOptions.WithoutAbsent | src/components/KitOptionsModal.tsx:36 | filtering an absent id changes nothing |
| KitOptions.WithoutSnoc | src/components/KitOptionsModal.tsx:36-37 | appending an id and filtering it out is filtering the original |
| KitOptions.ToggleMembership | src/components/KitOptionsModal.tsx:33-39 | a toggle flips whether the id is selected, changes no other id, and the selection never holds an id twice |
| KitOptions.ToggleTwice | src/components/KitOptionsModal.tsx:33-39 | toggling twice restores the selected set; it restores the sequence itself when the id was not selected |
| KitOptions.PriceOfFirst | src/components/KitOptionsModal.tsx:44-45 | the price of the first option with the id, 0 when none has it |
| KitOptions.PriceSumWithout | src/components/KitOptionsModal.tsx:41-48 | removing a selected id takes its price out of the sum |
| KitOptions.ToggleChangesTotal | src/components/KitOptionsModal.tsx:33-48 | a toggle adds the option's price to the total or takes it away |
| KitOptions.UnknownIdsIgnored | src/components/KitOptionsModal.tsx:44-45 | an id naming no option adds nothing to the total |
| KitOptions.KitOptionsModal.constructor | src/components/KitOptionsModal.tsx:29 | the selection starts empty |
| KitOptions.KitOptionsModal.ToggleOption | src/components/KitOptionsModal.tsx:33-39 | the new selection is the toggled old one, and no id is held twice |
| KitOptions.KitOptionsModal.CalculateTotal | src/components/KitOptionsModal.tsx:41-48 | the total is the base price plus the price of every selected id present in the options |
| KitOptions.FindOption | src/components/KitOptionsModal.tsx:44 | -1 exactly when no option has the id; otherwise the first option with it, and its price |

## Left out

- I/O and remote services are not modelled: Firestore, Supabase, Outlook COM, SMTP, the Naver and Google scrapers, and logging. The scrapers and the mail sender of the briefing become function parameters.
- APScheduler internals are not modelled: the SQLite job store, the background thread, misfire handling, and the Asia/Seoul time zone. `NextFire` works on a minute clock, with daylight-saving and calendar effects left out.
- The briefing callback imports `create_excel` (search-crawler/scheduler.py:221), and search-crawler/app.py does not define it; it defines `create_csv`. That import raises outside the callback's `try` on every run. The report builder is a function parameter, so this failure is not part of the model.
- CronTrigger's validation is reduced to hour 0..23, minute 0..59 and a non-empty list of weekdays 0..6. Its other accepted day-of-week forms are left out.
- BriefingScheduler.ParseTime: Python `int()` is modelled as an optional sign and ASCII digits. Surrounding whitespace, underscores and non-ASCII digits, which `int()` also accepts, are left out.
- BriefingScheduler.SchedulerManager.GetAllSchedules: the library returns jobs in next-run order; the model promises one entry per job but no order.
- Floating point is not modelled. Salary rates, conversion factors and `parseInt` results are exact integers and rationals here; JavaScript's double products can differ by one at a floor. `taxRate` (toFixed) and `progressPercent` are left out.
- `cultureFitScore` uses `Math.random` and is left out, as are the recommended-company texts beyond their being constant.
- Clock- and date-dependent parts are left out: `getBetaStatus` dates, the week number, `createdAt` timestamps and `DateTime.Now`. The current time or date is a parameter.
- Strings are sequences of code points. JavaScript and C# count UTF-16 units, so lengths and slices differ for characters outside the basic plane.
- Case folding covers ASCII letters only. This affects `ToUpper`/`OrdinalIgnoreCase` in AutoReply and `toLowerCase` in Services.Search.
- EmailTemplate: `vars[key]` is a map lookup here. JavaScript also finds inherited object keys such as `constructor`, and that quirk is left out.
- Permissions.HasPermission: the roles are the three known ones and `UnknownRole`. A role name that is an inherited object member, such as `constructor`, makes `ROLE_PERMISSIONS[role]?.includes` throw, and that is left out.
- Attachments.FreePath: paths are compared with ASCII case folding only. Windows also folds other letters, and that is left out.
- SignatureColor: `parseInt` whitespace, sign and `0x` prefix handling are left out, as is precision beyond 2^53. `replace('#', '')` is modelled as removing the first '#'.
- BetaOnboarding.FormatCredits: the won branch keeps the number, not its `toLocaleString` text. The `withValue` and `valueOnly` texts are left out, and amounts are whole numbers.
- Services: the catalogue data is passed to the constructor, not copied.
- BetaMissions, store behaviour:
  - Firestore read/write races and the separate `increment`/`arrayUnion` writes are modelled as one atomic update.
  - `getAllMissions` is taken as already ordered by `order`.
  - `getMission` finds any mission by id, active or not.
  - `getBetaCompletionRate`, `completeMissionByAction` and `getUserCompletedMissions` are left out as thin wrappers over the same data.
- BetaMissions.Complete: the thrown error for a missing mission or tester is the outcome NotFound.
- CopilotChunks.ChunkText requires 0 < chunkSize and overlap < chunkSize. With other values the source loop may never end or may produce empty chunks, and the defaults (1000, 200) meet both.
- KitOptions.ToggleTwice: when the id was selected, toggling twice moves it to the end, so only the set is restored, not the sequence.
- Attachments: `Path.Combine` exceptions (invalid path characters in the base path) and `Directory.CreateDirectory` are left out. The file system is the set of the existing paths, upper-cased.
- ExchangeRateSetup: for a send time that is not a string, its `String(value)` text is carried in the request, not computed from a JSON value.
- AutoReply: `ProcessNewMail` is left out: feature flags, the delay, `ReplyAll` and `Send`. Only `ShouldReply` and the body composition are modelled.

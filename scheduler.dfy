/** The per-user briefing scheduler of search-crawler/scheduler.py.

    The scheduler's job table is a map from job id to job. Each state
    change of `SchedulerManager` is tied to a pure transition function on
    that map (`Registered`, `Removed`, `SetPaused`); the lemmas at
    the end state the manager's promises about those functions. The
    job store's persistence, the background thread and the library's
    timezone handling are not part of this model. */
module BriefingScheduler {
  import opened Wrappers
  import opened Decimal
  import opened Strings
  import opened CronClock

  /** `job_data`: the arguments bound into the briefing callback. */
  datatype JobData = JobData(
    userId: string,
    email: string,
    keywords: seq<string>,
    maxResults: int,
    engines: seq<string>)

  /** One registered job. A paused job keeps its trigger and data. */
  datatype Job = Job(id: string, name: string, trigger: Trigger, data: JobData, paused: bool)

  /** The arguments of `add_user_schedule`. */
  datatype ScheduleRequest = ScheduleRequest(
    userId: string,
    email: string,
    keywords: seq<string>,
    timeStr: string,
    weekdays: seq<int>,
    maxResults: int,
    engines: seq<string>)

  /** The dictionary `add_user_schedule` returns on success. */
  datatype Registration = Registration(
    jobId: string,
    userId: string,
    email: string,
    keywords: seq<string>,
    time: string,
    weekdays: seq<int>,
    nextRun: Instant)

  /** Why `add_user_schedule` raised: the time text did not split into two
      integers, or the trigger rejected the values. */
  datatype RegisterError = MalformedTime | RejectedTrigger

  datatype RegisterResult = Ok(registration: Registration) | Err(error: RegisterError)

  /** The dictionary `get_schedule` returns. */
  datatype UserSchedule = UserSchedule(
    jobId: string,
    userId: string,
    name: string,
    nextRun: Option<Instant>,
    trigger: Trigger)

  /** One entry of `get_all_schedules`. */
  datatype ScheduleInfo = ScheduleInfo(jobId: string, name: string, nextRun: Option<Instant>, trigger: Trigger)

  type JobTable = map<string, Job>

  /** The engine key of a user's job. */
  function JobId(userId: string): (id: string)
    ensures |id| == 9 + |userId| && id[..9] == "briefing_" && id[9..] == userId
  {
    "briefing_" + userId
  }

  lemma JobIdInjective(u1: string, u2: string)
    requires JobId(u1) == JobId(u2)
    ensures u1 == u2
  {
    assert u1 == JobId(u1)[9..];
  }

  // ---------------------------------------------------------------------
  // Parsing "HH:MM" (`map(int, time_str.split(':'))`)
  // ---------------------------------------------------------------------

  /** Python `s.split(sep)` for a one-character separator. */
  function Split(s: string, sep: char): (parts: seq<string>)
    ensures |parts| >= 1
    ensures forall i :: 0 <= i < |parts| ==> sep !in parts[i]
  {
    if s == [] then [""]
    else
      var rest := Split(s[1..], sep);
      if s[0] == sep then [""] + rest
      else [[s[0]] + rest[0]] + rest[1..]
  }

  /** Splitting and joining back with the separator gives the text back. */
  lemma {:induction false} JoinSplit(s: string, sep: char)
    ensures Join(Split(s, sep), [sep]) == s
  {
    if s != [] {
      var rest := Split(s[1..], sep);
      JoinSplit(s[1..], sep);
      if s[0] == sep {
        assert Split(s, sep)[1..] == rest;
      } else {
        var parts := Split(s, sep);
        if |rest| == 1 {
          assert parts == [[s[0]] + rest[0]];
        } else {
          assert parts[1..] == rest[1..];
          assert Join(rest, [sep]) == rest[0] + [sep] + Join(rest[1..], [sep]);
        }
      }
    }
  }

  /** Python `int(s)` on an optional sign followed by ASCII digits. */
  function PyInt(s: string): (r: Option<int>)
    ensures r.Some? ==> |s| > 0
  {
    if |s| > 0 && (s[0] == '+' || s[0] == '-') then
      var digits := s[1..];
      if |digits| > 0 && AllDigits(digits) then
        Some(if s[0] == '-' then -(DigitsValue(digits) as int) else DigitsValue(digits))
      else None
    else if |s| > 0 && AllDigits(s) then Some(DigitsValue(s))
    else None
  }

  /** `hour, minute = map(int, time_str.split(':'))`; None where Python raises. */
  function ParseTime(timeStr: string): (r: Option<(int, int)>)
    ensures r.Some? <==> |Split(timeStr, ':')| == 2
                         && PyInt(Split(timeStr, ':')[0]).Some?
                         && PyInt(Split(timeStr, ':')[1]).Some?
  {
    var parts := Split(timeStr, ':');
    if |parts| != 2 then None
    else match (PyInt(parts[0]), PyInt(parts[1]))
      case (Some(h), Some(m)) => Some((h, m))
      case _ => None
  }

  lemma ParseTwoDigitTime(h: nat, m: nat)
    requires h < 24 && m < 60
    ensures ParseTime(NatToString(h) + ":" + NatToString(m)) == Some((h as int, m as int))
  {
    var a, b := NatToString(h), NatToString(m);
    SplitNoSep(a, ':');
    SplitNoSep(b, ':');
    SplitConcat(a, b, ':');
    ValueOfNatToString(h);
    ValueOfNatToString(m);
    assert a[0] != '+' && a[0] != '-' && b[0] != '+' && b[0] != '-';
  }

  lemma {:induction false} SplitNoSep(s: string, sep: char)
    requires sep !in s
    ensures Split(s, sep) == [s]
  {
    if s != [] {
      SplitNoSep(s[1..], sep);
      assert [s[0]] + s[1..] == s;
    }
  }

  lemma {:induction false} SplitConcat(a: string, b: string, sep: char)
    requires sep !in a && sep !in b
    ensures Split(a + [sep] + b, sep) == [a, b]
  {
    if a == [] {
      assert a + [sep] + b == [sep] + b;
      assert ([sep] + b)[1..] == b;
      SplitNoSep(b, sep);
    } else {
      assert (a + [sep] + b)[1..] == a[1..] + [sep] + b;
      assert (a + [sep] + b)[0] == a[0];
      SplitConcat(a[1..], b, sep);
      assert [a[0]] + a[1..] == a;
    }
  }

  // ---------------------------------------------------------------------
  // The job table and its transitions
  // ---------------------------------------------------------------------

  /** Every job sits under its own id, which is the id of its user, and
      carries a trigger the library accepted. */
  ghost predicate WellFormed(jobs: JobTable) {
    forall id | id in jobs ::
      jobs[id].id == id && id == JobId(jobs[id].data.userId) && ValidTrigger(jobs[id].trigger)
  }

  function BriefingName(email: string): string {
    "Briefing for " + email
  }

  /** The job's next run time: none while paused. */
  function NextRun(job: Job, now: Instant): (r: Option<Instant>)
    requires ValidTrigger(job.trigger)
    ensures r.None? <==> job.paused
    ensures r.Some? ==> now <= r.value && Fires(job.trigger, r.value)
  {
    if job.paused then None else Some(NextFire(job.trigger, now))
  }

  function NewJob(req: ScheduleRequest, tr: Trigger): Job {
    Job(JobId(req.userId), BriefingName(req.email), tr,
        JobData(req.userId, req.email, req.keywords, req.maxResults, req.engines), false)
  }

  /** `remove_schedule`: the table without the user's job, and whether there was one. */
  function Removed(jobs: JobTable, userId: string): (JobTable, bool) {
    (jobs - {JobId(userId)}, JobId(userId) in jobs)
  }

  /** `add_user_schedule`: the time is parsed first; the old job is removed
      before the trigger is built, so a rejected trigger leaves the user
      without a job; otherwise the new job replaces the old one. */
  function Registered(jobs: JobTable, req: ScheduleRequest, now: Instant): (JobTable, RegisterResult) {
    match ParseTime(req.timeStr)
    case None => (jobs, Err(MalformedTime))
    case Some((hour, minute)) =>
      var cleared := Removed(jobs, req.userId).0;
      var tr := Trigger(req.weekdays, hour, minute);
      if !ValidTrigger(tr) then (cleared, Err(RejectedTrigger))
      else
        var job := NewJob(req, tr);
        (cleared[job.id := job],
         Ok(Registration(job.id, req.userId, req.email, req.keywords, req.timeStr,
                         req.weekdays, NextFire(tr, now))))
  }

  /** `pause_schedule` / `resume_schedule`: flip the paused flag of an
      existing job; false when there is none. */
  function SetPaused(jobs: JobTable, userId: string, paused: bool): (JobTable, bool) {
    var id := JobId(userId);
    if id in jobs then (jobs[id := jobs[id].(paused := paused)], true) else (jobs, false)
  }

  // ---------------------------------------------------------------------
  // The manager
  // ---------------------------------------------------------------------

  /** What `get_all_schedules` reports for one job. */
  function InfoOf(job: Job, now: Instant): ScheduleInfo
    requires ValidTrigger(job.trigger)
  {
    ScheduleInfo(job.id, job.name, NextRun(job, now), job.trigger)
  }

  /** The listing loop's invariant: every job not in `remaining` is listed
      once, and nothing else is. */
  ghost predicate Listed(jobs: JobTable, now: Instant, list: seq<ScheduleInfo>, remaining: set<string>) {
    WellFormed(jobs) && remaining <= jobs.Keys && |list| + |remaining| == |jobs| &&
    EntriesListed(jobs, now, list, remaining) && AllListed(jobs, list, remaining) && Distinct(list)
  }

  ghost predicate EntriesListed(jobs: JobTable, now: Instant, list: seq<ScheduleInfo>, remaining: set<string>)
    requires WellFormed(jobs)
  {
    forall i :: 0 <= i < |list| ==>
      list[i].jobId in jobs && list[i].jobId !in remaining && list[i] == InfoOf(jobs[list[i].jobId], now)
  }

  ghost predicate AllListed(jobs: JobTable, list: seq<ScheduleInfo>, remaining: set<string>) {
    forall id :: id in jobs && id !in remaining ==> exists i :: 0 <= i < |list| && list[i].jobId == id
  }

  ghost predicate Distinct(list: seq<ScheduleInfo>) {
    forall i, j :: 0 <= i < j < |list| ==> list[i].jobId != list[j].jobId
  }

  lemma ListedStep(jobs: JobTable, now: Instant, list: seq<ScheduleInfo>, remaining: set<string>, id: string)
    requires Listed(jobs, now, list, remaining) && id in remaining
    ensures Listed(jobs, now, list + [InfoOf(jobs[id], now)], remaining - {id})
  {
    var e := InfoOf(jobs[id], now);
    EntriesStep(jobs, now, list, remaining, id);
    AllListedStep(jobs, list, remaining, e);
    DistinctStep(jobs, now, list, remaining, id);
    assert |remaining - {id}| == |remaining| - 1;
  }

  lemma EntriesStep(jobs: JobTable, now: Instant, list: seq<ScheduleInfo>, remaining: set<string>, id: string)
    requires WellFormed(jobs) && EntriesListed(jobs, now, list, remaining) && id in remaining && id in jobs
    ensures EntriesListed(jobs, now, list + [InfoOf(jobs[id], now)], remaining - {id})
  {
    var list' := list + [InfoOf(jobs[id], now)];
    assert list'[|list|].jobId == id;
    assert forall i :: 0 <= i < |list| ==> list'[i] == list[i];
  }

  lemma AllListedStep(jobs: JobTable, list: seq<ScheduleInfo>, remaining: set<string>, e: ScheduleInfo)
    requires AllListed(jobs, list, remaining)
    ensures AllListed(jobs, list + [e], remaining - {e.jobId})
  {
    var list' := list + [e];
    forall other | other in jobs && other !in remaining - {e.jobId}
      ensures exists i :: 0 <= i < |list'| && list'[i].jobId == other
    {
      if other == e.jobId {
        assert list'[|list|].jobId == other;
      } else {
        var i :| 0 <= i < |list| && list[i].jobId == other;
        assert list'[i] == list[i];
      }
    }
  }

  lemma DistinctStep(jobs: JobTable, now: Instant, list: seq<ScheduleInfo>, remaining: set<string>, id: string)
    requires WellFormed(jobs) && EntriesListed(jobs, now, list, remaining) && Distinct(list) && id in remaining && id in jobs
    ensures Distinct(list + [InfoOf(jobs[id], now)])
  {
    var list' := list + [InfoOf(jobs[id], now)];
    assert list'[|list|].jobId == id;
    assert forall i :: 0 <= i < |list| ==> list'[i] == list[i] && list[i].jobId != id;
  }

  lemma ListedAll(jobs: JobTable, now: Instant, list: seq<ScheduleInfo>)
    requires Listed(jobs, now, list, {})
    ensures |list| == |jobs|
    ensures forall i :: 0 <= i < |list| ==>
              list[i].jobId in jobs &&
              var job := jobs[list[i].jobId];
              list[i] == ScheduleInfo(job.id, job.name, NextRun(job, now), job.trigger)
    ensures forall id :: id in jobs ==> exists i :: 0 <= i < |list| && list[i].jobId == id
    ensures forall i, j :: 0 <= i < j < |list| ==> list[i].jobId != list[j].jobId
  {
  }

  class SchedulerManager {
    var jobs: JobTable

    ghost predicate Valid()
      reads this
    {
      WellFormed(jobs)
    }

    constructor ()
      ensures Valid() && jobs == map[]
    {
      jobs := map[];
    }

    method RemoveSchedule(userId: string) returns (removed: bool)
      requires Valid()
      modifies this
      ensures Valid()
      ensures (jobs, removed) == Removed(old(jobs), userId)
    {
      var id := JobId(userId);
      if id in jobs {
        jobs := jobs - {id};
        removed := true;
      } else {
        assert jobs - {id} == jobs;
        removed := false;
      }
    }

    method AddUserSchedule(req: ScheduleRequest, now: Instant) returns (r: RegisterResult)
      requires Valid()
      modifies this
      ensures Valid()
      ensures (jobs, r) == Registered(old(jobs), req, now)
    {
      var parsed := ParseTime(req.timeStr);
      if parsed.None? {
        return Err(MalformedTime);
      }
      var (hour, minute) := parsed.value;
      var _ := RemoveSchedule(req.userId);
      var tr := Trigger(req.weekdays, hour, minute);
      if !ValidTrigger(tr) {
        return Err(RejectedTrigger);
      }
      var job := NewJob(req, tr);
      jobs := jobs[job.id := job];
      var next := GetNextRunTime(req.userId, now);
      r := Ok(Registration(job.id, req.userId, req.email, req.keywords, req.timeStr,
                           req.weekdays, next.value));
    }

    method GetSchedule(userId: string, now: Instant) returns (r: Option<UserSchedule>)
      requires Valid()
      ensures r.None? <==> JobId(userId) !in jobs
      ensures r.Some? ==>
                var job := jobs[JobId(userId)];
                r.value == UserSchedule(job.id, userId, job.name, NextRun(job, now), job.trigger)
    {
      var id := JobId(userId);
      if id in jobs {
        var job := jobs[id];
        r := Some(UserSchedule(id, userId, job.name, NextRun(job, now), job.trigger));
      } else {
        r := None;
      }
    }

    method GetNextRunTime(userId: string, now: Instant) returns (r: Option<Instant>)
      requires Valid()
      ensures JobId(userId) !in jobs ==> r.None?
      ensures JobId(userId) in jobs ==> r == NextRun(jobs[JobId(userId)], now)
    {
      var id := JobId(userId);
      r := if id in jobs then NextRun(jobs[id], now) else None;
    }

    /** One entry per registered job, none twice. The library lists them
        by next run time; this model promises no order. */
    method GetAllSchedules(now: Instant) returns (list: seq<ScheduleInfo>)
      requires Valid()
      ensures |list| == |jobs|
      ensures forall i :: 0 <= i < |list| ==>
                list[i].jobId in jobs &&
                var job := jobs[list[i].jobId];
                list[i] == ScheduleInfo(job.id, job.name, NextRun(job, now), job.trigger)
      ensures forall id :: id in jobs ==> exists i :: 0 <= i < |list| && list[i].jobId == id
      ensures forall i, j :: 0 <= i < j < |list| ==> list[i].jobId != list[j].jobId
    {
      var remaining := jobs.Keys;
      list := [];
      while remaining != {}
        invariant Listed(jobs, now, list, remaining)
        decreases remaining
      {
        var id :| id in remaining;
        var job := jobs[id];
        ListedStep(jobs, now, list, remaining, id);
        list := list + [ScheduleInfo(job.id, job.name, NextRun(job, now), job.trigger)];
        remaining := remaining - {id};
      }
      ListedAll(jobs, now, list);
    }

    method PauseSchedule(userId: string) returns (ok: bool)
      requires Valid()
      modifies this
      ensures Valid()
      ensures (jobs, ok) == SetPaused(old(jobs), userId, true)
    {
      var id := JobId(userId);
      if id in jobs {
        jobs := jobs[id := jobs[id].(paused := true)];
        ok := true;
      } else {
        ok := false;
      }
    }

    method ResumeSchedule(userId: string) returns (ok: bool)
      requires Valid()
      modifies this
      ensures Valid()
      ensures (jobs, ok) == SetPaused(old(jobs), userId, false)
    {
      var id := JobId(userId);
      if id in jobs {
        jobs := jobs[id := jobs[id].(paused := false)];
        ok := true;
      } else {
        ok := false;
      }
    }
  }

  // ---------------------------------------------------------------------
  // What the transitions promise
  // ---------------------------------------------------------------------

  /** Registration replaces the user's job wholesale: registering `r1` and
      then `r2` for the same user leaves exactly the table that registering
      `r2` alone would have left, and the same answer. */
  lemma ReRegisterReplaces(jobs: JobTable, r1: ScheduleRequest, r2: ScheduleRequest, now1: Instant, now2: Instant)
    requires r1.userId == r2.userId
    requires ParseTime(r2.timeStr).Some?
    ensures var after1 := Registered(jobs, r1, now1).0;
            Registered(after1, r2, now2) == Registered(jobs, r2, now2)
  {
    var id := JobId(r1.userId);
    var after1 := Registered(jobs, r1, now1).0;
    assert after1 - {id} == jobs - {id};
  }

  /** After a successful registration the user has exactly one job, it is
      active, it carries the request, and no other user's job changed. */
  lemma RegisterLeavesOneJob(jobs: JobTable, req: ScheduleRequest, now: Instant)
    requires WellFormed(jobs)
    requires Registered(jobs, req, now).1.Ok?
    ensures var (after, r) := Registered(jobs, req, now);
            && WellFormed(after)
            && after.Keys == jobs.Keys + {JobId(req.userId)}
            && (forall id :: id in after && after[id].data.userId == req.userId ==> id == JobId(req.userId))
            && after[JobId(req.userId)].data == JobData(req.userId, req.email, req.keywords, req.maxResults, req.engines)
            && !after[JobId(req.userId)].paused
            && r.registration.nextRun == NextFire(after[JobId(req.userId)].trigger, now)
            && (forall id :: id in jobs && id != JobId(req.userId) ==> after[id] == jobs[id])
  {
    var (hour, minute) := ParseTime(req.timeStr).value;
    var id := JobId(req.userId);
    var job := NewJob(req, Trigger(req.weekdays, hour, minute));
    var after := (jobs - {id})[id := job];
    assert Registered(jobs, req, now).0 == after;
    assert after.Keys == jobs.Keys + {id};
  }

  /** A registration whose time parses but whose trigger is rejected leaves
      the user with no job at all, since the old one was removed first. */
  lemma RejectedTriggerDropsOldJob(jobs: JobTable, req: ScheduleRequest, now: Instant)
    requires Registered(jobs, req, now).1 == Err(RejectedTrigger)
    ensures Registered(jobs, req, now).0 == jobs - {JobId(req.userId)}
    ensures JobId(req.userId) !in Registered(jobs, req, now).0
  {
  }

  /** A malformed time changes nothing. */
  lemma MalformedTimeChangesNothing(jobs: JobTable, req: ScheduleRequest, now: Instant)
    requires ParseTime(req.timeStr).None?
    ensures Registered(jobs, req, now) == (jobs, Err(MalformedTime))
  {
  }

  /** The trigger is accepted exactly for hours 0-23, minutes 0-59 and a
      non-empty list of weekdays 0-6. */
  lemma RegisterSucceedsIff(jobs: JobTable, req: ScheduleRequest, now: Instant, h: int, m: int)
    requires ParseTime(req.timeStr) == Some((h, m))
    ensures Registered(jobs, req, now).1.Ok? <==>
              && 0 <= h <= 23 && 0 <= m <= 59 && |req.weekdays| > 0
              && forall i :: 0 <= i < |req.weekdays| ==> 0 <= req.weekdays[i] <= 6
  {
  }

  /** `remove_schedule` answers whether a job existed; removing twice, the
      second answer is false and the table is unchanged. */
  lemma RemoveIdempotent(jobs: JobTable, userId: string)
    ensures var (once, _) := Removed(jobs, userId);
            Removed(once, userId) == (once, false)
  {
    var once := Removed(jobs, userId).0;
    assert once - {JobId(userId)} == once;
  }

  /** Pausing or resuming a missing job fails and changes nothing; on an
      existing job it changes only that job's paused flag. */
  lemma SetPausedFlipsOnlyFlag(jobs: JobTable, userId: string, paused: bool)
    ensures var (after, ok) := SetPaused(jobs, userId, paused);
            && ok == (JobId(userId) in jobs)
            && after.Keys == jobs.Keys
            && (forall id :: id in jobs && id != JobId(userId) ==> after[id] == jobs[id])
            && (ok ==> after[JobId(userId)] == jobs[JobId(userId)].(paused := paused))
            && (!ok ==> after == jobs)
  {
  }

  /** Pausing and then resuming restores the table; the resumed job's next
      run is recomputed from the time of the query. */
  lemma PauseResumeRestores(jobs: JobTable, userId: string)
    requires JobId(userId) in jobs && !jobs[JobId(userId)].paused
    ensures SetPaused(SetPaused(jobs, userId, true).0, userId, false).0 == jobs
  {
    var id := JobId(userId);
    assert jobs[id].(paused := true).(paused := false) == jobs[id];
  }

  // ---------------------------------------------------------------------
  // The briefing callback (`send_scheduled_briefing`)
  // ---------------------------------------------------------------------

  /** One search hit as `search_google` / `search_naver` return it. */
  datatype SearchResult = SearchResult(title: string, url: string, description: string, rank: nat, engine: string)

  /** The arguments of the one `send_email` call. */
  datatype EmailCall = EmailCall(recipient: string, keywordText: string, report: string, resultCount: nat)

  /** Nothing found (no mail), mail handed over, or `send_email` raised
      (caught and logged by the callback). */
  datatype BriefingOutcome = NothingFound | Sent(call: EmailCall) | SendFailed(call: EmailCall)

  /** Results for one keyword: Google's first when enabled, then Naver's. */
  function KeywordResults(keyword: string, data: JobData,
                          google: (string, int) -> seq<SearchResult>,
                          naver: (string, int) -> seq<SearchResult>): seq<SearchResult>
  {
    (if "google" in data.engines then google(keyword, data.maxResults) else [])
    + (if "naver" in data.engines then naver(keyword, data.maxResults) else [])
  }

  /** `all_results` after the loop has seen the keywords `ks`. */
  function Collected(ks: seq<string>, data: JobData,
                     google: (string, int) -> seq<SearchResult>,
                     naver: (string, int) -> seq<SearchResult>): seq<SearchResult>
  {
    if ks == [] then []
    else Collected(ks[..|ks| - 1], data, google, naver) + KeywordResults(ks[|ks| - 1], data, google, naver)
  }

  /** The results are laid out keyword by keyword in declaration order. */
  lemma {:induction false} CollectedFront(ks: seq<string>, data: JobData,
                                          google: (string, int) -> seq<SearchResult>,
                                          naver: (string, int) -> seq<SearchResult>)
    requires ks != []
    ensures Collected(ks, data, google, naver)
            == KeywordResults(ks[0], data, google, naver) + Collected(ks[1..], data, google, naver)
  {
    if |ks| > 1 {
      CollectedFront(ks[..|ks| - 1], data, google, naver);
      assert ks[..|ks| - 1][1..] == ks[1..][..|ks[1..]| - 1];
      assert ks[..|ks| - 1][0] == ks[0];
      assert ks[1..][|ks[1..]| - 1] == ks[|ks| - 1];
    } else {
      assert ks[..0] == [] && ks[1..] == [];
    }
  }

  /** Nothing is collected exactly when every search for every keyword came
      back empty. */
  lemma {:induction false} CollectedEmptyIff(ks: seq<string>, data: JobData,
                                             google: (string, int) -> seq<SearchResult>,
                                             naver: (string, int) -> seq<SearchResult>)
    ensures Collected(ks, data, google, naver) == [] <==>
              forall i :: 0 <= i < |ks| ==> KeywordResults(ks[i], data, google, naver) == []
  {
    if ks != [] {
      var init := ks[..|ks| - 1];
      CollectedEmptyIff(init, data, google, naver);
      assert forall i :: 0 <= i < |init| ==> init[i] == ks[i];
    }
  }

  /** One firing: search every keyword, skip the mail when nothing was
      found, otherwise build the report and mail it with the ', '-joined
      keywords and the number of results. `send` says whether `send_email`
      returns normally or raises. */
  method SendScheduledBriefing(data: JobData,
                               google: (string, int) -> seq<SearchResult>,
                               naver: (string, int) -> seq<SearchResult>,
                               buildReport: seq<SearchResult> -> string,
                               send: EmailCall -> bool)
    returns (outcome: BriefingOutcome)
    ensures var all := Collected(data.keywords, data, google, naver);
            && (outcome == NothingFound <==> all == [])
            && (all != [] ==>
                  var call := EmailCall(data.email, Join(data.keywords, ", "), buildReport(all), |all|);
                  outcome == if send(call) then Sent(call) else SendFailed(call))
  {
    var allResults: seq<SearchResult> := [];
    for i := 0 to |data.keywords|
      invariant allResults == Collected(data.keywords[..i], data, google, naver)
    {
      var keyword := data.keywords[i];
      if "google" in data.engines {
        allResults := allResults + google(keyword, data.maxResults);
      }
      if "naver" in data.engines {
        allResults := allResults + naver(keyword, data.maxResults);
      }
      assert data.keywords[..i + 1][..i] == data.keywords[..i];
    }
    assert data.keywords[..|data.keywords|] == data.keywords;
    if allResults == [] {
      return NothingFound;
    }
    var report := buildReport(allResults);
    var call := EmailCall(data.email, Join(data.keywords, ", "), report, |allResults|);
    if send(call) {
      outcome := Sent(call);
    } else {
      outcome := SendFailed(call);
    }
  }
}

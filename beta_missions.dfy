/** The beta-tester mission store of src/lib/beta/missions.ts: testers
    register under a running number up to a cap, complete missions for
    credits, see later missions locked until the one before is done, and
    get a bonus once every mission counts as completed.

    The Firestore collections become fields of one store object: the
    mission collection as the ordered query returns it (ascending
    `order`), the tester documents keyed by user id, and the list of
    completion records. */
module BetaMissions {
  import opened Wrappers
  import opened Decimal
  import Gamification

  datatype Mission = Mission(id: string, order: int, rewardCredits: int, timeSaved: int,
                             actionType: string, isActive: bool)

  datatype Tester = Tester(betaNumber: nat, totalCreditsEarned: int, timeSaved: int,
                           completedMissions: seq<string>, isCompleted: bool, vipEligible: bool)

  datatype Completion = Completion(userId: string, missionId: string, creditsAwarded: int, proof: Option<string>)

  datatype Progress = Progress(mission: Mission, isCompleted: bool, isLocked: bool)

  /** `MAX_BETA_TESTERS`, `COMPLETION_BONUS.credits` and the sign-up reward. */
  const MaxBetaTesters: nat := 100
  const CompletionBonusCredits: int := 10000
  const SignupCredits: int := 100

  /** `Array.prototype.find`. */
  function Find<T>(s: seq<T>, p: T -> bool): (r: Option<T>)
    ensures r.None? <==> forall i :: 0 <= i < |s| ==> !p(s[i])
    ensures r.Some? ==>
              exists i :: 0 <= i < |s| && s[i] == r.value && p(r.value) &&
                forall k :: 0 <= k < i ==> !p(s[k])
  {
    if s == [] then None
    else if p(s[0]) then Some(s[0])
    else
      var r := Find(s[1..], p);
      assert forall i :: 1 <= i < |s| ==> s[i] == s[1..][i - 1];
      r
  }

  function WithId(id: string): Mission -> bool {
    (m: Mission) => m.id == id
  }

  function WithOrder(order: int): Mission -> bool {
    (m: Mission) => m.order == order
  }

  function WithAction(action: string): Mission -> bool {
    (m: Mission) => m.actionType == action
  }

  /** `getAllMissions`: the active missions, in collection order. */
  function ActiveOf(s: seq<Mission>): (r: seq<Mission>)
    ensures |r| <= |s|
    ensures forall m :: m in r <==> m in s && m.isActive
  {
    if s == [] then []
    else (if s[0].isActive then [s[0]] else []) + ActiveOf(s[1..])
  }

  predicate NoDuplicates(s: seq<string>) {
    forall i, j :: 0 <= i < j < |s| ==> s[i] != s[j]
  }

  // ---------------------------------------------------------------------
  // getUserMissionProgress (lines 137-161)
  // ---------------------------------------------------------------------

  /** Lines 150-153: locked when the order is above 1 and the first active
      mission with the order before it exists and is not completed. */
  predicate Locked(active: seq<Mission>, m: Mission, completed: seq<string>) {
    m.order > 1 &&
    match Find(active, WithOrder(m.order - 1))
    case None => false
    case Some(prev) => prev.id !in completed
  }

  function ProgressOf(missions: seq<Mission>, tester: Option<Tester>): (r: seq<Progress>)
    ensures tester.None? ==> r == []
    ensures tester.Some? ==> |r| == |ActiveOf(missions)|
    ensures tester.Some? ==> forall i :: 0 <= i < |r| ==>
              r[i].mission == ActiveOf(missions)[i] &&
              (r[i].isCompleted <==> r[i].mission.id in tester.value.completedMissions)
  {
    match tester
    case None => []
    case Some(t) =>
      var active := ActiveOf(missions);
      seq(|active|, i requires 0 <= i < |active| =>
        Progress(active[i], active[i].id in t.completedMissions, Locked(active, active[i], t.completedMissions)))
  }

  /** `j` is the index of the first mission of `active` with order `o`. */
  ghost predicate FirstWithOrder(active: seq<Mission>, o: int, j: int) {
    0 <= j < |active| && active[j].order == o &&
    forall k :: 0 <= k < j ==> active[k].order != o
  }

  lemma FirstWithOrderUnique(active: seq<Mission>, o: int, j: int, j': int)
    requires FirstWithOrder(active, o, j) && FirstWithOrder(active, o, j')
    ensures j == j'
  {
    assert !(j < j') && !(j' < j) by {
      assert active[j].order == o && active[j'].order == o;
    }
  }

  lemma LockedIffFirst(active: seq<Mission>, m: Mission, completed: seq<string>)
    ensures Locked(active, m, completed) <==>
              m.order > 1 &&
              exists j :: FirstWithOrder(active, m.order - 1, j) && active[j].id !in completed
  {
    var o := m.order - 1;
    var f := Find(active, WithOrder(o));
    if f.Some? {
      var j :| 0 <= j < |active| && active[j] == f.value && WithOrder(o)(f.value) &&
                forall k :: 0 <= k < j ==> !WithOrder(o)(active[k]);
      assert FirstWithOrder(active, o, j);
      forall j' | FirstWithOrder(active, o, j')
        ensures j' == j
      {
        FirstWithOrderUnique(active, o, j, j');
      }
    } else {
      forall j | 0 <= j < |active|
        ensures !FirstWithOrder(active, o, j)
      {
        assert !WithOrder(o)(active[j]);
      }
    }
  }

  /** The lock rule spelled out: a mission is locked exactly when its order
      is above 1 and the first active mission with the order before it
      exists and is not completed. */
  lemma LockedIff(missions: seq<Mission>, t: Tester, i: nat)
    requires i < |ActiveOf(missions)|
    ensures var active := ActiveOf(missions);
            var m := active[i];
            ProgressOf(missions, Some(t))[i].isLocked <==>
              m.order > 1 &&
              exists j :: FirstWithOrder(active, m.order - 1, j) && active[j].id !in t.completedMissions
  {
    var active := ActiveOf(missions);
    assert ProgressOf(missions, Some(t))[i].isLocked == Locked(active, active[i], t.completedMissions);
    LockedIffFirst(active, active[i], t.completedMissions);
  }

  /** The first mission in order is never locked, and neither is one
      whose predecessor has been completed. */
  lemma UnlockedCases(active: seq<Mission>, m: Mission, completed: seq<string>)
    ensures m.order <= 1 ==> !Locked(active, m, completed)
    ensures (forall x :: x in active && x.order == m.order - 1 ==> x.id in completed) ==> !Locked(active, m, completed)
  {
    var f := Find(active, WithOrder(m.order - 1));
    if f.Some? {
      assert f.value in active;
    }
  }

  // ---------------------------------------------------------------------
  // completeMission and registerBetaTester as state transitions
  // ---------------------------------------------------------------------

  datatype Store = Store(testers: map<string, Tester>, completions: seq<Completion>)

  datatype CompleteOutcome =
    | NotFound      // the error thrown at line 175
    | AlreadyDone   // the early return at line 180
    | Done

  /** `proof || null`. */
  function ProofOrNull(proof: Option<string>): Option<string> {
    if proof == Some("") then None else proof
  }

  /** The tester after mission `m` is completed: the id appended, the
      reward and the saved time added, and the completion flags set when
      the completed count reaches the number of active missions (plus the
      completion bonus). */
  function AfterCompletion(t: Tester, m: Mission, activeCount: nat): Tester {
    var newCompleted := t.completedMissions + [m.id];
    var all := |newCompleted| == activeCount;
    t.(completedMissions := newCompleted,
       totalCreditsEarned := t.totalCreditsEarned + m.rewardCredits + (if all then CompletionBonusCredits else 0),
       timeSaved := t.timeSaved + m.timeSaved,
       isCompleted := all,
       vipEligible := all)
  }

  /** Lines 164-213. */
  function Complete(missions: seq<Mission>, st: Store, userId: string, missionId: string, proof: Option<string>): (Store, CompleteOutcome) {
    match Find(missions, WithId(missionId))
    case None => (st, NotFound)
    case Some(m) =>
      if userId !in st.testers then (st, NotFound)
      else
        var t := st.testers[userId];
        if missionId in t.completedMissions then (st, AlreadyDone)
        else
          (Store(st.testers[userId := AfterCompletion(t, m, |ActiveOf(missions)|)],
                 st.completions + [Completion(userId, missionId, m.rewardCredits, ProofOrNull(proof))]),
           Done)
  }

  function NewTester(betaNumber: nat): Tester {
    Tester(betaNumber, SignupCredits, 0, [], false, false)
  }

  /** Lines 76-113: an existing tester keeps its number; a full programme
      refuses; otherwise the tester gets the next number and the sign-up
      mission, when there is one, is completed for them. */
  function Register(missions: seq<Mission>, st: Store, userId: string): (Store, Option<nat>) {
    if userId in st.testers then (st, Some(st.testers[userId].betaNumber))
    else if |st.testers| >= MaxBetaTesters then (st, None)
    else
      var betaNumber := |st.testers| + 1;
      var st1 := st.(testers := st.testers[userId := NewTester(betaNumber)]);
      (SignedUp(missions, st1, userId), Some(betaNumber))
  }

  /** The store after the sign-up mission, when there is one, is completed
      for `userId`. */
  function SignedUp(missions: seq<Mission>, st: Store, userId: string): Store {
    match Find(ActiveOf(missions), WithAction("signup"))
    case None => st
    case Some(m) => Complete(missions, st, userId, m.id, None).0
  }

  /** Completing a mission a second time changes nothing. */
  lemma CompleteIdempotent(missions: seq<Mission>, st: Store, userId: string, missionId: string, p1: Option<string>, p2: Option<string>)
    ensures var st1 := Complete(missions, st, userId, missionId, p1).0;
            Complete(missions, st1, userId, missionId, p2).0 == st1
  {
  }

  /** What a completion does to the tester, and that nobody else changes. */
  lemma CompleteEffect(missions: seq<Mission>, st: Store, userId: string, missionId: string, proof: Option<string>)
    ensures var (st1, outcome) := Complete(missions, st, userId, missionId, proof);
            (outcome != Done <==> st1 == st) &&
            (outcome == NotFound <==> Find(missions, WithId(missionId)).None? || userId !in st.testers) &&
            (outcome == Done ==>
               var t, t1 := st.testers[userId], st1.testers[userId];
               var m := Find(missions, WithId(missionId)).value;
               st1.testers.Keys == st.testers.Keys &&
               (forall u :: u in st.testers && u != userId ==> st1.testers[u] == st.testers[u]) &&
               t1.completedMissions == t.completedMissions + [missionId] &&
               missionId !in t.completedMissions &&
               t1.timeSaved == t.timeSaved + m.timeSaved &&
               (t1.isCompleted <==> |t1.completedMissions| == |ActiveOf(missions)|) &&
               t1.vipEligible == t1.isCompleted &&
               t1.totalCreditsEarned == t.totalCreditsEarned + m.rewardCredits +
                 (if t1.isCompleted then CompletionBonusCredits else 0) &&
               st1.completions == st.completions + [Completion(userId, missionId, m.rewardCredits, ProofOrNull(proof))])
  {
    var outcome := Complete(missions, st, userId, missionId, proof).1;
    if outcome == Done {
      var m := Find(missions, WithId(missionId)).value;
      assert m.id == missionId;
    }
  }

  /** A completion keeps every tester's list free of repeats. */
  lemma CompleteKeepsNoDuplicates(missions: seq<Mission>, st: Store, userId: string, missionId: string, proof: Option<string>)
    requires forall u :: u in st.testers ==> NoDuplicates(st.testers[u].completedMissions)
    ensures var st1 := Complete(missions, st, userId, missionId, proof).0;
            forall u :: u in st1.testers ==> NoDuplicates(st1.testers[u].completedMissions)
  {
    CompleteEffect(missions, st, userId, missionId, proof);
  }

  /** Completing the mission before `m` unlocks `m`. */
  lemma CompletingPredecessorUnlocks(missions: seq<Mission>, st: Store, userId: string, prev: Mission, m: Mission)
    requires prev in ActiveOf(missions) && prev.order == m.order - 1
    requires forall x :: x in ActiveOf(missions) && x.order == m.order - 1 ==> x == prev
    requires Complete(missions, st, userId, prev.id, None).1 != NotFound
    ensures var st1 := Complete(missions, st, userId, prev.id, None).0;
            !Locked(ActiveOf(missions), m, st1.testers[userId].completedMissions)
  {
    var st1 := Complete(missions, st, userId, prev.id, None).0;
    CompleteEffect(missions, st, userId, prev.id, None);
    UnlockedCases(ActiveOf(missions), m, st1.testers[userId].completedMissions);
  }

  /** An existing tester keeps its number and nothing changes. */
  lemma RegisterExisting(missions: seq<Mission>, st: Store, userId: string)
    requires userId in st.testers
    ensures Register(missions, st, userId) == (st, Some(st.testers[userId].betaNumber))
  {
  }

  /** With the programme full a newcomer gets null and nothing changes. */
  lemma RegisterFull(missions: seq<Mission>, st: Store, userId: string)
    requires userId !in st.testers && |st.testers| >= MaxBetaTesters
    ensures Register(missions, st, userId) == (st, None)
  {
  }

  /** A newcomer gets the tester count plus one; nobody else changes. */
  lemma RegisterNew(missions: seq<Mission>, st: Store, userId: string)
    requires userId !in st.testers && |st.testers| < MaxBetaTesters
    ensures Register(missions, st, userId).1 == Some(|st.testers| + 1)
    ensures var testers := Register(missions, st, userId).0.testers;
            testers.Keys == st.testers.Keys + {userId} &&
            testers[userId].betaNumber == |st.testers| + 1 &&
            forall u :: u in st.testers ==> testers[u] == st.testers[u]
  {
    var testers1 := st.testers[userId := NewTester(|st.testers| + 1)];
    SignupKeepsOthers(missions, st.(testers := testers1), userId);
  }

  /** The sign-up completion after a newcomer is added. */
  lemma SignupKeepsOthers(missions: seq<Mission>, st1: Store, userId: string)
    ensures var testers := SignedUp(missions, st1, userId).testers;
            testers.Keys == st1.testers.Keys &&
            (forall u :: u in st1.testers && u != userId ==> testers[u] == st1.testers[u]) &&
            (userId in st1.testers ==> testers[userId].betaNumber == st1.testers[userId].betaNumber)
  {
    var f := Find(ActiveOf(missions), WithAction("signup"));
    if f.Some? {
      CompleteKeepsOthers(missions, st1, userId, f.value.id, None);
    }
  }

  /** Beta numbers stay distinct and within 1..the number of testers, and
      the tester count never exceeds the cap. */
  ghost predicate NumbersValid(testers: map<string, Tester>) {
    |testers| <= MaxBetaTesters &&
    (forall u :: u in testers ==> 1 <= testers[u].betaNumber <= |testers|) &&
    (forall u, v :: u in testers && v in testers && u != v ==> testers[u].betaNumber != testers[v].betaNumber)
  }

  lemma AddKeepsNumbersValid(testers: map<string, Tester>, userId: string)
    requires NumbersValid(testers) && userId !in testers && |testers| < MaxBetaTesters
    ensures NumbersValid(testers[userId := NewTester(|testers| + 1)])
  {
    var t1 := testers[userId := NewTester(|testers| + 1)];
    assert t1.Keys == testers.Keys + {userId};
    assert |t1| == |testers| + 1;
  }

  lemma UpdateKeepsNumbersValid(testers: map<string, Tester>, userId: string, t: Tester)
    requires NumbersValid(testers) && userId in testers && t.betaNumber == testers[userId].betaNumber
    ensures NumbersValid(testers[userId := t])
  {
    assert testers[userId := t].Keys == testers.Keys;
  }

  lemma AppendFresh(s: seq<string>, x: string)
    requires NoDuplicates(s) && x !in s
    ensures NoDuplicates(s + [x])
  {
  }

  /** A completion touches only the completing tester, and keeps its
      number. */
  lemma CompleteKeepsOthers(missions: seq<Mission>, st: Store, userId: string, missionId: string, proof: Option<string>)
    ensures var st1 := Complete(missions, st, userId, missionId, proof).0;
            st1.testers.Keys == st.testers.Keys &&
            (forall u :: u in st.testers && u != userId ==> st1.testers[u] == st.testers[u]) &&
            (userId in st.testers ==> st1.testers[userId].betaNumber == st.testers[userId].betaNumber)
  {
  }

  lemma RegisterKeepsNumbersValid(missions: seq<Mission>, st: Store, userId: string)
    requires NumbersValid(st.testers)
    ensures NumbersValid(Register(missions, st, userId).0.testers)
  {
    if userId !in st.testers && |st.testers| < MaxBetaTesters {
      RegisterNew(missions, st, userId);
      var st1 := Register(missions, st, userId).0;
      assert |st1.testers.Keys| == |st.testers.Keys| + 1;
    }
  }

  /** The store invariant: valid numbers, and no tester lists a mission
      twice. */
  ghost predicate TestersValid(testers: map<string, Tester>) {
    NumbersValid(testers) &&
    forall u :: u in testers ==> NoDuplicates(testers[u].completedMissions)
  }

  lemma UpdateKeepsValid(testers: map<string, Tester>, userId: string, t: Tester)
    requires TestersValid(testers) && userId in testers
    requires t.betaNumber == testers[userId].betaNumber && NoDuplicates(t.completedMissions)
    ensures TestersValid(testers[userId := t])
  {
    UpdateKeepsNumbersValid(testers, userId, t);
  }

  lemma AddKeepsValid(testers: map<string, Tester>, userId: string)
    requires TestersValid(testers) && userId !in testers && |testers| < MaxBetaTesters
    ensures TestersValid(testers[userId := NewTester(|testers| + 1)])
  {
    AddKeepsNumbersValid(testers, userId);
  }

  /** The successful branch of a completion. */
  lemma CompleteDone(missions: seq<Mission>, st: Store, userId: string, missionId: string, proof: Option<string>, m: Mission)
    requires Find(missions, WithId(missionId)) == Some(m)
    requires userId in st.testers && missionId !in st.testers[userId].completedMissions
    ensures m.id == missionId
    ensures Complete(missions, st, userId, missionId, proof) ==
              (Store(st.testers[userId := AfterCompletion(st.testers[userId], m, |ActiveOf(missions)|)],
                     st.completions + [Completion(userId, missionId, m.rewardCredits, ProofOrNull(proof))]),
               Done)
  {
  }

  // ---------------------------------------------------------------------
  // The store
  // ---------------------------------------------------------------------

  class MissionStore {
    var missions: seq<Mission>
    var testers: map<string, Tester>
    var completions: seq<Completion>

    ghost predicate Valid()
      reads this
    {
      TestersValid(testers)
    }

    constructor(missions: seq<Mission>)
      ensures Valid()
      ensures this.missions == missions && testers == map[] && completions == []
    {
      this.missions := missions;
      testers := map[];
      completions := [];
    }

    function GetUserMissionProgress(userId: string): (r: seq<Progress>)
      reads this
      ensures userId !in testers ==> r == []
      ensures userId in testers ==> |r| == |ActiveOf(missions)|
    {
      ProgressOf(missions, if userId in testers then Some(testers[userId]) else None)
    }

    method CompleteMission(userId: string, missionId: string, proof: Option<string>) returns (outcome: CompleteOutcome)
      requires Valid()
      modifies this
      ensures Valid() && missions == old(missions)
      ensures (Store(testers, completions), outcome) ==
                Complete(missions, old(Store(testers, completions)), userId, missionId, proof)
    {
      ghost var st := Store(testers, completions);
      var mission := Find(missions, WithId(missionId));
      if mission.None? || userId !in testers {
        return NotFound;
      }
      var m := mission.value;
      var tester := testers[userId];
      if missionId in tester.completedMissions {
        return AlreadyDone;
      }
      CompleteDone(missions, st, userId, missionId, proof, m);
      completions := completions + [Completion(userId, missionId, m.rewardCredits, ProofOrNull(proof))];
      var newCompleted := tester.completedMissions + [missionId];
      var allMissions := ActiveOf(missions);
      var isAllCompleted := |newCompleted| == |allMissions|;
      tester := tester.(completedMissions := newCompleted,
                        totalCreditsEarned := tester.totalCreditsEarned + m.rewardCredits,
                        timeSaved := tester.timeSaved + m.timeSaved,
                        isCompleted := isAllCompleted,
                        vipEligible := isAllCompleted);
      if isAllCompleted {
        tester := tester.(totalCreditsEarned := tester.totalCreditsEarned + CompletionBonusCredits);
      }
      assert tester == AfterCompletion(st.testers[userId], m, |allMissions|);
      AppendFresh(st.testers[userId].completedMissions, missionId);
      UpdateKeepsValid(testers, userId, tester);
      testers := testers[userId := tester];
      outcome := Done;
    }

    method RegisterBetaTester(userId: string) returns (r: Option<nat>)
      requires Valid()
      modifies this
      ensures Valid() && missions == old(missions)
      ensures (Store(testers, completions), r) == Register(missions, old(Store(testers, completions)), userId)
    {
      if userId in testers {
        return Some(testers[userId].betaNumber);
      }
      if |testers| >= MaxBetaTesters {
        return None;
      }
      var betaNumber := |testers| + 1;
      AddKeepsValid(testers, userId);
      testers := testers[userId := NewTester(betaNumber)];
      var signup := Find(ActiveOf(missions), WithAction("signup"));
      if signup.Some? {
        var _ := CompleteMission(userId, signup.value.id, None);
      }
      r := Some(betaNumber);
    }
  }

  // ---------------------------------------------------------------------
  // formatTimeSaved (lines 256-267)
  // ---------------------------------------------------------------------

  function FormatTimeSaved(minutes: int): string {
    var hours := minutes / 60;
    var mins := Gamification.JsRem(minutes, 60);
    if hours == 0 then IntToString(mins) + "분"
    else if mins == 0 then IntToString(hours) + "시간"
    else IntToString(hours) + "시간 " + IntToString(mins) + "분"
  }

  /** Which of the three forms a non-negative duration takes. */
  lemma FormatTimeSavedShape(minutes: nat)
    ensures minutes < 60 ==> FormatTimeSaved(minutes) == NatToString(minutes) + "분"
    ensures minutes >= 60 && minutes % 60 == 0 ==> FormatTimeSaved(minutes) == NatToString(minutes / 60) + "시간"
    ensures minutes >= 60 && minutes % 60 != 0 ==>
              FormatTimeSaved(minutes) == NatToString(minutes / 60) + "시간 " + NatToString(minutes % 60) + "분"
  {
  }

  /** Reads "m분", "h시간" or "h시간 m분" back. */
  function ParseTimeSaved(s: string): Option<nat> {
    match ParseNatPrefix(s)
    case None => None
    case Some((first, rest)) =>
      if rest == "분" then Some(first)
      else if rest == "시간" then Some(first * 60)
      else if |rest| > 3 && rest[..3] == "시간 " then
        match Gamification.ParseMinutes(rest[3..])
        case Some(m) => Some(first * 60 + m)
        case None => None
      else None
  }

  lemma ParseTimeSavedOfParts(s: string, h: nat, after: string, m: nat)
    requires ParseNatPrefix(s) == Some((h, "시간 " + after))
    requires Gamification.ParseMinutes(after) == Some(m)
    ensures ParseTimeSaved(s) == Some(h * 60 + m)
  {
    var tail := "시간 " + after;
    assert tail[..3] == "시간 " && tail[3..] == after;
    assert |tail| >= 3 && |"분"| == 1 && |"시간"| == 2;
  }

  lemma ParseHoursMinutes(h: nat, m: nat)
    ensures ParseTimeSaved(NatToString(h) + "시간 " + NatToString(m) + "분") == Some(h * 60 + m)
  {
    var after := NatToString(m) + "분";
    var whole := NatToString(h) + "시간 " + NatToString(m) + "분";
    assert whole == NatToString(h) + ("시간 " + after);
    ParseNatToString(h, "시간 " + after);
    Gamification.ParseMinutesOf(m);
    ParseTimeSavedOfParts(whole, h, after, m);
  }

  /** A non-negative duration's text reads back as the same minutes. */
  lemma FormatTimeSavedRoundTrip(minutes: nat)
    ensures ParseTimeSaved(FormatTimeSaved(minutes)) == Some(minutes)
  {
    FormatTimeSavedShape(minutes);
    if minutes < 60 {
      ParseNatToString(minutes, "분");
    } else if minutes % 60 == 0 {
      ParseNatToString(minutes / 60, "시간");
    } else {
      ParseHoursMinutes(minutes / 60, minutes % 60);
    }
  }
}

/** The Zero-to-Hero journey: the persisted state, its updaters and the daily task table
    (`useZeroToHero`). Every updater is a function from the previous state to the next one,
    as the hook's `setJourneyState(prev => ...)` callbacks are. */
module Journey {
  import opened Wrappers
  import opened Text
  import Seqs

  /** The plan lengths a student can commit to. */
  type GoalDuration = d: nat | d == 5 || d == 10 || d == 30 witness 5

  datatype Step = Welcome | GoalSelection | SubjectSelection | ActiveJourney | JourneyComplete

  datatype WeakArea = WeakArea(subject: string, topics: seq<string>)

  datatype TaskType = Video | Flashcard | Quiz | Revision | Test

  datatype DailyTask = DailyTask(
    id: string,
    kind: TaskType,
    title: string,
    description: string,
    completed: bool,
    duration: nat)

  /** The record kept in local storage under `zero_to_hero_journey`. */
  datatype JourneyState = JourneyState(
    currentStep: Step,
    goalDuration: Option<GoalDuration>,
    selectedSubjects: seq<string>,
    weakAreas: seq<WeakArea>,
    currentDay: int,
    startDate: Option<string>,
    pausedDays: nat,
    dailyTasks: map<int, seq<DailyTask>>,
    completedDays: seq<int>,
    streak: nat,
    totalAccuracy: real,
    badges: seq<string>)

  /** The state of a first visit: the welcome screen, no goal, day 1 and an empty plan. It is not
      an active journey and it satisfies the journey invariant `WellFormed`. */
  function InitialState(): (s: JourneyState)
    ensures s.currentStep == Welcome && !HasActiveJourney(s)
    ensures TotalDays(s.goalDuration) == 30 && s.currentDay == 1
    ensures WellFormed(s)
  {
    JourneyState(Welcome, None, [], [], 1, None, 0, map[], [], 0, 0.0, [])
  }

  /** A journey is running: the plan screen is reached and a goal has been chosen, so the plan
      length the screens show is that goal and not the default of 30 days. */
  predicate HasActiveJourney(s: JourneyState)
    ensures HasActiveJourney(s) ==> s.goalDuration.Some? && TotalDays(s.goalDuration) == s.goalDuration.value
  {
    s.currentStep == ActiveJourney && s.goalDuration.Some?
  }

  /** `goalDuration || 30`: the plan length the screens display. */
  function TotalDays(goal: Option<GoalDuration>): (n: nat)
    ensures n == 5 || n == 10 || n == 30
    ensures goal.None? ==> n == 30
    ensures goal.Some? ==> n == goal.value
  {
    goal.GetOr(30)
  }

  // ---------------------------------------------------------------- task table

  function KindName(k: TaskType): string {
    match k
    case Video => "video"
    case Flashcard => "flashcard"
    case Quiz => "quiz"
    case Revision => "revision"
    case Test => "test"
  }

  /** The id `${day}-${type}` of a generated task. */
  function TaskId(day: nat, k: TaskType): string {
    NatToString(day) + "-" + KindName(k)
  }

  /** The subject of day `day`: the subjects are taken round-robin. With no subject the
      index is `NaN` and the template literal prints "undefined". */
  function SubjectFor(day: nat, subjects: seq<string>): (subject: string)
    requires day >= 1
    ensures |subjects| > 0 ==> subject == subjects[(day - 1) % |subjects|]
  {
    if |subjects| == 0 then "undefined" else subjects[(day - 1) % |subjects|]
  }

  /** The five tasks generated for one day. */
  function DayTasks(day: nat, subject: string): seq<DailyTask> {
    [ DailyTask(TaskId(day, Video), Video, subject + " - Video Lesson",
                "Learn core concepts of " + subject, false, 15),
      DailyTask(TaskId(day, Flashcard), Flashcard, subject + " - Flashcards",
                "Review key terms and formulas", false, 10),
      DailyTask(TaskId(day, Quiz), Quiz, subject + " - Mini Quiz",
                "Test your understanding", false, 15),
      DailyTask(TaskId(day, Revision), Revision, "Revision Task",
                "Review previous day concepts", false, 10),
      DailyTask(TaskId(day, Test), Test, "Daily Test",
                "Complete daily assessment", false, 20) ]
  }

  /** The task table for days 1..duration. */
  function DailyTable(duration: nat, subjects: seq<string>): map<int, seq<DailyTask>> {
    map day: int | 1 <= day <= duration :: DayTasks(day, SubjectFor(day, subjects))
  }

  /** `generateDailyTasks`: fills the table one day at a time. The weak areas are passed but
      not used by the generator. */
  method GenerateDailyTasks(duration: nat, subjects: seq<string>, weakAreas: seq<WeakArea>)
    returns (tasks: map<int, seq<DailyTask>>)
    ensures tasks == DailyTable(duration, subjects)
  {
    tasks := map[];
    var day := 1;
    while day <= duration
      invariant 1 <= day <= duration + 1
      invariant tasks == DailyTable(day - 1, subjects)
    {
      var subject := SubjectFor(day, subjects);
      tasks := tasks[day := DayTasks(day, subject)];
      day := day + 1;
    }
  }

  /** Ids of distinct (day, type) pairs differ: the day prefix is read back by `parseInt`. */
  lemma TaskIdInjective(d1: nat, k1: TaskType, d2: nat, k2: TaskType)
    requires TaskId(d1, k1) == TaskId(d2, k2)
    ensures d1 == d2 && k1 == k2
  {
    var a, b := NatToString(d1), NatToString(d2);
    var id := TaskId(d1, k1);
    FirstDashAfterDigits(a, KindName(k1));
    FirstDashAfterDigits(b, KindName(k2));
    assert a == id[..|a|] == b;
    ParseNatToString(d1);
    ParseNatToString(d2);
    assert KindName(k1) == id[|a| + 1..] == KindName(k2);
  }

  /** Index of the first '-' in `s`, or `|s|` when there is none. */
  function FirstDash(s: string): (n: nat)
    ensures n <= |s|
    ensures n < |s| ==> s[n] == '-'
    ensures forall i :: 0 <= i < n ==> s[i] != '-'
  {
    if |s| == 0 then 0
    else if s[0] == '-' then 0
    else 1 + FirstDash(s[1..])
  }

  /** A digit string followed by '-' ends exactly where the first '-' is. */
  lemma {:induction false} FirstDashAfterDigits(a: string, x: string)
    requires forall i :: 0 <= i < |a| ==> IsDigit(a[i])
    ensures FirstDash(a + "-" + x) == |a|
  {
    if |a| > 0 {
      assert (a + "-" + x)[1..] == a[1..] + "-" + x;
      FirstDashAfterDigits(a[1..], x);
    }
  }

  /** Every task of a day's list carries a different id. */
  predicate DistinctIds(ts: seq<DailyTask>) {
    forall i, j :: 0 <= i < j < |ts| ==> ts[i].id != ts[j].id
  }

  /** One day's tasks: video, flashcard, quiz, revision and test with ids `${day}-${type}`,
      durations 15, 10, 15, 10 and 20 minutes, all open, the first on the day's subject; the
      ids are distinct. */
  lemma DayTasksShape(day: nat, subject: string)
    ensures var ts := DayTasks(day, subject);
      && |ts| == 5
      && [ts[0].kind, ts[1].kind, ts[2].kind, ts[3].kind, ts[4].kind] == [Video, Flashcard, Quiz, Revision, Test]
      && [ts[0].duration, ts[1].duration, ts[2].duration, ts[3].duration, ts[4].duration] == [15, 10, 15, 10, 20]
      && (forall i :: 0 <= i < 5 ==> ts[i].id == TaskId(day, ts[i].kind) && !ts[i].completed)
      && ts[0].title == subject + " - Video Lesson"
      && DistinctIds(ts)
  {
    var ts := DayTasks(day, subject);
    forall i, j | 0 <= i < j < |ts| ensures ts[i].id != ts[j].id {
      if ts[i].id == ts[j].id {
        TaskIdInjective(day, ts[i].kind, day, ts[j].kind);
      }
    }
  }

  /** The generated table has exactly the keys 1..duration, and each day holds that day's five
      tasks on its round-robin subject. */
  lemma DailyTableShape(duration: nat, subjects: seq<string>)
    ensures forall day :: day in DailyTable(duration, subjects) <==> 1 <= day <= duration
    ensures forall day :: day in DailyTable(duration, subjects) ==>
      var ts := DailyTable(duration, subjects)[day];
      && |ts| == 5
      && [ts[0].kind, ts[1].kind, ts[2].kind, ts[3].kind, ts[4].kind] == [Video, Flashcard, Quiz, Revision, Test]
      && [ts[0].duration, ts[1].duration, ts[2].duration, ts[3].duration, ts[4].duration] == [15, 10, 15, 10, 20]
      && (forall i :: 0 <= i < 5 ==> ts[i].id == TaskId(day, ts[i].kind) && !ts[i].completed)
      && ts[0].title == SubjectFor(day, subjects) + " - Video Lesson"
      && DistinctIds(ts)
  {
    var t := DailyTable(duration, subjects);
    forall day | day in t
      ensures var ts := t[day];
        && |ts| == 5
        && [ts[0].kind, ts[1].kind, ts[2].kind, ts[3].kind, ts[4].kind] == [Video, Flashcard, Quiz, Revision, Test]
        && [ts[0].duration, ts[1].duration, ts[2].duration, ts[3].duration, ts[4].duration] == [15, 10, 15, 10, 20]
        && (forall i :: 0 <= i < 5 ==> ts[i].id == TaskId(day, ts[i].kind) && !ts[i].completed)
        && ts[0].title == SubjectFor(day, subjects) + " - Video Lesson"
        && DistinctIds(ts)
    {
      DayTasksShape(day, SubjectFor(day, subjects));
    }
  }

  /** Generated tasks of two different days never share an id. */
  lemma DailyTableIdsAcrossDays(duration: nat, subjects: seq<string>, d1: int, d2: int, i: nat, j: nat)
    requires d1 in DailyTable(duration, subjects) && d2 in DailyTable(duration, subjects) && d1 != d2
    requires i < |DailyTable(duration, subjects)[d1]| && j < |DailyTable(duration, subjects)[d2]|
    ensures DailyTable(duration, subjects)[d1][i].id != DailyTable(duration, subjects)[d2][j].id
  {
    var t: map<int, seq<DailyTask>> := DailyTable(duration, subjects);
    if t[d1][i].id == t[d2][j].id {
      assert t[d1][i].id == TaskId(d1, t[d1][i].kind) && t[d2][j].id == TaskId(d2, t[d2][j].kind) by {
        DailyTableShape(duration, subjects);
      }
      TaskIdInjective(d1, t[d1][i].kind, d2, t[d2][j].kind);
    }
  }

  // ---------------------------------------------------------------- updaters

  /** `startJourney`: go to goal selection, whatever the current step. */
  function StartJourney(s: JourneyState): (r: JourneyState)
    ensures r.currentStep == GoalSelection
    ensures r.(currentStep := s.currentStep) == s
  {
    s.(currentStep := GoalSelection)
  }

  /** `selectGoal`: record the plan length and go to subject selection. */
  function SelectGoal(s: JourneyState, duration: GoalDuration): (r: JourneyState)
    ensures r.currentStep == SubjectSelection && r.goalDuration == Some(duration)
    ensures r.(currentStep := s.currentStep, goalDuration := s.goalDuration) == s
  {
    s.(goalDuration := Some(duration), currentStep := SubjectSelection)
  }

  /** The number of days `generateDailyTasks` loops over for `goalDuration!`: a null goal
      compares as 0 in `day <= duration`, so no day is generated. */
  function GeneratedDays(goal: Option<GoalDuration>): nat {
    match goal
    case Some(d) => d
    case None => 0
  }

  /** `selectSubjectsAndWeakAreas`: store the choices and the start instant `now`, generate the
      table from the goal already in the state, and open the plan. The hook reads the goal from
      the state captured at render time, outside the updater; this model reads it from the state
      the updater receives. The two are the same goal unless another update to the journey is
      batched into the same render before this one. */
  function SelectSubjectsAndWeakAreas(s: JourneyState, subjects: seq<string>, weakAreas: seq<WeakArea>, now: string)
    : (r: JourneyState)
    ensures r.currentStep == ActiveJourney
    ensures r.selectedSubjects == subjects && r.weakAreas == weakAreas && r.startDate == Some(now)
    ensures r.dailyTasks == DailyTable(GeneratedDays(s.goalDuration), subjects)
    ensures s.goalDuration.Some? ==> forall day :: day in r.dailyTasks <==> 1 <= day <= s.goalDuration.value
    ensures s.goalDuration.None? ==> r.dailyTasks == map[]
    ensures r.(currentStep := s.currentStep, selectedSubjects := s.selectedSubjects, weakAreas := s.weakAreas,
               startDate := s.startDate, dailyTasks := s.dailyTasks) == s
  {
    DailyTableShape(GeneratedDays(s.goalDuration), subjects);
    s.(selectedSubjects := subjects, weakAreas := weakAreas, startDate := Some(now),
       currentStep := ActiveJourney, dailyTasks := DailyTable(GeneratedDays(s.goalDuration), subjects))
  }

  /** The day's list with every task of id `taskId` marked completed. */
  function MarkCompleted(ts: seq<DailyTask>, taskId: string): seq<DailyTask> {
    seq(|ts|, i requires 0 <= i < |ts| => if ts[i].id == taskId then ts[i].(completed := true) else ts[i])
  }

  /** `tasks[day]?.every(task => task.completed)`: the day has a list and all of it is done
      (an empty list counts as done, as `every` on `[]` does). */
  predicate DayComplete(tasks: map<int, seq<DailyTask>>, day: int) {
    day in tasks && forall i :: 0 <= i < |tasks[day]| ==> tasks[day][i].completed
  }

  /** `completeTask(day, taskId)`. */
  function CompleteTask(s: JourneyState, day: int, taskId: string): (r: JourneyState)
    // the table keeps its days; other days are untouched
    ensures r.dailyTasks.Keys == s.dailyTasks.Keys
    ensures forall d :: d in s.dailyTasks && d != day ==> r.dailyTasks[d] == s.dailyTasks[d]
    // on the day, only the `completed` flag of the tasks with that id changes, and it becomes true
    ensures day in s.dailyTasks ==>
      && |r.dailyTasks[day]| == |s.dailyTasks[day]|
      && forall i :: 0 <= i < |s.dailyTasks[day]| ==>
           && r.dailyTasks[day][i].completed == (s.dailyTasks[day][i].completed || s.dailyTasks[day][i].id == taskId)
           && r.dailyTasks[day][i].(completed := s.dailyTasks[day][i].completed) == s.dailyTasks[day][i]
    // a day without a list changes nothing at all
    ensures day !in s.dailyTasks ==> r == s
    // the day is listed once, exactly when it is complete after the update
    ensures r.completedDays == (if DayComplete(r.dailyTasks, day) && day !in s.completedDays
                                then s.completedDays + [day] else s.completedDays)
    ensures day in r.completedDays <==> day in s.completedDays || DayComplete(r.dailyTasks, day)
    ensures Seqs.NoDup(s.completedDays) ==> Seqs.NoDup(r.completedDays)
    // the streak grows by one on every call that leaves the day complete, repeats included
    ensures r.streak == if DayComplete(r.dailyTasks, day) then s.streak + 1 else s.streak
    ensures r.(dailyTasks := s.dailyTasks, completedDays := s.completedDays, streak := s.streak) == s
  {
    var updated := if day in s.dailyTasks then s.dailyTasks[day := MarkCompleted(s.dailyTasks[day], taskId)]
                   else s.dailyTasks;
    var allDone := DayComplete(updated, day);
    var completedDays := if allDone && day !in s.completedDays then s.completedDays + [day] else s.completedDays;
    s.(dailyTasks := updated, completedDays := completedDays, streak := if allDone then s.streak + 1 else s.streak)
  }

  /** On a day whose ids are distinct, completing the id of task `i` marks that one task only. */
  lemma CompleteTaskMarksOne(s: JourneyState, day: int, i: nat)
    requires day in s.dailyTasks && i < |s.dailyTasks[day]| && DistinctIds(s.dailyTasks[day])
    ensures CompleteTask(s, day, s.dailyTasks[day][i].id).dailyTasks[day]
            == s.dailyTasks[day][i := s.dailyTasks[day][i].(completed := true)]
  {
    var ts := s.dailyTasks[day];
    var r := CompleteTask(s, day, ts[i].id).dailyTasks[day];
    assert forall k :: 0 <= k < |ts| && k != i ==> ts[k].id != ts[i].id;
    assert r == ts[i := ts[i].(completed := true)];
  }

  /** `pauseJourney`: one more paused day; the hook itself sets no cap. */
  function PauseJourney(s: JourneyState): (r: JourneyState)
    ensures r.pausedDays == s.pausedDays + 1
    ensures r.(pausedDays := s.pausedDays) == s
  {
    s.(pausedDays := s.pausedDays + 1)
  }

  /** `completeJourney`: show the certificate, whatever the current step. */
  function CompleteJourney(s: JourneyState): (r: JourneyState)
    ensures r.currentStep == JourneyComplete && !HasActiveJourney(r)
    ensures r.(currentStep := s.currentStep) == s
  {
    s.(currentStep := JourneyComplete)
  }

  /** `resetJourney`: forget everything and return to the welcome screen. */
  function ResetJourney(s: JourneyState): (r: JourneyState)
    ensures r.currentStep == Welcome && r.goalDuration.None? && !HasActiveJourney(r)
    ensures r.dailyTasks == map[] && r.completedDays == [] && r.streak == 0 && r.pausedDays == 0 && r.badges == []
    ensures r.selectedSubjects == [] && r.weakAreas == [] && r.startDate.None? && r.currentDay == 1
    ensures r.totalAccuracy == 0.0
    ensures r == InitialState()
  {
    InitialState()
  }

  /** `addBadge`: append the name, even when it is already there. */
  function AddBadge(s: JourneyState, badgeName: string): (r: JourneyState)
    ensures r.badges == s.badges + [badgeName] && |r.badges| == |s.badges| + 1
    ensures r.(badges := s.badges) == s
  {
    s.(badges := s.badges + [badgeName])
  }

  /** The step updaters never read the step they replace. */
  lemma TransitionsIgnoreStep(s: JourneyState, other: Step, d: GoalDuration, subjects: seq<string>,
                              weakAreas: seq<WeakArea>, now: string)
    ensures StartJourney(s.(currentStep := other)) == StartJourney(s)
    ensures SelectGoal(s.(currentStep := other), d) == SelectGoal(s, d)
    ensures SelectSubjectsAndWeakAreas(s.(currentStep := other), subjects, weakAreas, now)
            == SelectSubjectsAndWeakAreas(s, subjects, weakAreas, now)
    ensures CompleteJourney(s.(currentStep := other)) == CompleteJourney(s)
    ensures ResetJourney(s.(currentStep := other)) == ResetJourney(s) == InitialState()
  {
  }

  // ---------------------------------------------------------------- journey invariant

  /** What the flow welcome -> goal -> subjects -> plan -> completeTask* keeps true: every day
      of the table has five tasks with distinct ids, completed days are listed once and each
      of them is a day of the table whose tasks are all done. */
  ghost predicate WellFormed(s: JourneyState) {
    && (forall d :: d in s.dailyTasks ==> |s.dailyTasks[d]| == 5 && DistinctIds(s.dailyTasks[d]))
    && Seqs.NoDup(s.completedDays)
    && (forall k :: 0 <= k < |s.completedDays| ==> DayComplete(s.dailyTasks, s.completedDays[k]))
  }

  /** Generating the plan before any day is completed establishes the invariant. */
  lemma SelectSubjectsWellFormed(s: JourneyState, subjects: seq<string>, weakAreas: seq<WeakArea>, now: string)
    requires s.completedDays == []
    ensures WellFormed(SelectSubjectsAndWeakAreas(s, subjects, weakAreas, now))
  {
    DailyTableShape(GeneratedDays(s.goalDuration), subjects);
  }

  /** Completing a task keeps the invariant: tasks only ever become done. */
  lemma {:induction false} CompleteTaskWellFormed(s: JourneyState, day: int, taskId: string)
    requires WellFormed(s)
    ensures WellFormed(CompleteTask(s, day, taskId))
  {
    var r := CompleteTask(s, day, taskId);
    forall d | d in r.dailyTasks
      ensures |r.dailyTasks[d]| == 5 && DistinctIds(r.dailyTasks[d])
    {
      if d == day {
        var ts, us := s.dailyTasks[d], r.dailyTasks[d];
        forall i, j | 0 <= i < j < |us| ensures us[i].id != us[j].id {
          assert us[i].id == ts[i].id && us[j].id == ts[j].id;
        }
      }
    }
    forall k | 0 <= k < |r.completedDays|
      ensures DayComplete(r.dailyTasks, r.completedDays[k])
    {
      if k < |s.completedDays| {
        var d := s.completedDays[k];
        assert r.completedDays[k] == d;
        assert DayComplete(s.dailyTasks, d);
        if d == day {
          forall i | 0 <= i < |r.dailyTasks[d]| ensures r.dailyTasks[d][i].completed {
            assert s.dailyTasks[d][i].completed;
          }
        }
      }
    }
  }
}

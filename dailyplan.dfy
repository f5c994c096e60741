/** The plan screen of an active journey (`DailyPlan`): today's tasks, the rule that unlocks
    them one after another, the progress figures and the three-day pause allowance. */
module DailyPlan {
  import opened Journey
  import Seqs
  import JsMath

  /** The number of pause days a journey may use through this screen. */
  const MaxPauseDays := 3

  /** `dailyTasks[currentDay] || []`: a day without a list shows no task. */
  function CurrentDayTasks(s: JourneyState): (ts: seq<DailyTask>)
    ensures s.currentDay !in s.dailyTasks ==> ts == []
    ensures s.currentDay in s.dailyTasks ==> ts == s.dailyTasks[s.currentDay]
  {
    if s.currentDay in s.dailyTasks then s.dailyTasks[s.currentDay] else []
  }

  predicate IsCompleted(t: DailyTask) {
    t.completed
  }

  /** The number of finished tasks of the list. */
  function CompletedCount(ts: seq<DailyTask>): (n: nat)
    ensures n <= |ts|
    ensures n == |ts| <==> forall i :: 0 <= i < |ts| ==> ts[i].completed
  {
    Seqs.Count(ts, IsCompleted)
  }

  /** No task finished means a count of zero, and the other way round. */
  lemma {:induction false} CompletedCountZero(ts: seq<DailyTask>)
    ensures CompletedCount(ts) == 0 <==> forall i :: 0 <= i < |ts| ==> !ts[i].completed
  {
    if |ts| > 0 {
      CompletedCountZero(ts[1..]);
      assert ts == [ts[0]] + ts[1..];
      if ts[0].completed {
        assert Seqs.Filter(ts, IsCompleted) == [ts[0]] + Seqs.Filter(ts[1..], IsCompleted);
      } else {
        assert Seqs.Filter(ts, IsCompleted) == Seqs.Filter(ts[1..], IsCompleted);
        assert forall i :: 1 <= i < |ts| ==> ts[i] == ts[1..][i - 1];
      }
    }
  }

  /** `completedTasks / totalTasks * 100`, and 0 for a day without tasks. */
  function ProgressPercent(ts: seq<DailyTask>): (p: real)
    ensures 0.0 <= p <= 100.0
    ensures |ts| == 0 ==> p == 0.0
    ensures |ts| > 0 ==> (p == 100.0 <==> forall i :: 0 <= i < |ts| ==> ts[i].completed)
    ensures p == 0.0 <==> forall i :: 0 <= i < |ts| ==> !ts[i].completed
  {
    CompletedCountZero(ts);
    if |ts| > 0 then JsMath.Percent(CompletedCount(ts), |ts|) else 0.0
  }

  /** The rounded figure shown under the bar stays a whole percentage. */
  lemma ProgressLabelInRange(ts: seq<DailyTask>)
    ensures 0 <= JsMath.Round(ProgressPercent(ts)) <= 100
    ensures (forall i :: 0 <= i < |ts| ==> !ts[i].completed) ==> JsMath.Round(ProgressPercent(ts)) == 0
  {
    JsMath.RoundPercent(ProgressPercent(ts));
  }

  /** `currentDay / totalDays * 100`, the overall bar. */
  function DayProgress(s: JourneyState): (p: real)
    ensures p * (TotalDays(s.goalDuration) as real) == 100.0 * (s.currentDay as real)
    ensures 1 <= s.currentDay <= TotalDays(s.goalDuration) ==> 0.0 < p <= 100.0
  {
    (s.currentDay as real / TotalDays(s.goalDuration) as real) * 100.0
  }

  /** Task `i` waits for task `i - 1`; the first task is always open. While the finished tasks
      form a prefix of the list (which `ClicksKeepPrefix` shows the buttons keep), a locked task
      and every task after it are undone, and an open task has every earlier task done. */
  predicate IsLocked(ts: seq<DailyTask>, i: nat)
    requires i < |ts|
    ensures IsLocked(ts, i) ==> i > 0
    ensures PrefixCompleted(ts) && IsLocked(ts, i) ==> forall j :: i <= j < |ts| ==> !ts[j].completed
    ensures PrefixCompleted(ts) && !IsLocked(ts, i) ==> forall j :: 0 <= j < i ==> ts[j].completed
  {
    i > 0 && !ts[i - 1].completed
  }

  /** "Start Task" is offered for an open task that is not yet done. */
  predicate CanStart(ts: seq<DailyTask>, i: nat)
    requires i < |ts|
  {
    !ts[i].completed && !IsLocked(ts, i)
  }

  /** `handleCompleteTask`: complete the task on the day being shown. */
  function HandleCompleteTask(s: JourneyState, taskId: string): (r: JourneyState)
    ensures r.currentDay == s.currentDay
    ensures r.dailyTasks.Keys == s.dailyTasks.Keys
    ensures forall d :: d in s.dailyTasks && d != s.currentDay ==> r.dailyTasks[d] == s.dailyTasks[d]
    ensures |CurrentDayTasks(r)| == |CurrentDayTasks(s)|
    ensures forall i :: 0 <= i < |CurrentDayTasks(s)| ==>
      CurrentDayTasks(r)[i].completed == (CurrentDayTasks(s)[i].completed || CurrentDayTasks(s)[i].id == taskId)
    ensures s.currentDay !in s.dailyTasks ==> r == s
  {
    CompleteTask(s, s.currentDay, taskId)
  }

  /** The "Start Task" button of task `i`, which exists only while the task can be started. */
  function StartTask(s: JourneyState, i: nat): (r: JourneyState)
    requires i < |CurrentDayTasks(s)| && CanStart(CurrentDayTasks(s), i)
    ensures DistinctIds(CurrentDayTasks(s)) ==>
      CurrentDayTasks(r) == CurrentDayTasks(s)[i := CurrentDayTasks(s)[i].(completed := true)]
    ensures r.currentDay == s.currentDay
  {
    var r := HandleCompleteTask(s, CurrentDayTasks(s)[i].id);
    if DistinctIds(CurrentDayTasks(s)) then
      CompleteTaskMarksOne(s, s.currentDay, i);
      r
    else r
  }

  /** The finished tasks form a prefix of the list: a done task has only done tasks before it. */
  predicate PrefixCompleted(ts: seq<DailyTask>) {
    forall i, j :: 0 <= i < j < |ts| && ts[j].completed ==> ts[i].completed
  }

  /** A fresh day (nothing done) has the empty prefix done. */
  lemma FreshDayIsPrefix(ts: seq<DailyTask>)
    requires forall i :: 0 <= i < |ts| ==> !ts[i].completed
    ensures PrefixCompleted(ts)
  {
  }

  /** Starting an offered task keeps the finished tasks a prefix. */
  lemma StartTaskKeepsPrefix(s: JourneyState, i: nat)
    requires i < |CurrentDayTasks(s)| && CanStart(CurrentDayTasks(s), i)
    requires DistinctIds(CurrentDayTasks(s)) && PrefixCompleted(CurrentDayTasks(s))
    ensures PrefixCompleted(CurrentDayTasks(StartTask(s, i)))
    ensures DistinctIds(CurrentDayTasks(StartTask(s, i)))
  {
    var ts := CurrentDayTasks(s);
    var us := CurrentDayTasks(StartTask(s, i));
    assert us == ts[i := ts[i].(completed := true)];
    forall a, b | 0 <= a < b < |us| && us[b].completed
      ensures us[a].completed
    {
      if b == i {
        assert ts[i - 1].completed;
        if a < i - 1 {
          assert ts[a].completed;
        }
      } else if a != i {
        assert ts[b].completed;
      }
    }
  }

  /** One click on task `i`: it does something only when the button is there. */
  function Click(s: JourneyState, i: nat): JourneyState {
    if i < |CurrentDayTasks(s)| && CanStart(CurrentDayTasks(s), i) then StartTask(s, i) else s
  }

  /** A sequence of clicks, the first one first. */
  function Clicks(s: JourneyState, clicks: seq<nat>): JourneyState
    decreases |clicks|
  {
    if |clicks| == 0 then s else Clicks(Click(s, clicks[0]), clicks[1..])
  }

  /** A day that starts with no task done, on which tasks are finished only through
      "Start Task", always has its finished tasks as a prefix of its list. */
  lemma {:induction false} ClicksKeepPrefix(s: JourneyState, clicks: seq<nat>)
    requires DistinctIds(CurrentDayTasks(s)) && PrefixCompleted(CurrentDayTasks(s))
    ensures PrefixCompleted(CurrentDayTasks(Clicks(s, clicks)))
    ensures DistinctIds(CurrentDayTasks(Clicks(s, clicks)))
    ensures Clicks(s, clicks).currentDay == s.currentDay
    decreases |clicks|
  {
    if |clicks| > 0 {
      var i := clicks[0];
      if i < |CurrentDayTasks(s)| && CanStart(CurrentDayTasks(s), i) {
        StartTaskKeepsPrefix(s, i);
      }
      ClicksKeepPrefix(Click(s, i), clicks[1..]);
    }
  }

  /** `handlePause`: refused with no change once three days are used, else one more. */
  function HandlePause(s: JourneyState): (r: JourneyState)
    ensures s.pausedDays >= MaxPauseDays ==> r == s
    ensures s.pausedDays < MaxPauseDays ==> r.pausedDays == s.pausedDays + 1
    ensures r.(pausedDays := s.pausedDays) == s
    ensures s.pausedDays <= MaxPauseDays ==> r.pausedDays <= MaxPauseDays
  {
    if s.pausedDays >= MaxPauseDays then s else PauseJourney(s)
  }

  /** The pause button is disabled exactly when pausing would change nothing. */
  predicate PauseDisabled(s: JourneyState)
    ensures PauseDisabled(s) <==> HandlePause(s) == s
  {
    s.pausedDays >= MaxPauseDays
  }

  /** `3 - pausedDays`, the allowance shown next to the button. */
  function RemainingPauseDays(s: JourneyState): (n: int)
    ensures n + s.pausedDays == MaxPauseDays
    ensures n > 0 <==> !PauseDisabled(s)
  {
    MaxPauseDays - s.pausedDays
  }

  /** The toast after a pause announces `3 - pausedDays - 1` from the old state, which is the
      allowance the screen then shows. */
  lemma PauseToastAgreesWithScreen(s: JourneyState)
    requires !PauseDisabled(s)
    ensures RemainingPauseDays(HandlePause(s)) == MaxPauseDays - s.pausedDays - 1
    ensures RemainingPauseDays(HandlePause(s)) >= 0
  {
  }

  /** `n` presses of the pause button. */
  function PauseTimes(s: JourneyState, n: nat): JourneyState
    decreases n
  {
    if n == 0 then s else PauseTimes(HandlePause(s), n - 1)
  }

  /** Through this screen the paused days climb to three and stay there. */
  lemma {:induction false} PauseTimesCapped(s: JourneyState, n: nat)
    requires s.pausedDays <= MaxPauseDays
    ensures PauseTimes(s, n).pausedDays == if s.pausedDays + n <= MaxPauseDays then s.pausedDays + n else MaxPauseDays
    ensures PauseTimes(s, n).(pausedDays := s.pausedDays) == s
    decreases n
  {
    if n > 0 {
      PauseTimesCapped(HandlePause(s), n - 1);
    }
  }
}

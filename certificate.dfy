/** The certificate screen (`CompletionCertificate`): the summary figures of a finished journey
    and "Start Next Journey". */
module Certificate {
  import Journey
  import JsMath
  import Seqs

  /** `Math.round(completedDays / totalDays * 100)`. */
  function CompletionRate(s: Journey.JourneyState): (rate: int)
    ensures |s.completedDays| <= Journey.TotalDays(s.goalDuration) ==> 0 <= rate <= 100
    ensures rate == 100 <== |s.completedDays| == Journey.TotalDays(s.goalDuration)
    ensures rate == 0 <== |s.completedDays| == 0
  {
    var total := Journey.TotalDays(s.goalDuration);
    JsMath.Round(JsMath.Percent(|s.completedDays|, total))
  }

  /** `weakAreas.reduce((acc, area) => acc + area.topics.length, 0)`, folded from the left. */
  function WeakTopicCount(areas: seq<Journey.WeakArea>): (n: nat)
    ensures areas == [] ==> n == 0
    decreases |areas|
  {
    if areas == [] then 0
    else WeakTopicCount(areas[..|areas| - 1]) + |areas[|areas| - 1].topics|
  }

  /** All topics of all weak areas, one list after another. */
  function AllTopics(areas: seq<Journey.WeakArea>): seq<string>
    decreases |areas|
  {
    if areas == [] then [] else areas[0].topics + AllTopics(areas[1..])
  }

  /** The count splits over concatenation. */
  lemma {:induction false} WeakTopicCountAppend(a: seq<Journey.WeakArea>, b: seq<Journey.WeakArea>)
    ensures WeakTopicCount(a + b) == WeakTopicCount(a) + WeakTopicCount(b)
    decreases |b|
  {
    if b != [] {
      var last := b[|b| - 1];
      assert (a + b)[..|a + b| - 1] == a + b[..|b| - 1];
      WeakTopicCountAppend(a, b[..|b| - 1]);
    } else {
      assert a + b == a;
    }
  }

  /** The "Weak Areas Improved" figure is the number of topics across all weak areas. */
  lemma {:induction false} WeakTopicCountIsTopicTotal(areas: seq<Journey.WeakArea>)
    ensures WeakTopicCount(areas) == |AllTopics(areas)|
    decreases |areas|
  {
    if areas != [] {
      WeakTopicCountIsTopicTotal(areas[1..]);
      assert areas == [areas[0]] + areas[1..];
      WeakTopicCountAppend([areas[0]], areas[1..]);
      assert WeakTopicCount([areas[0]]) == |areas[0].topics| by {
        assert [areas[0]][..0] == [];
      }
    }
  }

  /** `completedDays * 5`: five tasks for each completed day. */
  function TotalTasksCompleted(s: Journey.JourneyState): (n: nat)
    ensures n % 5 == 0 && n / 5 == |s.completedDays|
  {
    |s.completedDays| * 5
  }

  /** The number of tasks of the listed days, added up. */
  function TaskTotal(tasks: map<int, seq<Journey.DailyTask>>, days: seq<int>): nat
    decreases |days|
  {
    if days == [] then 0
    else (if days[0] in tasks then |tasks[days[0]]| else 0) + TaskTotal(tasks, days[1..])
  }

  /** On a journey built by the hook's updaters (five tasks a day, a completed day is a day of
      the table with all its tasks done), the figure is the number of tasks really done on the
      completed days. */
  lemma {:induction false} TotalTasksMatchesTable(s: Journey.JourneyState)
    requires Journey.WellFormed(s)
    ensures TotalTasksCompleted(s) == TaskTotal(s.dailyTasks, s.completedDays)
  {
    FiveEach(s.dailyTasks, s.completedDays);
  }

  lemma {:induction false} FiveEach(tasks: map<int, seq<Journey.DailyTask>>, days: seq<int>)
    requires forall d :: d in tasks ==> |tasks[d]| == 5
    requires forall k :: 0 <= k < |days| ==> days[k] in tasks
    ensures TaskTotal(tasks, days) == 5 * |days|
    decreases |days|
  {
    if days != [] {
      FiveEach(tasks, days[1..]);
    }
  }

  /** "Start Next Journey": the journey is reset to its initial state. */
  function HandleStartNext(s: Journey.JourneyState): (r: Journey.JourneyState)
    ensures r == Journey.InitialState()
    ensures r.currentStep == Journey.Welcome && !Journey.HasActiveJourney(r)
  {
    Journey.ResetJourney(s)
  }
}

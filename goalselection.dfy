/** The goal screen (`GoalSelection`): three plan lengths to pick from and a confirmation
    dialog that locks the pick into the journey. */
module GoalSelectionScreen {
  import opened Wrappers
  import Journey

  datatype Goal = Goal(duration: Journey.GoalDuration, title: string, description: string, recommended: bool)

  /** The cards, in display order. */
  const Goals: seq<Goal> := [
    Goal(5, "5-Day Boost", "Quick skill improvement", false),
    Goal(10, "10-Day Challenge", "Build daily discipline", false),
    Goal(30, "30-Day Mastery", "Go from Zero to Hero", true)
  ]

  /** The durations offered are 5, 10 and 30 days, and only the 30-day plan is recommended. */
  lemma GoalsOffered()
    ensures |Goals| == 3 && [Goals[0].duration, Goals[1].duration, Goals[2].duration] == [5, 10, 30]
    ensures forall i :: 0 <= i < |Goals| ==> (Goals[i].recommended <==> Goals[i].duration == 30)
  {
  }

  /** The screen's state: the duration picked and whether the dialog is open. */
  class GoalSelection {
    var selectedGoal: Option<Journey.GoalDuration>
    var showConfirmation: bool

    constructor ()
      ensures selectedGoal.None? && !showConfirmation
    {
      selectedGoal := None;
      showConfirmation := false;
    }

    /** `handleGoalSelect`: remember the card and open the dialog. */
    method HandleGoalSelect(duration: Journey.GoalDuration)
      modifies this
      ensures selectedGoal == Some(duration) && showConfirmation
    {
      selectedGoal := Some(duration);
      showConfirmation := true;
    }

    /** `confirmGoal`: lock the remembered duration into the journey when there is one (no
        duration is falsy, since none is 0), then close the dialog in any case. */
    method ConfirmGoal(journey: Journey.JourneyState) returns (r: Journey.JourneyState)
      modifies this
      ensures !showConfirmation && selectedGoal == old(selectedGoal)
      ensures selectedGoal.None? ==> r == journey
      ensures selectedGoal.Some? ==> r == Journey.SelectGoal(journey, selectedGoal.value)
      ensures selectedGoal.Some? ==> r.currentStep == Journey.SubjectSelection && r.goalDuration == selectedGoal
    {
      r := journey;
      if selectedGoal.Some? {
        r := Journey.SelectGoal(journey, selectedGoal.value);
      }
      showConfirmation := false;
    }

    /** "Go Back": close the dialog, keep the pick, leave the journey alone. */
    method GoBack()
      modifies this
      ensures !showConfirmation && selectedGoal == old(selectedGoal)
    {
      showConfirmation := false;
    }
  }
}

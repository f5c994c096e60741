/** The Zero-to-Hero page (`ZeroToHero`): which of the five screens is drawn for a journey. */
module JourneyView {
  import opened Journey

  datatype View = WelcomeView | GoalView | SubjectView | CertificateView | TabsView

  /** The guard written in front of each screen. Whatever screen is drawn, it is the tabbed plan
      exactly when a journey is active. */
  predicate Shows(s: JourneyState, v: View)
    ensures Shows(s, v) ==> (v == TabsView <==> HasActiveJourney(s))
  {
    match v
    case WelcomeView => !HasActiveJourney(s) && s.currentStep == Welcome
    case GoalView => !HasActiveJourney(s) && s.currentStep == GoalSelection
    case SubjectView => !HasActiveJourney(s) && s.currentStep == SubjectSelection
    case CertificateView => s.currentStep == JourneyComplete
    case TabsView => HasActiveJourney(s) && s.currentStep != JourneyComplete
  }

  /** The screens drawn for `s`. Each guard reduces to a test of the step alone, except the
      tabbed plan, which needs a goal as well; its test against the certificate step is then
      redundant. */
  function Rendered(s: JourneyState): (vs: set<View>)
    ensures forall v :: v in vs <==> Shows(s, v)
    ensures WelcomeView in vs <==> s.currentStep == Welcome
    ensures GoalView in vs <==> s.currentStep == GoalSelection
    ensures SubjectView in vs <==> s.currentStep == SubjectSelection
    ensures CertificateView in vs <==> s.currentStep == JourneyComplete
    ensures TabsView in vs <==> HasActiveJourney(s)
  {
    set v | v in [WelcomeView, GoalView, SubjectView, CertificateView, TabsView] && Shows(s, v)
  }

  /** At most one screen is drawn; exactly one unless the plan step has no goal, in which case
      the page body is empty. */
  lemma {:induction false} OneViewAtMost(s: JourneyState)
    ensures |Rendered(s)| <= 1
    ensures |Rendered(s)| == 0 <==> s.currentStep == ActiveJourney && s.goalDuration.None?
  {
    var vs := Rendered(s);
    match s.currentStep
    case Welcome => assert vs == {WelcomeView};
    case GoalSelection => assert vs == {GoalView};
    case SubjectSelection => assert vs == {SubjectView};
    case JourneyComplete => assert vs == {CertificateView};
    case ActiveJourney =>
      if s.goalDuration.Some? {
        assert vs == {TabsView};
      } else {
        assert vs == {};
      }
  }
}

/** The subject screen (`SubjectSelection`): the student ticks subjects and, under each ticked
    subject, the topics they find weak; "Generate My Pathway" hands both to the journey. */
module SubjectSelectionScreen {
  import Journey
  import Seqs

  /** The subjects offered, in display order. */
  const SubjectNames: seq<string> :=
    ["Quantitative Aptitude", "Reasoning", "English", "General Awareness", "Computer"]

  /** The subject names are distinct, so each can key its weak topics. */
  lemma SubjectNamesDistinct()
    ensures |SubjectNames| == 5 && Seqs.NoDup(SubjectNames)
  {
  }

  /** `weakAreas[subject] || []`. */
  function TopicsOf(weakAreas: map<string, seq<string>>, subject: string): (ts: seq<string>)
    ensures subject !in weakAreas ==> ts == []
    ensures subject in weakAreas ==> ts == weakAreas[subject]
  {
    if subject in weakAreas then weakAreas[subject] else []
  }

  /** The record after `toggleWeakTopic(subject, topic)`. */
  function ToggledWeakAreas(weakAreas: map<string, seq<string>>, subject: string, topic: string)
    : (r: map<string, seq<string>>)
    ensures r.Keys == weakAreas.Keys + {subject}
    ensures topic in r[subject] <==> topic !in TopicsOf(weakAreas, subject)
    ensures forall t :: t != topic ==> (t in r[subject] <==> t in TopicsOf(weakAreas, subject))
    ensures forall other :: other in weakAreas && other != subject ==> r[other] == weakAreas[other]
  {
    weakAreas[subject := Seqs.Toggle(TopicsOf(weakAreas, subject), topic)]
  }

  /** Toggling the same weak topic twice, starting from an unticked topic, restores the
      subject's list (an absent subject comes back with an empty list). */
  lemma ToggleWeakTopicTwice(weakAreas: map<string, seq<string>>, subject: string, topic: string)
    requires topic !in TopicsOf(weakAreas, subject)
    ensures var twice := ToggledWeakAreas(ToggledWeakAreas(weakAreas, subject, topic), subject, topic);
      && twice[subject] == TopicsOf(weakAreas, subject)
      && forall other :: other in weakAreas ==> twice[other] == weakAreas[other]
  {
    Seqs.ToggleTwiceAbsent(TopicsOf(weakAreas, subject), topic);
  }

  /** The weak-area array handed to the journey: one entry per ticked subject, in the order
      they were ticked, with the topics recorded for it or none. */
  function WeakAreasArray(selected: seq<string>, weakAreas: map<string, seq<string>>)
    : (r: seq<Journey.WeakArea>)
    ensures |r| == |selected|
    ensures forall i :: 0 <= i < |r| ==> r[i].subject == selected[i]
    ensures forall i :: 0 <= i < |r| ==> r[i].topics == TopicsOf(weakAreas, selected[i])
  {
    seq(|selected|, i requires 0 <= i < |selected| => Journey.WeakArea(selected[i], TopicsOf(weakAreas, selected[i])))
  }

  /** Topics recorded under a subject that is no longer ticked are not handed on, and every
      recorded topic of a ticked subject is. */
  lemma WeakAreasArrayDropsUnticked(selected: seq<string>, weakAreas: map<string, seq<string>>, subject: string)
    ensures subject !in selected ==> forall w :: w in WeakAreasArray(selected, weakAreas) ==> w.subject != subject
    ensures subject in selected && subject in weakAreas ==>
      exists w :: w in WeakAreasArray(selected, weakAreas) && w.subject == subject && w.topics == weakAreas[subject]
  {
    var r := WeakAreasArray(selected, weakAreas);
    if subject in selected && subject in weakAreas {
      var i :| 0 <= i < |selected| && selected[i] == subject;
      assert r[i] in r;
    }
  }

  /** The screen's own state: the ticked subjects in ticking order and the weak topics. */
  class SubjectSelection {
    var selectedSubjects: seq<string>
    var weakAreas: map<string, seq<string>>

    constructor ()
      ensures selectedSubjects == [] && weakAreas == map[]
    {
      selectedSubjects := [];
      weakAreas := map[];
    }

    /** `toggleSubject`: untick a ticked subject, tick an unticked one at the end. */
    method ToggleSubject(subjectName: string)
      modifies this
      ensures selectedSubjects == Seqs.Toggle(old(selectedSubjects), subjectName)
      ensures subjectName in selectedSubjects <==> subjectName !in old(selectedSubjects)
      ensures Seqs.Remove(selectedSubjects, subjectName) == Seqs.Remove(old(selectedSubjects), subjectName)
      ensures Seqs.NoDup(old(selectedSubjects)) ==> Seqs.NoDup(selectedSubjects)
      ensures weakAreas == old(weakAreas)
    {
      var prev := selectedSubjects;
      var next := Seqs.Toggle(prev, subjectName);
      Seqs.ToggleKeepsOthers(prev, subjectName);
      if Seqs.NoDup(prev) {
        Seqs.ToggleNoDup(prev, subjectName);
      }
      selectedSubjects := next;
    }

    /** `toggleWeakTopic`: flip one topic in one subject's list. */
    method ToggleWeakTopic(subject: string, topic: string)
      modifies this
      ensures weakAreas == ToggledWeakAreas(old(weakAreas), subject, topic)
      ensures selectedSubjects == old(selectedSubjects)
    {
      weakAreas := ToggledWeakAreas(weakAreas, subject, topic);
    }

    /** `handleGeneratePathway`: refused (only a toast) when nothing is ticked; otherwise the
        journey receives the ticked subjects and their weak areas. `now` is the start instant. */
    method HandleGeneratePathway(journey: Journey.JourneyState, now: string) returns (r: Journey.JourneyState)
      ensures selectedSubjects == [] ==> r == journey
      ensures selectedSubjects != [] ==>
        r == Journey.SelectSubjectsAndWeakAreas(journey, selectedSubjects, WeakAreasArray(selectedSubjects, weakAreas), now)
      ensures selectedSubjects != [] ==> r.currentStep == Journey.ActiveJourney && r.selectedSubjects == selectedSubjects
    {
      if |selectedSubjects| == 0 {
        return journey;
      }
      var weakAreasArray := WeakAreasArray(selectedSubjects, weakAreas);
      r := Journey.SelectSubjectsAndWeakAreas(journey, selectedSubjects, weakAreasArray, now);
    }
  }
}

/** The stage bar of a self-care exam application (`StageProgressBar`): how each stage reads,
    which results a stage may take, the completed count, and the edit dialog. */
module StageProgress {
  import opened Wrappers
  import opened Text
  import Seqs
  import JsMath

  datatype Status = Pending | Cleared | NotCleared | NotApplicable | Selected | NotSelected

  /** A stage as the bar receives it. */
  datatype Stage = Stage(name: string, status: Status, score: Option<string>, date: Option<string>,
                         notes: Option<string>)

  /** The dialog's draft, a `Partial<ExamStage>`: any field may be missing. */
  datatype Draft = Draft(name: Option<string>, status: Option<Status>, score: Option<string>,
                         date: Option<string>, notes: Option<string>)

  const EmptyDraft := Draft(None, None, None, None, None)

  /** The draft copied from a stage when its dialog opens. */
  function DraftOf(st: Stage): (d: Draft)
    ensures d.name == Some(st.name) && d.status == Some(st.status)
    ensures d.score == st.score && d.date == st.date && d.notes == st.notes
  {
    Draft(Some(st.name), Some(st.status), st.score, st.date, st.notes)
  }

  /** `isFinalStage`: the last stage, or any stage whose lower-cased name contains "final". */
  predicate IsFinalStage(stages: seq<Stage>, index: nat)
    requires index < |stages|
    ensures index == |stages| - 1 ==> IsFinalStage(stages, index)
  {
    index == |stages| - 1 || Contains(Lower(stages[index].name), "final")
  }

  /** A stage is final exactly when it is the last one or "final" occurs in its lower-cased
      name; the last stage is always final. */
  lemma FinalStageIff(stages: seq<Stage>, index: nat)
    requires index < |stages|
    ensures IsFinalStage(stages, index) <==>
      index == |stages| - 1 || exists k :: 0 <= k <= |stages[index].name| && "final" <= Lower(stages[index].name)[k..]
    ensures IsFinalStage(stages, |stages| - 1)
  {
    ContainsIff(Lower(stages[index].name), "final");
  }

  /** A choice of the status menu. */
  datatype StatusOption = StatusOption(value: Status, caption: string)

  /** `getAvailableStatuses`: final stages are selected or not, other stages are cleared, not
      cleared or not applicable; pending comes first in both. */
  function AvailableStatuses(stages: seq<Stage>, index: nat): (opts: seq<StatusOption>)
    requires index < |stages|
    ensures IsFinalStage(stages, index) ==>
      |opts| == 3 && [opts[0].value, opts[1].value, opts[2].value] == [Pending, Selected, NotSelected]
    ensures !IsFinalStage(stages, index) ==>
      |opts| == 4 && [opts[0].value, opts[1].value, opts[2].value, opts[3].value] == [Pending, Cleared, NotCleared, NotApplicable]
  {
    if IsFinalStage(stages, index) then
      [StatusOption(Pending, "Pending"), StatusOption(Selected, "Selected"),
       StatusOption(NotSelected, "Not Selected")]
    else
      [StatusOption(Pending, "Pending"), StatusOption(Cleared, "Cleared"),
       StatusOption(NotCleared, "Not Cleared"), StatusOption(NotApplicable, "N/A")]
  }

  /** `getStageStatusText`: a final stage reads only selected or not selected, any other
      stage only cleared, not cleared or not applicable; everything else reads "Pending". */
  function StatusText(stages: seq<Stage>, status: Status, index: nat): (text: string)
    requires index < |stages|
    ensures IsFinalStage(stages, index) ==> text in {"Selected", "Not Selected", "Pending"}
    ensures !IsFinalStage(stages, index) ==> text in {"Cleared", "Not Cleared", "N/A", "Pending"}
    ensures status == Pending ==> text == "Pending"
  {
    if IsFinalStage(stages, index) then
      match status
      case Selected => "Selected"
      case NotSelected => "Not Selected"
      case _ => "Pending"
    else
      match status
      case Cleared => "Cleared"
      case NotCleared => "Not Cleared"
      case NotApplicable => "N/A"
      case _ => "Pending"
  }

  /** The menu and the badge agree: a status the menu offers reads as its menu caption, and a
      status the menu does not offer for that stage reads "Pending" (so a final stage marked
      cleared, or a middle stage marked selected, shows as pending). */
  lemma StatusTextMatchesMenu(stages: seq<Stage>, index: nat, status: Status)
    requires index < |stages|
    ensures forall o :: o in AvailableStatuses(stages, index) ==> StatusText(stages, o.value, index) == o.caption
    ensures (forall o :: o in AvailableStatuses(stages, index) ==> o.value != status) ==>
      StatusText(stages, status, index) == "Pending"
  {
    var opts := AvailableStatuses(stages, index);
    if forall o :: o in opts ==> o.value != status {
      assert opts[0] in opts && opts[1] in opts && opts[2] in opts;
      if !IsFinalStage(stages, index) {
        assert opts[3] in opts;
      }
    }
  }

  predicate IsCompletedStage(st: Stage) {
    st.status == Cleared || st.status == Selected
  }

  /** The stages cleared or selected, whatever their position. */
  function CompletedStages(stages: seq<Stage>): (n: nat)
    ensures n <= |stages|
    ensures n == |Seqs.Filter(stages, IsCompletedStage)|
    ensures n == |stages| <==> forall i :: 0 <= i < |stages| ==> IsCompletedStage(stages[i])
  {
    Seqs.Count(stages, IsCompletedStage)
  }

  /** `completedStages / stages.length * 100`, and 0 with no stage. */
  function ProgressPercentage(stages: seq<Stage>): (p: real)
    ensures 0.0 <= p <= 100.0
    ensures |stages| == 0 ==> p == 0.0
    ensures |stages| > 0 ==> (p == 100.0 <==> forall i :: 0 <= i < |stages| ==> IsCompletedStage(stages[i]))
    ensures |stages| > 0 ==> (p == 0.0 <==> CompletedStages(stages) == 0)
  {
    if |stages| == 0 then 0.0 else JsMath.Percent(CompletedStages(stages), |stages|)
  }

  /** The label "(n%)" shows a whole percentage between 0 and 100. */
  lemma PercentageLabelInRange(stages: seq<Stage>)
    ensures 0 <= JsMath.Round(ProgressPercentage(stages)) <= 100
  {
    JsMath.RoundPercent(ProgressPercentage(stages));
  }

  /** `stageData.status || 'pending'`: the value the status menu shows. */
  function DraftStatus(d: Draft): (s: Status)
    ensures d.status.None? ==> s == Pending
    ensures d.status.Some? ==> s == d.status.value
  {
    d.status.GetOr(Pending)
  }

  /** The score box is shown once the draft holds a decided result: for every status of the
      menus except pending and not applicable. */
  predicate ShowsScoreField(d: Draft)
    ensures ShowsScoreField(d) <==> DraftStatus(d) != Pending && DraftStatus(d) != NotApplicable
  {
    d.status.Some? && d.status.value in {Cleared, NotCleared, Selected, NotSelected}
  }

  /** The edit dialog's state: the stage being edited, if any, and the draft. */
  class StageEditor {
    var editingStage: Option<nat>
    var stageData: Draft

    constructor ()
      ensures editingStage.None? && stageData == EmptyDraft
    {
      editingStage := None;
      stageData := EmptyDraft;
    }

    /** `handleStageClick`: `isStageEditable` comes from the caller. A refused click (only a
        toast with the caller's reason) changes nothing; an accepted one opens the dialog on a
        copy of the stage. */
    method HandleStageClick(stages: seq<Stage>, index: nat, isStageEditable: (seq<Stage>, nat) -> bool)
      requires index < |stages|
      modifies this
      ensures !isStageEditable(stages, index) ==> editingStage == old(editingStage) && stageData == old(stageData)
      ensures isStageEditable(stages, index) ==> editingStage == Some(index) && stageData == DraftOf(stages[index])
    {
      if !isStageEditable(stages, index) {
        return;
      }
      editingStage := Some(index);
      stageData := DraftOf(stages[index]);
    }

    /** `handleStageUpdate`: with the dialog open, hand `(editingStage, stageData)` to
        `onStageUpdate` once (the result `emitted`), then close the dialog and clear the draft;
        with the dialog closed, emit nothing and change nothing. */
    method HandleStageUpdate() returns (emitted: Option<(nat, Draft)>)
      modifies this
      ensures old(editingStage).None? ==> emitted.None? && editingStage.None? && stageData == old(stageData)
      ensures old(editingStage).Some? ==> emitted == Some((old(editingStage).value, old(stageData)))
      ensures old(editingStage).Some? ==> editingStage.None? && stageData == EmptyDraft
    {
      emitted := None;
      if editingStage.Some? {
        emitted := Some((editingStage.value, stageData));
        editingStage := None;
        stageData := EmptyDraft;
      }
    }

    /** "Cancel", or closing the dialog: the dialog closes and the draft stays as it was. */
    method Cancel()
      modifies this
      ensures editingStage.None? && stageData == old(stageData)
    {
      editingStage := None;
    }

    /** The status menu overwrites the draft's status only. */
    method SetStatus(value: Status)
      modifies this
      ensures stageData == old(stageData).(status := Some(value)) && editingStage == old(editingStage)
    {
      stageData := stageData.(status := Some(value));
    }

    /** The score box overwrites the draft's score only. */
    method SetScore(value: string)
      modifies this
      ensures stageData == old(stageData).(score := Some(value)) && editingStage == old(editingStage)
    {
      stageData := stageData.(score := Some(value));
    }

    /** The date box overwrites the draft's date only. */
    method SetDate(value: string)
      modifies this
      ensures stageData == old(stageData).(date := Some(value)) && editingStage == old(editingStage)
    {
      stageData := stageData.(date := Some(value));
    }

    /** The notes box overwrites the draft's notes only. */
    method SetNotes(value: string)
      modifies this
      ensures stageData == old(stageData).(notes := Some(value)) && editingStage == old(editingStage)
    {
      stageData := stageData.(notes := Some(value));
    }
  }
}

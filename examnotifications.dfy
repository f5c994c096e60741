/** The exam notifications table (`ExamNotifications`): the tab filter, the link each button
    opens, the confirmation dialog in front of it, the result button and the row colours. */
module ExamNotifications {
  import opened Wrappers
  import Seqs

  /** The links of an exam; an absent link is `None`. */
  datatype Urls = Urls(notificationPdf: Option<string>, applicationForm: Option<string>, resultPage: Option<string>)

  /** The fields of a notification the page reads. */
  datatype Exam = Exam(
    examName: string,
    isUpcoming: bool,
    notificationStatus: string,
    resultStatus: string,
    urls: Urls)

  datatype ActionType = Notification | Apply | Result

  predicate IsUpcoming(e: Exam) {
    e.isUpcoming
  }

  predicate IsNew(e: Exam) {
    e.notificationStatus == "new"
  }

  /** `getFilteredNotifications`: 'upcoming' and 'new' filter, any other tab shows everything. */
  function FilterByTab(exams: seq<Exam>, tab: string): (r: seq<Exam>)
    ensures tab != "upcoming" && tab != "new" ==> r == exams
    ensures tab == "upcoming" ==> forall e :: e in r <==> e in exams && e.isUpcoming
    ensures tab == "new" ==> forall e :: e in r <==> e in exams && e.notificationStatus == "new"
    ensures Seqs.Subsequence(r, exams)
  {
    Seqs.SubsequenceOfSelf(exams);
    if tab == "all" then exams
    else if tab == "upcoming" then Seqs.FilterIsSubsequence(exams, IsUpcoming); Seqs.Filter(exams, IsUpcoming)
    else if tab == "new" then Seqs.FilterIsSubsequence(exams, IsNew); Seqs.Filter(exams, IsNew)
    else exams
  }

  /** `exam.urls.<link> || ''`. */
  function OrEmpty(u: Option<string>): string {
    match u
    case None => ""
    case Some(s) => s
  }

  /** The link behind each kind of button. */
  function LinkFor(exam: Exam, action: ActionType): (url: string)
    ensures action == Notification ==> url == OrEmpty(exam.urls.notificationPdf)
    ensures action == Apply ==> url == OrEmpty(exam.urls.applicationForm)
    ensures action == Result ==> url == OrEmpty(exam.urls.resultPage)
  {
    match action
    case Notification => OrEmpty(exam.urls.notificationPdf)
    case Apply => OrEmpty(exam.urls.applicationForm)
    case Result => OrEmpty(exam.urls.resultPage)
  }

  datatype DialogState = DialogState(isOpen: bool, examName: string, actionType: ActionType, url: string)

  /** `getResultButtonText`. */
  function ResultButtonText(status: string): (text: string)
    ensures status == "declared" ==> text == "View Result"
    ensures status == "upcoming" ==> text == "Result Soon"
    ensures status == "pending" ==> text == "Check Result"
    ensures status !in {"declared", "upcoming", "pending"} ==> text == "Result"
  {
    if status == "declared" then "View Result"
    else if status == "upcoming" then "Result Soon"
    else if status == "pending" then "Check Result"
    else "Result"
  }

  /** The three known statuses read differently from each other and from the default. */
  lemma ResultButtonTextsDistinct(s1: string, s2: string)
    requires s1 in {"declared", "upcoming", "pending"}
    ensures s1 != s2 ==> ResultButtonText(s1) != ResultButtonText(s2)
  {
  }

  /** The result button is disabled for a pending result or a missing result link. */
  predicate ResultButtonDisabled(exam: Exam) {
    exam.resultStatus == "pending" || exam.urls.resultPage.None? || exam.urls.resultPage == Some("")
  }

  /** The apply button is disabled without an application link. */
  predicate ApplyButtonDisabled(exam: Exam) {
    exam.urls.applicationForm.None? || exam.urls.applicationForm == Some("")
  }

  /** The notification button is disabled without a notification PDF. */
  predicate NotificationButtonDisabled(exam: Exam) {
    exam.urls.notificationPdf.None? || exam.urls.notificationPdf == Some("")
  }

  /** `colors[index % colors.length]` over the six row colours. */
  const RowColors: seq<string> := ["bg-gray-50", "bg-white", "bg-red-50", "bg-yellow-50", "bg-blue-50", "bg-green-50"]

  function RowBackgroundColor(index: nat): (c: string)
    ensures c in RowColors
  {
    RowColors[index % |RowColors|]
  }

  /** The colours repeat every six rows, and neighbouring rows differ. */
  lemma RowColorsCycle(index: nat)
    ensures RowBackgroundColor(index + 6) == RowBackgroundColor(index)
    ensures RowBackgroundColor(index) != RowBackgroundColor(index + 1)
  {
    var i := index % 6;
    assert (index + 6) % 6 == i;
    assert (index + 1) % 6 == if i == 5 then 0 else i + 1;
  }

  /** The page's tab and its link-confirmation dialog. */
  class ExamNotificationsPage {
    var activeTab: string
    var dialogState: DialogState

    /** An open dialog always carries a link to open. */
    ghost predicate Valid()
      reads this
    {
      dialogState.isOpen ==> dialogState.url != ""
    }

    constructor ()
      ensures activeTab == "all"
      ensures dialogState == DialogState(false, "", Notification, "")
      ensures Valid()
    {
      activeTab := "all";
      dialogState := DialogState(false, "", Notification, "");
    }

    /** `handleExternalLink`: a missing link only raises a toast; otherwise the dialog opens
        for this exam, action and link. */
    method HandleExternalLink(exam: Exam, action: ActionType)
      requires Valid()
      modifies this
      ensures Valid()
      ensures LinkFor(exam, action) == "" ==> dialogState == old(dialogState)
      ensures LinkFor(exam, action) != "" ==>
        dialogState == DialogState(true, exam.examName, action, LinkFor(exam, action))
      ensures activeTab == old(activeTab)
    {
      var url := LinkFor(exam, action);
      if url == "" {
        return;
      }
      dialogState := DialogState(true, exam.examName, action, url);
    }

    /** `confirmExternalLink`: hands the dialog's link to the browser and closes the dialog. */
    method ConfirmExternalLink() returns (target: string)
      requires Valid()
      modifies this
      ensures Valid()
      ensures target == old(dialogState.url)
      ensures old(dialogState.isOpen) ==> target != ""
      ensures dialogState == old(dialogState).(isOpen := false)
      ensures activeTab == old(activeTab)
    {
      target := dialogState.url;
      dialogState := dialogState.(isOpen := false);
    }

    /** The tab list's `onValueChange`: only the tab changes. */
    method SetActiveTab(tab: string)
      requires Valid()
      modifies this
      ensures Valid()
      ensures activeTab == tab && dialogState == old(dialogState)
    {
      activeTab := tab;
    }

    /** `filteredNotifications`: the rows the table draws for the current tab, in list order. */
    method Results(exams: seq<Exam>) returns (rows: seq<Exam>)
      ensures rows == FilterByTab(exams, activeTab)
      ensures Seqs.Subsequence(rows, exams)
      ensures activeTab != "upcoming" && activeTab != "new" ==> rows == exams
    {
      rows := FilterByTab(exams, activeTab);
    }

    /** `closeDialog`: only the open flag changes. */
    method CloseDialog()
      requires Valid()
      modifies this
      ensures Valid()
      ensures dialogState == old(dialogState).(isOpen := false)
      ensures activeTab == old(activeTab)
    {
      dialogState := dialogState.(isOpen := false);
    }
  }

  /** Each button is disabled exactly when pressing it would find no link (the result button
      also while the result is pending), so an enabled button always opens the dialog. */
  lemma ButtonsDisabledIffNoLink(exam: Exam)
    ensures NotificationButtonDisabled(exam) <==> LinkFor(exam, Notification) == ""
    ensures ApplyButtonDisabled(exam) <==> LinkFor(exam, Apply) == ""
    ensures ResultButtonDisabled(exam) <==> exam.resultStatus == "pending" || LinkFor(exam, Result) == ""
  {
  }
}

/**
 * The task panel: the add-task form with its guard and reset, the parsing
 * of the points field, the active/completed split and the "recently
 * completed" list.
 */
module TaskManager {
  import opened Wrappers
  import opened Types
  import JsString
  import Seqs

  /** The reward the form starts with and falls back to. */
  const DEFAULT_POINTS := 10

  /** The points field's change handler: `parseInt(value) || 10`. */
  function PointsFromInput(value: string): (points: int)
    ensures points != 0
    ensures JsString.ParseInt(value).None? ==> points == DEFAULT_POINTS
    ensures JsString.ParseInt(value) == Some(0) ==> points == DEFAULT_POINTS
    ensures JsString.ParseInt(value).Some? && JsString.ParseInt(value).value != 0 ==>
      points == JsString.ParseInt(value).value
  {
    match JsString.ParseInt(value)
    case None => DEFAULT_POINTS
    case Some(n) => if n == 0 then DEFAULT_POINTS else n
  }

  /** Typing a non-zero integer sets the reward to it; typing zero falls back to the default. */
  lemma PointsInputReadsNumber(n: int)
    ensures PointsFromInput(JsString.IntToString(n)) == if n == 0 then DEFAULT_POINTS else n
  {
    JsString.ParseIntOfIntToString(n);
  }

  /** Nothing stops a negative reward: "-5" gives -5 points. */
  lemma NegativeRewardAccepted()
    ensures PointsFromInput("-5") == -5
  {
    assert JsString.IntToString(-5) == "-5";
    PointsInputReadsNumber(-5);
  }

  function IsOpen(): Task -> bool {
    (t: Task) => !t.completed
  }

  function IsDone(): Task -> bool {
    (t: Task) => t.completed
  }

  /** `tasks.filter(task => !task.completed)`. */
  function ActiveTasks(tasks: seq<Task>): seq<Task> {
    Seqs.Filter(tasks, IsOpen())
  }

  /** `tasks.filter(task => task.completed)`. */
  function CompletedTasks(tasks: seq<Task>): seq<Task> {
    Seqs.Filter(tasks, IsDone())
  }

  /**
   * The active and completed lists partition the tasks by their flag: every
   * task is in the list its flag says, together they hold every task, and
   * both keep the original order (filtering distributes over concatenation).
   */
  lemma ActiveCompletedPartition(tasks: seq<Task>, t: Task, front: seq<Task>, back: seq<Task>)
    ensures t in ActiveTasks(tasks) <==> t in tasks && !t.completed
    ensures t in CompletedTasks(tasks) <==> t in tasks && t.completed
    ensures multiset(ActiveTasks(tasks)) + multiset(CompletedTasks(tasks)) == multiset(tasks)
    ensures ActiveTasks(front + back) == ActiveTasks(front) + ActiveTasks(back)
    ensures CompletedTasks(front + back) == CompletedTasks(front) + CompletedTasks(back)
  {
    Seqs.FilterMembership(tasks, IsOpen(), t);
    Seqs.FilterMembership(tasks, IsDone(), t);
    Seqs.FilterSplit(tasks, IsOpen(), IsDone());
    Seqs.FilterConcat(front, back, IsOpen());
    Seqs.FilterConcat(front, back, IsDone());
  }

  /** `completedTasks.slice(-3)`: the last three completed tasks, or all of them if fewer. */
  function RecentlyCompleted(tasks: seq<Task>): (r: seq<Task>)
    ensures var done := CompletedTasks(tasks);
      && |r| == (if |done| < 3 then |done| else 3)
      && r == done[|done| - |r|..]
    ensures forall k :: 0 <= k < |r| ==> r[k].completed
  {
    var done := CompletedTasks(tasks);
    if |done| <= 3 then done else done[|done| - 3..]
  }

  /** The add-task dialog: the fields being edited and whether it is open. */
  class TaskForm {
    var title: string
    var description: string
    var points: int
    var dialogOpen: bool

    constructor ()
      ensures title == "" && description == "" && points == DEFAULT_POINTS && !dialogOpen
    {
      title, description, points, dialogOpen := "", "", DEFAULT_POINTS, false;
    }

    method SetTitle(value: string)
      modifies this
      ensures title == value
      ensures description == old(description) && points == old(points) && dialogOpen == old(dialogOpen)
    {
      title := value;
    }

    method SetDescription(value: string)
      modifies this
      ensures description == value
      ensures title == old(title) && points == old(points) && dialogOpen == old(dialogOpen)
    {
      description := value;
    }

    method SetPoints(value: string)
      modifies this
      ensures points == PointsFromInput(value)
      ensures title == old(title) && description == old(description) && dialogOpen == old(dialogOpen)
    {
      points := PointsFromInput(value);
    }

    method SetDialogOpen(open: bool)
      modifies this
      ensures dialogOpen == open
      ensures title == old(title) && description == old(description) && points == old(points)
    {
      dialogOpen := open;
    }

    /**
     * `handleAddTask`: when the title is not blank after trimming, hand the
     * form's fields (title untrimmed) to `onAddTask`, reset the form and
     * close the dialog; otherwise do nothing.
     */
    method HandleAddTask() returns (submitted: Option<NewTask>)
      modifies this
      ensures submitted.Some? <==> JsString.Trim(old(title)) != ""
      ensures submitted.Some? ==>
        && submitted.value == NewTask(old(title), Some(old(description)), old(points), None, None)
        && title == "" && description == "" && points == DEFAULT_POINTS && !dialogOpen
      ensures submitted.None? ==>
        title == old(title) && description == old(description) && points == old(points)
        && dialogOpen == old(dialogOpen)
    {
      if JsString.Trim(title) != "" {
        submitted := Some(NewTask(title, Some(description), points, None, None));
        title, description, points := "", "", DEFAULT_POINTS;
        dialogOpen := false;
      } else {
        submitted := None;
      }
    }
  }
}

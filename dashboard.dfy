/** The dashboard's daily-task list and water tracker: tasks are toggled and
    appended, the day's progress is the rounded share of completed tasks, a
    counter of glasses runs from 0 to 8 and is coupled to the first task that
    talks about water, and each completion is written into the slot of the
    current weekday in a seven-day activity array (Monday first). */
module Dashboard {
  import opened Wrappers
  import Text
  import Seqs
  import JsNum

  /** A daily task. */
  datatype Task = Task(id: string, title: string, completed: bool)

  /** The number of glasses that makes the water goal. */
  const MaxGlasses: nat := 8

  /** The completed tasks of a list. */
  function Completed(tasks: seq<Task>): (done: seq<Task>)
    ensures |done| <= |tasks|
    ensures forall i :: 0 <= i < |done| ==> done[i].completed
    ensures forall t: Task :: multiset(done)[t] == if t.completed then multiset(tasks)[t] else 0
  {
    var done := Seqs.Filter(tasks, (t: Task) => t.completed);
    forall t: Task
      ensures multiset(done)[t] == if t.completed then multiset(tasks)[t] else 0
    {
      Seqs.FilterCounts(tasks, (t: Task) => t.completed, t);
    }
    done
  }

  /** The day's progress: `Math.round(completed / total * 100)`, and 0 for an
      empty list. */
  function Progress(tasks: seq<Task>): (p: int)
    ensures 0 <= p <= 100
    ensures tasks != [] ==> p == JsNum.Round(100.0 * (|Completed(tasks)| as real) / (|tasks| as real))
    ensures |Completed(tasks)| == 0 ==> p == 0
    ensures tasks != [] && |Completed(tasks)| == |tasks| ==> p == 100
  {
    if |tasks| > 0 then
      JsNum.PercentIsRound(|Completed(tasks)|, |tasks|);
      JsNum.Percent(|Completed(tasks)|, |tasks|)
    else 0
  }

  /** When every task is done the progress is 100; when none is, it is 0. */
  lemma ProgressExtremes(tasks: seq<Task>)
    ensures tasks != [] && (forall i :: 0 <= i < |tasks| ==> tasks[i].completed) ==> Progress(tasks) == 100
    ensures (forall i :: 0 <= i < |tasks| ==> !tasks[i].completed) ==> Progress(tasks) == 0
  {
    if forall i :: 0 <= i < |tasks| ==> tasks[i].completed {
      Seqs.FilterKeepsAll(tasks, (t: Task) => t.completed);
    }
    if forall i :: 0 <= i < |tasks| ==> !tasks[i].completed {
      Seqs.FilterKeepsNone(tasks, (t: Task) => t.completed);
    }
  }

  /** A water task: its lower-cased title mentions "water" or "glass". */
  predicate IsWaterTask(t: Task) {
    Text.Contains(Text.ToLower(t.title), "water") || Text.Contains(Text.ToLower(t.title), "glass")
  }

  /** `tasks.find(t => t.id === id)`: the first task with that id. */
  function FindById(tasks: seq<Task>, id: string): (r: Option<Task>)
    ensures r.None? <==> forall i :: 0 <= i < |tasks| ==> tasks[i].id != id
    ensures r.Some? ==> exists i :: 0 <= i < |tasks| && tasks[i] == r.value
                          && tasks[i].id == id && forall j :: 0 <= j < i ==> tasks[j].id != id
  {
    if tasks == [] then None
    else if tasks[0].id == id then Some(tasks[0])
    else
      var r := FindById(tasks[1..], id);
      if r.Some? then
        var i :| 0 <= i < |tasks[1..]| && tasks[1..][i] == r.value
                 && tasks[1..][i].id == id && forall j :: 0 <= j < i ==> tasks[1..][j].id != id;
        assert tasks[i + 1] == r.value && forall j :: 0 <= j < i + 1 ==> tasks[j].id != id;
        r
      else r
  }

  /** The first water task of the list, if any. */
  function FirstWaterTask(tasks: seq<Task>): (r: Option<Task>)
    ensures r.None? <==> forall i :: 0 <= i < |tasks| ==> !IsWaterTask(tasks[i])
    ensures r.Some? ==> exists i :: 0 <= i < |tasks| && tasks[i] == r.value
                          && IsWaterTask(tasks[i]) && forall j :: 0 <= j < i ==> !IsWaterTask(tasks[j])
  {
    if tasks == [] then None
    else if IsWaterTask(tasks[0]) then Some(tasks[0])
    else
      var r := FirstWaterTask(tasks[1..]);
      if r.Some? then
        var i :| 0 <= i < |tasks[1..]| && tasks[1..][i] == r.value
                 && IsWaterTask(tasks[1..][i]) && forall j :: 0 <= j < i ==> !IsWaterTask(tasks[1..][j]);
        assert tasks[i + 1] == r.value && forall j :: 0 <= j < i + 1 ==> !IsWaterTask(tasks[j]);
        r
      else r
  }

  /** The list with `completed` flipped on every task whose id is `id`; length,
      order and every other task are kept. */
  function ToggleById(tasks: seq<Task>, id: string): (r: seq<Task>)
    ensures |r| == |tasks|
    ensures forall i :: 0 <= i < |tasks| && tasks[i].id == id ==>
              r[i] == tasks[i].(completed := !tasks[i].completed)
    ensures forall i :: 0 <= i < |tasks| && tasks[i].id != id ==> r[i] == tasks[i]
  {
    seq(|tasks|, i requires 0 <= i < |tasks| =>
      if tasks[i].id == id then tasks[i].(completed := !tasks[i].completed) else tasks[i])
  }

  /** Toggling the same id twice restores the list. */
  lemma ToggleTwice(tasks: seq<Task>, id: string)
    ensures ToggleById(ToggleById(tasks, id), id) == tasks
  {
    var once := ToggleById(tasks, id);
    assert forall i :: 0 <= i < |tasks| ==> once[i].id == tasks[i].id;
  }

  /** Toggling keeps the ids and titles, so which tasks are water tasks does not
      change. */
  lemma ToggleKeepsWaterTasks(tasks: seq<Task>, id: string)
    ensures forall i :: 0 <= i < |tasks| ==>
      ToggleById(tasks, id)[i].id == tasks[i].id && ToggleById(tasks, id)[i].title == tasks[i].title
    ensures FirstWaterTask(ToggleById(tasks, id)).None? <==> FirstWaterTask(tasks).None?
  {
  }

  /** The toggle completes a task: the first task with that id exists and is
      not yet done. */
  predicate Completing(tasks: seq<Task>, id: string) {
    FindById(tasks, id).Some? && !FindById(tasks, id).value.completed
  }

  /** The first task with that id is a water task. */
  predicate TogglesWater(tasks: seq<Task>, id: string) {
    FindById(tasks, id).Some? && IsWaterTask(FindById(tasks, id).value)
  }

  /** `new Date().getDay()` (0 is Sunday) as an index into the Monday-first
      week: Sunday goes last. */
  function DayIndex(today: int): (slot: int)
    requires 0 <= today <= 6
    ensures 0 <= slot <= 6
    ensures (slot + 1) % 7 == today
  {
    if today == 0 then 6 else today - 1
  }

  /** Distinct weekdays get distinct slots. */
  lemma DayIndexInjective(d1: int, d2: int)
    requires 0 <= d1 <= 6 && 0 <= d2 <= 6 && d1 != d2
    ensures DayIndex(d1) != DayIndex(d2)
  {
  }

  /** The glasses counter after one press of + or -: saturating at 8 and at 0. */
  function NextGlasses(glasses: int, increment: bool): (g: int)
    requires 0 <= glasses <= MaxGlasses
    ensures 0 <= g <= MaxGlasses
    ensures increment ==> g == if glasses < MaxGlasses then glasses + 1 else MaxGlasses
    ensures !increment ==> g == if glasses > 0 then glasses - 1 else 0
  {
    if increment then (if glasses + 1 < MaxGlasses then glasses + 1 else MaxGlasses)
    else (if glasses - 1 > 0 then glasses - 1 else 0)
  }

  /** The water percentage shown for a number of glasses:
      `Math.round(glasses / 8 * 100)`. */
  function WaterPercent(glasses: int): (p: int)
    requires 0 <= glasses <= MaxGlasses
    ensures 0 <= p <= 100
    ensures p == JsNum.Round(100.0 * (glasses as real) / (MaxGlasses as real))
    ensures p == 100 <==> glasses == MaxGlasses
    ensures p == 0 <==> glasses == 0
  {
    JsNum.PercentIsRound(glasses, MaxGlasses);
    if glasses == MaxGlasses then JsNum.Percent(glasses, MaxGlasses)
    else
      JsNum.PercentMonotone(glasses, MaxGlasses - 1, MaxGlasses);
      assert JsNum.Percent(MaxGlasses - 1, MaxGlasses) == 88;
      if glasses == 0 then JsNum.Percent(glasses, MaxGlasses)
      else
        JsNum.PercentMonotone(1, glasses, MaxGlasses);
        assert JsNum.Percent(1, MaxGlasses) == 13;
        JsNum.Percent(glasses, MaxGlasses)
  }

  /** The state of the dashboard that the task and water handlers change. */
  class DashboardState {
    var tasks: seq<Task>
    var todayProgress: int
    var glassesCount: int
    var waterIntake: int
    var weeklyActivity: array<int>
    var streakDays: int
    var completedGoals: int
    var newTaskTitle: string

    /** The counter stays within 0 .. 8 and the week has seven slots. */
    predicate Valid()
      reads this
    {
      0 <= glassesCount <= MaxGlasses && weeklyActivity.Length == 7
    }

    /** The dashboard as it starts: loaded tasks, no glasses, an empty week. */
    constructor (loaded: seq<Task>)
      ensures Valid() && fresh(weeklyActivity)
      ensures tasks == loaded && todayProgress == Progress(loaded)
      ensures glassesCount == 0 && waterIntake == 0 && streakDays == 0 && completedGoals == 0
      ensures weeklyActivity[..] == [0, 0, 0, 0, 0, 0, 0] && newTaskTitle == ""
    {
      tasks := loaded;
      todayProgress := Progress(loaded);
      glassesCount := 0;
      waterIntake := 0;
      weeklyActivity := new int[7](_ => 0);
      streakDays := 0;
      completedGoals := 0;
      newTaskTitle := "";
    }

    /** `toggleTaskCompletion`: flips the tasks with the id, recomputes the
        progress, drives the water tracker when the task is a water task, and
        on a completion counts a goal, extends the streak and records the
        progress in today's slot of the week. */
    method ToggleTaskCompletion(taskId: string, today: int)
      requires Valid() && 0 <= today <= 6
      modifies this, weeklyActivity
      ensures Valid() && weeklyActivity == old(weeklyActivity)
      ensures tasks == ToggleById(old(tasks), taskId)
      ensures todayProgress == Progress(tasks)
      ensures TogglesWater(old(tasks), taskId) ==>
        var c := Completing(old(tasks), taskId);
        glassesCount == (if c then MaxGlasses as int else 0) && waterIntake == (if c then 100 else 0)
      ensures !TogglesWater(old(tasks), taskId) ==>
        glassesCount == old(glassesCount) && waterIntake == old(waterIntake)
      ensures Completing(old(tasks), taskId) ==>
        streakDays == old(streakDays) + 1 && completedGoals == old(completedGoals) + 1
        && weeklyActivity[..] == old(weeklyActivity[..])[DayIndex(today) := todayProgress]
      ensures !Completing(old(tasks), taskId) ==>
        streakDays == old(streakDays) && completedGoals == old(completedGoals)
        && weeklyActivity[..] == old(weeklyActivity[..])
      ensures newTaskTitle == old(newTaskTitle)
    {
      var task := FindById(tasks, taskId);
      var isWaterTask := task.Some? && IsWaterTask(task.value);
      var isCompleting := task.Some? && !task.value.completed;

      tasks := ToggleById(tasks, taskId);
      todayProgress := Progress(tasks);

      if isWaterTask {
        waterIntake := if isCompleting then 100 else 0;
        glassesCount := if isCompleting then MaxGlasses else 0;
      }

      if isCompleting {
        streakDays := streakDays + (if task.value.completed then 0 else 1);
        completedGoals := completedGoals + 1;
        weeklyActivity[DayIndex(today)] := todayProgress;
      }
    }

    /** `updateWaterIntake`: one glass more or less, saturating at 8 and 0. When
        the first water task's completion disagrees with "8 glasses reached",
        that task is toggled instead, which sets the counter to 8 or 0. */
    method UpdateWaterIntake(increment: bool, today: int)
      requires Valid() && 0 <= today <= 6
      modifies this, weeklyActivity
      ensures Valid() && weeklyActivity == old(weeklyActivity)
      ensures
        var g := NextGlasses(old(glassesCount), increment);
        var w := FirstWaterTask(old(tasks));
        if w.Some? && w.value.completed != (g >= MaxGlasses) then
          tasks == ToggleById(old(tasks), w.value.id)
          && todayProgress == Progress(tasks)
          && (Completing(old(tasks), w.value.id) ==>
                streakDays == old(streakDays) + 1 && completedGoals == old(completedGoals) + 1
                && weeklyActivity[..] == old(weeklyActivity[..])[DayIndex(today) := todayProgress])
          && (!Completing(old(tasks), w.value.id) ==>
                streakDays == old(streakDays) && completedGoals == old(completedGoals)
                && weeklyActivity[..] == old(weeklyActivity[..]))
          && (TogglesWater(old(tasks), w.value.id) ==>
                var c := Completing(old(tasks), w.value.id);
                glassesCount == (if c then MaxGlasses as int else 0)
                && waterIntake == (if c then 100 else 0))
          && (!TogglesWater(old(tasks), w.value.id) ==>
                glassesCount == g && waterIntake == WaterPercent(g))
        else
          tasks == old(tasks) && glassesCount == g && waterIntake == WaterPercent(g)
          && todayProgress == old(todayProgress) && weeklyActivity[..] == old(weeklyActivity[..])
          && streakDays == old(streakDays) && completedGoals == old(completedGoals)
      ensures newTaskTitle == old(newTaskTitle)
    {
      var newGlasses := NextGlasses(glassesCount, increment);
      var newPercentage := WaterPercent(newGlasses);
      glassesCount := newGlasses;
      waterIntake := newPercentage;

      var waterTask := FirstWaterTask(tasks);
      if waterTask.Some? {
        var shouldBeCompleted := newGlasses >= MaxGlasses;
        if waterTask.value.completed != shouldBeCompleted {
          ToggleTaskCompletion(waterTask.value.id, today);
          return;
        }
      }
    }

    /** `addNewTask`: a blank title changes nothing; otherwise one incomplete
        task with the trimmed title and a time-stamped id is appended and the
        input is cleared. The progress is not recomputed. */
    method AddNewTask(now: nat)
      requires Valid()
      modifies this
      ensures Valid()
      ensures Text.IsBlank(old(newTaskTitle)) ==>
        tasks == old(tasks) && newTaskTitle == old(newTaskTitle)
      ensures !Text.IsBlank(old(newTaskTitle)) ==>
        tasks == old(tasks) + [Task("task" + JsNum.Decimal(now), Text.Trim(old(newTaskTitle)), false)]
        && newTaskTitle == ""
      ensures todayProgress == old(todayProgress) && glassesCount == old(glassesCount)
      ensures waterIntake == old(waterIntake) && weeklyActivity == old(weeklyActivity)
      ensures streakDays == old(streakDays) && completedGoals == old(completedGoals)
    {
      Text.TrimEmptyIffBlank(newTaskTitle);
      if Text.Trim(newTaskTitle) == [] {
        return;
      }
      var newTask := Task("task" + JsNum.Decimal(now), Text.Trim(newTaskTitle), false);
      tasks := tasks + [newTask];
      newTaskTitle := "";
    }
  }

  /** Taking one glass away from a full counter while the water task is done
      leaves the counter at 0, not 7: the task is un-completed, which empties
      it, and the water percentage drops to 0. */
  method DecrementFromFullEmpties(d: DashboardState, today: int)
    requires d.Valid() && 0 <= today <= 6 && d.glassesCount == MaxGlasses
    requires FirstWaterTask(d.tasks).Some? && FirstWaterTask(d.tasks).value.completed
    requires FindById(d.tasks, FirstWaterTask(d.tasks).value.id) == FirstWaterTask(d.tasks)
    modifies d, d.weeklyActivity
    ensures d.glassesCount == 0 && d.waterIntake == 0
    ensures d.tasks == ToggleById(old(d.tasks), old(FirstWaterTask(d.tasks)).value.id)
  {
    d.UpdateWaterIntake(false, today);
  }
}

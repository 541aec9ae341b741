/**
 * The home widget of components/Home/Home.tsx: a progress value that a
 * one-second timer steps toward 100, and a list of recent activities whose
 * check boxes toggle their `completed` mark.
 */
module Home {
  import opened ListOps

  datatype Activity = Activity(id: int, activity: string, completed: bool)

  const InitialProgress := 75
  const MaxProgress := 100

  /** The timer's updater: one more percent, up to 100. */
  function Step(progress: int): (r: int)
    ensures progress < MaxProgress ==> r == progress + 1
    ensures progress >= MaxProgress ==> r == progress
  {
    if progress < MaxProgress then progress + 1 else progress
  }

  /** The progress after `n` timer ticks. */
  function Steps(progress: int, n: nat): int
    decreases n
  {
    if n == 0 then progress else Steps(Step(progress), n - 1)
  }

  function Min(a: int, b: int): int { if a <= b then a else b }

  /** From at most 100, `n` ticks add `n` percent, capped at 100. */
  lemma {:induction false} StepsCapped(progress: int, n: nat)
    requires progress <= MaxProgress
    ensures Steps(progress, n) == Min(progress + n, MaxProgress)
    decreases n
  {
    if n > 0 {
      StepsCapped(Step(progress), n - 1);
    }
  }

  /** From the initial 75, progress never falls, never passes 100, and is 100 from the 25th tick on. */
  lemma FromInitial(n: nat)
    ensures InitialProgress <= Steps(InitialProgress, n) <= MaxProgress
    ensures Steps(InitialProgress, n) <= Steps(InitialProgress, n + 1)
    ensures n >= 25 ==> Steps(InitialProgress, n) == MaxProgress
  {
    StepsCapped(InitialProgress, n);
    StepsCapped(InitialProgress, n + 1);
  }

  function ActivityIdIs(id: int): Activity -> bool { (a: Activity) => a.id == id }
  function Flip(a: Activity): Activity { a.(completed := !a.completed) }

  /** `toggleActivity`'s updater: flip `completed` on the activities with the id; ids, texts and order stay. */
  function Toggle(activities: seq<Activity>, id: int): (r: seq<Activity>)
    ensures |r| == |activities|
    ensures forall i :: 0 <= i < |r| ==> r[i].id == activities[i].id && r[i].activity == activities[i].activity
    ensures forall i :: 0 <= i < |r| ==> r[i].completed == (activities[i].completed != (activities[i].id == id))
  {
    MapWhere(activities, ActivityIdIs(id), Flip)
  }

  /** Toggling the same id twice restores the list. */
  lemma ToggleTwice(activities: seq<Activity>, id: int)
    ensures Toggle(Toggle(activities, id), id) == activities
  {
    MapWhereTwice(activities, ActivityIdIs(id), Flip);
  }

  /** Toggling an id no activity has changes nothing. */
  lemma ToggleUnknown(activities: seq<Activity>, id: int)
    requires forall i :: 0 <= i < |activities| ==> activities[i].id != id
    ensures Toggle(activities, id) == activities
  {
    MapWhereNoMatch(activities, ActivityIdIs(id), Flip);
  }

  /** The widget's state. */
  class HomeWidget {
    var progress: int
    var recentActivities: seq<Activity>

    constructor ()
      ensures progress == InitialProgress
      ensures |recentActivities| == 3
      ensures forall i :: 0 <= i < 3 ==> recentActivities[i].id == i + 1 && !recentActivities[i].completed
    {
      progress := InitialProgress;
      recentActivities := [
        Activity(1, "Terminarea temei la matematică", false),
        Activity(2, "Participarea la seminarul de fizică", false),
        Activity(3, "Începerea proiectului de informatică", false)
      ];
    }

    /** One tick of the one-second timer. */
    method Tick()
      modifies this`progress
      ensures progress == Step(old(progress))
      ensures old(progress) <= MaxProgress ==> old(progress) <= progress <= MaxProgress
    {
      progress := Step(progress);
    }

    method ToggleActivity(id: int)
      modifies this`recentActivities
      ensures recentActivities == Toggle(old(recentActivities), id)
    {
      recentActivities := Toggle(recentActivities, id);
    }
  }
}

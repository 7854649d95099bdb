/**
 * The event wizard's types: the six activity types, the form record the wizard fills
 * in, the activities that come with a route (and so with a route-selection step), and
 * the number of steps each activity's wizard has.
 */
module CreateEventTypes {
  import opened Wrappers

  datatype ActivityType = Hiking | Cycling | Climbing | Skiing | Bouldering | Social {
    function Code(): string {
      match this
      case Hiking => "hiking"
      case Cycling => "cycling"
      case Climbing => "climbing"
      case Skiing => "skiing"
      case Bouldering => "bouldering"
      case Social => "social"
    }
  }

  /**
   * `CreateEventFormData`. The date is a timestamp in milliseconds; a `null` in the
   * source is `None` here.
   */
  datatype FormData = FormData(
    activityType: Option<ActivityType>,
    routeId: Option<string>,
    date: Option<int>,
    time: Option<string>,
    eventName: string,
    maxParticipants: int,
    description: string,
    addDisclaimer: bool,
    coverPhotoUrl: Option<string>)

  const ACTIVITIES_WITH_ROUTES: seq<ActivityType> := [Hiking, Cycling, Climbing]

  /** `ACTIVITIES_WITH_ROUTES.includes(a)`. */
  predicate HasRoutes(a: ActivityType) {
    a in ACTIVITIES_WITH_ROUTES
  }

  /** `getStepsForActivity`: five steps with no activity yet or a route activity, four otherwise. */
  function GetStepsForActivity(activity: Option<ActivityType>): (n: int)
    ensures n == 4 || n == 5
    ensures n == 4 <==> activity.Some? && !HasRoutes(activity.value)
  {
    if activity.None? then 5 else if HasRoutes(activity.value) then 5 else 4
  }

  datatype StepIndex = StepIndex(step: int, total: int)

  /** `getStepIndex`: both branches return the step unchanged with the activity's step count. */
  function GetStepIndex(currentStep: int, activity: Option<ActivityType>): (r: StepIndex)
    ensures r.step == currentStep
    ensures r.total == GetStepsForActivity(activity)
  {
    var total := GetStepsForActivity(activity);
    if activity.Some? && !HasRoutes(activity.value) then StepIndex(currentStep, total)
    else StepIndex(currentStep, total)
  }

  /**
   * Exactly hiking, cycling and climbing come with a route: three distinct activities,
   * whose wizard has five steps, while skiing, bouldering and social have four.
   */
  lemma RouteActivities()
    ensures |ACTIVITIES_WITH_ROUTES| == 3
    ensures forall i, j :: 0 <= i < j < 3 ==> ACTIVITIES_WITH_ROUTES[i] != ACTIVITIES_WITH_ROUTES[j]
    ensures forall a: ActivityType :: HasRoutes(a) <==> a == Hiking || a == Cycling || a == Climbing
    ensures GetStepsForActivity(None) == 5
    ensures GetStepsForActivity(Some(Hiking)) == 5 && GetStepsForActivity(Some(Cycling)) == 5 && GetStepsForActivity(Some(Climbing)) == 5
    ensures GetStepsForActivity(Some(Skiing)) == 4 && GetStepsForActivity(Some(Bouldering)) == 4 && GetStepsForActivity(Some(Social)) == 4
  {
  }

  /** The activity codes are pairwise distinct, so a code names one activity. */
  lemma ActivityCodesDistinct(a: ActivityType, b: ActivityType)
    ensures a.Code() == b.Code() ==> a == b
  {
  }
}

/**
 * The event-creation wizard: a step machine over steps 1..5 that skips the route step
 * (2) for activities without routes, a per-step gate on "Continue", a progress number
 * that hides the skipped step, an unsaved-changes dialog on close, and a draft of the
 * form kept in local storage while an activity is chosen.
 */
module CreateEventModal {
  import opened Wrappers
  import JsText
  import opened CreateEventTypes

  // ---------------------------------------------------------------------------
  // the stored draft

  /** The JSON object written under the draft key: the form with its date as ISO text. */
  datatype Draft = Draft(
    activityType: Option<ActivityType>,
    routeId: Option<string>,
    date: Option<string>,
    time: Option<string>,
    eventName: string,
    maxParticipants: int,
    description: string,
    addDisclaimer: bool,
    coverPhotoUrl: Option<string>)

  /** What local storage holds under the draft key: a draft this wizard wrote, or other text. */
  datatype Stored = Json(draft: Draft) | Text(text: string)

  /** `date.toISOString()`, with the timestamp's own decimal text standing in for the ISO form. */
  function IsoText(ms: int): string {
    JsText.IntToString(ms)
  }

  /** `new Date(text)` read back as a timestamp. */
  function ParseIso(text: string): Option<int> {
    JsText.ParseInt(text)
  }

  /** `JSON.stringify({ ...formData, date: formData.date?.toISOString() ?? null })`. */
  function ToDraft(fd: FormData): Draft {
    Draft(fd.activityType, fd.routeId, if fd.date.Some? then Some(IsoText(fd.date.value)) else None,
          fd.time, fd.eventName, fd.maxParticipants, fd.description, fd.addDisclaimer, fd.coverPhotoUrl)
  }

  /** `{ ...parsed, date: parsed.date ? new Date(parsed.date) : null }`. */
  function FromDraft(d: Draft): FormData {
    FormData(d.activityType, d.routeId, if d.date.Some? && d.date.value != "" then ParseIso(d.date.value) else None,
             d.time, d.eventName, d.maxParticipants, d.description, d.addDisclaimer, d.coverPhotoUrl)
  }

  /**
   * What opening the wizard loads: the parsed draft when storage holds non-empty text
   * that parses, nothing otherwise (missing key, empty text, or text `JSON.parse` rejects).
   */
  function SavedDraft(stored: Option<Stored>): Option<Draft> {
    if stored.None? then None
    else match stored.value
      case Json(d) => Some(d)
      case Text(_) => None
  }

  /** Loading a saved draft gives back exactly the form data that was saved. */
  lemma SaveThenLoad(fd: FormData)
    ensures SavedDraft(Some(Json(ToDraft(fd)))) == Some(ToDraft(fd))
    ensures FromDraft(ToDraft(fd)) == fd
  {
    if fd.date.Some? {
      JsText.IntToStringRoundTrip(fd.date.value);
    }
  }

  /** `getInitialFormData()`, with the clock's next Saturday passed in. */
  function InitialFormData(nextSaturday: int): FormData {
    FormData(None, None, Some(nextSaturday), Some("09:00"), "", 10, "", false, None)
  }

  // ---------------------------------------------------------------------------
  // steps

  /** The steps the wizard passes through for an activity, in order. */
  function StepsOf(a: Option<ActivityType>): seq<int> {
    if a.Some? && !HasRoutes(a.value) then [1, 3, 4, 5] else [1, 2, 3, 4, 5]
  }

  /** The states the wizard can be in: a step on the activity's path, past step 1 only with an activity. */
  predicate OnPath(step: int, a: Option<ActivityType>) {
    step in StepsOf(a) && (step > 1 ==> a.Some?)
  }

  /** `b` comes right after `a` on `path`. */
  predicate Adjacent(path: seq<int>, a: int, b: int) {
    exists i :: 0 <= i < |path| - 1 && path[i] == a && path[i + 1] == b
  }

  datatype ContinueAction = GoTo(step: int) | Finish

  /** What `handleContinue` does from `step`. */
  function ContinueFrom(step: int, a: Option<ActivityType>): ContinueAction {
    if step == 1 && a.Some? then GoTo(if !HasRoutes(a.value) then 3 else 2)
    else if step < 5 then GoTo(step + 1)
    else Finish
  }

  /** Where `handleBack` goes from `step`. */
  function BackFrom(step: int, a: Option<ActivityType>): int {
    if step == 1 then 1
    else if step == 3 && a.Some? && !HasRoutes(a.value) then 1
    else step - 1
  }

  /** `canContinue()` at `step` with form data `fd`. */
  predicate CanContinueAt(step: int, fd: FormData) {
    if step == 1 then fd.activityType.Some?
    else if step == 2 then true
    else if step == 3 then fd.date.Some? && fd.time.Some? && fd.time.value != ""
    else if step == 4 then |JsText.Trim(fd.eventName)| > 0
    else step == 5
  }

  /** `getDisplayStep()`. */
  function DisplayStepOf(step: int, a: Option<ActivityType>): int {
    if a.None? || HasRoutes(a.value) then step
    else if step == 1 then 1
    else step - 1
  }

  /**
   * The gate: an activity is needed on step 1, a date and a non-empty time on step 3, a
   * name with a character other than white space on step 4; steps 2 and 5 always pass,
   * any other step never does.
   */
  lemma CanContinueCases(step: int, fd: FormData)
    ensures step == 1 ==> (CanContinueAt(step, fd) <==> fd.activityType.Some?)
    ensures step == 3 ==> (CanContinueAt(step, fd) <==> fd.date.Some? && fd.time.Some? && fd.time.value != "")
    ensures step == 4 ==> (CanContinueAt(step, fd) <==> !JsText.AllWhitespace(fd.eventName))
    ensures step == 2 || step == 5 ==> CanContinueAt(step, fd)
    ensures !(1 <= step <= 5) ==> !CanContinueAt(step, fd)
  {
    JsText.TrimEmptyIffBlank(fd.eventName);
  }

  /**
   * Through the gate, "Continue" from a step before the last moves to the next step on
   * the activity's path — step 2 only for a route activity — and "Back" from there
   * returns to the step it started from (1 → 3 → 1 without a route).
   */
  lemma ContinueThenBack(step: int, fd: FormData)
    requires OnPath(step, fd.activityType) && step < 5 && CanContinueAt(step, fd)
    ensures ContinueFrom(step, fd.activityType).GoTo?
    ensures OnPath(ContinueFrom(step, fd.activityType).step, fd.activityType)
    ensures ContinueFrom(step, fd.activityType).step == 2 ==> HasRoutes(fd.activityType.value)
    ensures BackFrom(ContinueFrom(step, fd.activityType).step, fd.activityType) == step
    ensures Adjacent(StepsOf(fd.activityType), step, ContinueFrom(step, fd.activityType).step)
  {
    var path := StepsOf(fd.activityType);
    var i := if path == [1, 3, 4, 5] then (if step == 1 then 0 else step - 2) else step - 1;
    assert path[i] == step && path[i + 1] == ContinueFrom(step, fd.activityType).step;
  }

  /** "Back" from a step on the path goes to the step before it on the path (and stays on step 1). */
  lemma BackStaysOnPath(step: int, a: Option<ActivityType>)
    requires OnPath(step, a)
    ensures OnPath(BackFrom(step, a), a)
    ensures step == 1 ==> BackFrom(step, a) == 1
    ensures step > 1 ==> Adjacent(StepsOf(a), BackFrom(step, a), step)
  {
    var path := StepsOf(a);
    if step > 1 {
      var i := if path == [1, 3, 4, 5] then step - 2 else step - 1;
      assert path[i - 1] == BackFrom(step, a) && path[i] == step;
    }
  }

  /**
   * The progress number is the step's position on the activity's path, so it runs
   * from 1 to the activity's step count.
   */
  lemma DisplayStepIsPosition(step: int, a: Option<ActivityType>)
    requires OnPath(step, a)
    ensures |StepsOf(a)| == GetStepsForActivity(a)
    ensures 1 <= DisplayStepOf(step, a) <= GetStepsForActivity(a)
    ensures StepsOf(a)[DisplayStepOf(step, a) - 1] == step
  {
  }

  // ---------------------------------------------------------------------------
  // the wizard

  class Wizard {
    /** The `open` prop: the parent closes the wizard when `onClose` is called. */
    var open: bool
    var currentStep: int
    var formData: FormData
    var showUnsavedDialog: bool
    /** Local storage under the draft key. */
    var storage: Option<Stored>

    /**
     * The step is on the activity's path; a closed wizard is back on step 1 with no
     * dialog; the dialog only shows with unsaved changes; and whenever an activity is
     * chosen, storage holds the current form as its draft.
     */
    ghost predicate Valid()
      reads this
    {
      && OnPath(currentStep, formData.activityType)
      && (!open ==> currentStep == 1 && !showUnsavedDialog)
      && (showUnsavedDialog ==> formData.activityType.Some?)
      && (formData.activityType.Some? ==> storage == Some(Json(ToDraft(formData))))
    }

    /** `hasUnsavedChanges()`. */
    predicate HasUnsavedChanges()
      reads this
    {
      formData.activityType.Some?
    }

    predicate CanContinue()
      reads this
    {
      CanContinueAt(currentStep, formData)
    }

    function DisplayStep(): int
      reads this
    {
      DisplayStepOf(currentStep, formData.activityType)
    }

    /** Mounting: initial state, then the load effect when the wizard mounts open. */
    constructor(isOpen: bool, stored: Option<Stored>, nextSaturday: int)
      ensures Valid()
      ensures open == isOpen && currentStep == 1 && !showUnsavedDialog
      ensures formData == (if isOpen && SavedDraft(stored).Some? then FromDraft(SavedDraft(stored).value)
                           else InitialFormData(nextSaturday))
      ensures storage == (if formData.activityType.Some? then Some(Json(ToDraft(formData))) else stored)
    {
      open := isOpen;
      currentStep := 1;
      formData := InitialFormData(nextSaturday);
      showUnsavedDialog := false;
      storage := stored;
      new;
      if isOpen {
        LoadDraft();
      }
    }

    /** The save effect: write the draft while an activity is chosen. */
    method SaveDraft()
      modifies this
      ensures storage == (if formData.activityType.Some? then Some(Json(ToDraft(formData))) else old(storage))
      ensures open == old(open) && currentStep == old(currentStep) && formData == old(formData)
      ensures showUnsavedDialog == old(showUnsavedDialog)
    {
      if formData.activityType.Some? {
        storage := Some(Json(ToDraft(formData)));
      }
    }

    /** The load effect on opening: a draft that parses replaces the form data outright. */
    method LoadDraft()
      requires open && currentStep == 1 && !showUnsavedDialog
      requires formData.activityType.Some? ==> storage == Some(Json(ToDraft(formData)))
      modifies this
      ensures Valid()
      ensures formData == (if SavedDraft(old(storage)).Some? then FromDraft(SavedDraft(old(storage)).value) else old(formData))
      ensures storage == (if formData.activityType.Some? then Some(Json(ToDraft(formData))) else old(storage))
      ensures open && currentStep == 1 && !showUnsavedDialog
    {
      var saved := SavedDraft(storage);
      if saved.Some? {
        formData := FromDraft(saved.value);
        SaveDraft();
      }
    }

    /** The parent opens the wizard again: the load effect runs. */
    method Reopen()
      requires Valid() && !open
      modifies this
      ensures Valid() && open && currentStep == 1
      ensures formData == (if SavedDraft(old(storage)).Some? then FromDraft(SavedDraft(old(storage)).value) else old(formData))
    {
      open := true;
      LoadDraft();
    }

    /** `handleClose`: the dialog with unsaved changes, closing outright without. */
    method Close()
      requires Valid() && open
      modifies this
      ensures Valid()
      ensures showUnsavedDialog <==> old(HasUnsavedChanges())
      ensures open <==> old(HasUnsavedChanges())
      ensures currentStep == old(currentStep) && formData == old(formData) && storage == old(storage)
    {
      if HasUnsavedChanges() {
        showUnsavedDialog := true;
      } else {
        open := false;
      }
    }

    /** `handleContinueEditing`. */
    method ContinueEditing()
      requires Valid() && open
      modifies this
      ensures Valid() && !showUnsavedDialog
      ensures open && currentStep == old(currentStep) && formData == old(formData) && storage == old(storage)
    {
      showUnsavedDialog := false;
    }

    /** `handleDiscard`: drop the draft, reset the form and the step, hide the dialog, close. */
    method Discard(nextSaturday: int)
      requires Valid() && open
      modifies this
      ensures Valid()
      ensures storage.None? && formData == InitialFormData(nextSaturday)
      ensures currentStep == 1 && !showUnsavedDialog && !open
    {
      storage := None;
      formData := InitialFormData(nextSaturday);
      currentStep := 1;
      showUnsavedDialog := false;
      open := false;
    }

    /** `handleBack`. */
    method Back()
      requires Valid() && open
      modifies this
      ensures Valid()
      ensures currentStep == BackFrom(old(currentStep), formData.activityType)
      ensures open && formData == old(formData) && storage == old(storage) && showUnsavedDialog == old(showUnsavedDialog)
    {
      BackStaysOnPath(currentStep, formData.activityType);
      if currentStep == 1 {
        return;
      }
      if currentStep == 3 && formData.activityType.Some? && !HasRoutes(formData.activityType.value) {
        currentStep := 1;
      } else {
        currentStep := currentStep - 1;
      }
    }

    /**
     * `handleContinue`, reachable only while `canContinue()` holds (the button is
     * disabled otherwise): the next step on the path, or, on the last step, discard.
     */
    method Continue(nextSaturday: int)
      requires Valid() && open && CanContinue()
      modifies this
      ensures Valid()
      ensures old(currentStep) < 5 ==>
        && currentStep == ContinueFrom(old(currentStep), formData.activityType).step
        && open && formData == old(formData) && storage == old(storage) && showUnsavedDialog == old(showUnsavedDialog)
      ensures old(currentStep) == 5 ==>
        storage.None? && formData == InitialFormData(nextSaturday) && currentStep == 1 && !showUnsavedDialog && !open
    {
      if currentStep < 5 {
        ContinueThenBack(currentStep, formData);
      }
      if currentStep == 1 && formData.activityType.Some? {
        if !HasRoutes(formData.activityType.value) {
          currentStep := 3;
        } else {
          currentStep := 2;
        }
      } else if currentStep < 5 {
        currentStep := currentStep + 1;
      } else {
        Discard(nextSaturday);
      }
    }

    // the field setters: each replaces one field and then runs the save effect

    /** `handleActivitySelect`, offered on step 1 only. */
    method SelectActivity(a: ActivityType)
      requires Valid() && open && currentStep == 1
      modifies this
      ensures Valid()
      ensures formData == old(formData).(activityType := Some(a))
      ensures storage == Some(Json(ToDraft(formData)))
      ensures open && currentStep == old(currentStep) && showUnsavedDialog == old(showUnsavedDialog)
    {
      formData := formData.(activityType := Some(a));
      SaveDraft();
    }

    method SelectRoute(routeId: string)
      requires Valid() && open
      modifies this
      ensures Valid()
      ensures formData == old(formData).(routeId := Some(routeId))
      ensures storage == (if formData.activityType.Some? then Some(Json(ToDraft(formData))) else old(storage))
      ensures open && currentStep == old(currentStep) && showUnsavedDialog == old(showUnsavedDialog)
    {
      formData := formData.(routeId := Some(routeId));
      SaveDraft();
    }

    /** `handleDateChange`: an undefined date becomes `null`. */
    method ChangeDate(date: Option<int>)
      requires Valid() && open
      modifies this
      ensures Valid()
      ensures formData == old(formData).(date := date)
      ensures storage == (if formData.activityType.Some? then Some(Json(ToDraft(formData))) else old(storage))
      ensures open && currentStep == old(currentStep) && showUnsavedDialog == old(showUnsavedDialog)
    {
      formData := formData.(date := date);
      SaveDraft();
    }

    method ChangeTime(time: string)
      requires Valid() && open
      modifies this
      ensures Valid()
      ensures formData == old(formData).(time := Some(time))
      ensures storage == (if formData.activityType.Some? then Some(Json(ToDraft(formData))) else old(storage))
      ensures open && currentStep == old(currentStep) && showUnsavedDialog == old(showUnsavedDialog)
    {
      formData := formData.(time := Some(time));
      SaveDraft();
    }

    method ChangeEventName(eventName: string)
      requires Valid() && open
      modifies this
      ensures Valid()
      ensures formData == old(formData).(eventName := eventName)
      ensures storage == (if formData.activityType.Some? then Some(Json(ToDraft(formData))) else old(storage))
      ensures open && currentStep == old(currentStep) && showUnsavedDialog == old(showUnsavedDialog)
    {
      formData := formData.(eventName := eventName);
      SaveDraft();
    }

    method ChangeMaxParticipants(maxParticipants: int)
      requires Valid() && open
      modifies this
      ensures Valid()
      ensures formData == old(formData).(maxParticipants := maxParticipants)
      ensures storage == (if formData.activityType.Some? then Some(Json(ToDraft(formData))) else old(storage))
      ensures open && currentStep == old(currentStep) && showUnsavedDialog == old(showUnsavedDialog)
    {
      formData := formData.(maxParticipants := maxParticipants);
      SaveDraft();
    }

    method ChangeDescription(description: string)
      requires Valid() && open
      modifies this
      ensures Valid()
      ensures formData == old(formData).(description := description)
      ensures storage == (if formData.activityType.Some? then Some(Json(ToDraft(formData))) else old(storage))
      ensures open && currentStep == old(currentStep) && showUnsavedDialog == old(showUnsavedDialog)
    {
      formData := formData.(description := description);
      SaveDraft();
    }

    method ChangeAddDisclaimer(addDisclaimer: bool)
      requires Valid() && open
      modifies this
      ensures Valid()
      ensures formData == old(formData).(addDisclaimer := addDisclaimer)
      ensures storage == (if formData.activityType.Some? then Some(Json(ToDraft(formData))) else old(storage))
      ensures open && currentStep == old(currentStep) && showUnsavedDialog == old(showUnsavedDialog)
    {
      formData := formData.(addDisclaimer := addDisclaimer);
      SaveDraft();
    }

    method ChangeCoverPhoto(coverPhotoUrl: Option<string>)
      requires Valid() && open
      modifies this
      ensures Valid()
      ensures formData == old(formData).(coverPhotoUrl := coverPhotoUrl)
      ensures storage == (if formData.activityType.Some? then Some(Json(ToDraft(formData))) else old(storage))
      ensures open && currentStep == old(currentStep) && showUnsavedDialog == old(showUnsavedDialog)
    {
      formData := formData.(coverPhotoUrl := coverPhotoUrl);
      SaveDraft();
    }
  }
}

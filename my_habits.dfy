/**
 * The signed-in user's own habits: loading them (with the error notices in
 * their priority order), marking one complete without any same-day check,
 * the edit dialog that copies a habit into a form and sends it back, and
 * deletion.
 */
module MyHabits {
  import opened Wrappers
  import opened Habits
  import AxiosSecure
  import HabitDetails

  // ---------------------------------------------------------------------------
  // Category styling

  const Icons: map<string, Icon> := map[
    "Health & Fitness" := Dumbbell, "Productivity" := Zap, "Mindfulness" := Brain,
    "Learning" := BookOpen, "Social" := Users, "Other" := Sparkles]

  const Gradients: map<string, string> := map[
    "Health & Fitness" := "from-green-500 to-emerald-600",
    "Productivity" := "from-blue-500 to-indigo-600",
    "Mindfulness" := "from-purple-500 to-pink-600",
    "Learning" := "from-yellow-500 to-orange-600",
    "Social" := "from-cyan-500 to-blue-600",
    "Other" := "from-gray-500 to-slate-600"]

  const DefaultGradient: string := "from-orange-500 to-red-500"

  /** The six categories the edit dialog offers. */
  const CategoryNames: seq<string> := ["Health & Fitness", "Productivity", "Mindfulness", "Learning", "Social", "Other"]

  /** `icons[category] || Sparkles`. */
  function CategoryIcon(category: string): (r: Icon)
    ensures category in Icons ==> r == Icons[category]
    ensures category !in Icons ==> r == Sparkles
  {
    LookupOr(Icons, category, Sparkles)
  }

  /** `gradients[category] || 'from-orange-500 to-red-500'`. */
  function CategoryGradient(category: string): (r: string)
    ensures category in Gradients ==> r == Gradients[category]
    ensures category !in Gradients ==> r == DefaultGradient
  {
    LookupOr(Gradients, category, DefaultGradient)
  }

  /** Each of the six offered categories has its own entry in both tables. */
  lemma OfferedCategoriesStyled(i: nat)
    requires i < |CategoryNames|
    ensures CategoryNames[i] in Icons && CategoryNames[i] in Gradients
    ensures CategoryGradient(CategoryNames[i]) != DefaultGradient
  {
  }

  /** Any other category gets the Sparkles icon and the orange-to-red gradient. */
  lemma UnknownCategoryStyle(category: string)
    requires category !in Icons
    ensures CategoryIcon(category) == Sparkles && CategoryGradient(category) == DefaultGradient
  {
    assert Icons.Keys == Gradients.Keys;
  }

  /**
   * This page and the details page style every offered category alike,
   * except "Health & Fitness", which only this page's tables know.
   */
  lemma SameStyleAsDetailsPage(i: nat)
    requires i < |CategoryNames|
    ensures CategoryNames[i] != "Health & Fitness" ==>
              CategoryIcon(CategoryNames[i]) == HabitDetails.CategoryIcon(CategoryNames[i])
              && CategoryGradient(CategoryNames[i]) == HabitDetails.CategoryGradient(CategoryNames[i])
    ensures CategoryNames[i] == "Health & Fitness" ==>
              CategoryIcon(CategoryNames[i]) != HabitDetails.CategoryIcon(CategoryNames[i])
              && CategoryGradient(CategoryNames[i]) != HabitDetails.CategoryGradient(CategoryNames[i])
  {
    HabitDetails.HealthAndFitnessUnstyled();
  }

  // ---------------------------------------------------------------------------
  // Loading

  const NetworkMessage: string := "Cannot connect to server. Please check your backend URL."
  const SessionExpiredMessage: string := "Session expired. Please login again."
  const LoadFailedMessage: string := "Failed to load habits. Please try again."

  /**
   * The notice for a failed load: a network failure first, then an expired
   * session (status 401), then the generic notice.
   */
  function FetchErrorMessage(error: AxiosSecure.HttpError): (r: string)
    ensures r == NetworkMessage <==> error.code == Some("ERR_NETWORK")
    ensures r == SessionExpiredMessage <==> error.code != Some("ERR_NETWORK") && error.status == Some(401)
    ensures r == LoadFailedMessage <==> error.code != Some("ERR_NETWORK") && error.status != Some(401)
  {
    if error.code == Some("ERR_NETWORK") then NetworkMessage
    else if error.status == Some(401) then SessionExpiredMessage
    else LoadFailedMessage
  }

  const HabitsQueryPrefix: string := "/habits?userEmail="

  /** `/habits?userEmail=<email>`, where a missing email prints as "null". */
  function HabitsQuery(user: User): (r: string)
    ensures |HabitsQueryPrefix| <= |r| && r[..|HabitsQueryPrefix|] == HabitsQueryPrefix
    ensures user.email.Some? ==> r[|HabitsQueryPrefix|..] == user.email.value
    ensures user.email.None? ==> r[|HabitsQueryPrefix|..] == "null"
  {
    HabitsQueryPrefix + (if user.email.Some? then user.email.value else "null")
  }

  /** Users with different emails ask for different lists. */
  lemma HabitsQueryDistinguishesUsers(a: User, b: User)
    requires a.email.Some? && b.email.Some?
    ensures HabitsQuery(a) == HabitsQuery(b) <==> a.email == b.email
  {
    if HabitsQuery(a) == HabitsQuery(b) {
      assert a.email.value == HabitsQuery(a)[|HabitsQueryPrefix|..];
    }
  }

  /**
   * The query does not tell a user without an email from one whose email is
   * the text "null": both ask for `userEmail=null`.
   */
  lemma MissingEmailReadsAsNull(a: User, b: User)
    requires a.email.None? && b.email == Some("null")
    ensures HabitsQuery(a) == HabitsQuery(b)
  {
  }

  /** How `GET /habits?userEmail=…` settled. */
  datatype FetchReply =
    | Loaded(data: seq<Habit>)
    | FetchFailed(error: AxiosSecure.HttpError)

  /** A failed load the page can report: with no user the query cannot be built and the generic notice shows. */
  const NoUserError: AxiosSecure.HttpError := AxiosSecure.HttpError(None, None, None)

  // ---------------------------------------------------------------------------
  // Requests the page sends

  datatype Request =
    | Get(path: string)
    | Patch(path: string)
    | Put(path: string, body: HabitForm)
    | Delete(path: string)

  function HabitPath(id: string): string {
    "/habits/" + id
  }

  /** The edit dialog's starting form: the habit's fields, '' for a missing reminder time. */
  function EditForm(habit: Habit): (r: HabitForm)
    ensures r.Get(Title) == habit.title && r.Get(Description) == habit.description
    ensures r.Get(Category) == habit.category
    ensures Truthy(habit.reminderTime) ==> r.Get(ReminderTime) == habit.reminderTime.value
    ensures !Truthy(habit.reminderTime) ==> r.Get(ReminderTime) == ""
  {
    HabitForm(habit.title, habit.description, habit.category,
              if Truthy(habit.reminderTime) then habit.reminderTime.value else "")
  }

  /**
   * What one run of `fetchUserHabits` leaves behind, from the list it started
   * with: the request it sent, the list it shows and the notice it raised.
   */
  predicate Reloaded(user: Option<User>, reply: FetchReply, before: seq<Habit>, after: seq<Habit>,
                     request: Option<Request>, notice: Option<string>)
  {
    match user
    case None => request.None? && after == before && notice == Some(FetchErrorMessage(NoUserError))
    case Some(u) =>
      request == Some(Get(HabitsQuery(u)))
      && match reply
         case Loaded(data) => after == data && notice.None?
         case FetchFailed(error) => after == before && notice == Some(FetchErrorMessage(error))
  }

  class MyHabitsPage {
    const user: Option<User>
    var habits: seq<Habit>
    var loading: bool
    var showUpdateModal: bool
    var showDeleteModal: bool
    var selectedHabit: Option<Habit>
    var updateData: HabitForm

    constructor (user: Option<User>)
      ensures this.user == user && habits == [] && loading
      ensures !showUpdateModal && !showDeleteModal && selectedHabit.None? && updateData == EmptyForm
    {
      this.user := user;
      habits := [];
      loading := true;
      showUpdateModal := false;
      showDeleteModal := false;
      selectedHabit := None;
      updateData := EmptyForm;
    }

    /**
     * `fetchUserHabits`: the user's habits replace the list; a failure keeps
     * the list and picks its notice; `loading` ends false either way.
     */
    method FetchUserHabits(reply: FetchReply) returns (request: Option<Request>, notice: Option<string>)
      modifies this`habits, this`loading
      ensures !loading
      ensures Reloaded(user, reply, old(habits), habits, request, notice)
      ensures user.None? ==>
                request.None? && habits == old(habits) && notice == Some(FetchErrorMessage(NoUserError))
      ensures user.Some? ==> request == Some(Get(HabitsQuery(user.value)))
      ensures user.Some? && reply.Loaded? ==> habits == reply.data && notice.None?
      ensures user.Some? && reply.FetchFailed? ==>
                habits == old(habits) && notice == Some(FetchErrorMessage(reply.error))
    {
      loading := true;
      if user.None? {
        request, notice := None, Some(FetchErrorMessage(NoUserError));
      } else {
        request := Some(Get(HabitsQuery(user.value)));
        match reply {
          case Loaded(data) =>
            habits := data;
            notice := None;
          case FetchFailed(error) =>
            notice := Some(FetchErrorMessage(error));
        }
      }
      loading := false;
    }

    /**
     * `handleMarkComplete`: the completion request goes out whatever the
     * habit's history says; on success the list is loaded again.
     */
    method MarkComplete(habitId: string, succeeds: bool, refetch: FetchReply)
      returns (request: Request, reload: Option<Request>, notice: string, loadNotice: Option<string>)
      modifies this`habits, this`loading
      ensures request == Patch(HabitPath(habitId) + "/complete")
      ensures succeeds ==> notice == "Habit marked as complete!" && !loading
      ensures succeeds ==> Reloaded(user, refetch, old(habits), habits, reload, loadNotice)
      ensures !succeeds ==>
                notice == "Failed to mark habit as complete" && reload.None? && loadNotice.None?
                && habits == old(habits) && loading == old(loading)
    {
      request := Patch(HabitPath(habitId) + "/complete");
      reload, loadNotice := None, None;
      if succeeds {
        notice := "Habit marked as complete!";
        reload, loadNotice := FetchUserHabits(refetch);
      } else {
        notice := "Failed to mark habit as complete";
      }
    }

    /** `openUpdateModal`: the habit is selected, its fields fill the form and the dialog opens. */
    method OpenUpdateModal(habit: Habit)
      modifies this`selectedHabit, this`updateData, this`showUpdateModal
      ensures selectedHabit == Some(habit) && updateData == EditForm(habit) && showUpdateModal
    {
      selectedHabit := Some(habit);
      updateData := EditForm(habit);
      showUpdateModal := true;
    }

    /** `handleUpdateChange`: the named input takes the typed value and no other field moves. */
    method HandleUpdateChange(name: Field, value: string)
      modifies this`updateData
      ensures updateData.Get(name) == value
      ensures forall g :: g != name ==> updateData.Get(g) == old(updateData).Get(g)
    {
      updateData := updateData.With(name, value);
    }

    /**
     * `handleUpdate`: the form is sent for the selected habit; success closes
     * the dialog and loads the list again. Without a selected habit nothing
     * is sent and the update fails.
     */
    method HandleUpdate(succeeds: bool, refetch: FetchReply)
      returns (request: Option<Request>, notice: string, reload: Option<Request>, loadNotice: Option<string>)
      modifies this`habits, this`loading, this`showUpdateModal
      ensures selectedHabit.Some? ==> request == Some(Put(HabitPath(selectedHabit.value.id), updateData))
      ensures selectedHabit.Some? && succeeds ==> notice == "Habit updated successfully!" && !showUpdateModal && !loading
      ensures selectedHabit.Some? && succeeds ==> Reloaded(user, refetch, old(habits), habits, reload, loadNotice)
      ensures selectedHabit.None? || !succeeds ==>
                notice == "Failed to update habit" && showUpdateModal == old(showUpdateModal)
                && habits == old(habits) && loading == old(loading) && reload.None? && loadNotice.None?
      ensures selectedHabit.None? ==> request.None?
    {
      reload, loadNotice := None, None;
      if selectedHabit.None? {
        return None, "Failed to update habit", None, None;
      }
      request := Some(Put(HabitPath(selectedHabit.value.id), updateData));
      if succeeds {
        notice := "Habit updated successfully!";
        showUpdateModal := false;
        reload, loadNotice := FetchUserHabits(refetch);
      } else {
        notice := "Failed to update habit";
      }
    }

    /** `openDeleteModal`: the habit is selected and the confirmation opens. */
    method OpenDeleteModal(habit: Habit)
      modifies this`selectedHabit, this`showDeleteModal
      ensures selectedHabit == Some(habit) && showDeleteModal
    {
      selectedHabit := Some(habit);
      showDeleteModal := true;
    }

    /** `handleDelete`: like `handleUpdate`, with a delete request and the confirmation dialog. */
    method HandleDelete(succeeds: bool, refetch: FetchReply)
      returns (request: Option<Request>, notice: string, reload: Option<Request>, loadNotice: Option<string>)
      modifies this`habits, this`loading, this`showDeleteModal
      ensures selectedHabit.Some? ==> request == Some(Delete(HabitPath(selectedHabit.value.id)))
      ensures selectedHabit.Some? && succeeds ==> notice == "Habit deleted successfully!" && !showDeleteModal && !loading
      ensures selectedHabit.Some? && succeeds ==> Reloaded(user, refetch, old(habits), habits, reload, loadNotice)
      ensures selectedHabit.None? || !succeeds ==>
                notice == "Failed to delete habit" && showDeleteModal == old(showDeleteModal)
                && habits == old(habits) && loading == old(loading) && reload.None? && loadNotice.None?
      ensures selectedHabit.None? ==> request.None?
    {
      reload, loadNotice := None, None;
      if selectedHabit.None? {
        return None, "Failed to delete habit", None, None;
      }
      request := Some(Delete(HabitPath(selectedHabit.value.id)));
      if succeeds {
        notice := "Habit deleted successfully!";
        showDeleteModal := false;
        reload, loadNotice := FetchUserHabits(refetch);
      } else {
        notice := "Failed to delete habit";
      }
    }
  }

  /**
   * Opening the edit dialog and sending it untouched sends back exactly the
   * habit's title, description and category, and the reloaded list is shown.
   */
  method UntouchedEditKeepsFields(page: MyHabitsPage, habit: Habit, refetch: FetchReply) returns (request: Option<Request>)
    modifies page
    ensures request.Some? && request.value.Put?
    ensures request.value.path == HabitPath(habit.id)
    ensures request.value.body.title == habit.title && request.value.body.description == habit.description
    ensures request.value.body.category == habit.category
    ensures page.user.Some? && refetch.Loaded? ==> page.habits == refetch.data
  {
    page.OpenUpdateModal(habit);
    var notice, reload, loadNotice;
    request, notice, reload, loadNotice := page.HandleUpdate(true, refetch);
  }

  /**
   * The list page has no completed-today guard: for a habit the details page
   * refuses to mark again, this page still sends the completion request.
   */
  method OnlyDetailsPageGuards(details: HabitDetails.HabitDetailsPage, list: MyHabitsPage, now: Timestamp,
                               detailsReply: HabitDetails.CompleteReply, refetch: FetchReply)
    returns (fromDetails: Option<HabitDetails.CompleteRequest>, fromList: Request)
    requires HabitDetails.IsCompletedToday(details.habit, now)
    modifies details, list
    ensures fromDetails.None?
    ensures fromList == Patch(HabitPath(details.id) + "/complete")
  {
    var outcome;
    fromDetails, outcome := details.MarkComplete(now, detailsReply);
    var reload, notice, loadNotice;
    fromList, reload, notice, loadNotice := list.MarkComplete(details.id, true, refetch);
  }
}

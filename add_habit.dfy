/**
 * The create-habit page: a four-field form edited one named field at a time,
 * an optional picture hosted on an image service, the required-fields check,
 * the record sent to the backend and the reset after a successful create.
 */
module AddHabit {
  import opened Wrappers
  import opened Habits
  import HabitDetails
  import BrowsePublicHabits

  const ImgbbUploadUrl: string := "https://api.imgbb.com/1/upload?key="
  const RequiredFieldsMessage: string := "Please fill in all required fields"
  const CreateFailedMessage: string := "Failed to create habit. Please try again."

  /** The category buttons, in the order they are shown. */
  const CategoryNames: seq<string> := ["Health & Fitness", "Productivity", "Mindfulness", "Learning", "Social", "Other"]

  /** Every category a new habit can be given is also a filter button on the public browser. */
  lemma CategoriesAreBrowsable(i: nat)
    requires i < |CategoryNames|
    ensures BrowsePublicHabits.Find(BrowsePublicHabits.Categories, CategoryNames[i]).Some?
  {
    assert BrowsePublicHabits.Categories[i + 1].name == CategoryNames[i];
  }

  // ---------------------------------------------------------------------------
  // The image host

  /** How the image service answered: `data.data.url` may be missing from a response. */
  datatype ImgbbReply =
    | Hosted(url: Option<string>)
    | ImgbbFailed

  /** The upload address, or None when no key is configured and nothing is sent. */
  function ImgbbRequest(apiKey: string): (r: Option<string>)
    ensures r.None? <==> apiKey == ""
    ensures r.Some? ==> |ImgbbUploadUrl| <= |r.value| && r.value[..|ImgbbUploadUrl|] == ImgbbUploadUrl && r.value[|ImgbbUploadUrl|..] == apiKey
  {
    if apiKey == "" then None else Some(ImgbbUploadUrl + apiKey)
  }

  /**
   * `uploadImageToImgBB`: the hosted picture's address; None without a key
   * and when the upload fails, which the create then goes on without.
   */
  function UploadImageToImgBB(apiKey: string, reply: ImgbbReply): (r: Option<string>)
    ensures apiKey == "" || reply.ImgbbFailed? ==> r.None?
    ensures r.Some? ==> apiKey != "" && reply == Hosted(r)
    ensures apiKey != "" && reply.Hosted? ==> r == reply.url
  {
    if apiKey == "" then None
    else match reply
      case Hosted(url) => url
      case ImgbbFailed => None
  }

  // ---------------------------------------------------------------------------
  // Validation and the new record

  /** Title, description and category must be filled; the reminder time may be empty. */
  predicate MissingRequired(form: HabitForm): (r: bool)
    ensures r <==> form.Get(Title) == "" || form.Get(Description) == "" || form.Get(Category) == ""
  {
    form.title == "" || form.description == "" || form.category == ""
  }

  /** The reminder time never decides whether a form can be sent. */
  lemma ReminderTimeOptional(form: HabitForm, time: string)
    ensures MissingRequired(form.With(ReminderTime, time)) == MissingRequired(form)
  {
    assert form.With(ReminderTime, time).Get(Title) == form.Get(Title);
    assert form.With(ReminderTime, time).Get(Description) == form.Get(Description);
    assert form.With(ReminderTime, time).Get(Category) == form.Get(Category);
  }

  /** The body of `POST /habits`. */
  datatype NewHabit = NewHabit(
    title: string,
    description: string,
    category: string,
    reminderTime: string,
    imageUrl: Option<string>,
    userEmail: Option<string>,
    userName: Option<string>,
    createdAt: string)

  /**
   * `habitData`: the four form fields as typed, the picture's address, the
   * owner's email, and as owner name the display name when the user has one,
   * the email otherwise.
   */
  function HabitData(form: HabitForm, imageUrl: Option<string>, user: User, createdAt: string): (r: NewHabit)
    ensures r.title == form.title && r.description == form.description
    ensures r.category == form.category && r.reminderTime == form.reminderTime
    ensures r.imageUrl == imageUrl && r.userEmail == user.email && r.createdAt == createdAt
    ensures Truthy(user.displayName) ==> r.userName == user.displayName
    ensures !Truthy(user.displayName) ==> r.userName == user.email
  {
    NewHabit(form.title, form.description, form.category, form.reminderTime,
             imageUrl, user.email, Or(user.displayName, user.email), createdAt)
  }

  /**
   * A habit the backend stores from this record belongs, on the details page,
   * to the user who created it.
   */
  lemma CreatorOwnsHabit(form: HabitForm, imageUrl: Option<string>, user: User, createdAt: string, stored: Habit)
    requires stored.userEmail == HabitData(form, imageUrl, user, createdAt).userEmail
    ensures HabitDetails.IsUserHabit(Some(user), Some(stored))
  {
  }

  // ---------------------------------------------------------------------------
  // The page

  /** How `POST /habits` settled; `hasData` is whether the response body was truthy. */
  datatype PostReply =
    | PostResolved(hasData: bool)
    | PostFailed

  datatype SubmitOutcome =
    | Incomplete
    | Created
    | NothingReturned
    | NotCreated

  class AddHabitPage {
    const user: Option<User>
    var formData: HabitForm
    var imageFile: Option<File>
    var uploading: bool
    var submitting: bool

    constructor (user: Option<User>)
      ensures this.user == user
      ensures formData == EmptyForm && imageFile.None? && !uploading && !submitting
    {
      this.user := user;
      formData := EmptyForm;
      imageFile := None;
      uploading := false;
      submitting := false;
    }

    /** `handleChange`: the named input takes the typed value and no other field moves. */
    method HandleChange(name: Field, value: string)
      modifies this`formData
      ensures formData.Get(name) == value
      ensures forall g :: g != name ==> formData.Get(g) == old(formData).Get(g)
    {
      formData := formData.With(name, value);
    }

    /** A category button: only the category changes. */
    method SelectCategory(name: string)
      modifies this`formData
      ensures formData == old(formData).(category := name)
      ensures formData == old(formData).With(Category, name)
    {
      formData := formData.(category := name);
    }

    /** `handleImageChange`: a picked file replaces the current one; an empty pick keeps it. */
    method HandleImageChange(file: Option<File>)
      modifies this`imageFile
      ensures imageFile == if file.Some? then file else old(imageFile)
    {
      if file.Some? {
        imageFile := file;
      }
    }

    /**
     * `handleSubmit`. An incomplete form is refused before anything is sent.
     * Otherwise a chosen picture is hosted first (`imgbbRequest`), the record
     * is posted when a user is signed in (`posted`; without one the record
     * cannot be built and the create fails), and a response with a body
     * resets the form and the picture.
     */
    method Submit(apiKey: string, imgbb: ImgbbReply, createdAt: string, reply: PostReply)
      returns (imgbbRequest: Option<string>, posted: Option<NewHabit>, outcome: SubmitOutcome)
      modifies this
      ensures MissingRequired(old(formData)) ==>
                outcome == Incomplete && imgbbRequest.None? && posted.None?
                && formData == old(formData) && imageFile == old(imageFile)
                && submitting == old(submitting) && uploading == old(uploading)
      ensures !MissingRequired(old(formData)) ==> !submitting && uploading == (old(uploading) && old(imageFile).None?)
      ensures !MissingRequired(old(formData)) ==>
                imgbbRequest == (if old(imageFile).Some? then ImgbbRequest(apiKey) else None)
      ensures !MissingRequired(old(formData)) ==>
                posted == (if user.None? then None
                           else Some(HabitData(old(formData),
                                               if old(imageFile).Some? then UploadImageToImgBB(apiKey, imgbb) else None,
                                               user.value, createdAt)))
      ensures outcome == Created <==> posted.Some? && reply == PostResolved(true)
      ensures outcome == Created ==> formData == EmptyForm && imageFile.None?
      ensures outcome != Created ==> formData == old(formData) && imageFile == old(imageFile)
      ensures outcome == NotCreated <==> !MissingRequired(old(formData)) && (posted.None? || reply.PostFailed?)
      ensures outcome == Incomplete <==> MissingRequired(old(formData))
      ensures outcome == NothingReturned <==> posted.Some? && reply == PostResolved(false)
    {
      imgbbRequest, posted := None, None;
      if MissingRequired(formData) {
        return None, None, Incomplete;
      }
      submitting := true;
      var imageUrl := None;
      if imageFile.Some? {
        uploading := true;
        imgbbRequest := ImgbbRequest(apiKey);
        imageUrl := UploadImageToImgBB(apiKey, imgbb);
        uploading := false;
      }
      if user.None? {
        outcome := NotCreated;
      } else {
        posted := Some(HabitData(formData, imageUrl, user.value, createdAt));
        match reply {
          case PostResolved(hasData) =>
            if hasData {
              formData := EmptyForm;
              imageFile := None;
              outcome := Created;
            } else {
              outcome := NothingReturned;
            }
          case PostFailed =>
            outcome := NotCreated;
        }
      }
      submitting := false;
    }
  }
}

/**
 * The records the pages share: the identity provider's user, a habit as the
 * backend returns it, and the four-field habit form that both the create page
 * and the edit dialog hold.
 */
module Habits {
  import opened Wrappers

  /** Milliseconds since the Unix epoch, as `Date.prototype.getTime` gives them. */
  type Timestamp = int

  /** The signed-in user the identity provider reports; any of its strings may be null. */
  datatype User = User(uid: string, email: Option<string>, displayName: Option<string>, photoURL: Option<string>)

  /** A habit record as the backend serves it. */
  datatype Habit = Habit(
    id: string,
    title: string,
    description: string,
    category: string,
    reminderTime: Option<string>,
    imageUrl: Option<string>,
    userEmail: Option<string>,
    userName: Option<string>,
    createdAt: string,
    currentStreak: int,
    completionHistory: Option<seq<Timestamp>>)

  /** A file picked in a file input: its name, its MIME type and its size in bytes. */
  datatype File = File(name: string, mimeType: string, size: nat)

  /** The icon components the category lookups choose from. */
  datatype Icon = Dumbbell | Zap | Brain | BookOpen | Target | Users | Sparkles | Star

  /** JavaScript truthiness of a string that may be null: present and not empty. */
  predicate Truthy(s: Option<string>) {
    s.Some? && s.value != ""
  }

  /** `a || b` on strings that may be null. */
  function Or(a: Option<string>, b: Option<string>): Option<string> {
    if Truthy(a) then a else b
  }

  /** `obj[key] || fallback` on a lookup table whose values are all truthy. */
  function LookupOr<V>(table: map<string, V>, key: string, fallback: V): V {
    if key in table then table[key] else fallback
  }

  /** The named inputs of a habit form (`e.target.name`). */
  datatype Field = Title | Description | Category | ReminderTime

  /** The form state `{ title, description, category, reminderTime }`. */
  datatype HabitForm = HabitForm(title: string, description: string, category: string, reminderTime: string)
  {
    function Get(f: Field): string {
      match f
      case Title => title
      case Description => description
      case Category => category
      case ReminderTime => reminderTime
    }

    /** `{ ...form, [name]: value }`: the named field takes the value, every other field is kept. */
    function With(f: Field, value: string): (r: HabitForm)
      ensures r.Get(f) == value
      ensures forall g :: g != f ==> r.Get(g) == Get(g)
    {
      match f
      case Title => this.(title := value)
      case Description => this.(description := value)
      case Category => this.(category := value)
      case ReminderTime => this.(reminderTime := value)
    }
  }

  /** The state a form starts in and returns to after a successful create. */
  const EmptyForm: HabitForm := HabitForm("", "", "", "")

  /** Two forms that agree on every field are the same form. */
  lemma FormExtensionality(a: HabitForm, b: HabitForm)
    requires forall f :: a.Get(f) == b.Get(f)
    ensures a == b
  {
    assert a.Get(Title) == b.Get(Title) && a.Get(Description) == b.Get(Description);
    assert a.Get(Category) == b.Get(Category) && a.Get(ReminderTime) == b.Get(ReminderTime);
  }

  /** Writing the same field twice keeps only the second value. */
  lemma WithOverwrites(form: HabitForm, f: Field, v1: string, v2: string)
    ensures form.With(f, v1).With(f, v2) == form.With(f, v2)
  {
    var a := form.With(f, v1).With(f, v2);
    var b := form.With(f, v2);
    forall g ensures a.Get(g) == b.Get(g) {
      if g != f {
        assert a.Get(g) == form.With(f, v1).Get(g);
      }
    }
    FormExtensionality(a, b);
  }
}

/**
 * The public habit browser: a case-insensitive text search over title and
 * description combined with an exact category filter, the category styling
 * table, and the page state that keeps the shown list in step with the
 * search term, the selected category and the loaded habits.
 */
module BrowsePublicHabits {
  import opened Wrappers
  import opened Text
  import opened Habits
  import Seqs

  /** The category button meaning "no category filter". */
  const AllCategories: string := "All"

  /** The lowercased title or the lowercased description contains the lowercased term. */
  predicate MatchesSearch(habit: Habit, term: string) {
    Includes(Lower(habit.title), Lower(term)) || Includes(Lower(habit.description), Lower(term))
  }

  /** The habit's category is exactly the selected one. */
  predicate InCategory(habit: Habit, category: string) {
    habit.category == category
  }

  /** Whether `filterHabits` keeps a habit: an empty term and 'All' do not filter. */
  predicate Keeps(habit: Habit, term: string, category: string): (r: bool)
    ensures term == "" && category == AllCategories ==> r
    ensures r ==> category == AllCategories || habit.category == category
    ensures r && term != "" ==> MatchesSearch(habit, term)
    ensures ((term == "" || MatchesSearch(habit, term))
             && (category == AllCategories || habit.category == category)) ==> r
  {
    (term == "" || MatchesSearch(habit, term))
    && (category == AllCategories || InCategory(habit, category))
  }

  /** The list `filterHabits` shows: the habits that pass both tests, in their loaded order. */
  function Filtered(habits: seq<Habit>, term: string, category: string): (r: seq<Habit>)
    ensures forall i :: 0 <= i < |r| ==> Keeps(r[i], term, category)
    ensures forall h :: multiset(r)[h] == if Keeps(h, term, category) then multiset(habits)[h] else 0
  {
    Seqs.Filter(habits, h => Keeps(h, term, category))
  }

  /** The shown list is a subsequence of the loaded list: nothing is added or reordered. */
  lemma FilteredKeepsOrder(habits: seq<Habit>, term: string, category: string)
    ensures Seqs.IsSubsequence(Filtered(habits, term, category), habits)
  {
    Seqs.FilterIsSubsequence(habits, h => Keeps(h, term, category));
  }

  /**
   * A non-empty term keeps a habit exactly when its lowercased title or
   * lowercased description includes the lowercased term; any category but
   * 'All' keeps exactly the habits of that category.
   */
  lemma KeepsExactly(habit: Habit, term: string, category: string)
    ensures term != "" && category == AllCategories ==>
              (Keeps(habit, term, category) <==> Includes(Lower(habit.title), Lower(term))
                                                 || Includes(Lower(habit.description), Lower(term)))
    ensures term == "" && category != AllCategories ==>
              (Keeps(habit, term, category) <==> habit.category == category)
    ensures term != "" && category != AllCategories ==>
              (Keeps(habit, term, category) <==> MatchesSearch(habit, term) && habit.category == category)
  {
  }

  /** Searching is case-insensitive: the term and its lowercase form select the same habits. */
  lemma SearchIgnoresCase(habit: Habit, term: string)
    ensures MatchesSearch(habit, term) <==> MatchesSearch(habit, Lower(term))
  {
    LowerIdempotent(term);
  }

  /**
   * The `if (searchTerm)` guard changes nothing: every string includes the
   * empty term, so searching for '' would keep every habit anyway.
   */
  lemma EmptyTermMatchesAll(habit: Habit)
    ensures MatchesSearch(habit, "")
  {
    assert Lower("") == "";
    IncludesEmpty(Lower(habit.title));
  }

  /** Filtering the shown list again with the same settings changes nothing. */
  lemma FilterIdempotent(habits: seq<Habit>, term: string, category: string)
    ensures Filtered(Filtered(habits, term, category), term, category) == Filtered(habits, term, category)
  {
    Seqs.FilterIdempotent(habits, h => Keeps(h, term, category));
  }

  /** With the filters cleared (term '', category 'All') every loaded habit is shown. */
  lemma ClearedShowsAll(habits: seq<Habit>)
    ensures Filtered(habits, "", AllCategories) == habits
  {
    Seqs.FilterAllPass(habits, h => Keeps(h, "", AllCategories));
  }

  // ---------------------------------------------------------------------------
  // Category styling

  datatype CategoryStyle = CategoryStyle(name: string, icon: Icon, gradient: string)

  const Categories: seq<CategoryStyle> := [
    CategoryStyle("All", Sparkles, "from-purple-500 to-pink-500"),
    CategoryStyle("Health & Fitness", Dumbbell, "from-green-500 to-emerald-500"),
    CategoryStyle("Productivity", Zap, "from-blue-500 to-cyan-500"),
    CategoryStyle("Mindfulness", Brain, "from-purple-500 to-indigo-500"),
    CategoryStyle("Learning", BookOpen, "from-orange-500 to-amber-500"),
    CategoryStyle("Social", Users, "from-pink-500 to-rose-500"),
    CategoryStyle("Other", Star, "from-gray-500 to-slate-500")]

  const DefaultGradient: string := "from-gray-500 to-slate-500"

  /** `categories.find(cat => cat.name === name)`: the first entry with that name, if any. */
  function Find(styles: seq<CategoryStyle>, name: string): (r: Option<CategoryStyle>)
    ensures r.None? <==> forall i :: 0 <= i < |styles| ==> styles[i].name != name
    ensures r.Some? ==> exists i :: 0 <= i < |styles| && styles[i] == r.value && r.value.name == name
                                    && forall j :: 0 <= j < i ==> styles[j].name != name
  {
    if styles == [] then None
    else if styles[0].name == name then Some(styles[0])
    else
      var rest := Find(styles[1..], name);
      assert forall i :: 0 <= i < |styles| - 1 ==> styles[1..][i] == styles[i + 1];
      if rest.Some? then
        var i :| 0 <= i < |styles[1..]| && styles[1..][i] == rest.value && rest.value.name == name
                 && forall j :: 0 <= j < i ==> styles[1..][j].name != name;
        assert styles[i + 1] == rest.value;
        rest
      else rest
  }

  /** The icon of the first button with this name; Star when no button has it. */
  function CategoryIcon(name: string): (r: Icon)
    ensures (forall i :: 0 <= i < |Categories| ==> Categories[i].name != name) ==> r == Star
    ensures forall i :: (0 <= i < |Categories| && Categories[i].name == name
                          && (forall j :: 0 <= j < i ==> Categories[j].name != name)) ==> r == Categories[i].icon
  {
    match Find(Categories, name)
    case Some(style) => style.icon
    case None => Star
  }

  /** The gradient of the first button with this name; the default when no button has it. */
  function CategoryGradient(name: string): (r: string)
    ensures (forall i :: 0 <= i < |Categories| ==> Categories[i].name != name) ==> r == DefaultGradient
    ensures forall i :: (0 <= i < |Categories| && Categories[i].name == name
                          && (forall j :: 0 <= j < i ==> Categories[j].name != name)) ==> r == Categories[i].gradient
  {
    match Find(Categories, name)
    case Some(style) => style.gradient
    case None => DefaultGradient
  }

  /** A name outside the seven buttons gets the Star icon and the gray gradient. */
  lemma UnknownCategoryStyle(name: string)
    requires forall i :: 0 <= i < |Categories| ==> Categories[i].name != name
    ensures CategoryIcon(name) == Star && CategoryGradient(name) == DefaultGradient
  {
  }

  /** 'Other' is styled exactly like an unknown category. */
  lemma OtherLooksUnknown()
    ensures CategoryIcon("Other") == Star && CategoryGradient("Other") == DefaultGradient
  {
    assert forall i :: 0 <= i < 6 ==> |Categories[i].name| != |"Other"|;
    assert Categories[6].name == "Other";
  }

  // ---------------------------------------------------------------------------
  // Page state

  /** What `GET /habits/public` gives back. */
  datatype FetchReply =
    | Loaded(data: seq<Habit>)
    | FetchFailed(code: Option<string>)

  /** The notice for a failed load: a network failure is named as such. */
  function LoadFailureMessage(code: Option<string>): (r: string)
    ensures code == Some("ERR_NETWORK") <==> r == NetworkFailure
    ensures code != Some("ERR_NETWORK") ==> r == LoadFailed
  {
    assert |NetworkFailure| != |LoadFailed|;
    if code == Some("ERR_NETWORK") then NetworkFailure else LoadFailed
  }

  const NetworkFailure: string := "Cannot connect to server. Please check your backend URL."
  const LoadFailed: string := "Failed to load habits. Please try again."

  class BrowsePage {
    var habits: seq<Habit>
    var filteredHabits: seq<Habit>
    var searchTerm: string
    var selectedCategory: string
    var loading: bool

    /** The shown list always matches the loaded habits and the current filters. */
    ghost predicate Valid()
      reads this
    {
      filteredHabits == Filtered(habits, searchTerm, selectedCategory)
    }

    constructor ()
      ensures Valid()
      ensures habits == [] && filteredHabits == [] && searchTerm == "" && selectedCategory == AllCategories
      ensures loading
    {
      habits := [];
      filteredHabits := [];
      searchTerm := "";
      selectedCategory := AllCategories;
      loading := true;
    }

    /**
     * `filterHabits`: starts from the loaded habits, narrows them by the term
     * when it is not empty, then by the category when it is not 'All'.
     */
    method FilterHabits()
      modifies this`filteredHabits
      ensures Valid()
    {
      var term, category := searchTerm, selectedCategory;
      var filtered := habits;
      if term != "" {
        filtered := Seqs.Filter(filtered, h => MatchesSearch(h, term));
      }
      if category != AllCategories {
        filtered := Seqs.Filter(filtered, h => InCategory(h, category));
      }
      filteredHabits := filtered;
      ShowsFiltered(habits, searchTerm, selectedCategory);
    }

    /** Typing in the search box; the effect then filters again. */
    method SetSearchTerm(term: string)
      modifies this
      ensures Valid()
      ensures searchTerm == term
      ensures habits == old(habits) && selectedCategory == old(selectedCategory) && loading == old(loading)
    {
      searchTerm := term;
      FilterHabits();
    }

    /** Choosing a category button; the effect then filters again. */
    method SetCategory(name: string)
      modifies this
      ensures Valid()
      ensures selectedCategory == name
      ensures habits == old(habits) && searchTerm == old(searchTerm) && loading == old(loading)
    {
      selectedCategory := name;
      FilterHabits();
    }

    /** The "clear filters" button: every loaded habit is shown again. */
    method ClearFilters()
      modifies this
      ensures Valid()
      ensures searchTerm == "" && selectedCategory == AllCategories
      ensures filteredHabits == habits
      ensures habits == old(habits) && loading == old(loading)
    {
      searchTerm := "";
      selectedCategory := AllCategories;
      FilterHabits();
      ClearedShowsAll(habits);
    }

    /**
     * `fetchPublicHabits`: a successful load replaces the habits, and the
     * effect filters them; a failure keeps the old list and names the error;
     * either way `loading` ends false.
     */
    method FetchPublicHabits(reply: FetchReply) returns (message: Option<string>)
      requires Valid()
      modifies this`habits, this`filteredHabits, this`loading
      ensures Valid() && !loading
      ensures searchTerm == old(searchTerm) && selectedCategory == old(selectedCategory)
      ensures reply.Loaded? ==> habits == reply.data && message.None?
      ensures reply.FetchFailed? ==>
                habits == old(habits) && filteredHabits == old(filteredHabits)
                && message == Some(LoadFailureMessage(reply.code))
    {
      loading := true;
      match reply {
        case Loaded(data) =>
          Load(data);
          message := None;
        case FetchFailed(code) =>
          message := Some(LoadFailureMessage(code));
      }
      loading := false;
    }

    /** A successful load: `setHabits` and `setFilteredHabits` with the data, then the effect filters. */
    method Load(data: seq<Habit>)
      modifies this`habits, this`filteredHabits
      ensures Valid() && habits == data
      ensures filteredHabits == Filtered(data, searchTerm, selectedCategory)
    {
      habits := data;
      filteredHabits := data;
      FilterHabits();
    }
  }

  /** The two conditional filtering steps of `filterHabits` give exactly `Filtered`. */
  lemma ShowsFiltered(habits: seq<Habit>, term: string, category: string)
    ensures var bySearch := if term != "" then Seqs.Filter(habits, h => MatchesSearch(h, term)) else habits;
            (if category != AllCategories then Seqs.Filter(bySearch, h => InCategory(h, category)) else bySearch)
            == Filtered(habits, term, category)
  {
    var search := h => MatchesSearch(h, term);
    var inCategory := h => InCategory(h, category);
    var keeps := h => Keeps(h, term, category);
    if term != "" && category != AllCategories {
      Seqs.FilterFuse(habits, search, inCategory, keeps);
    } else if term != "" {
      Seqs.FilterExtensional(habits, search, keeps);
    } else if category != AllCategories {
      Seqs.FilterExtensional(habits, inCategory, keeps);
    } else {
      Seqs.FilterAllPass(habits, keeps);
    }
  }
}

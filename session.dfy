/** The session state of the page script and every handler that writes it:
    `init_session_state`, the signup, login, profile and logout buttons, the
    example and random buttons, the appearance selector and the search. */
module SessionState {
  import opened Wrappers
  import opened EmailValidation
  import opened AuthForms
  import opened Navigation
  import opened ResultComposer
  import opened TextHelpers

  // ---------------------------------------------------------------------
  // init_session_state
  // ---------------------------------------------------------------------

  /** The kinds of value the defaults table holds. */
  datatype StoredValue = Str(s: string) | Flag(b: bool) | NoneValue | EmptyList | EmptyDict

  /** The defaults table, in its order. */
  const Defaults: seq<(string, StoredValue)> := [
    ("page", Str("welcome")),
    ("search_results", NoneValue),
    ("all_movies_list", EmptyList),
    ("last_query", Str("")),
    ("user_info", EmptyDict),
    ("logged_in", Flag(false)),
    ("appearance", Str("dark"))
  ]

  /** A dict's keys are distinct. */
  ghost predicate DistinctKeys<V>(defaults: seq<(string, V)>) {
    forall i, j :: 0 <= i < j < |defaults| ==> defaults[i].0 != defaults[j].0
  }

  function Keys<V>(defaults: seq<(string, V)>): set<string> {
    set i | 0 <= i < |defaults| :: defaults[i].0
  }

  /** The store after each default is written when its key is missing. */
  function Fill<V>(store: map<string, V>, defaults: seq<(string, V)>): map<string, V>
    decreases |defaults|
  {
    if defaults == [] then store
    else
      var (key, value) := defaults[0];
      Fill(if key in store then store else store[key := value], defaults[1..])
  }

  /** Filling never overwrites a key that is present, installs each missing
      default, and adds no other key. */
  lemma {:induction false} FillSpec<V>(store: map<string, V>, defaults: seq<(string, V)>)
    requires DistinctKeys(defaults)
    ensures Fill(store, defaults).Keys == store.Keys + Keys(defaults)
    ensures forall k :: k in store ==> Fill(store, defaults)[k] == store[k]
    ensures forall i :: 0 <= i < |defaults| && defaults[i].0 !in store ==>
      Fill(store, defaults)[defaults[i].0] == defaults[i].1
    decreases |defaults|
  {
    if defaults != [] {
      var (key, value) := defaults[0];
      var next := if key in store then store else store[key := value];
      FillSpec(next, defaults[1..]);
      assert Keys(defaults) == {key} + Keys(defaults[1..]) by {
        forall k | k in Keys(defaults) ensures k in {key} + Keys(defaults[1..]) {
          var i :| 0 <= i < |defaults| && defaults[i].0 == k;
          if i > 0 { assert defaults[1..][i - 1].0 == k; }
        }
      }
      forall i | 0 <= i < |defaults| && defaults[i].0 !in store
        ensures Fill(store, defaults)[defaults[i].0] == defaults[i].1
      {
        if i > 0 {
          assert defaults[1..][i - 1] == defaults[i];
          assert defaults[i].0 != key;
        }
      }
    }
  }

  /** Running the initialisation again changes nothing. */
  lemma FillIdempotent<V>(store: map<string, V>, defaults: seq<(string, V)>)
    requires DistinctKeys(defaults)
    ensures Fill(Fill(store, defaults), defaults) == Fill(store, defaults)
  {
    var once := Fill(store, defaults);
    FillSpec(store, defaults);
    FillSpec(once, defaults);
    assert Keys(defaults) <= once.Keys by {
      forall k | k in Keys(defaults) ensures k in once.Keys {
        var i :| 0 <= i < |defaults| && defaults[i].0 == k;
      }
    }
  }

  /** The defaults table is a dict: no key appears twice. */
  lemma DefaultsDistinct()
    ensures DistinctKeys(Defaults)
  {
    var heads := seq(|Defaults|, i requires 0 <= i < |Defaults| => (Defaults[i].0[0], Defaults[i].0[1]));
    assert heads == [('p', 'a'), ('s', 'e'), ('a', 'l'), ('l', 'a'), ('u', 's'), ('l', 'o'), ('a', 'p')];
    forall i, j | 0 <= i < j < |Defaults| ensures Defaults[i].0 != Defaults[j].0 {
      assert heads[i] != heads[j];
    }
  }

  /** On a fresh session every default is installed, and the typed view of the
      session starts from the same values. */
  lemma FreshSessionDefaults()
    ensures DistinctKeys(Defaults)
    ensures Fill(map[], Defaults).Keys == Keys(Defaults)
    ensures forall i :: 0 <= i < |Defaults| ==> Fill(map[], Defaults)[Defaults[i].0] == Defaults[i].1
    ensures var s := Initial();
      && Defaults[0] == ("page", Str(s.page))
      && Defaults[1] == ("search_results", NoneValue) && s.search_results.None?
      && Defaults[2] == ("all_movies_list", EmptyList) && s.all_movies_list == []
      && Defaults[3] == ("last_query", Str(s.last_query))
      && Defaults[4] == ("user_info", EmptyDict) && s.user_info == map[]
      && Defaults[5] == ("logged_in", Flag(s.logged_in))
      && Defaults[6] == ("appearance", Str(s.appearance))
  {
    DefaultsDistinct();
    FillSpec(map[], Defaults);
  }

  /** `init_session_state`: the loop over the defaults. */
  method InitSessionState<V>(store: map<string, V>, defaults: seq<(string, V)>) returns (result: map<string, V>)
    ensures result == Fill(store, defaults)
  {
    result := store;
    var i := 0;
    while i < |defaults|
      invariant 0 <= i <= |defaults|
      invariant Fill(result, defaults[i..]) == Fill(store, defaults)
    {
      var (key, value) := defaults[i];
      assert defaults[i..][1..] == defaults[i + 1..];
      if key !in result {
        result := result[key := value];
      }
      i := i + 1;
    }
  }

  // ---------------------------------------------------------------------
  // The typed session
  // ---------------------------------------------------------------------

  /** The engine's answer to one `recommend` call. */
  datatype Outcome = Success(result: EngineResult) | Failure

  /** The session fields this page reads and writes. `top_n` and
      `query_input` are not among the defaults; `None` and `""` stand for
      their absence, which is how they are read. */
  datatype State = State(
    page: string,
    search_results: Option<EngineResult>,
    all_movies_list: seq<Entry>,
    last_query: string,
    user_info: map<string, string>,
    logged_in: bool,
    appearance: string,
    query_input: string,
    top_n: Option<nat>)

  /** The session right after `init_session_state` on a fresh session. */
  function Initial(): State {
    State("welcome", None, [], "", map[], false, "dark", "", None)
  }

  const ExampleQueries: seq<string> := [
    "Julia Roberts romances from the 90s",
    "Dark psychological thrillers with a strong female lead",
    "My girlfriend broke up with me - something to cheer me up",
    "Epic war movies set in ancient times",
    "90s action movies with Arnold Schwarzenegger",
    "Coming-of-age movies from the 2010s"
  ]

  const Appearances: seq<string> := ["dark", "light", "system"]

  /** Bounds of the "Results per Track" slider. */
  const MinTopN: nat := 5
  const MaxTopN: nat := 20

  /** The `top_n` the results panel uses: `st.session_state.get('top_n', 10)`. */
  function DisplayTopN(s: State): nat {
    s.top_n.GetOr(10)
  }

  /** The dict the profile page's "Next" passes to `user_info.update`. */
  function ProfileEntries(f: ProfileForm): map<string, string> {
    map[
      "first_name" := f.first_name, "last_name" := f.last_name,
      "dob_day" := f.dob_day, "dob_month" := f.dob_month, "dob_year" := f.dob_year,
      "gender" := f.gender, "phone_code" := f.phone_code, "phone_number" := f.phone_number,
      "city" := f.city, "state" := f.state, "country" := f.country]
  }

  /** `dict.update`: the new entries win, every other key keeps its value. */
  function Merge(m: map<string, string>, updates: map<string, string>): (r: map<string, string>)
    ensures r.Keys == m.Keys + updates.Keys
    ensures forall k :: k in updates ==> r[k] == updates[k]
    ensures forall k :: k in m && k !in updates ==> r[k] == m[k]
  {
    m + updates
  }

  /** One user action. */
  datatype Action =
    | Click(button: Button)
    | ChooseExample(index: nat)
    | ChooseRandom(pick: nat)
    | SubmitSearch(query: string, topN: nat, outcome: Outcome)
    | ChooseAppearance(appearance: string)

  /** A click: if it navigates, the button's own writes and then the page. */
  function ClickStep(s: State, b: Button): State {
    match Transition(Route(s.page), b)
    case None => s
    case Some(next) =>
      match b
      case SubmitSignup(email, _, _) =>
        s.(user_info := s.user_info["email" := email], logged_in := true, page := PageId(next))
      case SubmitLogin(email, _) =>
        s.(user_info := s.user_info["email" := email], logged_in := true, page := PageId(next))
      case Next(form) =>
        s.(user_info := Merge(s.user_info, ProfileEntries(form)), page := PageId(next))
      case LogOut =>
        s.(logged_in := false, user_info := map[], page := PageId(next), search_results := None)
      case _ =>
        s.(page := PageId(next))
  }

  /** The search: nothing is written when the engine fails; on success the
      result, query and `top_n` are stored first, and the list only if it can
      be built. */
  function SearchStep(s: State, query: string, topN: nat, outcome: Outcome): State {
    if Route(s.page) != Search || query == "" then s
    else
      match outcome
      case Failure => s
      case Success(r) =>
        var stored := s.(search_results := Some(r), last_query := query, top_n := Some(topN));
        match Flatten(r, topN)
        case Some(list) => stored.(all_movies_list := list)
        case None => stored
  }

  /** Whether the search shows an error: the engine failed or the list could
      not be built. */
  predicate SearchError(s: State, query: string, topN: nat, outcome: Outcome) {
    Route(s.page) == Search && query != "" && (outcome.Failure? || Flatten(outcome.result, topN).None?)
  }

  /** An example query is put in the query box and the old results dropped. */
  function ChooseQuery(s: State, query: string): State {
    s.(query_input := query, search_results := None, all_movies_list := [])
  }

  /** The session after one action. Buttons that are not on the rendered page
      change nothing. */
  function Step(s: State, a: Action): State {
    match a
    case Click(b) => ClickStep(s, b)
    case ChooseExample(i) =>
      if Route(s.page) == Search && i < |ExampleQueries| then ChooseQuery(s, ExampleQueries[i]) else s
    case ChooseRandom(pick) =>
      if Route(s.page) == Search then ChooseQuery(s, ExampleQueries[pick % |ExampleQueries|]) else s
    case SubmitSearch(query, topN, outcome) => SearchStep(s, query, topN, outcome)
    case ChooseAppearance(x) =>
      if Route(s.page) == Search && x != s.appearance then s.(appearance := x) else s
  }

  /** What the widgets can produce: the slider's range and the selector's
      options. */
  predicate WellFormed(a: Action) {
    match a
    case SubmitSearch(_, topN, _) => MinTopN <= topN <= MaxTopN
    case ChooseAppearance(x) => x in Appearances
    case _ => true
  }

  /** The session after a run of actions. */
  function Run(s: State, actions: seq<Action>): State
    decreases |actions|
  {
    if actions == [] then s else Run(Step(s, actions[0]), actions[1..])
  }

  /** What the handlers keep true: a logged-in session has a well-formed
      email; the profile and search pages are shown only when logged in; a
      stored result was obtained with a slider value; the stored list is the
      flattening of the stored result whenever that can be built; the
      appearance is one the selector offers. */
  ghost predicate Inv(s: State) {
    && (s.logged_in ==> "email" in s.user_info && ValidateEmail(s.user_info["email"]))
    && (Route(s.page) == Profile || Route(s.page) == Search ==> s.logged_in)
    && (s.search_results.Some? ==> s.top_n.Some? && MinTopN <= s.top_n.value <= MaxTopN)
    && (s.search_results.Some? && Flatten(s.search_results.value, s.top_n.value).Some? ==>
          s.all_movies_list == Flatten(s.search_results.value, s.top_n.value).value)
    && s.appearance in Appearances
  }

  lemma InitialInv()
    ensures Inv(Initial())
  {
  }

  lemma ClickKeepsInv(s: State, b: Button)
    requires Inv(s)
    ensures Inv(ClickStep(s, b))
  {
    var p := Route(s.page);
    match Transition(p, b)
    case None =>
    case Some(next) =>
      GuardedEntries(p, b);
      if b.Next? {
        assert "email" !in ProfileEntries(b.form);
      }
  }

  lemma StepKeepsInv(s: State, a: Action)
    requires Inv(s) && WellFormed(a)
    ensures Inv(Step(s, a))
  {
    if a.Click? { ClickKeepsInv(s, a.button); }
  }

  lemma {:induction false} RunKeepsInv(s: State, actions: seq<Action>)
    requires Inv(s)
    requires forall i :: 0 <= i < |actions| ==> WellFormed(actions[i])
    ensures Inv(Run(s, actions))
    decreases |actions|
  {
    if actions != [] {
      StepKeepsInv(s, actions[0]);
      RunKeepsInv(Step(s, actions[0]), actions[1..]);
    }
  }

  /** From a fresh session, the profile and search pages are reached only
      after a login or signup with a well-formed email. */
  lemma ReachedSearchIsLoggedIn(actions: seq<Action>)
    requires forall i :: 0 <= i < |actions| ==> WellFormed(actions[i])
    ensures var s := Run(Initial(), actions);
      Route(s.page) in {Profile, Search} ==>
        s.logged_in && "email" in s.user_info && ValidateEmail(s.user_info["email"])
  {
    InitialInv();
    RunKeepsInv(Initial(), actions);
  }

  /** An unknown stored page id renders the welcome page and stays stored
      until that page's own button replaces it. */
  lemma UnknownPageKept(s: State, a: Action)
    requires ParsePageId(s.page).None?
    ensures Route(s.page) == Welcome
    ensures a != Click(GetStarted) ==> Step(s, a).page == s.page
    ensures a == Click(GetStarted) ==> Step(s, a).page == "auth_menu"
  {
  }

  /** Whenever the results panel is drawn, the dropdown's list is exactly the
      drawn rows, ranks included. */
  lemma DropdownMatchesPanel(s: State)
    requires Inv(s)
    requires s.search_results.Some? && ResultsShown(s.search_results.value)
    ensures s.all_movies_list == DisplayedRows(s.search_results.value, DisplayTopN(s))
  {
    var r := s.search_results.value;
    DisplayedRowsAgree(r, DisplayTopN(s));
  }

  /** A failed engine call changes nothing; a successful one stores the result,
      the query and `top_n`, and the freshly built list when it can be built
      (else the old list stays, next to the new result). */
  lemma SearchEffects(s: State, query: string, topN: nat, outcome: Outcome)
    requires Route(s.page) == Search && query != ""
    ensures outcome.Failure? ==> Step(s, SubmitSearch(query, topN, outcome)) == s
    ensures outcome.Success? ==>
      var t := Step(s, SubmitSearch(query, topN, outcome));
      && t.search_results == Some(outcome.result) && t.last_query == query && t.top_n == Some(topN)
      && t.all_movies_list == Flatten(outcome.result, topN).GetOr(s.all_movies_list)
      && t.(search_results := s.search_results, last_query := s.last_query, top_n := s.top_n,
            all_movies_list := s.all_movies_list) == s
  {
  }

  /** Logout clears the login, the profile, the page and the stored result,
      but leaves the stored list as it was. */
  lemma LogOutEffects(s: State)
    requires Route(s.page) == Search
    ensures var t := Step(s, Click(LogOut));
      && !t.logged_in && t.user_info == map[] && t.page == "welcome" && t.search_results.None?
      && t.all_movies_list == s.all_movies_list
      && t.(logged_in := s.logged_in, user_info := s.user_info, page := s.page,
            search_results := s.search_results) == s
  {
  }

  /** An example button puts its own query in the box and clears the
      results and the list; nothing else changes. */
  lemma ChooseExampleClears(s: State, i: nat)
    requires Route(s.page) == Search && i < |ExampleQueries|
    ensures var t := Step(s, ChooseExample(i));
      && t.search_results.None? && t.all_movies_list == [] && t.query_input == ExampleQueries[i]
      && t.(query_input := s.query_input, search_results := s.search_results,
            all_movies_list := s.all_movies_list) == s
  {
  }

  /** The random button puts one of the example queries in the box and clears
      the results and the list; nothing else changes. */
  lemma ChooseRandomClears(s: State, pick: nat)
    requires Route(s.page) == Search
    ensures var t := Step(s, ChooseRandom(pick));
      && t.search_results.None? && t.all_movies_list == [] && t.query_input in ExampleQueries
      && t.(query_input := s.query_input, search_results := s.search_results,
            all_movies_list := s.all_movies_list) == s
  {
  }

  /** Saving the profile keeps every key the form does not set (the email
      above all) and greets by the entered first name, or "there". */
  lemma SaveProfileEffects(s: State, form: ProfileForm)
    requires Route(s.page) == Profile
    ensures var t := Step(s, Click(Next(form)));
      && Route(t.page) == Search
      && (forall k :: k in s.user_info && k !in ProfileEntries(form) ==> k in t.user_info && t.user_info[k] == s.user_info[k])
      && ("email" in s.user_info ==> "email" in t.user_info && t.user_info["email"] == s.user_info["email"])
      && Greeting(t.user_info) == (if form.first_name == "" then "there" else form.first_name)
  {
    assert "email" !in ProfileEntries(form);
  }

  // ---------------------------------------------------------------------
  // The session object
  // ---------------------------------------------------------------------

  /** `st.session_state`, with each handler as a method. */
  class Session {
    var page: string
    var searchResults: Option<EngineResult>
    var allMoviesList: seq<Entry>
    var lastQuery: string
    var userInfo: map<string, string>
    var loggedIn: bool
    var appearance: string
    var queryInput: string
    var topN: Option<nat>

    function Abstract(): State
      reads this
    {
      State(page, searchResults, allMoviesList, lastQuery, userInfo, loggedIn, appearance, queryInput, topN)
    }

    ghost predicate Valid()
      reads this
    {
      Inv(Abstract())
    }

    constructor ()
      ensures Abstract() == Initial() && Valid()
    {
      page := "welcome";
      searchResults := None;
      allMoviesList := [];
      lastQuery := "";
      userInfo := map[];
      loggedIn := false;
      appearance := "dark";
      queryInput := "";
      topN := None;
    }

    /** A button whose only effect is `navigate_to`: Get Started, Log In and
        Create Account on the auth menu, and every Back. */
    method Navigate(b: Button)
      requires Valid()
      requires b.GetStarted? || b.OpenLogin? || b.OpenSignup? || b.Back?
      modifies this
      ensures Valid()
      ensures Abstract() == Step(old(Abstract()), Action.Click(b))
    {
      ClickKeepsInv(Abstract(), b);
      match Transition(Route(page), b)
      case None =>
      case Some(next) =>
        page := PageId(next);
    }

    /** The Create Account button of the signup form (it does nothing while
        disabled). */
    method CreateAccount(email: string, password: string, verify: string)
      requires Valid() && Route(page) == Signup
      modifies this
      ensures Valid()
      ensures Abstract() == Step(old(Abstract()), Action.Click(SubmitSignup(email, password, verify)))
    {
      ClickKeepsInv(Abstract(), SubmitSignup(email, password, verify));
      if CanCreate(email, password, verify) {
        userInfo := userInfo["email" := email];
        loggedIn := true;
        page := PageId(Profile);
      }
    }

    /** The Log In button of the login form (it does nothing while disabled). */
    method LogIn(email: string, password: string)
      requires Valid() && Route(page) == Login
      modifies this
      ensures Valid()
      ensures Abstract() == Step(old(Abstract()), Action.Click(SubmitLogin(email, password)))
    {
      ClickKeepsInv(Abstract(), SubmitLogin(email, password));
      if CanLogin(email, password) {
        userInfo := userInfo["email" := email];
        loggedIn := true;
        page := PageId(Profile);
      }
    }

    /** The Next button of the profile page. */
    method SaveProfile(form: ProfileForm)
      requires Valid() && Route(page) == Profile
      modifies this
      ensures Valid()
      ensures Abstract() == Step(old(Abstract()), Action.Click(Next(form)))
    {
      ghost var after := ClickStep(Abstract(), Next(form));
      ClickKeepsInv(Abstract(), Next(form));
      var entries := ProfileEntries(form);
      assert after == Abstract().(user_info := Merge(userInfo, entries), page := PageId(Search));
      userInfo := Merge(userInfo, entries);
      page := PageId(Search);
      assert Abstract() == after;
    }

    /** The Log Out button in the search page's sidebar. */
    method LogOut()
      requires Valid() && Route(page) == Search
      modifies this
      ensures Valid()
      ensures Abstract() == Step(old(Abstract()), Action.Click(Button.LogOut))
    {
      ClickKeepsInv(Abstract(), Button.LogOut);
      loggedIn := false;
      userInfo := map[];
      page := PageId(Welcome);
      searchResults := None;
    }

    /** One of the example-query buttons in the sidebar. */
    method ChooseExample(i: nat)
      requires Valid() && Route(page) == Search && i < |ExampleQueries|
      modifies this
      ensures Valid()
      ensures Abstract() == Step(old(Abstract()), Action.ChooseExample(i))
    {
      queryInput := ExampleQueries[i];
      searchResults := None;
      allMoviesList := [];
    }

    /** The Random button; `pick` stands for the choice `random.choice` makes. */
    method ChooseRandom(pick: nat)
      requires Valid() && Route(page) == Search
      modifies this
      ensures Valid()
      ensures Abstract() == Step(old(Abstract()), Action.ChooseRandom(pick))
    {
      var query := ExampleQueries[pick % |ExampleQueries|];
      queryInput := query;
      searchResults := None;
      allMoviesList := [];
    }

    /** The appearance selector. */
    method ChooseAppearance(x: string)
      requires Valid() && Route(page) == Search && x in Appearances
      modifies this
      ensures Valid()
      ensures Abstract() == Step(old(Abstract()), Action.ChooseAppearance(x))
    {
      if x != appearance {
        appearance := x;
      }
    }

    /** The Search button with the query box's text and the slider's value;
        `outcome` is what `recommend` returned or that it raised. */
    method SubmitSearch(query: string, n: nat, outcome: Outcome) returns (error: bool)
      requires Valid() && Route(page) == Search && MinTopN <= n <= MaxTopN
      modifies this
      ensures Valid()
      ensures Abstract() == Step(old(Abstract()), Action.SubmitSearch(query, n, outcome))
      ensures error == SearchError(old(Abstract()), query, n, outcome)
    {
      error := false;
      if query != "" {
        match outcome
        case Failure =>
          error := true;
        case Success(result) =>
          searchResults := Some(result);
          lastQuery := query;
          topN := Some(n);
          var ok, allMovies := BuildMovieList(result, n);
          if ok {
            allMoviesList := allMovies;
          } else {
            error := true;
          }
      }
    }
  }
}

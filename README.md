# Kineto page logic, modelled in Dafny

Kineto is a Streamlit page script (`streamlit_app.py`) that takes a movie
query in plain text and shows recommendations from a separate recommendation
engine. This project models the script's deterministic logic and proves
properties of that model:

- **Form validation.** `validate_email` is a fixed ASCII pattern. The model
  describes it by split points: one `@`, then the last `.`, then at least two
  letters. The signup form's messages come in a fixed order. The Create
  Account and Log In buttons are enabled under stated conditions.
- **Page flow.** The router `main` maps the stored page id to a page, and the
  buttons call `navigate_to`. Pages form the enumerated type
  `Navigation.Page`, and the buttons drive a total transition function.
- **Result flattening.** The engine returns either one track or two. The
  search handler turns that result into the 1-indexed `(rank, title, record)`
  list that the detail dropdown uses. The model builds the list with append
  loops and proves it equal to a pure specification. It also proves that the
  list agrees with the rows the results panel draws.
- **Catalog resolution.** `get_movie_details` looks for a row whose title
  matches exactly (case-insensitive), then falls back to the first title that
  contains the query. It then projects nine fields through `safe_get`, with a
  default for each field.
- **Session state.** `init_session_state` fills in missing keys. The model
  covers each handler that writes the session: signup, login, profile, logout,
  the example and random buttons, the appearance selector and the search. The
  session is a class whose methods match a pure step function. Lemmas about
  that function prove the invariants the handlers keep.
- **String helpers.** These are the dropdown label `"{idx}. {title}"` and how a
  chosen label is parsed back, the overview truncation (600 and 150
  characters), and the greeting's fallback to `there`.

Files: `wrappers.dfy` (Option), `email.dfy`, `auth.dfy`, `navigation.dfy`,
`results.dfy`, `catalog.dfy`, `text.dfy`, `session.dfy`.

Behaviour of the code worth noting:

- `validate_email("a@b.c")` is false. The pattern needs a top-level domain of
  at least two letters.
- Logout sets `search_results` to `None` but keeps `all_movies_list`. So the
  list is not always empty when there is no result. The invariant proved
  instead: whenever the stored result can be flattened, the stored list is its
  flattening.
- The search page is reached only through the profile page. Signup and login
  both lead to the profile page.
- In `get_movie_details`, the default for `title` (the queried title) never
  applies. A row is matched only through a text title, and `safe_get` returns
  that title.

## Model

| member | source | states |
|---|---|---|
| EmailValidation.MatchesWholeShape | streamlit_app.py:130 | the anchored pattern matches s iff s = L + "@" + D + "." + T, with L non-empty over `[A-Za-z0-9._%+-]`, D non-empty over `[A-Za-z0-9.-]`, and T at least 2 ASCII letters |
| EmailValidation.ValidateEmailIff | streamlit_app.py:128-131 | `validate_email` accepts exactly the strings with that shape, and those shapes followed by one trailing newline (Python's `$`) |
| EmailValidation.ValidateEmailNoNewline | streamlit_app.py:128-131 | for a string without a newline, acceptance is exactly the split-point shape |
| EmailValidation.ValidateEmailRejects | streamlit_app.py:128-131 | "", "not-an-email" and "a@b.c" are rejected |
| EmailValidation.ValidateEmailAccepts | streamlit_app.py:234 | the form's placeholder address "your.email@example.com" is accepted |
| EmailValidation.IndexOf | streamlit_app.py:130 | returns the first `@`, or none exactly when there is no `@` |
| EmailValidation.LastIndexOf | streamlit_app.py:130 | returns the last `.` of the domain part, or none exactly when there is no `.` |
| AuthForms.SignupPrecedence | streamlit_app.py:238-244 | invalid email (if non-empty) wins over mismatch (both passwords non-empty and different), which wins over too short (non-empty and under 6); each message appears iff its rule breaks and no earlier rule does |
| AuthForms.MessagesDistinct | streamlit_app.py:239-244 | the three error texts are pairwise different, so the text shown identifies the rule |
| AuthForms.ErrorMessage | streamlit_app.py:238-247 | `error_msg` is None iff no rule is broken; otherwise it is the non-empty text of exactly the first broken rule, which `st.error` shows |
| AuthForms.CanCreateIff | streamlit_app.py:256 | Create Account is enabled iff the email is valid, the two passwords are equal, and the password has at least 6 characters |
| AuthForms.CanLoginIff | streamlit_app.py:281-295 | Log In is enabled iff the email is valid and the password is non-empty; there is no length rule |
| AuthForms.SignupExamples | streamlit_app.py:238-256 | "abc"/"abc" gives too short; "abcdef"/"abcdeg" gives mismatch; a bad email wins; a valid form enables Create |
| Navigation.ParsePageId | streamlit_app.py:757-770 | a recognised id names the page stored under that id |
| Navigation.RouteSpec | streamlit_app.py:755-772 | the router is total; each of the six ids renders its own page, and any other id renders welcome |
| Navigation.TransitionFollowsEdge | streamlit_app.py:180-379 | every click that navigates follows an edge of the graph (welcome to auth_menu; auth_menu to login, signup or welcome; login or signup to auth_menu or profile; profile to auth_menu or search; search to welcome); no click stays on its page |
| Navigation.EdgeHasButton | streamlit_app.py:180-379 | every edge of that graph is taken by some button |
| Navigation.GuardedEntries | streamlit_app.py:251-299 | profile is entered only by an enabled signup or login submit; search is entered only by Next on profile |
| ResultComposer.EnumerateRanked | streamlit_app.py:627-634 | `enumerate(ms, start)` yields the movies in order, ranked start, start+1, ..., each titled by its own `movie_title` |
| ResultComposer.AppendEnumerated | streamlit_app.py:627-634 | one append loop extends the list by exactly the enumerated tuples |
| ResultComposer.BuildMovieList | streamlit_app.py:621-636 | the append loops succeed iff the flattening exists and then build exactly that list; they fail (the slice raises) iff the result is not dual-track and has no `recommendations` |
| ResultComposer.FlattenDual | streamlit_app.py:622-631 | in dual-track mode: min(top_n, \|entity\|) entity movies in track order come first, then min(top_n, \|mood\|) mood movies; ranks continue from min(top_n, \|entity\|)+1; there is no re-sorting by score |
| ResultComposer.FlattenSingle | streamlit_app.py:632-634 | otherwise: the first min(top_n, \|recommendations\|) recommendations, ranked 1..n; with no `recommendations` the build fails |
| ResultComposer.FlattenRanks | streamlit_app.py:621-634 | for every shape, ranks are exactly 1..n in list order, titles are the records' `movie_title`, and at most top_n come from each track: in dual-track mode the first min(top_n, |entity|) records are the entity track's and the remaining min(top_n, |mood|) are the mood track's; otherwise there are min(top_n, |recommendations|) entries |
| ResultComposer.DisplayedRowsAgree | streamlit_app.py:672-698 | when the panel is drawn, its rows (entity column, then mood column, or the single list) are the flattened list, rank for rank |
| MovieResolver.Contains | streamlit_app.py:401 | the literal substring test holds iff the query occurs at some position |
| MovieResolver.FirstMatch | streamlit_app.py:397-406 | `iloc[0]` of a filter is the first row that passes it; none exactly when no row passes |
| MovieResolver.ExactIsSubstring | streamlit_app.py:397-401 | a row that passes the exact filter also passes the contains filter |
| MovieResolver.ResolveExactFirst | streamlit_app.py:396-397 | the first row whose lower-cased title equals the query is returned, even if an earlier row only contains the query |
| MovieResolver.ResolveSubstringFallback | streamlit_app.py:399-401 | if no title is equal, the first row whose title contains the query is returned |
| MovieResolver.ResolveNotFound | streamlit_app.py:403-406 | nothing is found iff no title contains the query; a found row is in the catalog and has a text title (a null title never matches) |
| MovieResolver.ResolveHeatExample | streamlit_app.py:396-406 | "Heat" resolves to the "Heat" row, not to an earlier "Heat Wave" |
| MovieResolver.SafeGet | streamlit_app.py:408-420 | a missing key, None, an empty list or tuple, or NaN gives the default; any other value comes back unchanged |
| MovieResolver.ProjectFields | streamlit_app.py:422-432 | no projected field is missing, None or NaN; blank fields get 'N/A' (year, runtime, vote_average), [] (directors, cast, production_companies, genres) or 'No overview available.' |
| MovieResolver.DetailsOfResolved | streamlit_app.py:403-432 | details exist iff the title resolves; the title field is then the catalog row's own title |
| MovieResolver.MissingRuntimeExample | streamlit_app.py:430 | a resolved row with no `runtime` shows 'N/A' |
| TextHelpers.DecimalText | streamlit_app.py:706 | `f"{idx}"` is a non-empty string of decimal digits with no leading zero |
| TextHelpers.DecimalTextValue | streamlit_app.py:706 | the digits of `f"{idx}"` denote idx itself, so each label shows its own rank |
| TextHelpers.FindSeparator | streamlit_app.py:715 | finds the first `". "`, or none exactly when the string has none |
| TextHelpers.LabelRoundTrip | streamlit_app.py:706-715 | splitting `"{idx}. {title}"` at its first `". "` gives back the title, whatever the title holds |
| TextHelpers.LabelIsNotPlaceholder | streamlit_app.py:706-714 | no label equals "Select a movie..." |
| TextHelpers.DropdownOptions | streamlit_app.py:706 | the options are the placeholder followed by one label per stored entry, in order |
| TextHelpers.SelectionRoundTrip | streamlit_app.py:705-716 | choosing the option of the k-th stored entry looks up that entry's title |
| TextHelpers.Truncate | streamlit_app.py:472-473 | text at or under the limit is unchanged; longer text keeps exactly its first `limit` characters followed by "..." |
| TextHelpers.DetailOverview | streamlit_app.py:471-473 | an overview of 600 characters or fewer is shown unchanged; a longer one is shown as its first 600 characters followed by "..." |
| TextHelpers.RowCaption | streamlit_app.py:488-492 | no caption iff the overview is missing or empty; otherwise the overview itself when it has 150 characters or fewer, and its first 150 characters followed by "..." when longer |
| TextHelpers.Greeting | streamlit_app.py:504-506 | the greeting name is never empty: it is the stored first name, or 'there' when that is missing or empty |
| SessionState.FillSpec | streamlit_app.py:34-36 | initialisation never overwrites a present key, installs every missing default, and adds no other key |
| SessionState.FillIdempotent | streamlit_app.py:23-38 | running the initialisation again (as every rerun does) changes nothing |
| SessionState.DefaultsDistinct | streamlit_app.py:25-33 | the defaults table has no repeated key |
| SessionState.FreshSessionDefaults | streamlit_app.py:25-36 | a fresh session receives exactly the seven defaults, and the typed session starts from the same values |
| SessionState.InitSessionState | streamlit_app.py:23-36 | the loop over the defaults produces the filled store |
| SessionState.Merge | streamlit_app.py:366-378 | `user_info.update`: the form's keys take the new values, and every other key keeps its value |
| SessionState.InitialInv | streamlit_app.py:23-36 | the fresh session satisfies the session invariant |
| SessionState.ClickKeepsInv | streamlit_app.py:253-299 | every navigating click keeps the invariant: logged in implies a valid stored email, and profile/search are shown only when logged in |
| SessionState.StepKeepsInv | streamlit_app.py:517-641 | every action the widgets can produce keeps the invariant, including that a flattenable stored result sits next to its own flattening |
| SessionState.RunKeepsInv | streamlit_app.py:755-772 | the invariant holds after any sequence of such actions |
| SessionState.ReachedSearchIsLoggedIn | streamlit_app.py:256-299 | from a fresh session, the profile and search pages are reached only when logged in with a valid email |
| SessionState.UnknownPageKept | streamlit_app.py:771-772 | an unknown page id renders welcome and is not rewritten until the welcome button is clicked |
| SessionState.DropdownMatchesPanel | streamlit_app.py:644-706 | whenever the results panel is drawn, the dropdown's list equals the drawn rows (using `top_n` as stored, default 10) |
| SessionState.SearchEffects | streamlit_app.py:604-641 | an engine failure changes nothing; success sets `search_results`, `last_query` and `top_n`, and sets `all_movies_list` to the freshly built list (kept as it was when the build raises); nothing else changes |
| SessionState.LogOutEffects | streamlit_app.py:569-574 | logout resets `logged_in`, `user_info`, `page` and `search_results`, leaves `all_movies_list` alone, and changes nothing else |
| SessionState.ChooseExampleClears | streamlit_app.py:557-561 | an example button puts its own query in the box, sets `search_results` to None and `all_movies_list` to [], and changes nothing else |
| SessionState.ChooseRandomClears | streamlit_app.py:592-598 | the random button puts one of the six example queries in the box, sets `search_results` to None and `all_movies_list` to [], and changes nothing else |
| SessionState.SaveProfileEffects | streamlit_app.py:364-379 | Next keeps every user_info key the form does not set (the email above all), moves to search, and greets by the entered first name or 'there' |
| SessionState.Session.constructor | streamlit_app.py:23-36 | a new session holds the defaults and satisfies the invariant |
| SessionState.Session.Navigate | streamlit_app.py:156-215 | a button whose only effect is `navigate_to` (Get Started, the auth menu's Log In and Create Account, and every Back) sets the page along the transition; the invariant is kept |
| SessionState.Session.CreateAccount | streamlit_app.py:255-260 | an enabled Create Account writes `user_info['email']` and `logged_in`, then moves to profile; a disabled one does nothing; the invariant is kept |
| SessionState.Session.LogIn | streamlit_app.py:294-299 | an enabled Log In writes `user_info['email']` and `logged_in`, then moves to profile; a disabled one does nothing; the invariant is kept |
| SessionState.Session.SaveProfile | streamlit_app.py:364-379 | Next merges the profile form into `user_info` and moves to search; the invariant is kept |
| SessionState.Session.LogOut | streamlit_app.py:569-574 | logout writes `logged_in`, `user_info`, `page` and `search_results` in source order; the invariant is kept |
| SessionState.Session.ChooseExample | streamlit_app.py:557-561 | an example button's writes, with the invariant kept |
| SessionState.Session.ChooseRandom | streamlit_app.py:592-598 | the Random button's writes, with the invariant kept |
| SessionState.Session.ChooseAppearance | streamlit_app.py:517-525 | the appearance selector's write, with the invariant kept |
| SessionState.Session.SubmitSearch | streamlit_app.py:604-641 | the search's writes in source order (result, query and top_n, then the list); reports an error iff the engine failed or the list could not be built |

## Left out

- Rendering is not modelled: layout, CSS and theme, the animated title, the logo (`os.path.exists`), the footer, and `st.rerun`. These are presentation and file I/O.
- `load_recommender` and the engine's `recommend` are not modelled. The engine's code is not part of this model. Its answer is an input, `Outcome` (either `Success(result)` or `Failure`). The preference mode is passed only to the engine, so it is not modelled either.
- The search timing (`time.time`, `search_time`) and the score formatting are left out. They are clock and floating-point values.
- `random.choice` is replaced by a parameter: `ChooseRandom(pick)` takes example `pick mod 6`.
- The profile widgets' option lists and the query-interpretation panel are left out; they are presentation only. The day and year choices are kept as text in `user_info`.
- The traceback shown on an error is reduced to an error flag. An engine failure changes no session state. A list build that raises (lines 621-634) leaves `search_results`, `last_query` and `top_n` as lines 615-618 already wrote them and keeps the old `all_movies_list`.
- `display_movie_details` rendering (the first 3 directors, 6 cast members, and so on) is presentation and is left out.
- The widget-state detail of the query box (its `key` versus the `query_input` value) is not modelled. The search takes the query text as an input.
- A result without `recommendations` makes the panel code at line 648 raise. The model only records that the panel is not drawn (`ResultsShown`).
- MovieResolver.Contains: pandas `str.contains` treats the query as a regular expression. The model uses a literal substring test.
- MovieResolver.Lower: Python's `str.lower` is Unicode-wide. The model lower-cases ASCII letters only.
- The `overview` of a recommended movie is text or absent (`Movie.overview`). A float NaN overview is not modelled. `display_movie_row` would show it as the caption "nan", because NaN is truthy.
- TextHelpers.DetailOverview: `str(overview)` of a non-text overview (a list or a number) is not modelled. The truncation is modelled on text.

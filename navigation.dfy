/** The page flow: the router `main` and the `navigate_to` calls made by the
    buttons of each page. The stored page id is a free string; the router
    maps it to a rendered page. */
module Navigation {
  import opened Wrappers
  import opened EmailValidation
  import opened AuthForms

  datatype Page = Welcome | AuthMenu | Signup | Login | Profile | Search

  /** The id each page is stored under in the session. */
  function PageId(p: Page): string {
    match p
    case Welcome => "welcome"
    case AuthMenu => "auth_menu"
    case Signup => "signup"
    case Login => "login"
    case Profile => "profile"
    case Search => "search"
  }

  /** The page named by a stored id, if the id is one of the six known ones. */
  function ParsePageId(id: string): (r: Option<Page>)
    ensures r.Some? ==> PageId(r.value) == id
  {
    if id == "welcome" then Some(Welcome)
    else if id == "auth_menu" then Some(AuthMenu)
    else if id == "signup" then Some(Signup)
    else if id == "login" then Some(Login)
    else if id == "profile" then Some(Profile)
    else if id == "search" then Some(Search)
    else None
  }

  /** `main`: the page rendered for the stored id; an unknown id renders the
      welcome page (the stored id itself is left as it is). */
  function Route(id: string): Page {
    ParsePageId(id).GetOr(Welcome)
  }

  /** The router is total and each known id renders its own page; every other
      id renders the welcome page. */
  lemma RouteSpec(id: string)
    ensures forall p :: PageId(p) == id ==> Route(id) == p
    ensures (forall p :: PageId(p) != id) ==> Route(id) == Welcome
  {
  }

  /** The contents of the profile form when "Next" is clicked. The day and
      year selections are kept as their text. */
  datatype ProfileForm = ProfileForm(
    first_name: string, last_name: string,
    dob_day: string, dob_month: string, dob_year: string,
    gender: string, phone_code: string, phone_number: string,
    city: string, state: string, country: string)

  /** The buttons that can move to another page. The submit buttons carry the
      form's contents, which decide whether they are enabled. */
  datatype Button =
    | GetStarted
    | OpenLogin
    | OpenSignup
    | Back
    | SubmitSignup(email: string, password: string, verify: string)
    | SubmitLogin(email: string, password: string)
    | Next(form: ProfileForm)
    | LogOut

  /** The page a click leads to, or `None` when the button is not on the page,
      is disabled, or does not navigate. */
  function Transition(p: Page, b: Button): Option<Page> {
    match (p, b)
    case (Welcome, GetStarted) => Some(AuthMenu)
    case (AuthMenu, OpenLogin) => Some(Login)
    case (AuthMenu, OpenSignup) => Some(Signup)
    case (AuthMenu, Back) => Some(Welcome)
    case (Signup, Back) => Some(AuthMenu)
    case (Signup, SubmitSignup(e, pw, v)) => if CanCreate(e, pw, v) then Some(Profile) else None
    case (Login, Back) => Some(AuthMenu)
    case (Login, SubmitLogin(e, pw)) => if CanLogin(e, pw) then Some(Profile) else None
    case (Profile, Back) => Some(AuthMenu)
    case (Profile, Next(_)) => Some(Search)
    case (Search, LogOut) => Some(Welcome)
    case _ => None
  }

  /** The page graph as drawn: welcome, the auth menu, the two forms, the
      profile and the search page. */
  predicate Edge(p: Page, q: Page) {
    || (p == Welcome && q == AuthMenu)
    || (p == AuthMenu && q in {Login, Signup, Welcome})
    || (p in {Login, Signup} && q in {AuthMenu, Profile})
    || (p == Profile && q in {AuthMenu, Search})
    || (p == Search && q == Welcome)
  }

  /** Every move follows an edge of the page graph. */
  lemma TransitionFollowsEdge(p: Page, b: Button)
    ensures Transition(p, b).Some? ==> Edge(p, Transition(p, b).value)
    ensures Transition(p, b) != Some(p)
  {
  }

  /** Every edge of the page graph is taken by some button. */
  lemma EdgeHasButton(p: Page, q: Page)
    requires Edge(p, q)
    ensures exists b :: Transition(p, b) == Some(q)
  {
    if p == Signup && q == Profile {
      var good := SomeValidEmail();
      CanCreateIff(good, "secret", "secret");
      assert Transition(p, SubmitSignup(good, "secret", "secret")) == Some(q);
    } else if p == Login && q == Profile {
      var good := SomeValidEmail();
      CanLoginIff(good, "secret");
      assert Transition(p, SubmitLogin(good, "secret")) == Some(q);
    } else {
      var b :=
        match (p, q)
        case (Welcome, _) => GetStarted
        case (AuthMenu, Login) => OpenLogin
        case (AuthMenu, Signup) => OpenSignup
        case (Profile, Search) => Next(ProfileForm("", "", "", "", "", "", "", "", "", "", ""))
        case (Search, _) => LogOut
        case _ => Back;
      assert Transition(p, b) == Some(q);
    }
  }

  /** The profile page is entered only from a form whose submit button was
      enabled, and the search page only from the profile page. */
  lemma GuardedEntries(p: Page, b: Button)
    ensures Transition(p, b) == Some(Profile) ==>
      || (p == Signup && b.SubmitSignup? && ValidateEmail(b.email) && b.password == b.verify
          && |b.password| >= MinPasswordLength)
      || (p == Login && b.SubmitLogin? && ValidateEmail(b.email) && b.password != "")
    ensures Transition(p, b) == Some(Search) ==> p == Profile && b.Next?
  {
    if b.SubmitSignup? { CanCreateIff(b.email, b.password, b.verify); }
    if b.SubmitLogin? { CanLoginIff(b.email, b.password); }
  }
}

/** The profile finder component: five pieces of state that the search form, the
    lookup and the theme button update one setter call at a time. */
module ProfileFinder {
  import opened Nullable
  import opened JsText
  import opened ProfileDisplay

  const UsersEndpoint: string := "https://api.github.com/users/"
  const NotFoundMessage: string := "User not found. Please check the username."
  const FetchFailedMessage: string := "Failed to fetch data. Please try again."

  /** How a lookup's request ended: an HTTP response with its status and decoded
      body, or an exception (from `fetch` itself or from `response.json()`) with its
      message. */
  datatype FetchOutcome = Answered(status: int, body: UserData) | Thrown(message: string)

  /** `response.ok`: the status is in the range 200-299. */
  predicate IsOkStatus(status: int) {
    200 <= status <= 299
  }

  /** The address a lookup requests: the username is appended as typed, untrimmed. */
  function RequestUrl(username: string): (url: string)
    ensures |url| == |UsersEndpoint| + |username|
    ensures url[..|UsersEndpoint|] == UsersEndpoint
    ensures url[|UsersEndpoint|..] == username
  {
    UsersEndpoint + username
  }

  /** The `userData` and `error` a lookup leaves: the body of an ok response, the
      not-found message for 404, the generic message for any other status, and the
      exception's own message when something threw. */
  function Settled(outcome: FetchOutcome): (r: (Option<UserData>, Option<string>))
    ensures r.0.Some? != r.1.Some?
    ensures r.0.Some? <==> outcome.Answered? && IsOkStatus(outcome.status)
    ensures r.0.Some? ==> r.0.value == outcome.body
    ensures outcome.Answered? && outcome.status == 404 ==> r.1 == Some(NotFoundMessage)
    ensures outcome.Answered? && !IsOkStatus(outcome.status) && outcome.status != 404
      ==> r.1 == Some(FetchFailedMessage)
    ensures outcome.Thrown? ==> r.1 == Some(outcome.message)
  {
    match outcome
    case Thrown(message) => (None, Some(message))
    case Answered(status, body) =>
      if !IsOkStatus(status) then
        if status == 404 then (None, Some(NotFoundMessage)) else (None, Some(FetchFailedMessage))
      else (Some(body), None)
  }

  /** The value the theme effect stores under 'github-theme'. */
  function PersistedTheme(isDarkMode: bool): (saved: string)
    ensures saved == "dark" <==> isDarkMode
    ensures saved == "light" <==> !isDarkMode
  {
    if isDarkMode then "dark" else "light"
  }

  /** Whether the load effect turns dark mode on: the saved value is 'dark', or
      nothing (null or '') is saved and the system prefers a dark scheme. */
  function ThemeOnLoad(saved: Option<string>, systemPrefersDark: bool): (dark: bool)
    ensures Truthy(saved) ==> (dark <==> saved == Some("dark"))
    ensures !Truthy(saved) ==> (dark <==> systemPrefersDark)
  {
    saved == Some("dark") || (!Truthy(saved) && systemPrefersDark)
  }

  /** A stored theme is restored on the next load, whatever the system prefers. */
  lemma ThemeRoundTrip(isDarkMode: bool, systemPrefersDark: bool)
    ensures ThemeOnLoad(Some(PersistedTheme(isDarkMode)), systemPrefersDark) == isDarkMode
  {
  }

  class Finder {
    var username: string
    var userData: Option<UserData>
    var loading: bool
    var error: Option<string>
    var isDarkMode: bool

    /** Every state the component reaches: while a request is out nothing is shown
        of the last one, and a lookup never leaves both a profile and an error. */
    ghost predicate Valid()
      reads this
    {
      (loading ==> userData.None? && error.None?)
      && !(userData.Some? && error.Some?)
    }

    /** The screens that render in this state. */
    function Screens(): (r: seq<Screen>)
      reads this
      ensures |r| == 1
      ensures r[0] == LoadingScreen <==> loading
      ensures r[0] == ProfileScreen ==> userData.Some?
      ensures r[0] == ErrorScreen ==> Truthy(error)
    {
      RenderedScreens(loading, userData.Some?, Truthy(error))
    }

    /** `disabled={!username.trim() || loading}` on the search button. */
    function SubmitDisabled(): (disabled: bool)
      reads this
      ensures disabled <==> loading || AllWhitespace(username)
    {
      BlankIffAllWhitespace(username);
      IsBlank(username) || loading
    }

    /** The initial `useState` values. */
    constructor ()
      ensures Valid()
      ensures username == "" && userData == None && !loading && error == None && !isDarkMode
      ensures Screens() == [DefaultScreen]
    {
      username := "";
      userData := None;
      loading := false;
      error := None;
      isDarkMode := false;
    }

    /** The input's onChange handler. */
    method SetUsername(value: string)
      requires Valid()
      modifies this
      ensures Valid()
      ensures username == value
      ensures userData == old(userData) && loading == old(loading)
      ensures error == old(error) && isDarkMode == old(isDarkMode)
    {
      username := value;
    }

    /** The start of `fetchUser`: nothing happens for a blank username; otherwise the
        loading screen replaces any earlier result and a request goes out. */
    method BeginLookup() returns (request: Option<string>)
      requires Valid()
      modifies this
      ensures Valid()
      ensures IsBlank(old(username)) ==> request == None && unchanged(this)
      ensures !IsBlank(old(username)) ==>
        && request == Some(RequestUrl(old(username)))
        && loading && userData == None && error == None
        && username == old(username) && isDarkMode == old(isDarkMode)
        && Screens() == [LoadingScreen]
      ensures old(!SubmitDisabled()) ==> request.Some?
    {
      if IsBlank(username) {
        return None;
      }
      loading := true;
      error := None;
      userData := None;
      request := Some(RequestUrl(username));
    }

    /** The end of `fetchUser`: the outcome sets `userData` or `error`, and the
        `finally` block clears `loading`. */
    method CompleteLookup(outcome: FetchOutcome)
      requires Valid() && loading
      modifies this
      ensures Valid()
      ensures !loading && (userData, error) == Settled(outcome)
      ensures username == old(username) && isDarkMode == old(isDarkMode)
      ensures outcome.Answered? && IsOkStatus(outcome.status) ==> Screens() == [ProfileScreen]
      ensures outcome.Answered? && !IsOkStatus(outcome.status) ==> Screens() == [ErrorScreen]
      ensures outcome.Thrown? ==>
        Screens() == if outcome.message != "" then [ErrorScreen] else [DefaultScreen]
    {
      match outcome {
        case Thrown(message) =>
          error := Some(message);
        case Answered(status, body) =>
          if !IsOkStatus(status) {
            if status == 404 {
              error := Some(NotFoundMessage);
            } else {
              error := Some(FetchFailedMessage);
            }
          } else {
            userData := Some(body);
          }
      }
      loading := false;
    }

    /** `fetchUser` run to the end, with the response it gets as a parameter. */
    method FetchUser(outcome: FetchOutcome) returns (request: Option<string>)
      requires Valid()
      modifies this
      ensures Valid()
      ensures IsBlank(old(username)) ==> request == None && unchanged(this)
      ensures !IsBlank(old(username)) ==>
        && request == Some(RequestUrl(old(username)))
        && !loading && (userData, error) == Settled(outcome)
        && username == old(username) && isDarkMode == old(isDarkMode)
    {
      request := BeginLookup();
      if request.Some? {
        CompleteLookup(outcome);
      }
    }

    /** The quick-search button as written: it sets the username, and the timer then
        runs the `fetchUser` of the render that drew the button, which still sees the
        username from before the click. */
    method QuickSearchAsWritten(name: string, outcome: FetchOutcome) returns (request: Option<string>)
      requires Valid()
      modifies this
      ensures Valid()
      ensures username == name && isDarkMode == old(isDarkMode)
      ensures IsBlank(old(username)) ==>
        request == None && userData == old(userData) && loading == old(loading) && error == old(error)
      ensures !IsBlank(old(username)) ==>
        request == Some(RequestUrl(old(username))) && !loading && (userData, error) == Settled(outcome)
    {
      var seen := username;
      username := name;
      if IsBlank(seen) {
        return None;
      }
      loading := true;
      error := None;
      userData := None;
      request := Some(RequestUrl(seen));
      CompleteLookup(outcome);
    }

    /** The quick-search button as intended: the lookup is for the name clicked. */
    method QuickSearch(name: string, outcome: FetchOutcome) returns (request: Option<string>)
      requires Valid()
      modifies this
      ensures Valid()
      ensures username == name && isDarkMode == old(isDarkMode)
      ensures !IsBlank(name) ==>
        request == Some(RequestUrl(name)) && !loading && (userData, error) == Settled(outcome)
    {
      username := name;
      request := FetchUser(outcome);
    }

    /** `handleReset`: back to an empty form; `loading` and the theme are kept. */
    method HandleReset()
      requires Valid()
      modifies this
      ensures Valid()
      ensures username == "" && userData == None && error == None
      ensures loading == old(loading) && isDarkMode == old(isDarkMode)
      ensures !loading ==> Screens() == [DefaultScreen]
    {
      username := "";
      userData := None;
      error := None;
    }

    /** `toggleTheme`: flips the theme, and with it the value the effect stores. */
    method ToggleTheme()
      requires Valid()
      modifies this
      ensures Valid()
      ensures isDarkMode == !old(isDarkMode)
      ensures PersistedTheme(isDarkMode) != PersistedTheme(old(isDarkMode))
      ensures username == old(username) && userData == old(userData)
      ensures loading == old(loading) && error == old(error)
    {
      isDarkMode := !isDarkMode;
    }

    /** The load effect: switches dark mode on when ThemeOnLoad says so and otherwise
        leaves the theme as it is. */
    method LoadTheme(saved: Option<string>, systemPrefersDark: bool)
      requires Valid()
      modifies this
      ensures Valid()
      ensures isDarkMode == (old(isDarkMode) || ThemeOnLoad(saved, systemPrefersDark))
      ensures username == old(username) && userData == old(userData)
      ensures loading == old(loading) && error == old(error)
    {
      if ThemeOnLoad(saved, systemPrefersDark) {
        isDarkMode := true;
      }
    }
  }

  /** Toggling the theme twice restores it. */
  method ToggleThemeTwice(f: Finder)
    requires f.Valid()
    modifies f
    ensures f.Valid()
    ensures f.isDarkMode == old(f.isDarkMode)
    ensures f.username == old(f.username) && f.userData == old(f.userData)
    ensures f.loading == old(f.loading) && f.error == old(f.error)
  {
    f.ToggleTheme();
    f.ToggleTheme();
  }

  /** A freshly mounted finder restores the theme another one stored. */
  method ReloadTheme(previous: Finder, systemPrefersDark: bool) returns (f: Finder)
    ensures fresh(f) && f.Valid()
    ensures f.isDarkMode == previous.isDarkMode
    ensures f.Screens() == [DefaultScreen]
  {
    f := new Finder();
    ThemeRoundTrip(previous.isDarkMode, systemPrefersDark);
    f.LoadTheme(Some(PersistedTheme(previous.isDarkMode)), systemPrefersDark);
  }

  const QuickSearchName: string := "AsifMhaldar"

  /** From the empty form, the quick-search button as written requests nothing. */
  method QuickSearchAsWrittenRequestsNothing(outcome: FetchOutcome) returns (request: Option<string>)
    ensures request == None
  {
    var f := new Finder();
    request := f.QuickSearchAsWritten(QuickSearchName, outcome);
  }

  /** From the empty form, the corrected button requests the clicked user. */
  method QuickSearchRequestsClickedUser(outcome: FetchOutcome) returns (request: Option<string>)
    ensures request == Some(RequestUrl(QuickSearchName))
  {
    var f := new Finder();
    BlankIffAllWhitespace(QuickSearchName);
    assert !IsJsWhitespace(QuickSearchName[0]);
    request := f.QuickSearch(QuickSearchName, outcome);
  }
}

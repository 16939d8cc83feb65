/** The application shell of App.tsx: the state fields of the `App` component and the
    event handlers that update them. Scrolling, timers and rendering are not modelled;
    notification ids, which the source takes from the clock, are passed in. */
module App {
  import opened Types
  import opened Strings
  import opened Ledger
  import opened Notifications

  /** Every state field of the `App` component, as one value. */
  datatype Shell = Shell(
    currentView: AppView,
    currentStaticPageId: string,
    user: Option<User>,
    showAuthModal: bool,
    authMode: AuthMode,
    notifications: seq<Notification>,
    selectedGame: GameType,
    selectedBlogId: Option<string>,
    selectedQuestionId: Option<string>,
    selectedWorksheetId: Option<string>,
    globalSearchQuery: string)

  /** The footer page ids that name a main view, and that view. */
  function FooterView(page: string): (v: Option<AppView>)
    ensures v.Some? <==> page in ["GAMES", "WORKSHEETS", "BLOG", "QNA"]
    ensures v == Some(Games) <==> page == "GAMES"
    ensures v == Some(Worksheets) <==> page == "WORKSHEETS"
    ensures v == Some(Blog) <==> page == "BLOG"
    ensures v == Some(QnA) <==> page == "QNA"
  {
    if page == "GAMES" then Some(Games)
    else if page == "WORKSHEETS" then Some(Worksheets)
    else if page == "BLOG" then Some(Blog)
    else if page == "QNA" then Some(QnA)
    else None
  }

  /** What the home search form submits: the untrimmed input, and only when it holds
      something other than whitespace. */
  function SearchSubmission(input: string): (r: Option<string>)
    ensures r.Some? <==> exists i :: 0 <= i < |input| && !IsWhitespace(input[i])
    ensures r.Some? ==> r.value == input
  {
    TrimEmptyIffBlank(input);
    if Trim(input) != "" then Some(input) else None
  }

  class AppState {
    /** `calculateRank` from `./types`. */
    const calculateRank: int -> string

    var currentView: AppView
    var currentStaticPageId: string
    var user: Option<User>
    var showAuthModal: bool
    var authMode: AuthMode
    var notifications: seq<Notification>
    var selectedGame: GameType
    var selectedBlogId: Option<string>
    var selectedQuestionId: Option<string>
    var selectedWorksheetId: Option<string>
    var globalSearchQuery: string

    ghost function Snapshot(): Shell
      reads this
    {
      Shell(currentView, currentStaticPageId, user, showAuthModal, authMode, notifications,
            selectedGame, selectedBlogId, selectedQuestionId, selectedWorksheetId, globalSearchQuery)
    }

    /** A signed-in account always satisfies the account invariant. */
    ghost predicate Valid()
      reads this
    {
      user.Some? ==> Consistent(user.value, calculateRank)
    }

    /** The initial `useState` values. */
    constructor (calculateRank: int -> string)
      ensures this.calculateRank == calculateRank && Valid()
      ensures Snapshot() == Shell(Home, "", None, false, LogIn, [], NoGame, None, None, None, "")
    {
      this.calculateRank := calculateRank;
      currentView, currentStaticPageId, user := Home, "", None;
      showAuthModal, authMode, notifications := false, LogIn, [];
      selectedGame, selectedBlogId, selectedQuestionId, selectedWorksheetId := NoGame, None, None, None;
      globalSearchQuery := "";
    }

    /** `addNotification`: the toast goes to the end of the list; its type is INFO
        unless the caller gives one. */
    method AddNotification(id: string, message: string, kind: Severity := Info)
      modifies this`notifications
      ensures notifications == old(notifications) + [Notification(id, message, kind)]
    {
      notifications := notifications + [Notification(id, message, kind)];
    }

    /** The toast timer firing for `id`. */
    method ExpireNotification(id: string)
      modifies this`notifications
      ensures notifications == RemoveById(old(notifications), id)
    {
      notifications := RemoveById(notifications, id);
    }

    /** `handleLogin`: signs in the mock account for the dialog's mode, closes the
        dialog and greets the user; the view is not changed. */
    method Login(noteId: string)
      modifies this
      ensures Valid()
      ensures var u := SignInUser(old(authMode), calculateRank);
              Snapshot() == old(Snapshot()).(user := Some(u), showAuthModal := false,
                notifications := old(notifications) + [Notification(noteId, Text(Welcome(u.name)), Success)])
    {
      var u := SignInUser(authMode, calculateRank);
      user := Some(u);
      showAuthModal := false;
      AddNotification(noteId, Text(Welcome(u.name)), Kind(Welcome(u.name)));
    }

    /** `handleLogout`: forgets the account and returns home; selections and the search
        query are kept. */
    method Logout(noteId: string)
      modifies this
      ensures Valid()
      ensures Snapshot() == old(Snapshot()).(user := None, currentView := Home,
                notifications := old(notifications) + [Notification(noteId, Text(LoggedOut), Info)])
    {
      user := None;
      currentView := Home;
      AddNotification(noteId, Text(LoggedOut), Kind(LoggedOut));
    }

    /** `handleUpdateUserPoints`: without a signed-in user nothing happens; otherwise
        the account is updated by `ApplyPoints` and its one message is shown. */
    method UpdateUserPoints(pointsToAdd: int, noteId: string)
      requires Valid()
      modifies this
      ensures Valid()
      ensures old(user).None? ==> Snapshot() == old(Snapshot())
      ensures old(user).Some? ==>
                var r := ApplyPoints(old(user).value, pointsToAdd, calculateRank);
                Snapshot() == old(Snapshot()).(user := Some(r.user),
                  notifications := old(notifications) + [Notification(noteId, Text(r.message), Success)])
    {
      if user.None? {
        return;
      }
      var r := ApplyPoints(user.value, pointsToAdd, calculateRank);
      ApplyPointsKeepsConsistent(user.value, pointsToAdd, calculateRank);
      AddNotification(noteId, Text(r.message), Kind(r.message));
      user := Some(r.user);
    }

    /** `navigateToView`: shows `view`, clears every deep-link selection, and clears the
        search query unless `view` is the search view. */
    method NavigateToView(view: AppView)
      modifies this
      ensures Snapshot() == old(Snapshot()).(currentView := view, selectedGame := NoGame,
                selectedBlogId := None, selectedQuestionId := None, selectedWorksheetId := None,
                globalSearchQuery := if view == Search then old(globalSearchQuery) else "")
    {
      selectedGame := NoGame;
      selectedBlogId := None;
      selectedQuestionId := None;
      selectedWorksheetId := None;
      if view != Search {
        globalSearchQuery := "";
      }
      currentView := view;
    }

    /** `handleGameSelect`: opens the game hub on `game`; nothing else is reset. */
    method GameSelect(game: GameType)
      modifies this
      ensures Snapshot() == old(Snapshot()).(selectedGame := game, currentView := Games)
    {
      selectedGame := game;
      currentView := Games;
    }

    /** `handleBlogSelect`. */
    method BlogSelect(id: string)
      modifies this
      ensures Snapshot() == old(Snapshot()).(selectedBlogId := Some(id), currentView := Blog)
    {
      selectedBlogId := Some(id);
      currentView := Blog;
    }

    /** `handleQuestionSelect`. */
    method QuestionSelect(id: string)
      modifies this
      ensures Snapshot() == old(Snapshot()).(selectedQuestionId := Some(id), currentView := QnA)
    {
      selectedQuestionId := Some(id);
      currentView := QnA;
    }

    /** `handleWorksheetSelect`. */
    method WorksheetSelect(id: string)
      modifies this
      ensures Snapshot() == old(Snapshot()).(selectedWorksheetId := Some(id), currentView := Worksheets)
    {
      selectedWorksheetId := Some(id);
      currentView := Worksheets;
    }

    /** `handleGlobalSearch`: stores the query as given and shows the results. */
    method GlobalSearch(query: string)
      modifies this
      ensures Snapshot() == old(Snapshot()).(globalSearchQuery := query, currentView := Search)
    {
      globalSearchQuery := query;
      currentView := Search;
    }

    /** `handleFooterNavigate`: the four main-view ids navigate as the header does (so
        they reset the selections and the query); any other id opens that static page
        and leaves the selections and the query alone. */
    method FooterNavigate(page: string)
      modifies this
      ensures FooterView(page).Some? ==>
                Snapshot() == old(Snapshot()).(currentView := FooterView(page).value,
                  selectedGame := NoGame, selectedBlogId := None, selectedQuestionId := None,
                  selectedWorksheetId := None, globalSearchQuery := "")
      ensures FooterView(page).None? ==>
                Snapshot() == old(Snapshot()).(currentStaticPageId := page, currentView := StaticPage)
    {
      var view := FooterView(page);
      if view.Some? {
        NavigateToView(view.value);
      } else {
        currentStaticPageId := page;
        currentView := StaticPage;
      }
    }

    /** `HomeView.handleSearchSubmit`: a non-blank input is handed, untrimmed, to the
        global search; a blank one does nothing. */
    method HomeSearchSubmit(input: string)
      modifies this
      ensures SearchSubmission(input).None? ==> Snapshot() == old(Snapshot())
      ensures SearchSubmission(input).Some? ==>
                Snapshot() == old(Snapshot()).(globalSearchQuery := input, currentView := Search)
    {
      var submitted := SearchSubmission(input);
      if submitted.Some? {
        GlobalSearch(submitted.value);
      }
    }

    /** The sign-in buttons and `onRequestLogin`: open the dialog. */
    method OpenAuthModal()
      modifies this`showAuthModal
      ensures showAuthModal
    {
      showAuthModal := true;
    }

    /** The dialog's close button. */
    method CloseAuthModal()
      modifies this`showAuthModal
      ensures !showAuthModal
    {
      showAuthModal := false;
    }

    /** The dialog's switch between signing in and registering. */
    method ToggleAuthMode()
      modifies this`authMode
      ensures authMode != old(authMode)
    {
      authMode := if authMode == LogIn then Register else LogIn;
    }
  }
}

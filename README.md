# Asking Kids: application shell, point system and game hub

This project models, in Dafny, the part of the Asking Kids web application that holds
logic. Asking Kids is a children's learning platform with games, worksheets, a parenting
blog and community Q&A. The logic modelled here is:

- the **centralised point system** of `App.tsx`: the mock sign-in baseline and
  `handleUpdateUserPoints`. Each call adds a delta to the points, recomputes the rank
  from the points, may award the crown badge on reaching the expert rank
  ("Chuyên gia"), and emits exactly one toast.
- the **application shell state** of `App.tsx`: the current view, the four deep-link
  selections, the global search query, the static page id, the sign-in dialog and the
  toast list. It also covers the navigation, footer, search and sign-in handlers that
  update them.
- the **game hub** of `src/components/GameHub.tsx`: the case-insensitive filter over
  the fixed game catalog, and the switch between the catalog grid and an open game.

Modules:

- `Types` (types.dfy): the view, game and toast-type enumerations.
- `Seqs` (seqs.dfy): subsequences and duplicate-freedom.
- `Strings` (strings.dfy): the JavaScript string operations the code relies on. These
  are `trim`, `includes` and writing an integer into a template literal.
- `Ledger` (ledger.dfy): the user record, the point update and its invariant.
- `Notifications` (notifications.dfy): toast removal by id.
- `App` (app.dfy): the `AppState` class with one method per handler. Each method states
  the component's whole state after the call as an update of the state before it.
- `GameHub` (game_hub.dfy): the catalog filter and the `Hub` class.

`calculateRank` is defined in `./types`, which is not part of this model. It is a
parameter of the point functions and a constant of `AppState`, so every result holds
for any ranking table. The account invariant is `Ledger.Consistent`: the stored rank is
`calculateRank` of the stored points, and no badge is held twice. `AppState.Valid`
requires it of any signed-in user, and every handler keeps it.

Three points about what the code does and does not do:

- Points are not clamped at zero: App.tsx:61 adds the delta as it is, so points can
  become negative. `ApplyPoints` states the exact sum.
- The only badge ever awarded is the crown. It is awarded on a rank change into
  "Chuyên gia", and only when it is not yet held (App.tsx:66-71). No other rank
  unlocks a badge.
- There is no speech-recognition practice logic: `SpeakingGame` renders a placeholder
  text (src/components/GameHub.tsx:131-134).

## Model

| member | source | states |
|---|---|---|
| `Ledger.SignInUser` | App.tsx:31-49 | the mock account starts with 50 points and badges `['🌱']`; its rank is `calculateRank(50)` after the placeholder is overwritten, so it satisfies the account invariant; the name depends on the dialog mode |
| `Ledger.ApplyPoints` | App.tsx:58-83 | new points = old points + delta, unclamped; rank = `calculateRank(new points)`; id, name, email and role unchanged; badges are the old ones, possibly with `'👑'` appended; the crown is appended iff the rank changed to "Chuyên gia" and it was not held; the one message is the promotion iff the rank changed, else `+N`, and is of type SUCCESS |
| `Ledger.ApplyPointsKeepsConsistent` | App.tsx:61-81 | one update yields an account whose rank matches its points and whose badges have no duplicates |
| `Ledger.ApplyAllInvariant` | App.tsx:58-83 | over any series of updates: points move by exactly the sum of the deltas; the invariant holds; the old badges stay first and in order; every new badge is the crown |
| `Ledger.PromotionReplayAwardsCrownOnce` | App.tsx:66-71 | a delta that first reaches "Chuyên gia" adds the crown once; applying it again, whatever rank that reaches, leaves the badges unchanged |
| `Ledger.NegativeDeltaMessage` | App.tsx:74 | for every negative delta the toast keeps the literal `+` before the minus sign: `+-` followed by the digits of the magnitude |
| `Ledger.Consistent` | App.tsx:44 | the account invariant: the stored rank is `calculateRank` of the stored points (App.tsx:44, 62, 80), and no badge is held twice |
| `Ledger.Text` | App.tsx:48-74 | the four toast texts of App.tsx:48, 54, 67 and 74; the greeting carries the name after `Xin chào `, the promotion carries the rank between closing quotes, and the points toast carries the decimal delta right after `+` |
| `Ledger.Kind` | App.tsx:48-74 | the toast type: INFO exactly for the sign-out message (App.tsx:54), SUCCESS for the greeting, promotion and points toasts (App.tsx:48, 67, 74) |
| `Strings.Trim` | App.tsx:415 | `trim`: the result is no longer than the input, and its first and last characters are not whitespace |
| `Strings.Contains` | src/components/GameHub.tsx:53-54 | `includes`: a text that starts with the query includes it, and a text shorter than the query does not |
| `Strings.DecimalString` | App.tsx:74 | the text `${pointsToAdd}` gives an integer: a leading minus sign exactly for negatives, then decimal digits |
| `Ledger.PointsMessageDeterminesDelta` | App.tsx:74 | two points toasts with the same text carry the same delta |
| `Strings.DecimalRoundTrip` | App.tsx:74 | the decimal text an integer is written as reads back as that integer |
| `Strings.TrimStart` | App.tsx:415 | the result is a suffix of the input; every removed character is whitespace; the result does not start with whitespace |
| `Strings.TrimEnd` | App.tsx:415 | the result is a prefix of the input; every removed character is whitespace; the result does not end with whitespace |
| `Strings.TrimEmptyIffBlank` | App.tsx:415 | the trimmed input is empty iff every character is whitespace |
| `Strings.ContainsIffOccurs` | src/components/GameHub.tsx:53-54 | `includes` holds iff the query occurs at some position of the text |
| `Strings.ContainsTransitive` | src/components/GameHub.tsx:53-54 | if a text includes `t` and `t` includes `u`, the text includes `u` |
| `Notifications.RemoveById` | App.tsx:89 | the result is an order-preserving subsequence of the list; it holds exactly the toasts whose id differs from the given id, each as often as before |
| `Notifications.ExpireUndoesAdd` | App.tsx:85-90 | expiring a just-added toast whose id is unique gives back the list from before the add |
| `Notifications.RemoveAbsentId` | App.tsx:89 | removing an id that no toast carries leaves the list unchanged |
| `Notifications.SharedIdExpiresBoth` | App.tsx:86-89 | two toasts created with the same clock id are removed together by one timer |
| `App.FooterView` | App.tsx:140-141 | exactly the ids `GAMES`, `WORKSHEETS`, `BLOG`, `QNA` name a main view, each its own |
| `App.SearchSubmission` | App.tsx:413-418 | the home search submits iff the input has a non-whitespace character, and then submits the untrimmed input |
| `App.AppState.constructor` | App.tsx:14-28 | the initial state: home view, no user, no toasts, no selections, empty query and page id, dialog closed in sign-in mode |
| `App.AppState.AddNotification` | App.tsx:85-87 | the toast is appended at the end of the list; its type defaults to INFO when the caller gives none |
| `App.AppState.ExpireNotification` | App.tsx:88-90 | the list becomes `RemoveById` of the old list |
| `App.AppState.Login` | App.tsx:31-49 | the user becomes the mock account for the dialog mode; the dialog closes; one SUCCESS greeting is appended; nothing else changes, and the invariant holds |
| `App.AppState.Logout` | App.tsx:51-55 | the user is cleared; the view becomes home; one INFO toast is appended; selections and query are kept |
| `App.AppState.UpdateUserPoints` | App.tsx:58-83 | with no user nothing changes and no toast is added; otherwise the user becomes `ApplyPoints` of the old user and its one message is appended; the invariant is kept |
| `App.AppState.NavigateToView` | App.tsx:94-106 | the view becomes `v`; the game selection becomes none; the blog, question and worksheet selections are cleared; the query is kept iff `v` is the search view, else it is cleared; nothing else changes |
| `App.AppState.GameSelect` | App.tsx:108-112 | the game selection and the games view are set; nothing else changes |
| `App.AppState.BlogSelect` | App.tsx:114-118 | the blog selection and the blog view are set; nothing else changes |
| `App.AppState.QuestionSelect` | App.tsx:120-124 | the question selection and the Q&A view are set; nothing else changes |
| `App.AppState.WorksheetSelect` | App.tsx:126-130 | the worksheet selection and the worksheets view are set; nothing else changes |
| `App.AppState.GlobalSearch` | App.tsx:132-136 | the query is stored as given and the search view is shown; nothing else changes |
| `App.AppState.FooterNavigate` | App.tsx:139-148 | a main-view id has the effect of `NavigateToView` of that view; any other id sets the static page id and the static page view, leaving selections and query alone |
| `App.AppState.HomeSearchSubmit` | App.tsx:413-418 | a blank input changes nothing; otherwise the untrimmed input becomes the query and the search view is shown |
| `App.AppState.OpenAuthModal` | App.tsx:203 | the sign-in dialog is open |
| `App.AppState.CloseAuthModal` | App.tsx:323 | the sign-in dialog is closed |
| `App.AppState.ToggleAuthMode` | App.tsx:349 | the dialog switches between signing in and registering |
| `GameHub.Catalog` | src/components/GameHub.tsx:25-50 | the three cards in display order (colours, maths, speaking); every card opens a game other than `NONE` |
| `GameHub.Matches` | src/components/GameHub.tsx:53-54 | a game matches iff the lowered query occurs at some position of its lowered title or of its lowered description |
| `GameHub.FilterGames` | src/components/GameHub.tsx:52-55 | the result is an order-preserving subsequence of the games; it keeps a game iff its lowered title or lowered description includes the lowered query, with the same number of copies |
| `GameHub.EmptyQueryKeepsAll` | src/components/GameHub.tsx:52-55 | the empty query keeps every game |
| `GameHub.SameLoweringSameGames` | src/components/GameHub.tsx:53-54 | two queries with the same lowering select the same games |
| `GameHub.CaseInsensitive` | src/components/GameHub.tsx:53-54 | a query and its lowered form select the same games |
| `GameHub.NarrowingQuery` | src/components/GameHub.tsx:52-55 | a query whose lowering includes the old one shows a subsequence of the old results |
| `GameHub.Hub.constructor` | src/components/GameHub.tsx:15-23 | on mount, the active game is the `initialGame` prop; the search box is empty |
| `GameHub.Hub.InitialGameEffect` | src/components/GameHub.tsx:19-23 | a prop other than `NONE` becomes the active game; `NONE` leaves it unchanged |
| `GameHub.Hub.ReceiveInitialGame` | src/components/GameHub.tsx:19-23 | the effect runs only when the prop changed |
| `GameHub.Hub.ShowsGrid` | src/components/GameHub.tsx:57 | the catalog grid is rendered exactly when the active game is `NONE` |
| `GameHub.Hub.Visible` | src/components/GameHub.tsx:52-55 | the cards the grid renders: catalog cards in catalog order, each opening a real game and each matching the search box |
| `GameHub.Hub.SetSearchQuery` | src/components/GameHub.tsx:66 | the search box holds the typed text |
| `GameHub.Hub.SelectCard` | src/components/GameHub.tsx:74-78 | clicking a visible card makes its game active, which hides the grid |
| `GameHub.Hub.Back` | src/components/GameHub.tsx:100-101 | the back button clears the active game, which shows the grid |

## Left out

- Speech recognition, pronunciation scoring and the practice round state machine are
  not modelled. The code has no such logic: `SpeakingGame`, `ColorGame` and `MathGame`
  render placeholder text (src/components/GameHub.tsx:121-134). The AI service
  (`services/geminiService`) is not part of this model.
- The body of `calculateRank` and the `RANK_SYSTEM` table are not part of this model.
  `calculateRank` is a parameter, so no thresholds are assumed.
- `toLowerCase` is a library case mapping and is the parameter `lower`. Case
  insensitivity is proved for queries on which `lower` is idempotent. The empty-query
  result is proved for a `lower` that maps the empty text to itself.
- Numbers: points and deltas are JavaScript numbers. They are modelled as unbounded
  integers, so fractions, rounding and the exponent notation of very large numbers in
  `+${pointsToAdd}` are not modelled.
- Notification ids come from `Date.now()` and expiry from a 4000 ms timer
  (App.tsx:86-90). Ids are parameters, and expiry is the explicit
  `ExpireNotification`.
- `window.scrollTo`, all rendering, icons and CSS, and the email and password fields
  of the sign-in dialog (which are never read) are not modelled. The avatar URL (built
  from the clock, App.tsx:37) is not kept in the user record.
- React batching and closures: each handler is modelled as one atomic update of the
  current state. The source's updates of `user` read the state captured when the
  handler was created, so two point updates within one event would lose the first.
  The model does not show this, because no shown caller makes two such calls.
- Mounting the hub: App.tsx:244 mounts `GameHub` with `initialGame = selectedGame`
  only while the games view is shown. The two classes are modelled separately, and the
  hub's state is not discarded when the view changes.
- The footer cast `page as AppView` assumes that the enumeration values of the four
  main views are the strings `GAMES`, `WORKSHEETS`, `BLOG` and `QNA`. The guard
  `initialGame && initialGame !== NONE` is modelled as `initialGame != NONE`. Both
  depend on `./types`, which is not part of this model.
- `QnASection`, `ParentingBlog` and `WorksheetLibrary` only read context and render
  headings. The mock featured blogs, questions and worksheets of the home view are
  static data.

/** Enumerations shared by the application shell and the game hub.
    The real `AppView` and `GameType` enums live in `./types`, which is not part of
    this model; the constructors below are the ones App.tsx and GameHub.tsx use. */
module Types {

  /** The screen the application shell shows (`AppView`). */
  datatype AppView = Home | Games | Worksheets | Blog | QnA | Search | StaticPage

  /** The game chosen in the hub (`GameType`); `NoGame` is `GameType.NONE`. */
  datatype GameType = NoGame | Color | Math | Speaking

  /** The type tag of a toast notification. */
  datatype Severity = Info | Success | Warning

  /** A value that may be missing (a `string | null` selection). */
  datatype Option<+T> = None | Some(value: T)
}

/** The user record and the centralised point system of App.tsx: the mock sign-in
    baseline and `handleUpdateUserPoints`, as pure transformations of a user record.
    `calculateRank` lives in `./types`, which is not part of this model; it is a
    parameter everywhere, so nothing here depends on its thresholds. */
module Ledger {
  import opened Types
  import opened Seqs
  import Strings

  /** The badge awarded on reaching the expert rank. */
  const Crown: string := "👑"
  /** The badge every new account starts with. */
  const Sprout: string := "🌱"
  /** The rank whose first reach awards the crown. */
  const Expert: string := "Chuyên gia"
  /** The placeholder rank written before it is recomputed at sign-in. */
  const NewMember: string := "Thành viên mới"
  /** The points a freshly signed-in account starts with. */
  const BaselinePoints: int := 50

  /** The signed-in account. Points are a JavaScript number holding an integer; nothing
      bounds them below. */
  datatype User = User(id: string, name: string, email: string, rank: string,
                       points: int, badges: seq<string>, role: string)

  /** Which form of the sign-in dialog is open. */
  datatype AuthMode = LogIn | Register

  /** The user-facing messages the core emits. */
  datatype Message =
    | Welcome(name: string)
    | LoggedOut
    | Promoted(rank: string)
    | PointsAwarded(delta: int)

  /** The toast text of a message. Each text carries its parameter at a fixed place:
      the name after the greeting, the rank between the closing quotes, the number
      after the plus sign. */
  function Text(m: Message): (r: string)
    ensures m.Welcome? ==>
              |r| >= 9 + |m.name| && r[..9] == "Xin chào " && r[9..9 + |m.name|] == m.name
    ensures m.Promoted? ==>
              |r| >= |m.rank| + 2 && r[|r| - |m.rank| - 2] == '"' && r[|r| - 1] == '"'
              && r[|r| - |m.rank| - 1..|r| - 1] == m.rank
    ensures m.PointsAwarded? ==>
              var digits := Strings.DecimalString(m.delta);
              |r| > |digits| && r[0] == '+' && r[1..1 + |digits|] == digits
  {
    match m
    case Welcome(name) => "Xin chào " + name + "! Chào mừng quay trở lại."
    case LoggedOut => "Đã đăng xuất thành công."
    case Promoted(rank) => "🎉 CHÚC MỪNG! Bạn đã thăng hạng lên \"" + rank + "\""
    case PointsAwarded(delta) => "+" + Strings.DecimalString(delta) + " điểm uy tín!"
  }

  /** The toast type of a message: only the sign-out message is INFO. */
  function Kind(m: Message): (k: Severity)
    ensures k == Info <==> m.LoggedOut?
    ensures k != Info ==> k == Success
  {
    if m.LoggedOut? then Info else Success
  }

  /** The account invariant: the stored rank is the rank of the stored points, and no
      badge is held twice. */
  predicate Consistent(u: User, calculateRank: int -> string) {
    u.rank == calculateRank(u.points) && NoDuplicates(u.badges)
  }

  /** The mock account `handleLogin` builds: its rank is first the new-member
      placeholder and is then recomputed from the points. */
  function SignInUser(mode: AuthMode, calculateRank: int -> string): (u: User)
    ensures u.points == BaselinePoints && u.badges == [Sprout]
    ensures Consistent(u, calculateRank)
    ensures u.name == (if mode == LogIn then "Mẹ Bắp" else "Người dùng mới")
  {
    var draft := User("u1", if mode == LogIn then "Mẹ Bắp" else "Người dùng mới",
                      "user@example.com", NewMember, BaselinePoints, [Sprout], "USER");
    draft.(rank := calculateRank(draft.points))
  }

  /** The result of one points update: the new record and the one message it emits. */
  datatype PointsUpdate = PointsUpdate(user: User, message: Message)

  /** `handleUpdateUserPoints` for a signed-in user. */
  function ApplyPoints(u: User, pointsToAdd: int, calculateRank: int -> string): (r: PointsUpdate)
    // the delta is added exactly, with no clamping
    ensures r.user.points == u.points + pointsToAdd
    // the rank is never set independently of the points
    ensures r.user.rank == calculateRank(r.user.points)
    // identity fields are untouched
    ensures r.user.(points := u.points, rank := u.rank, badges := u.badges) == u
    // badges only grow, by the crown at most
    ensures r.user.badges == u.badges || r.user.badges == u.badges + [Crown]
    ensures r.user.badges != u.badges <==>
              r.user.rank != u.rank && r.user.rank == Expert && Crown !in u.badges
    // one notification: a promotion when the rank changes, else the points message
    ensures r.message == (if r.user.rank != u.rank then Promoted(r.user.rank) else PointsAwarded(pointsToAdd))
    ensures Kind(r.message) == Success
  {
    var newPoints := u.points + pointsToAdd;
    var newRank := calculateRank(newPoints);
    var promoted := newRank != u.rank;
    var badges := if promoted && newRank == Expert && Crown !in u.badges then u.badges + [Crown] else u.badges;
    PointsUpdate(u.(points := newPoints, rank := newRank, badges := badges),
                 if promoted then Promoted(newRank) else PointsAwarded(pointsToAdd))
  }

  /** A points update keeps the account invariant, whatever the record held before
      (the rank is recomputed, and the crown is only added when absent). */
  lemma ApplyPointsKeepsConsistent(u: User, pointsToAdd: int, calculateRank: int -> string)
    requires NoDuplicates(u.badges)
    ensures Consistent(ApplyPoints(u, pointsToAdd, calculateRank).user, calculateRank)
  {
    var r := ApplyPoints(u, pointsToAdd, calculateRank);
    if r.user.badges != u.badges {
      AppendFresh(u.badges, Crown);
    }
  }

  /** The user after a series of points updates, applied left to right. */
  function ApplyAll(u: User, deltas: seq<int>, calculateRank: int -> string): User
    decreases |deltas|
  {
    if deltas == [] then u
    else ApplyAll(ApplyPoints(u, deltas[0], calculateRank).user, deltas[1..], calculateRank)
  }

  function Sum(xs: seq<int>): int {
    if xs == [] then 0 else xs[0] + Sum(xs[1..])
  }

  /** Over any series of updates: the points move by exactly the sum of the deltas, the
      invariant holds throughout, the old badges stay first and in order, and every
      badge gained is the crown, held at most once — replaying a promotion never
      duplicates it. */
  lemma {:induction false} ApplyAllInvariant(u: User, deltas: seq<int>, calculateRank: int -> string)
    requires Consistent(u, calculateRank)
    ensures ApplyAll(u, deltas, calculateRank).points == u.points + Sum(deltas)
    ensures Consistent(ApplyAll(u, deltas, calculateRank), calculateRank)
    ensures |ApplyAll(u, deltas, calculateRank).badges| >= |u.badges|
    ensures ApplyAll(u, deltas, calculateRank).badges[..|u.badges|] == u.badges
    ensures forall b :: b in ApplyAll(u, deltas, calculateRank).badges ==> b in u.badges || b == Crown
    decreases |deltas|
  {
    if deltas != [] {
      var v := ApplyPoints(u, deltas[0], calculateRank).user;
      ApplyPointsKeepsConsistent(u, deltas[0], calculateRank);
      ApplyAllInvariant(v, deltas[1..], calculateRank);
      var w := ApplyAll(v, deltas[1..], calculateRank);
      assert w.badges[..|u.badges|] == w.badges[..|v.badges|][..|u.badges|];
    }
  }

  /** A points update that reaches the expert rank from another rank awards the crown,
      and applying the same delta again, whatever rank it then reaches, leaves the
      badges as they are: the crown is never pushed a second time. */
  lemma {:induction false} PromotionReplayAwardsCrownOnce(u: User, delta: int, calculateRank: int -> string)
    requires Consistent(u, calculateRank) && Crown !in u.badges
    requires u.rank != Expert && calculateRank(u.points + delta) == Expert
    ensures ApplyAll(u, [delta], calculateRank).badges == u.badges + [Crown]
    ensures ApplyAll(u, [delta, delta], calculateRank).badges == u.badges + [Crown]
  {
    var once := ApplyPoints(u, delta, calculateRank).user;
    assert ApplyAll(u, [delta], calculateRank) == ApplyAll(once, [], calculateRank);
    var twice := ApplyPoints(once, delta, calculateRank).user;
    assert [delta, delta][1..] == [delta];
    assert ApplyAll(u, [delta, delta], calculateRank) == ApplyAll(once, [delta], calculateRank);
    assert ApplyAll(once, [delta], calculateRank) == ApplyAll(twice, [], calculateRank);
  }

  /** The points message for a negative delta keeps its literal plus sign before the
      minus sign of the number. */
  lemma NegativeDeltaMessage(d: int)
    requires d < 0
    ensures Text(PointsAwarded(d)) == "+-" + Strings.NatDigits(-d) + " điểm uy tín!"
    ensures Text(PointsAwarded(d))[..2] == "+-"
  {
    assert Strings.DecimalString(d) == "-" + Strings.NatDigits(-d);
  }

  /** Distinct deltas give distinct points messages: the number is recoverable. */
  lemma PointsMessageDeterminesDelta(a: int, b: int)
    requires Text(PointsAwarded(a)) == Text(PointsAwarded(b))
    ensures a == b
  {
    var ta, tb := Text(PointsAwarded(a)), Text(PointsAwarded(b));
    var suffix := " điểm uy tín!";
    var da, db := Strings.DecimalString(a), Strings.DecimalString(b);
    assert ta == "+" + da + suffix && tb == "+" + db + suffix;
    assert |da| == |db|;
    assert da == ta[1..1 + |da|];
    assert db == tb[1..1 + |db|];
    Strings.DecimalRoundTrip(a);
    Strings.DecimalRoundTrip(b);
  }
}

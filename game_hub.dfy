/** The game hub of src/components/GameHub.tsx: a fixed catalog filtered by a
    case-insensitive search, and a two-mode screen (the catalog grid, or one game).
    `toLowerCase` is a library case mapping; it is the parameter `lower`. */
module GameHub {
  import opened Types
  import opened Seqs
  import opened Strings

  /** A catalog card (icon and colours are presentation and are not kept). */
  datatype Game = Game(kind: GameType, title: string, desc: string)

  /** The three cards, in display order; every card opens a real game, each a
      different one. */
  function Catalog(): (r: seq<Game>)
    ensures |r| == 3 && r[0].kind == Color && r[1].kind == Math && r[2].kind == Speaking
    ensures forall g :: g in r ==> g.kind != NoGame
  {
    [
      Game(Color, "Học Màu Sắc", "Chọn đúng màu sắc theo tên gọi!"),
      Game(Math, "Toán Lớp 1", "Phép cộng trừ đơn giản cho bé."),
      Game(Speaking, "Luyện Phát Âm", "Bé nói tiếng Anh cùng AI nào!")
    ]
  }

  /** The filter's test: the lowered title or lowered description includes the
      lowered query. */
  predicate Matches(g: Game, query: string, lower: string -> string): (r: bool)
    ensures r <==> (exists k :: OccursAt(lower(g.title), lower(query), k))
                   || (exists k :: OccursAt(lower(g.desc), lower(query), k))
  {
    ContainsIffOccurs(lower(g.title), lower(query));
    ContainsIffOccurs(lower(g.desc), lower(query));
    Contains(lower(g.title), lower(query)) || Contains(lower(g.desc), lower(query))
  }

  /** `filteredGames`: the games that match, in catalog order. */
  function FilterGames(games: seq<Game>, query: string, lower: string -> string): (r: seq<Game>)
    ensures IsSubsequence(r, games)
    ensures forall g :: g in r <==> g in games && Matches(g, query, lower)
    ensures forall g :: multiset(r)[g] == if Matches(g, query, lower) then multiset(games)[g] else 0
  {
    if games == [] then []
    else
      assert games == [games[0]] + games[1..];
      if Matches(games[0], query, lower) then [games[0]] + FilterGames(games[1..], query, lower)
      else FilterGames(games[1..], query, lower)
  }

  /** The empty query keeps every game. */
  lemma {:induction false} EmptyQueryKeepsAll(games: seq<Game>, lower: string -> string)
    requires lower("") == ""
    ensures FilterGames(games, "", lower) == games
  {
    if games != [] {
      ContainsEmpty(lower(games[0].title));
      EmptyQueryKeepsAll(games[1..], lower);
    }
  }

  /** Only the lowered query matters: two queries with the same lowering give the same
      games, so a query and its lowered form agree when lowering is idempotent on it. */
  lemma {:induction false} SameLoweringSameGames(games: seq<Game>, q1: string, q2: string, lower: string -> string)
    requires lower(q1) == lower(q2)
    ensures FilterGames(games, q1, lower) == FilterGames(games, q2, lower)
  {
    if games != [] {
      SameLoweringSameGames(games[1..], q1, q2, lower);
    }
  }

  /** Case-insensitivity: a query and its lowered form give the same games. */
  lemma CaseInsensitive(games: seq<Game>, query: string, lower: string -> string)
    requires lower(lower(query)) == lower(query)
    ensures FilterGames(games, lower(query), lower) == FilterGames(games, query, lower)
  {
    SameLoweringSameGames(games, lower(query), query, lower);
  }

  /** Typing a longer query narrows the results: when the new lowered query includes
      the old one, every game still shown was shown before, in the same order. */
  lemma {:induction false} NarrowingQuery(games: seq<Game>, wide: string, narrow: string, lower: string -> string)
    requires Contains(lower(narrow), lower(wide))
    ensures IsSubsequence(FilterGames(games, narrow, lower), FilterGames(games, wide, lower))
  {
    if games != [] {
      NarrowingQuery(games[1..], wide, narrow, lower);
      var g := games[0];
      if Matches(g, narrow, lower) {
        if Contains(lower(g.title), lower(narrow)) {
          ContainsTransitive(lower(g.title), lower(narrow), lower(wide));
        } else {
          ContainsTransitive(lower(g.desc), lower(narrow), lower(wide));
        }
        var n, w := FilterGames(games[1..], narrow, lower), FilterGames(games[1..], wide, lower);
        assert ([g] + n)[1..] == n && ([g] + w)[1..] == w;
      } else {
        var w := FilterGames(games[1..], wide, lower);
        assert ([g] + w)[1..] == w;
      }
    }
  }

  /** The hub's state: the active game, the search box, and the `initialGame` prop the
      mount effect last saw. */
  class Hub {
    const lower: string -> string
    var initialGame: GameType
    var activeGame: GameType
    var searchQuery: string

    /** Mounting: `activeGame` starts as `NONE` and the effect then adopts the prop. */
    constructor (initialGame: GameType, lower: string -> string)
      ensures this.lower == lower && this.initialGame == initialGame
      ensures activeGame == initialGame && searchQuery == ""
    {
      this.lower := lower;
      this.initialGame := initialGame;
      activeGame := NoGame;
      searchQuery := "";
      new;
      InitialGameEffect();
    }

    /** The `useEffect` body: a prop other than `NONE` opens that game. */
    method InitialGameEffect()
      modifies this`activeGame
      ensures activeGame == if initialGame != NoGame then initialGame else old(activeGame)
    {
      if initialGame != NoGame {
        activeGame := initialGame;
      }
    }

    /** A new `initialGame` prop: the effect runs only when its dependency changed. */
    method ReceiveInitialGame(g: GameType)
      modifies this`initialGame, this`activeGame
      ensures initialGame == g
      ensures activeGame == if g != old(initialGame) && g != NoGame then g else old(activeGame)
    {
      if g != initialGame {
        initialGame := g;
        InitialGameEffect();
      }
    }

    /** The grid is shown exactly when no game is active. */
    predicate ShowsGrid()
      reads this
    {
      activeGame == NoGame
    }

    /** The cards the grid shows: catalog cards, in catalog order, each of which
        matches the search box. */
    function Visible(): (r: seq<Game>)
      reads this
      ensures IsSubsequence(r, Catalog())
      ensures forall g :: g in r ==> g in Catalog() && g.kind != NoGame && Matches(g, searchQuery, lower)
    {
      FilterGames(Catalog(), searchQuery, lower)
    }

    /** Typing in the search box. */
    method SetSearchQuery(q: string)
      modifies this`searchQuery
      ensures searchQuery == q
    {
      searchQuery := q;
    }

    /** Clicking the `i`-th visible card opens its game and leaves the grid. */
    method SelectCard(i: nat)
      requires ShowsGrid() && i < |Visible()|
      modifies this`activeGame
      ensures activeGame == old(Visible()[i].kind)
      ensures !ShowsGrid()
    {
      activeGame := Visible()[i].kind;
    }

    /** The back button returns to the grid. */
    method Back()
      modifies this`activeGame
      ensures ShowsGrid()
    {
      activeGame := NoGame;
    }
  }
}

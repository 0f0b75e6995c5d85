/**
 * The home page catalogue (src/pages/Index.tsx): a fixed list of games, the
 * search-and-category filter shown as the game grid, and the badge classes
 * chosen by difficulty.
 */
module Catalog {
  import opened Text

  /** One catalogue entry; the icon component is presentation and is not kept. */
  datatype Game = Game(
    id: string,
    title: string,
    description: string,
    category: string,
    difficulty: string,
    players: string)

  const Games: seq<Game> := [
    Game("tic-tac-toe", "Tic Tac Toe", "Classic strategy game for two players", "Strategy", "Easy", "2 Players"),
    Game("memory-game", "Memory Cards", "Test your memory with matching cards", "Memory", "Medium", "1 Player"),
    Game("snake-game", "Snake Classic", "Navigate the snake to collect food", "Arcade", "Medium", "1 Player"),
    Game("puzzle-slider", "Puzzle Slider", "Slide tiles to complete the image", "Puzzle", "Hard", "1 Player"),
    Game("color-match", "Color Match", "Match colors as fast as you can", "Speed", "Easy", "1 Player"),
    Game("word-game", "Word Builder", "Create words from given letters", "Word", "Medium", "1 Player")
  ]

  /** The category buttons; "All" is the wildcard. */
  const Categories: seq<string> := ["All", "Strategy", "Memory", "Arcade", "Puzzle", "Speed", "Word"]

  const EasyClass := "bg-green-100 text-green-800 border-green-200"
  const MediumClass := "bg-yellow-100 text-yellow-800 border-yellow-200"
  const HardClass := "bg-red-100 text-red-800 border-red-200"
  const DefaultClass := "bg-secondary text-secondary-foreground"

  /** The search box matches the title or the description, ignoring case. */
  predicate MatchesSearch(game: Game, term: string) {
    Includes(Lower(game.title), Lower(term)) || Includes(Lower(game.description), Lower(term))
  }

  predicate MatchesCategory(game: Game, selected: string) {
    selected == "All" || game.category == selected
  }

  predicate Shown(game: Game, term: string, selected: string) {
    MatchesSearch(game, term) && MatchesCategory(game, selected)
  }

  /** `a` is `b` with some elements dropped and the rest kept in order. */
  predicate IsSubsequence<T(==)>(a: seq<T>, b: seq<T>)
    decreases |b|
  {
    a == [] || (b != [] && ((a[0] == b[0] && IsSubsequence(a[1..], b[1..])) || IsSubsequence(a, b[1..])))
  }

  /**
   * `games.filter(...)`: keeps, in order, exactly the games that match both
   * the search term and the selected category.
   */
  function Filter(games: seq<Game>, term: string, selected: string): (r: seq<Game>)
    ensures IsSubsequence(r, games)
    ensures forall g :: g in r ==> Shown(g, term, selected)
    ensures forall g :: g in games && Shown(g, term, selected) ==> g in r
  {
    if games == [] then
      []
    else if Shown(games[0], term, selected) then
      [games[0]] + Filter(games[1..], term, selected)
    else
      Filter(games[1..], term, selected)
  }

  /** Each game is kept exactly as often as it occurs in the list when it matches, and never otherwise. */
  lemma {:induction false} FilterMultiplicity(games: seq<Game>, term: string, selected: string)
    ensures forall g ::
              multiset(Filter(games, term, selected))[g] == if Shown(g, term, selected) then multiset(games)[g] else 0
  {
    if games != [] {
      assert games == [games[0]] + games[1..];
      FilterMultiplicity(games[1..], term, selected);
    }
  }

  /** The list the page renders for the current search term and category. */
  function FilteredGames(term: string, selected: string): seq<Game> {
    Filter(Games, term, selected)
  }

  /** With an empty search and the "All" category, nothing is filtered out. */
  lemma {:induction false} EmptySearchKeepsAll(games: seq<Game>)
    ensures Filter(games, "", "All") == games
  {
    if games != [] {
      IncludesEmpty(Lower(games[0].title));
      EmptySearchKeepsAll(games[1..]);
    }
  }

  /** Under "All", the category never removes a game: only the search decides. */
  lemma AllCategoryIsWildcard(games: seq<Game>, term: string)
    ensures forall g :: g in games ==> (g in Filter(games, term, "All") <==> MatchesSearch(g, term))
  {
  }

  /** Under any other category, every game shown has exactly that category. */
  lemma SelectedCategoryIsExact(games: seq<Game>, term: string, selected: string)
    requires selected != "All"
    ensures forall g :: g in Filter(games, term, selected) ==> g.category == selected
  {
  }

  /** The search ignores case: lower-casing the term does not change the result. */
  lemma {:induction false} FilterIgnoresCase(games: seq<Game>, term: string, selected: string)
    ensures Filter(games, Lower(term), selected) == Filter(games, term, selected)
  {
    LowerIdempotent(term);
    if games != [] {
      FilterIgnoresCase(games[1..], term, selected);
    }
  }

  /** `getDifficultyColor`: each known difficulty has its own class, anything else the default. */
  function DifficultyColor(difficulty: string): (r: string)
    ensures r == EasyClass <==> difficulty == "Easy"
    ensures r == MediumClass <==> difficulty == "Medium"
    ensures r == HardClass <==> difficulty == "Hard"
    ensures r == DefaultClass <==> difficulty !in {"Easy", "Medium", "Hard"}
  {
    match difficulty
    case "Easy" => EasyClass
    case "Medium" => MediumClass
    case "Hard" => HardClass
    case _ => DefaultClass
  }
}

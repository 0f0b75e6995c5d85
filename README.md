# Mini-games: a verified model of the game rules

This project models the rules behind the browser mini-games of the GameHub
catalogue. It covers four games and the home page filter:

- **Snake** (`Snake.dfy`): a snake on a 15 x 15 grid. One tick moves the head
  one cell in the current direction. Leaving the grid or touching any segment
  ends the game. Landing on the food grows the snake and scores 10, and new
  food is drawn at random until it falls on a free cell. Steering from the
  keyboard refuses the reverse of the current direction.
- **Tic-tac-toe** (`TicTacToe.dfy`): a 9-cell board and its 8 winning lines.
  A click places the current mark, then declares a win, declares a tie or
  passes the turn. A status line reports the outcome.
- **Memory** (`Memory.dfy`): 16 cards holding 8 emojis twice each, shuffled.
  Clicks turn cards face up. Once two are up, a resolution step counts a move
  and then either matches the pair or turns it back down. The game is won at
  8 matches.
- **Colour match** (`ColorMatch.dfy`): each round shows a target colour and
  a colour word, and the player answers YES or NO. A correct answer scores
  10 + 2 x streak. A 30-second countdown ends the game.
- **Catalogue** (`Catalog.dfy`): the fixed list of games, filtered by a
  case-insensitive search over title and description and by a category with
  an "All" wildcard. A badge class is chosen by difficulty.

`Text.dfy` holds the string operations the source takes from the platform:
`toLowerCase` (ASCII letters only) and `includes`. `Wrappers.dfy` holds
`Option`.

The state of each game is a class whose fields are the component's state
variables. Each handler is a method that states its whole new state and keeps
the class invariant `Valid()`. Randomness comes in as parameters:

- the random cells drawn by the food generator are the sequence `draws`;
- the memory shuffle is any `order` that is a permutation of the emoji list
  written twice;
- the colour picks are indices `i`, `j`, `k` below 6.

Timers are explicit method calls: `Tick` for the snake loop and the colour
countdown. `ResolveFlipped` is the memory effect, with its delayed turn-back
taken in the same call (see "## Left out").

The invariants proved for each game:

- Snake: every segment is on the grid and no two segments share a cell. The
  food is on the grid and off the snake. The score is always 10 x (length - 1).
- Tic-tac-toe: the mark counts differ by 0 or 1, in step with whose turn it
  is. A winner owns a line. A game still in play has no line and a free cell.
  A tie is a full board with no line.
- Memory: at most two distinct, unmatched cards are pending. The match
  counter is half the number of matched cards. The game is won exactly at 8
  matches.
- Colour match: the clock stays within [0, 30]. It is positive while playing
  and 0 once the game is over.

Self collision is tested against every current segment, tail included,
although the tail cell would be vacated in the same tick
(`src/components/games/SnakeGame.tsx:76`); `TailCellIsSelfHit` states this.
The run state is the two flags `gameRunning` and `gameOver`.

Each key press steers against the direction left by the previous press, not
against the direction of the last move. So two presses within one tick can
reverse the snake; `TwoPressesCanReverse` states this. When the snake has two
or more segments, it then runs into its own neck on the next tick.

## Model

| member | source | states |
|---|---|---|
| `Snake.Move` | src/components/games/SnakeGame.tsx:50-66 | the prospective head is one cell from the old head: UP is y-1, DOWN y+1, LEFT x-1, RIGHT x+1, and the other coordinate is unchanged |
| `Snake.MoveBack` | src/components/games/SnakeGame.tsx:50-66 | a step always leaves the cell, and a step in the opposite direction undoes it |
| `Snake.Occupies` | src/components/games/SnakeGame.tsx:76 | the segment test used for collisions, food placement and drawing holds exactly when the cell is in the body |
| `Snake.Classify` | src/components/games/SnakeGame.tsx:68-80 | a head outside [0,15) x [0,15) is a wall hit; otherwise a head on any current segment is a self hit; otherwise the move is free |
| `Snake.TailCellIsSelfHit` | src/components/games/SnakeGame.tsx:76 | moving onto the current tail cell is a self hit, because the tail is not excluded |
| `Snake.SlideWellFormed` | src/components/games/SnakeGame.tsx:82-90 | a free move that pushes the head and drops the tail, or keeps it when growing, keeps every segment on the grid and distinct; the length grows by exactly 1 when growing and is unchanged otherwise |
| `Snake.GenerateFood` | src/components/games/SnakeGame.tsx:25-34 | the loop returns the first drawn cell that is off the body; that cell is on the grid and not on any segment |
| `Snake.Steer` | src/components/games/SnakeGame.tsx:104-116 | a direction update never yields the reverse of the current direction; it takes the requested direction exactly when that is not the reverse, and otherwise keeps the current one |
| `Snake.TwoPressesCanReverse` | src/components/games/SnakeGame.tsx:104-116 | two updates applied one after the other can turn RIGHT into LEFT |
| `Snake.KeyDirection` | src/components/games/SnakeGame.tsx:101-117 | after lower-casing, w/arrowup give UP, s/arrowdown DOWN, a/arrowleft LEFT, d/arrowright RIGHT, and any other key gives nothing |
| `Snake.SnakeGame.constructor` | src/components/games/SnakeGame.tsx:13-23 | the initial state is snake [(7,7)], food (10,10), direction RIGHT, score 0, not running and not over, and it satisfies the invariant |
| `Snake.SnakeGame.IsSnakeSegment` | src/components/games/SnakeGame.tsx:135-137 | true exactly when the cell is a segment of the snake |
| `Snake.SnakeGame.IsFood` | src/components/games/SnakeGame.tsx:139-141 | true exactly when the cell is the food |
| `Snake.SnakeGame.ResetGame` | src/components/games/SnakeGame.tsx:36-43 | restores snake [(7,7)], food (10,10), direction RIGHT, score 0, not running and not over |
| `Snake.SnakeGame.ToggleGame` | src/components/games/SnakeGame.tsx:131-133 | flips the running flag only and keeps the invariant |
| `Snake.SnakeGame.KeyDown` | src/components/games/SnakeGame.tsx:97-119 | ignored while not running or for other keys; otherwise the direction is steered, and it is never the reverse of the previous direction |
| `Snake.SnakeGame.Tick` | src/components/games/SnakeGame.tsx:45-94 | when paused or over nothing changes; a wall or self hit sets over, clears running and leaves the snake, food and score alone; eating pushes the head, adds 10 to the score and places the food on the first free draw; otherwise the head is pushed and the tail dropped with food and score unchanged; the invariant is kept throughout |
| `TicTacToe.Count` | src/components/games/TicTacToe.tsx:9 | the number of cells holding a mark never exceeds the board size |
| `TicTacToe.CountMark` | src/components/games/TicTacToe.tsx:33-35 | marking an empty cell adds one to the mover's count and leaves the other player's count unchanged |
| `TicTacToe.CheckWinner` | src/components/games/TicTacToe.tsx:14-28 | returns nothing exactly when none of the 8 lines has three equal marks; otherwise returns the mark of the first such line |
| `TicTacToe.NewLineIsMovers` | src/components/games/TicTacToe.tsx:33-40 | on a board with no line, any line a move creates belongs to the player who moved |
| `TicTacToe.StatusMessage` | src/components/games/TicTacToe.tsx:55-59 | a winner is announced first, then a tie when the game is over, then whose turn it is |
| `TicTacToe.StatusDistinguishes` | src/components/games/TicTacToe.tsx:55-59 | equal status lines mean the same winner, the same over flag when there is no winner, and the same player to move when the game is in play |
| `TicTacToe.TicTacToeGame.constructor` | src/components/games/TicTacToe.tsx:9-12 | the game starts with an empty 9-cell board, X to move, not over and no winner |
| `TicTacToe.TicTacToeGame.ResetGame` | src/components/games/TicTacToe.tsx:48-53 | gives an empty 9-cell board, X to move, not over and no winner |
| `TicTacToe.TicTacToeGame.HandleClick` | src/components/games/TicTacToe.tsx:30-46 | a click on an occupied cell or after the game is over changes nothing; otherwise only the clicked cell gets the current mark, then a line makes that player the winner and ends the game without switching, a full board ends it as a tie, and otherwise the turn passes; the X/O count balance is kept |
| `Memory.DealIsFair` | src/components/games/MemoryGame.tsx:6-30 | a shuffled deal has 16 cards with ids equal to positions, none face up or matched, each of the 8 emojis on exactly two cards and no other face |
| `Memory.MatchedCount` | src/components/games/MemoryGame.tsx:48-56 | the number of matched cards never exceeds the deck size |
| `Memory.MatchedCountUpdate` | src/components/games/MemoryGame.tsx:48-56 | replacing one card changes the matched count only by that card's change |
| `Memory.NoneMatched` | src/components/games/MemoryGame.tsx:29 | a deck with no matched card has a matched count of zero |
| `Memory.ClickKeepsGameOk` | src/components/games/MemoryGame.tsx:74-85 | an accepted click keeps at most two distinct, unmatched cards pending and keeps the counters consistent |
| `Memory.MatchKeepsGameOk` | src/components/games/MemoryGame.tsx:44-59 | matching the pending pair keeps the state consistent, with matches equal to half the matched cards and won exactly at 8 matches |
| `Memory.MismatchKeepsGameOk` | src/components/games/MemoryGame.tsx:44-68 | turning back a differing pair keeps the state consistent with the matches unchanged |
| `Memory.MemoryGame.constructor` | src/components/games/MemoryGame.tsx:39-41 | mounting deals the given shuffle and clears the pending list, moves, matches and the won flag |
| `Memory.MemoryGame.InitializeGame` | src/components/games/MemoryGame.tsx:22-37 | deals the given shuffle and clears the pending list, moves, matches and the won flag |
| `Memory.MemoryGame.HandleCardClick` | src/components/games/MemoryGame.tsx:73-86 | ignored when two cards are up, the card is pending or the card is matched; otherwise only that card turns face up and its id is appended to the pending list |
| `Memory.MemoryGame.ResolveFlipped` | src/components/games/MemoryGame.tsx:43-71 | with two cards up, moves grows by 1; equal emojis mark both cards matched, add 1 to matches, empty the pending list and set won at the eighth match; differing emojis turn both cards down and empty the pending list with matches unchanged |
| `ColorMatch.Judge` | src/components/games/ColorMatch.tsx:88 | YES is correct exactly when the target's name is the displayed word, and NO exactly when it differs |
| `ColorMatch.RunScoreClosedForm` | src/components/games/ColorMatch.tsx:55-57 | with 10 + 2 x streak per correct answer, a run of n correct answers from a zero streak scores n x (n + 9) |
| `ColorMatch.CountDown` | src/components/games/ColorMatch.tsx:70-77 | the clock drops by one above 1 and stops at 0 otherwise, so it never grows |
| `ColorMatch.ColorMatchGame.constructor` | src/components/games/ColorMatch.tsx:16-23 | starts at 30 s with no score or streak and not started, then draws the first round from the palette |
| `ColorMatch.ColorMatchGame.GenerateRound` | src/components/games/ColorMatch.tsx:25-33 | the target colour, the word and the ink are each taken from the 6-entry palette |
| `ColorMatch.ColorMatchGame.StartGame` | src/components/games/ColorMatch.tsx:35-42 | sets started, clears over, score and streak, sets the time to 30 and draws a round |
| `ColorMatch.ColorMatchGame.ResetGame` | src/components/games/ColorMatch.tsx:44-50 | as StartGame but not started, and the round is kept |
| `ColorMatch.ColorMatchGame.HandleAnswer` | src/components/games/ColorMatch.tsx:52-63 | ignored unless started and not over; a correct answer adds 10 + 2 x streak and then 1 to the streak; a wrong answer resets the streak and keeps the score; a new round is then drawn |
| `ColorMatch.ColorMatchGame.Press` | src/components/games/ColorMatch.tsx:143-156 | a YES or NO press is judged against the round on screen and handled as an answer: ignored unless playing; otherwise a correct judgement adds 10 + 2 x streak and then 1 to the streak, a wrong one resets the streak and keeps the score, and a new round is drawn; the clock and the flags are unchanged |
| `ColorMatch.ColorMatchGame.Tick` | src/components/games/ColorMatch.tsx:66-81 | the timer acts only while playing; above 1 it subtracts 1, otherwise it sets the time to 0, sets over and clears started; the time stays within [0, 30] |
| `Text.Lower` | src/pages/Index.tsx:73-74 | lower-casing keeps the length and lower-cases each character |
| `Text.LowerIdempotent` | src/pages/Index.tsx:73-74 | lower-casing twice is the same as lower-casing once |
| `Text.Includes` | src/pages/Index.tsx:73-74 | the substring test holds exactly when the needle occurs at some position of the text |
| `Text.IncludesEmpty` | src/pages/Index.tsx:73-74 | the empty term occurs in every text |
| `Catalog.Filter` | src/pages/Index.tsx:72-77 | the result is an order-preserving subsequence of the list, every game in it matches the search and the category, and every matching game is in it |
| `Catalog.FilterMultiplicity` | src/pages/Index.tsx:72-77 | each matching game appears in the result exactly as often as in the list, and a game that does not match never appears |
| `Catalog.EmptySearchKeepsAll` | src/pages/Index.tsx:72-77 | an empty search under "All" returns the list unchanged |
| `Catalog.AllCategoryIsWildcard` | src/pages/Index.tsx:75 | under "All" a game is shown exactly when it matches the search |
| `Catalog.SelectedCategoryIsExact` | src/pages/Index.tsx:75 | under any other category every game shown has exactly that category |
| `Catalog.FilterIgnoresCase` | src/pages/Index.tsx:73-74 | lower-casing the search term does not change the result |
| `Catalog.DifficultyColor` | src/pages/Index.tsx:79-86 | Easy, Medium and Hard each get their own class, and every other string gets the default class |

## Left out

- Rendering, CSS classes, icons and the UI widget library. These are presentation only.
- The game page router (`src/pages/GamePage.tsx`). It only looks up a component by id.
- Timer scheduling: the 150 ms snake interval and the 1 s countdown. Each tick is one method call.
- Snake.SnakeGame.Tick: the random draws of food placement are a parameter, and the caller must supply a free cell whenever the snake eats. On a full grid the source's loop never ends.
- Memory.MemoryGame.ResolveFlipped: the 1 s delay before a mismatched pair turns back is not modelled; the move count and the turn-back happen in one call. In the source, moves grows at once and the cards turn back 1 s later. Card clicks are refused during that second, but Reset is not, and the timer is never cancelled. So a Reset followed by a click on a third card within that second is not modelled. In the source, the old timer then empties the pending list and leaves that third card face up, unmatched and disabled, and the game can no longer be won. The model's invariant that every face-up unmatched card is pending holds only because this case is excluded.
- Memory.MemoryGame.HandleCardClick: a card is addressed by its position. The source rewrites every card whose `id` equals the clicked id, which is the same card because ids equal positions (part of the invariant).
- The quality of the shuffle (`sort` with a random comparator). Any permutation of the emoji list written twice is allowed.
- Registering and removing the keyboard listener. A key press is a call to `KeyDown`.
- React's batching of state updates and stale closures. Each game has one sequential state.
- Text.Lower: lower-cases ASCII letters only. Full Unicode case mapping is not modelled.
- The tic-tac-toe status string is built from the player names "X" and "O". Rendering of the board cells is not modelled.

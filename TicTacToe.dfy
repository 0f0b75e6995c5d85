/**
 * Tic-tac-toe (src/components/games/TicTacToe.tsx): a 9-cell board, the 8
 * winning lines, a move handler that declares a win, a tie or the next turn,
 * and the status line.
 */
module TicTacToe {

  datatype Player = X | O

  /** A board cell: `null` in the source, or a player's mark. */
  datatype Square = Empty | Mark(player: Player)

  /** Rows, columns and diagonals of the 3 x 3 board, cells numbered row by row. */
  const Lines: seq<(nat, nat, nat)> := [
    (0, 1, 2), (3, 4, 5), (6, 7, 8),
    (0, 3, 6), (1, 4, 7), (2, 5, 8),
    (0, 4, 8), (2, 4, 6)
  ]

  function Other(p: Player): Player {
    if p == X then O else X
  }

  /** All three cells of `line` hold the same mark. */
  predicate Owned(board: seq<Square>, line: (nat, nat, nat)) {
    line.0 < |board| && line.1 < |board| && line.2 < |board|
    && board[line.0] != Empty && board[line.0] == board[line.1] && board[line.0] == board[line.2]
  }

  /** Player `p` holds some complete line. */
  predicate Wins(board: seq<Square>, p: Player) {
    exists i :: 0 <= i < |Lines| && Owned(board, Lines[i]) && board[Lines[i].0] == Mark(p)
  }

  predicate AnyLine(board: seq<Square>) {
    exists i :: 0 <= i < |Lines| && Owned(board, Lines[i])
  }

  predicate Full(board: seq<Square>) {
    forall i :: 0 <= i < |board| ==> board[i] != Empty
  }

  function EmptyBoard(): (b: seq<Square>)
    ensures |b| == 9 && forall i :: 0 <= i < 9 ==> b[i] == Empty
  {
    [Empty, Empty, Empty, Empty, Empty, Empty, Empty, Empty, Empty]
  }

  /** Number of cells holding `p`'s mark. */
  function Count(board: seq<Square>, p: Player): (n: nat)
    ensures n <= |board|
  {
    if board == [] then 0 else (if board[0] == Mark(p) then 1 else 0) + Count(board[1..], p)
  }

  /** Marking an empty cell adds one to the mover's count and leaves the other's alone. */
  lemma {:induction false} CountMark(board: seq<Square>, i: nat, p: Player)
    requires i < |board| && board[i] == Empty
    ensures Count(board[i := Mark(p)], p) == Count(board, p) + 1
    ensures Count(board[i := Mark(p)], Other(p)) == Count(board, Other(p))
  {
    if i == 0 {
      assert board[i := Mark(p)][1..] == board[1..];
    } else {
      CountMark(board[1..], i - 1, p);
      assert board[i := Mark(p)][1..] == board[1..][i - 1 := Mark(p)];
    }
  }

  /**
   * `checkWinner`: the mark on the first of the 8 lines whose three cells
   * hold the same mark, or `Empty` when there is none.
   */
  method CheckWinner(board: seq<Square>) returns (w: Square)
    requires |board| == 9
    ensures w == Empty <==> !AnyLine(board)
    ensures w != Empty ==>
      exists i :: 0 <= i < |Lines| && Owned(board, Lines[i]) && board[Lines[i].0] == w
                  && forall j :: 0 <= j < i ==> !Owned(board, Lines[j])
  {
    for i := 0 to |Lines|
      invariant forall j :: 0 <= j < i ==> !Owned(board, Lines[j])
    {
      var (a, b, c) := Lines[i];
      if board[a] != Empty && board[a] == board[b] && board[a] == board[c] {
        assert Owned(board, Lines[i]);
        return board[a];
      }
    }
    return Empty;
  }

  /** On a board with no line, a move can only complete a line of the player who moved. */
  lemma NewLineIsMovers(board: seq<Square>, i: nat, p: Player)
    requires |board| == 9 && i < 9 && !AnyLine(board)
    ensures AnyLine(board[i := Mark(p)]) ==> Wins(board[i := Mark(p)], p)
  {
    var b := board[i := Mark(p)];
    if k :| 0 <= k < |Lines| && Owned(b, Lines[k]) {
      assert !Owned(board, Lines[k]);
      assert Wins(b, p);
    }
  }

  /** The status line: a win first, then a tie, then whose turn it is. */
  function StatusMessage(winner: Square, over: bool, current: Player): (msg: string)
    ensures winner != Empty ==> msg == "Player " + Name(winner.player) + " wins!"
    ensures winner == Empty && over ==> msg == "It's a tie!"
    ensures winner == Empty && !over ==> msg == "Player " + Name(current) + "'s turn"
  {
    if winner != Empty then "Player " + Name(winner.player) + " wins!"
    else if over then "It's a tie!"
    else "Player " + Name(current) + "'s turn"
  }

  function Name(p: Player): string {
    if p == X then "X" else "O"
  }

  /** Different outcomes are announced differently, and a win names its winner. */
  lemma StatusDistinguishes(w1: Square, over1: bool, c1: Player, w2: Square, over2: bool, c2: Player)
    requires StatusMessage(w1, over1, c1) == StatusMessage(w2, over2, c2)
    ensures w1 == w2
    ensures w1 == Empty ==> over1 == over2
    ensures w1 == Empty && !over1 ==> c1 == c2
  {
    var m := StatusMessage(w1, over1, c1);
    if w1 != Empty {
      assert |m| == 14 && m[7] == Name(w1.player)[0];
    } else if over1 {
      assert |m| == 11;
    } else {
      assert |m| == 15 && m[7] == Name(c1)[0];
    }
  }

  /** The component's state. */
  class TicTacToeGame {
    var board: seq<Square>
    var current: Player
    var over: bool
    var winner: Square

    /**
     * X moves first and turns alternate, so X is ahead by one exactly when the
     * last mover was X; a winner owns a line; a running game has no line and a
     * free cell; a finished game without a winner is a full board with no line.
     */
    ghost predicate Valid()
      reads this
    {
      |board| == 9
      && Count(board, X) - Count(board, O) == (if (current == X) == over then 1 else 0)
      && (winner != Empty ==> over && Wins(board, winner.player))
      && (!over ==> !AnyLine(board) && !Full(board))
      && (over && winner == Empty ==> Full(board) && !AnyLine(board))
    }

    predicate IsInitial()
      reads this
    {
      board == EmptyBoard() && current == X && !over && winner == Empty
    }

    constructor ()
      ensures Valid() && IsInitial()
    {
      board := EmptyBoard();
      current := X;
      over := false;
      winner := Empty;
      new;
      assert board[0] == Empty;
    }

    method ResetGame()
      modifies this
      ensures Valid() && IsInitial()
    {
      board := EmptyBoard();
      current := X;
      over := false;
      winner := Empty;
      assert board[0] == Empty;
    }

    function GetStatusMessage(): string
      reads this
    {
      StatusMessage(winner, over, current)
    }

    /** `handleClick`: place the current mark, then declare a win, a tie, or pass the turn. */
    method HandleClick(index: nat)
      requires Valid() && index < 9
      modifies this
      ensures Valid()
      ensures old(board[index] != Empty || over) ==>
        board == old(board) && current == old(current) && over == old(over) && winner == old(winner)
      ensures old(board[index] == Empty && !over) ==>
        board == old(board)[index := Mark(old(current))]
        && (if Wins(board, old(current)) then
              winner == Mark(old(current)) && over && current == old(current)
            else if Full(board) then
              winner == Empty && over && current == old(current)
            else
              winner == Empty && !over && current == Other(old(current)))
    {
      if board[index] != Empty || over {
        return;
      }
      CountMark(board, index, current);
      NewLineIsMovers(board, index, current);
      var newBoard := board[index := Mark(current)];
      board := newBoard;
      var gameWinner := CheckWinner(newBoard);
      if gameWinner != Empty {
        winner := gameWinner;
        over := true;
      } else if forall i :: 0 <= i < |newBoard| ==> newBoard[i] != Empty {
        over := true;
      } else {
        current := Other(current);
      }
    }
  }
}

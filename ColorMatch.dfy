/**
 * The colour/word reaction game (src/components/games/ColorMatch.tsx): a
 * round shows a target colour and a colour word; the player answers whether
 * they agree, earning points that grow with the streak, against a 30-second
 * countdown.
 */
module ColorMatch {

  datatype Colour = Colour(name: string, value: string)

  /** The button pressed: YES (the word names the target colour) or NO. */
  datatype Answer = Yes | No

  const Palette: seq<Colour> := [
    Colour("Red", "#ef4444"),
    Colour("Blue", "#3b82f6"),
    Colour("Green", "#22c55e"),
    Colour("Yellow", "#eab308"),
    Colour("Purple", "#a855f7"),
    Colour("Orange", "#f97316")
  ]

  const RoundTime: nat := 30
  const BasePoints: nat := 10
  const StreakBonus: nat := 2

  /** `isCorrect`: the target colour's name is the displayed word. */
  predicate IsCorrect(target: Colour, word: string) {
    target.name == word
  }

  /** What the button passes to `handleAnswer`: YES passes `isCorrect`, NO its negation. */
  function Judge(answer: Answer, target: Colour, word: string): (correct: bool)
    ensures answer == Yes ==> (correct <==> target.name == word)
    ensures answer == No ==> (correct <==> target.name != word)
  {
    if answer == Yes then IsCorrect(target, word) else !IsCorrect(target, word)
  }

  /** Points for a correct answer given with `streak` correct answers just before it. */
  function Award(streak: nat): nat {
    BasePoints + StreakBonus * streak
  }

  /** Points earned by a run of `n` correct answers started from a zero streak. */
  function RunScore(n: nat): nat {
    if n == 0 then 0 else RunScore(n - 1) + Award(n - 1)
  }

  /** A run of `n` correct answers from a zero streak is worth n * (n + 9). */
  lemma {:induction false} RunScoreClosedForm(n: nat)
    ensures RunScore(n) == n * (n + 9)
  {
    if n > 0 {
      RunScoreClosedForm(n - 1);
    }
  }

  /** One second of the countdown: above 1 it counts down; at 1 or below it stops at 0. */
  function CountDown(timeLeft: nat): (r: nat)
    ensures timeLeft > 1 ==> r == timeLeft - 1
    ensures timeLeft <= 1 ==> r == 0
    ensures r < timeLeft || timeLeft == 0
  {
    if timeLeft <= 1 then 0 else timeLeft - 1
  }

  /** The component's state. */
  class ColorMatchGame {
    var target: Colour
    var word: string
    var wordColour: string
    var score: nat
    var timeLeft: nat
    var started: bool
    var over: bool
    var streak: nat

    /**
     * The round is drawn from the palette; the clock stays in [0, 30], is
     * positive while playing and 0 once over; a finished game is not running.
     */
    ghost predicate Valid()
      reads this
    {
      target in Palette
      && (exists j :: 0 <= j < |Palette| && Palette[j].name == word)
      && (exists k :: 0 <= k < |Palette| && Palette[k].value == wordColour)
      && timeLeft <= RoundTime
      && (started ==> timeLeft >= 1)
      && (over ==> timeLeft == 0 && !started)
    }

    /**
     * The initial state (first palette entry, 30 s, nothing started), then the
     * mount effect's `generateRound` with picks `i`, `j`, `k`.
     */
    constructor (i: nat, j: nat, k: nat)
      requires i < |Palette| && j < |Palette| && k < |Palette|
      ensures Valid()
      ensures target == Palette[i] && word == Palette[j].name && wordColour == Palette[k].value
      ensures score == 0 && timeLeft == RoundTime && !started && !over && streak == 0
    {
      target := Palette[0];
      word := Palette[0].name;
      wordColour := Palette[0].value;
      score := 0;
      timeLeft := RoundTime;
      started := false;
      over := false;
      streak := 0;
      new;
      GenerateRound(i, j, k);
    }

    /** `generateRound`: target, word and ink each picked from the palette (indices `i`, `j`, `k`). */
    method GenerateRound(i: nat, j: nat, k: nat)
      requires i < |Palette| && j < |Palette| && k < |Palette|
      modifies this`target, this`word, this`wordColour
      ensures target == Palette[i] && word == Palette[j].name && wordColour == Palette[k].value
    {
      target := Palette[i];
      word := Palette[j].name;
      wordColour := Palette[k].value;
    }

    /** `startGame`: a running game with a full clock, no score and no streak, and a new round. */
    method StartGame(i: nat, j: nat, k: nat)
      requires i < |Palette| && j < |Palette| && k < |Palette|
      modifies this
      ensures Valid()
      ensures started && !over && score == 0 && timeLeft == RoundTime && streak == 0
      ensures target == Palette[i] && word == Palette[j].name && wordColour == Palette[k].value
    {
      started := true;
      over := false;
      score := 0;
      timeLeft := RoundTime;
      streak := 0;
      GenerateRound(i, j, k);
    }

    /** `resetGame`: as `startGame`, but not started and the round is kept. */
    method ResetGame()
      requires Valid()
      modifies this
      ensures Valid()
      ensures !started && !over && score == 0 && timeLeft == RoundTime && streak == 0
      ensures target == old(target) && word == old(word) && wordColour == old(wordColour)
    {
      started := false;
      over := false;
      score := 0;
      timeLeft := RoundTime;
      streak := 0;
    }

    /**
     * `handleAnswer`: ignored unless playing. A correct answer earns
     * 10 + 2 * streak and extends the streak; a wrong one resets the streak
     * and keeps the score. Then a new round is drawn.
     */
    method HandleAnswer(correct: bool, i: nat, j: nat, k: nat)
      requires Valid()
      requires i < |Palette| && j < |Palette| && k < |Palette|
      modifies this
      ensures Valid()
      ensures timeLeft == old(timeLeft) && started == old(started) && over == old(over)
      ensures !old(started) || old(over) ==>
        score == old(score) && streak == old(streak)
        && target == old(target) && word == old(word) && wordColour == old(wordColour)
      ensures old(started) && !old(over) ==>
        (if correct then score == old(score) + Award(old(streak)) && streak == old(streak) + 1
         else score == old(score) && streak == 0)
        && target == Palette[i] && word == Palette[j].name && wordColour == Palette[k].value
    {
      if !started || over {
        return;
      }
      if correct {
        score := score + (BasePoints + streak * StreakBonus);
        streak := streak + 1;
      } else {
        streak := 0;
      }
      GenerateRound(i, j, k);
    }

    /** A press of YES or NO, judged against the round on screen, then handled as `handleAnswer`. */
    method Press(answer: Answer, i: nat, j: nat, k: nat)
      requires Valid()
      requires i < |Palette| && j < |Palette| && k < |Palette|
      modifies this
      ensures Valid()
      ensures timeLeft == old(timeLeft) && started == old(started) && over == old(over)
      ensures !old(started) || old(over) ==>
        score == old(score) && streak == old(streak)
        && target == old(target) && word == old(word) && wordColour == old(wordColour)
      ensures old(started) && !old(over) ==>
        (if Judge(answer, old(target), old(word)) then
           score == old(score) + Award(old(streak)) && streak == old(streak) + 1
         else score == old(score) && streak == 0)
        && target == Palette[i] && word == Palette[j].name && wordColour == Palette[k].value
    {
      HandleAnswer(Judge(answer, target, word), i, j, k);
    }

    /**
     * One second of the timer, which runs only while playing: the clock
     * counts down, and reaching 0 ends the game.
     */
    method Tick()
      requires Valid()
      modifies this
      ensures Valid()
      ensures score == old(score) && streak == old(streak)
      ensures target == old(target) && word == old(word) && wordColour == old(wordColour)
      ensures !old(started) || old(over) ==>
        timeLeft == old(timeLeft) && started == old(started) && over == old(over)
      ensures old(started) && !old(over) ==>
        timeLeft == CountDown(old(timeLeft))
        && (if old(timeLeft) <= 1 then over && !started else !over && started)
    {
      if !started || over {
        return;
      }
      if timeLeft <= 1 {
        over := true;
        started := false;
        timeLeft := 0;
      } else {
        timeLeft := timeLeft - 1;
      }
    }
  }
}

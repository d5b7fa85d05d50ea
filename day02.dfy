/** Day 2, Rock Paper Scissors.  Each line of the strategy guide names the
    opponent's shape and then one's own; a round scores the value of one's
    own shape plus 0, 3 or 6 for a loss, a draw or a win. */
module RockPaperScissors {
  import opened Wrappers
  import opened Text

  datatype Shape = Rock | Paper | Scissor

  /** The enum discriminant: Rock = 1, Paper = 2, Scissor = 3. */
  function Value(s: Shape): (v: int)
    ensures 1 <= v <= 3
  {
    match s
    case Rock => 1
    case Paper => 2
    case Scissor => 3
  }

  /** `Shape::from`: "A" or "X" is Rock, "B" or "Y" Paper, "C" or "Z"
      Scissor; any other token makes the program panic (`None`). */
  function ShapeFrom(token: string): (r: Option<Shape>)
    ensures r.Some? <==> |token| == 1 && token[0] in "ABCXYZ"
    ensures r.Some? ==> Value(r.value) == (token[0] as int - 'A' as int) % 23 + 1
  {
    if token == "A" || token == "X" then Some(Rock)
    else if token == "B" || token == "Y" then Some(Paper)
    else if token == "C" || token == "Z" then Some(Scissor)
    else None
  }

  /** `parse_line`: the shapes of the whitespace-separated tokens, or a
      panic when any token is not a shape. */
  function ParseLine(line: string): Option<seq<Shape>> {
    All(ShapeFrom, SplitWhitespace(line))
  }

  /** The points for the outcome, from one's own value minus the
      opponent's: 3 for a draw, 0 when the difference is -1 or 2, 6
      otherwise. */
  function Outcome(diff: int): int {
    if diff == 0 then 3
    else if diff == -1 || diff == 2 then 0
    else 6
  }

  /** `score`: the round's points for `pair` = [opponent, own]. */
  function Score(pair: seq<Shape>): (r: int)
    requires |pair| >= 2
    ensures 1 <= r <= 9
    ensures r - Value(pair[1]) in {0, 3, 6}
  {
    Value(pair[1]) + Outcome(Value(pair[1]) - Value(pair[0]))
  }

  /** `one`: the sum of the lines' scores, or a panic when a line has a
      bad token or fewer than two shapes (indexing `pair[1]`). */
  function One(input: string): Option<int> {
    match All(LineScore, Lines(input))
    case Some(scores) => Some(Sum(scores))
    case None => None
  }

  function Sum(xs: seq<int>): int {
    if xs == [] then 0 else xs[0] + Sum(xs[1..])
  }

  /** One line's score: a panic unless the line holds only shapes, at least
      two of them. */
  function LineScore(line: string): (r: Option<int>)
    ensures r.Some? <==> ParseLine(line).Some? && |ParseLine(line).value| >= 2
    ensures r.Some? ==> 1 <= r.value <= 9
  {
    match ParseLine(line)
    case Some(pair) => if |pair| >= 2 then Some(Score(pair)) else None
    case None => None
  }

  // ------------------------------------------------------------ lemmas

  /** The rules of the game, stated directly. */
  predicate Beats(a: Shape, b: Shape) {
    (a == Rock && b == Scissor) || (a == Scissor && b == Paper) || (a == Paper && b == Rock)
  }

  /** The arithmetic on discriminants scores every round as the rules say:
      a draw is worth 3, a win 6 and a loss 0, on top of one's own shape. */
  lemma ScoreFollowsRules(opponent: Shape, own: Shape)
    ensures Score([opponent, own]) == Value(own) + (
      if own == opponent then 3 else if Beats(own, opponent) then 6 else 0)
  {
  }

  /** The outcome is 3 exactly for a draw, 0 exactly for a difference of
      -1 or 2, and 6 for the remaining differences that shapes can have. */
  lemma OutcomeCases(opponent: Shape, own: Shape)
    ensures var d := Value(own) - Value(opponent);
      && (Outcome(d) == 3 <==> own == opponent)
      && (Outcome(d) == 0 <==> d in {-1, 2})
      && (Outcome(d) == 6 <==> d in {1, -2})
  {
  }

  /** The two letters a guide line uses for a round. */
  function OpponentCode(s: Shape): string {
    match s
    case Rock => "A"
    case Paper => "B"
    case Scissor => "C"
  }

  function ResponseCode(s: Shape): string {
    match s
    case Rock => "X"
    case Paper => "Y"
    case Scissor => "Z"
  }

  /** A guide line "<opponent> <own>" parses back to the two shapes. */
  lemma ParseLineOfRound(opponent: Shape, own: Shape)
    ensures ParseLine(OpponentCode(opponent) + " " + ResponseCode(own)) == Some([opponent, own])
  {
    var a, b := OpponentCode(opponent), ResponseCode(own);
    assert IsToken(a) && IsToken(b);
    SplitWhitespaceOfPair(a, b);
    assert ShapeFrom(a) == Some(opponent) && ShapeFrom(b) == Some(own);
    assert ParseLine(a + " " + b).value == [opponent, own];
  }

  /** The guide line for one round, "<opponent> <own>". */
  function RoundLine(round: (Shape, Shape)): string {
    OpponentCode(round.0) + " " + ResponseCode(round.1)
  }

  /** The guide text's lines for a list of rounds. */
  function Guide(rounds: seq<(Shape, Shape)>): (lines: seq<string>)
    ensures |lines| == |rounds|
    ensures forall k :: 0 <= k < |rounds| ==> lines[k] == RoundLine(rounds[k])
  {
    if rounds == [] then [] else [RoundLine(rounds[0])] + Guide(rounds[1..])
  }

  /** What the rules award for one round (opponent, own). */
  function RulesScore(round: (Shape, Shape)): int {
    var (opponent, own) := round;
    Value(own) + (if own == opponent then 3 else if Beats(own, opponent) then 6 else 0)
  }

  /** What the rules award for a list of rounds. */
  function RulesTotal(rounds: seq<(Shape, Shape)>): int {
    if rounds == [] then 0 else RulesScore(rounds[0]) + RulesTotal(rounds[1..])
  }

  /** A round's guide line scores what the rules award for the round. */
  lemma RoundLineScore(round: (Shape, Shape))
    ensures LineScore(RoundLine(round)) == Some(RulesScore(round))
  {
    ParseLineOfRound(round.0, round.1);
    ScoreFollowsRules(round.0, round.1);
  }

  /** A guide line holds no newline and does not end in '\r'. */
  lemma RoundLinePlain(round: (Shape, Shape))
    ensures PlainLine(RoundLine(round))
  {
    var l := RoundLine(round);
    assert |l| == 3 && l[1] == ' ' && l[2] != '\r' && l[0] != '\n' && l[2] != '\n';
  }

  /** A guide written out from a list of rounds scores what the rules award
      for those rounds. */
  lemma OneOfGuide(rounds: seq<(Shape, Shape)>)
    ensures One(Unlines(Guide(rounds))) == Some(RulesTotal(rounds))
  {
    var lines := Guide(rounds);
    forall k | 0 <= k < |lines|
      ensures PlainLine(lines[k]) && LineScore(lines[k]) == Some(RulesScore(rounds[k]))
    {
      RoundLinePlain(rounds[k]);
      RoundLineScore(rounds[k]);
    }
    LinesOfUnlines(lines);
    var scores := All(LineScore, lines);
    assert scores.Some?;
    SumOfScores(scores.value, rounds);
  }

  /** Scores that are what the rules award for their rounds total what the
      rules award for all the rounds. */
  lemma {:induction false} SumOfScores(scores: seq<int>, rounds: seq<(Shape, Shape)>)
    requires |scores| == |rounds|
    requires forall k :: 0 <= k < |scores| ==> scores[k] == RulesScore(rounds[k])
    ensures Sum(scores) == RulesTotal(rounds)
  {
    if rounds != [] {
      SumOfScores(scores[1..], rounds[1..]);
    }
  }

  /** A sum of scores each between `lo` and `hi` lies between `lo` and `hi`
      times their number. */
  lemma {:induction false} SumBounds(xs: seq<int>, lo: int, hi: int)
    requires forall k :: 0 <= k < |xs| ==> lo <= xs[k] <= hi
    ensures lo * |xs| <= Sum(xs) <= hi * |xs|
  {
    if xs != [] {
      SumBounds(xs[1..], lo, hi);
    }
  }

  /** A total is between 1 and 9 per line. */
  lemma OneBounds(input: string)
    ensures One(input).Some? ==> |Lines(input)| <= One(input).value <= 9 * |Lines(input)|
  {
    var all := All(LineScore, Lines(input));
    if all.Some? {
      assert One(input) == Some(Sum(all.value));
      SumBounds(all.value, 1, 9);
    }
  }

  /** The rounds of the example guide "A Y", "B X", "C Z". */
  function ExampleRounds(): seq<(Shape, Shape)> {
    [(Rock, Paper), (Paper, Rock), (Scissor, Scissor)]
  }

  /** The rules award 8 + 1 + 6 = 15 for the example rounds. */
  lemma ExampleRulesTotal()
    ensures RulesTotal(ExampleRounds()) == 15
  {
    var r := ExampleRounds();
    assert RulesScore(r[0]) == 8 && RulesScore(r[1]) == 1 && RulesScore(r[2]) == 6;
    assert r[1..][1..][1..] == [];
  }

  /** The example guide totals 15. */
  lemma ExampleOne()
    ensures One(Unlines(Guide(ExampleRounds()))) == Some(15)
  {
    OneOfGuide(ExampleRounds());
    ExampleRulesTotal();
  }
}

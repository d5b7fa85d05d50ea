/** Day 5, Supply Stacks.  The input draws stacks of crates, then lists
    moves "move N from A to B"; the crane moves crates one at a time, and the
    answer reads the crate on top of each stack. */
module SupplyStacks {
  import opened Wrappers
  import opened Text

  const USIZE_MAX: nat := 0xFFFF_FFFF_FFFF_FFFF

  /** `Instruction(count, from, to)`, with `from` and `to` already turned
      into zero-based stack positions. */
  datatype Instruction = Instruction(count: nat, from: nat, to: nat)

  /** Each stack lists its crates from the bottom up. */
  type Towers = seq<seq<char>>

  function Min(a: nat, b: nat): nat {
    if a <= b then a else b
  }

  // ------------------------------------------------ parsing instructions

  /** `skip(1).step_by(2)`: the tokens at odd positions. */
  function OddTokens(tokens: seq<string>): (r: seq<string>)
    ensures |r| == |tokens| / 2
    ensures forall k :: 0 <= k < |r| ==> r[k] == tokens[2 * k + 1]
  {
    seq(|tokens| / 2, k requires 0 <= k < |tokens| / 2 => tokens[2 * k + 1])
  }

  /** One instruction line: the numbers in the odd whitespace-separated
      positions, each an `expect`ed `usize`.  Fewer than three numbers is an
      index panic, and a stack number 0 underflows `parts[1] - 1`. */
  function ParseInstruction(line: string): Option<Instruction> {
    match ParseAll(OddTokens(SplitWhitespace(line)), USIZE_MAX)
    case Some(parts) =>
      if |parts| >= 3 && parts[1] >= 1 && parts[2] >= 1
      then Some(Instruction(parts[0], parts[1] - 1, parts[2] - 1))
      else None
    case None => None
  }

  /** `parse_instructions`: one instruction per line, all of them parsed
      before any is carried out. */
  function ParseInstructions(text: string): Option<seq<Instruction>> {
    ParseEach(Lines(text))
  }

  function ParseEach(lines: seq<string>): Option<seq<Instruction>> {
    All(ParseInstruction, lines)
  }

  // ---------------------------------------------------------- the crane

  function Reverse(s: seq<char>): (r: seq<char>)
    ensures |r| == |s|
    ensures forall i :: 0 <= i < |s| ==> r[i] == s[|s| - 1 - i]
  {
    if s == [] then [] else Reverse(s[1..]) + [s[0]]
  }

  /** `process` panics when it indexes a stack that does not exist: the
      source stack on the first pop, the target stack on the first push. */
  predicate Panics(t: Towers, ins: Instruction) {
    ins.count >= 1 && (ins.from >= |t| || (|t[ins.from]| > 0 && ins.to >= |t|))
  }

  /** The stacks after an instruction: the top `k` crates of `from`, where
      `k` is `count` or the height of `from` if that is smaller, land on `to`
      in reverse order; a move onto the same stack changes nothing. */
  function Moved(t: Towers, ins: Instruction): (r: Towers)
    requires !Panics(t, ins)
    ensures |r| == |t|
    ensures forall j :: 0 <= j < |t| && j != ins.from && j != ins.to ==> r[j] == t[j]
    ensures ins.count == 0 || ins.from == ins.to ==> r == t
    ensures ins.count >= 1 && ins.from != ins.to && ins.from < |t| && |t[ins.from]| > 0 ==>
      var k := Min(ins.count, |t[ins.from]|);
      && |r[ins.from]| == |t[ins.from]| - k && r[ins.from] == t[ins.from][..|r[ins.from]|]
      && |r[ins.to]| == |t[ins.to]| + k && r[ins.to][..|t[ins.to]|] == t[ins.to]
  {
    if ins.count == 0 || |t[ins.from]| == 0 || ins.from == ins.to then t
    else
      var s := t[ins.from];
      var k := Min(ins.count, |s|);
      t[ins.from := s[..|s| - k]][ins.to := t[ins.to] + Reverse(s[|s| - k..])]
  }

  lemma ReverseCons(x: char, s: seq<char>)
    ensures Reverse([x] + s) == Reverse(s) + [x]
  {
    assert ([x] + s)[1..] == s;
  }

  /** The state after `i + 1` crates, `v`, is the state after `i`, `u`,
      with one pop from `from` and one push onto `to`; nothing changes once
      `from` is empty. */
  predicate OneMore(u: Towers, v: Towers, from: nat, to: nat)
    requires from < |u| && (|u[from]| > 0 ==> to < |u|)
  {
    if |u[from]| == 0 then v == u
    else
      var w := u[from := u[from][..|u[from]| - 1]];
      v == w[to := w[to] + [u[from][|u[from]| - 1]]]
  }

  /** One more crate moved: the state after `i + 1` crates is the state
      after `i` with one pop from `from` and one push onto `to`. */
  lemma MovedStep(t: Towers, ins: Instruction, i: nat)
    requires i < ins.count && !Panics(t, ins)
    ensures OneMore(Moved(t, Instruction(i, ins.from, ins.to)), Moved(t, Instruction(i + 1, ins.from, ins.to)),
                    ins.from, ins.to)
  {
    var s := t[ins.from];
    var L := |s|;
    if ins.from == ins.to {
      if L > 0 {
        assert s[..L - 1] + [s[L - 1]] == s;
      }
    } else if L <= i {
      assert s[..L - Min(i, L)] == [];
    } else if i == 0 {
      MovedFirst(t, ins);
    } else {
      MovedFurther(t, ins, i);
    }
  }

  /** The first crate of a move between two stacks. */
  lemma MovedFirst(t: Towers, ins: Instruction)
    requires 0 < ins.count && !Panics(t, ins) && ins.from != ins.to && 0 < |t[ins.from]|
    ensures OneMore(t, Moved(t, Instruction(1, ins.from, ins.to)), ins.from, ins.to)
  {
    var s := t[ins.from];
    var L := |s|;
    assert s[L - 1..] == [s[L - 1]];
    assert Reverse([s[L - 1]]) == [s[L - 1]];
    assert Min(1, L) == 1;
  }

  /** A further crate of a move between two stacks, while `from` has one. */
  lemma MovedFurther(t: Towers, ins: Instruction, i: nat)
    requires 0 < i < ins.count && !Panics(t, ins) && ins.from != ins.to && i < |t[ins.from]|
    ensures OneMore(Moved(t, Instruction(i, ins.from, ins.to)), Moved(t, Instruction(i + 1, ins.from, ins.to)),
                    ins.from, ins.to)
  {
    var s := t[ins.from];
    var L := |s|;
    var x := s[L - i - 1];
    assert s[L - i - 1..] == [x] + s[L - i..];
    ReverseCons(x, s[L - i..]);
    var moved := t[ins.to] + Reverse(s[L - i..]);
    var u := t[ins.from := s[..L - i]][ins.to := moved];
    assert Moved(t, Instruction(i, ins.from, ins.to)) == u;
    assert u[ins.from] == s[..L - i] && u[ins.from][L - i - 1] == x;
    assert s[..L - i][..L - i - 1] == s[..L - i - 1];
    var w := u[ins.from := s[..L - i - 1]];
    assert w[ins.to] == moved;
    assert w[ins.to := moved + [x]] == t[ins.from := s[..L - i - 1]][ins.to := moved + [x]];
    assert moved + [x] == t[ins.to] + Reverse(s[L - i - 1..]);
  }

  /** `process`: moves the crates one at a time, in place. */
  method Process(towers: array<seq<char>>, ins: Instruction)
    requires !Panics(towers[..], ins)
    modifies towers
    ensures towers[..] == Moved(old(towers[..]), ins)
  {
    ghost var t := towers[..];
    var i := 1;
    while i <= ins.count
      invariant 1 <= i <= ins.count + 1
      invariant towers[..] == Moved(t, Instruction(i - 1, ins.from, ins.to))
    {
      MovedStep(t, ins, i - 1);
      var source := towers[ins.from];
      if |source| > 0 {
        var c := source[|source| - 1];
        towers[ins.from] := source[..|source| - 1];
        towers[ins.to] := towers[ins.to] + [c];
      }
      i := i + 1;
    }
  }

  /** Every crate in the stacks, wherever it stands. */
  function Crates(t: Towers): multiset<char> {
    if t == [] then multiset{} else multiset(t[0]) + Crates(t[1..])
  }

  lemma {:induction false} CratesUpdate(t: Towers, j: nat, s: seq<char>)
    requires j < |t|
    ensures Crates(t[j := s]) + multiset(t[j]) == Crates(t) + multiset(s)
  {
    var t' := t[j := s];
    assert Crates(t') == multiset(t'[0]) + Crates(t'[1..]);
    assert Crates(t) == multiset(t[0]) + Crates(t[1..]);
    if j == 0 {
      assert t'[1..] == t[1..];
    } else {
      assert t'[0] == t[0];
      assert t'[1..] == t[1..][j - 1 := s];
      assert t[1..][j - 1] == t[j];
      CratesUpdate(t[1..], j - 1, s);
      calc {
        Crates(t') + multiset(t[j]);
        multiset(t[0]) + (Crates(t[1..][j - 1 := s]) + multiset(t[j]));
        multiset(t[0]) + (Crates(t[1..]) + multiset(s));
      }
    }
  }

  lemma {:induction false} ReverseSameCrates(s: seq<char>)
    ensures multiset(Reverse(s)) == multiset(s)
  {
    if s != [] {
      ReverseSameCrates(s[1..]);
      assert s == [s[0]] + s[1..];
    }
  }

  lemma CratesMoveBetween(t: Towers, from: nat, to: nat, rest: seq<char>, top: seq<char>)
    requires from < |t| && to < |t| && from != to && t[from] == rest + top
    ensures Crates(t[from := rest][to := t[to] + Reverse(top)]) == Crates(t)
  {
    var u := t[from := rest];
    var v := u[to := t[to] + Reverse(top)];
    CratesUpdate(t, from, rest);
    assert u[to] == t[to];
    CratesUpdate(u, to, t[to] + Reverse(top));
    ReverseSameCrates(top);
    assert multiset(t[from]) == multiset(rest) + multiset(top);
    calc {
      Crates(v) + multiset(t[to]) + multiset(rest);
      Crates(u) + multiset(t[to] + Reverse(top)) + multiset(rest);
      Crates(u) + multiset(t[to]) + multiset(rest) + multiset(top);
      Crates(u) + multiset(t[from]) + multiset(t[to]);
      Crates(t) + multiset(rest) + multiset(t[to]);
    }
    forall x
      ensures Crates(v)[x] == Crates(t)[x]
    {
      assert (Crates(v) + multiset(t[to]) + multiset(rest))[x]
          == (Crates(t) + multiset(rest) + multiset(t[to]))[x];
    }
  }

  /** The crane neither loses nor adds crates. */
  lemma MovedKeepsCrates(t: Towers, ins: Instruction)
    requires !Panics(t, ins)
    ensures Crates(Moved(t, ins)) == Crates(t)
  {
    if ins.count >= 1 && |t[ins.from]| > 0 && ins.from != ins.to {
      var s := t[ins.from];
      var k := Min(ins.count, |s|);
      assert s == s[..|s| - k] + s[|s| - k..];
      CratesMoveBetween(t, ins.from, ins.to, s[..|s| - k], s[|s| - k..]);
    }
  }

  /** The instructions carried out in order; `None` when one panics. */
  function Run(t: Towers, instructions: seq<Instruction>): Option<Towers>
    decreases |instructions|
  {
    if instructions == [] then Some(t)
    else if Panics(t, instructions[0]) then None
    else Run(Moved(t, instructions[0]), instructions[1..])
  }

  /** A run keeps the number of stacks and every crate. */
  lemma {:induction false} RunKeepsCrates(t: Towers, instructions: seq<Instruction>)
    ensures Run(t, instructions).Some? ==>
      |Run(t, instructions).value| == |t| && Crates(Run(t, instructions).value) == Crates(t)
    decreases |instructions|
  {
    if instructions != [] && !Panics(t, instructions[0]) {
      MovedKeepsCrates(t, instructions[0]);
      RunKeepsCrates(Moved(t, instructions[0]), instructions[1..]);
    }
  }

  /** The top crate of every nonempty stack, left to right. */
  function Tops(t: Towers): (r: string)
    ensures |r| <= |t|
  {
    if t == [] then []
    else (if t[0] == [] then [] else [t[0][|t[0]| - 1]]) + Tops(t[1..])
  }

  // ------------------------------------------------------ parsing towers

  /** The crate a drawing line shows for stack `k`: the character in column
      1 + 4k when the line reaches it and it is not a space. */
  function Cell(line: string, k: nat): (c: seq<char>)
    ensures |c| <= 1
  {
    var p := 1 + 4 * k;
    if p < |line| && line[p] != ' ' then [line[p]] else []
  }

  /** Stack `k` as drawn by `rows` (top row first): its crates bottom up. */
  function Column(rows: seq<string>, k: nat): (s: seq<char>)
    ensures |s| <= |rows|
  {
    if rows == [] then [] else Column(rows[1..], k) + Cell(rows[0], k)
  }

  /** The line shows a crate for a stack beyond the first `n`; pushing it
      indexes past the end of the stacks and panics. */
  predicate RowBeyond(line: string, n: nat) {
    exists k :: n <= k < |line| && Cell(line, k) != []
  }

  predicate CrateBeyond(rows: seq<string>, n: nat) {
    exists i :: 0 <= i < |rows| && RowBeyond(rows[i], n)
  }

  /** The number of stacks: the last token of the last line, a `usize`. */
  function TowerCount(lines: seq<string>): Option<nat> {
    if lines == [] then None
    else
      var tokens := SplitWhitespace(lines[|lines| - 1]);
      if tokens == [] then None else ParseUnsigned(tokens[|tokens| - 1], USIZE_MAX)
  }

  /** What `parse_towers` returns for the drawing `text`. */
  function TowersOf(text: string): Option<Towers> {
    var lines := Lines(text);
    match TowerCount(lines)
    case None => None
    case Some(n) =>
      var rows := lines[..|lines| - 1];
      if CrateBeyond(rows, n) then None
      else Some(seq(n, k requires 0 <= k < n => Column(rows, k)))
  }

  /** One row of the drawing: `chars().skip(1).step_by(4).enumerate()`,
      pushing every character that is not a space onto its stack. */
  method PushRow(res: Towers, line: string) returns (r: Option<Towers>)
    ensures r.None? <==> RowBeyond(line, |res|)
    ensures r.Some? ==> |r.value| == |res|
    ensures r.Some? ==> forall j :: 0 <= j < |res| ==> r.value[j] == res[j] + Cell(line, j)
  {
    var n := |res|;
    var stacks := res;
    var p, k := 1, 0;
    while p < |line|
      invariant p == 1 + 4 * k
      invariant |stacks| == n
      invariant forall j :: 0 <= j < n ==> stacks[j] == res[j] + (if j < k then Cell(line, j) else [])
      invariant forall j :: n <= j < k ==> Cell(line, j) == []
    {
      if line[p] != ' ' {
        if k >= n {
          assert Cell(line, k) != [];
          return None;
        }
        stacks := stacks[k := stacks[k] + [line[p]]];
      }
      p, k := p + 4, k + 1;
    }
    forall j | k <= j
      ensures Cell(line, j) == []
    {
    }
    return Some(stacks);
  }

  /** `parse_towers`: `count` empty stacks, then the drawing's rows from the
      bottom up, each pushing the crates it shows onto their stacks. */
  method ParseTowers(text: string) returns (r: Option<Towers>)
    ensures r == TowersOf(text)
  {
    var lines := Lines(text);
    var count := TowerCount(lines);
    if count.None? {
      return None;
    }
    var n := count.value;
    var res: Towers := [];
    while |res| < n
      invariant |res| <= n
      invariant forall k :: 0 <= k < |res| ==> res[k] == []
    {
      res := res + [[]];
    }
    ghost var rows := lines[..|lines| - 1];
    var i := |lines| - 1;
    while i > 0
      invariant 0 <= i <= |rows|
      invariant |res| == n
      invariant forall k :: 0 <= k < n ==> res[k] == Column(rows[i..], k)
      invariant forall i' :: i <= i' < |rows| ==> !RowBeyond(rows[i'], n)
    {
      i := i - 1;
      assert rows[i..][1..] == rows[i + 1..];
      var pushed := PushRow(res, lines[i]);
      if pushed.None? {
        assert RowBeyond(rows[i], n);
        return None;
      }
      res := pushed.value;
    }
    assert rows[0..] == rows;
    assert res == seq(n, k requires 0 <= k < n => Column(rows, k));
    r := Some(res);
  }

  // ------------------------------------------------------------ part one

  /** What `one` computes: the input cut at the first blank line into the
      drawing and the instructions, the instructions carried out, and the
      tops of the stacks read left to right, trimmed. */
  function Solve(input: string): Option<string> {
    match SplitOnce(input, "\n\n")
    case None => None
    case Some((drawing, moves)) =>
      match (ParseInstructions(moves), TowersOf(drawing))
      case (Some(instructions), Some(t)) =>
        (match Run(t, instructions)
         case Some(u) => Some(Trim(Tops(u)))
         case None => None)
      case _ => None
  }

  /** `one`: runs the crane on an array of stacks. */
  method One(input: string) returns (r: Option<string>)
    ensures r == Solve(input)
  {
    var halves := SplitOnce(input, "\n\n");
    if halves.None? {
      return None;
    }
    var instructions := ParseInstructions(halves.value.1);
    if instructions.None? {
      return None;
    }
    var parsed := ParseTowers(halves.value.0);
    if parsed.None? {
      return None;
    }
    var t := parsed.value;
    var towers := new seq<char>[|t|](k requires 0 <= k < |t| => t[k]);
    var plan := instructions.value;
    assert towers[..] == t && plan[0..] == plan;
    var i := 0;
    while i < |plan|
      invariant 0 <= i <= |plan|
      invariant Run(t, plan) == Run(towers[..], plan[i..])
    {
      assert plan[i..][1..] == plan[i + 1..];
      if Panics(towers[..], plan[i]) {
        return None;
      }
      Process(towers, plan[i]);
      i := i + 1;
    }
    return Some(Trim(Tops(towers[..])));
  }

  // ------------------------------------------------------------ examples

  /** The instruction text "move N from A to B". */
  function InstructionLine(count: nat, from: nat, to: nat): string {
    "move" + " " + (ShowNat(count) + " " + ("from" + " " + (ShowNat(from) + " " + ("to" + " " + ShowNat(to)))))
  }

  lemma InstructionWords(count: nat, from: nat, to: nat)
    ensures InstructionLine(count, from, to) ==
      Join(["move", ShowNat(count), "from", ShowNat(from), "to", ShowNat(to)], " ")
  {
    var c, f, t := ShowNat(count), ShowNat(from), ShowNat(to);
    JoinCons("to", [t], " ");
    JoinCons(f, ["to", t], " ");
    JoinCons("from", [f, "to", t], " ");
    JoinCons(c, ["from", f, "to", t], " ");
    JoinCons("move", [c, "from", f, "to", t], " ");
  }

  /** An instruction line reads back as its numbers, with the stack numbers
      made zero-based; a stack numbered 0 makes the parse panic. */
  lemma ParseInstructionLine(count: nat, from: nat, to: nat)
    requires count <= USIZE_MAX && from <= USIZE_MAX && to <= USIZE_MAX
    ensures ParseInstruction(InstructionLine(count, from, to)) ==
      if from >= 1 && to >= 1 then Some(Instruction(count, from - 1, to - 1)) else None
  {
    var c, f, t := ShowNat(count), ShowNat(from), ShowNat(to);
    ParseShowNat(count, USIZE_MAX);
    ParseShowNat(from, USIZE_MAX);
    ParseShowNat(to, USIZE_MAX);
    InstructionTokens(count, from, to);
    var parts := ParseAll([c, f, t], USIZE_MAX);
    assert parts.Some? && parts.value == [count, from, to];
  }

  /** The numbers of an instruction line are its odd words. */
  lemma InstructionTokens(count: nat, from: nat, to: nat)
    ensures OddTokens(SplitWhitespace(InstructionLine(count, from, to))) == [ShowNat(count), ShowNat(from), ShowNat(to)]
  {
    var c, f, t := ShowNat(count), ShowNat(from), ShowNat(to);
    var tokens := ["move", c, "from", f, "to", t];
    ParseShowNat(count, count);
    ParseShowNat(from, from);
    ParseShowNat(to, to);
    assert IsToken("move") && IsToken("from") && IsToken("to");
    InstructionWords(count, from, to);
    SplitWhitespaceOfJoin(tokens);
    assert OddTokens(tokens) == [c, f, t];
  }

  /** The example's stacks, bottom up: Z N / M C D / P. */
  function ExampleTowers(): Towers {
    [['Z', 'N'], ['M', 'C', 'D'], ['P']]
  }

  /** The example drawing, stack labels last. */
  function ExampleDrawing(): seq<string> {
    ["    [D]    ", "[N] [C]    ", "[Z] [M] [P]", " 1   2   3 "]
  }

  /** The example drawing's rows show the example stacks and no crate
      beyond the three stacks its last line counts. */
  lemma ExampleColumns()
    ensures var rows := ExampleDrawing()[..3];
      && Column(rows, 0) == ['Z', 'N'] && Column(rows, 1) == ['M', 'C', 'D']
      && Column(rows, 2) == ['P'] && !CrateBeyond(rows, 3)
  {
    var rows := ExampleDrawing()[..3];
    assert rows[1..][1..] == [rows[2]];
    forall i | 0 <= i < 3
      ensures !RowBeyond(rows[i], 3)
    {
    }
  }

  /** A line ending in a token and a space has that token last. */
  lemma LastToken(a: string, t: string)
    requires IsToken(t)
    ensures var tokens := SplitWhitespace(a + [' '] + t + [' ']);
      tokens != [] && tokens[|tokens| - 1] == t
  {
    assert a + [' '] + t + [' '] == a + [' '] + (t + [' '] + []);
    SplitWhitespaceAround(a, ' ', t + [' '] + []);
    SplitWhitespaceAround(t, ' ', []);
    SplitWhitespaceOfToken(t);
  }

  /** The example drawing's last line counts three stacks. */
  lemma ExampleCount()
    ensures TowerCount(ExampleDrawing()) == Some(3)
  {
    var lines := ExampleDrawing();
    assert lines[3] == " 1   2  " + [' '] + "3" + [' '];
    ParseShowNat(3, USIZE_MAX);
    LastToken(" 1   2  ", "3");
  }

  /** The text of a plan, one instruction line per move, with the stacks
      numbered from 1. */
  function PlanLines(plan: seq<Instruction>): (lines: seq<string>)
    ensures |lines| == |plan|
  {
    seq(|plan|, k requires 0 <= k < |plan| =>
      InstructionLine(plan[k].count, plan[k].from + 1, plan[k].to + 1))
  }

  lemma InstructionLinePlain(count: nat, from: nat, to: nat)
    ensures PlainLine(InstructionLine(count, from, to)) && InstructionLine(count, from, to) != []
  {
    var t := ShowNat(to);
    NoSeparatorInNumeral(count, '\n');
    NoSeparatorInNumeral(from, '\n');
    NoSeparatorInNumeral(to, '\n');
    var l := InstructionLine(count, from, to);
    assert l[|l| - 1] == t[|t| - 1];
    assert IsDigit(t[|t| - 1]);
  }

  predicate Representable(plan: seq<Instruction>) {
    forall k :: 0 <= k < |plan| ==>
      plan[k].count <= USIZE_MAX && plan[k].from < USIZE_MAX && plan[k].to < USIZE_MAX
  }

  lemma LineOfPlan(plan: seq<Instruction>, k: nat)
    requires Representable(plan) && k < |plan|
    ensures PlainLine(PlanLines(plan)[k]) && PlanLines(plan)[k] != []
    ensures ParseInstruction(PlanLines(plan)[k]) == Some(plan[k])
  {
    var ins := plan[k];
    assert PlanLines(plan)[k] == InstructionLine(ins.count, ins.from + 1, ins.to + 1);
    InstructionLinePlain(ins.count, ins.from + 1, ins.to + 1);
    ParseInstructionLine(ins.count, ins.from + 1, ins.to + 1);
  }

  lemma ParseEachOfPlan(plan: seq<Instruction>)
    requires Representable(plan)
    ensures ParseEach(PlanLines(plan)) == Some(plan)
    ensures forall k :: 0 <= k < |plan| ==> PlainLine(PlanLines(plan)[k]) && PlanLines(plan)[k] != []
  {
    var lines := PlanLines(plan);
    forall k | 0 <= k < |plan|
      ensures PlainLine(lines[k]) && lines[k] != [] && ParseInstruction(lines[k]) == Some(plan[k])
    {
      LineOfPlan(plan, k);
    }
    assert ParseEach(lines).value == plan;
  }

  /** `parse_instructions` reads back every plan written out as text, whether
      or not the last line is ended by a newline. */
  lemma ParsePlan(plan: seq<Instruction>)
    requires Representable(plan)
    ensures ParseInstructions(Unlines(PlanLines(plan))) == Some(plan)
    ensures |plan| > 0 ==> ParseInstructions(Join(PlanLines(plan), "\n")) == Some(plan)
  {
    ParseEachOfPlan(plan);
    LinesOfUnlines(PlanLines(plan));
    if |plan| > 0 {
      LinesOfJoin(PlanLines(plan));
    }
  }

  /** The example's moves: 1 from 2 to 1, 3 from 1 to 3, 2 from 2 to 1,
      1 from 1 to 2. */
  function ExamplePlan(): seq<Instruction> {
    [Instruction(1, 1, 0), Instruction(3, 0, 2), Instruction(2, 1, 0), Instruction(1, 0, 1)]
  }

  /** The example's move lines, "move 1 from 2 to 1" and so on, read back
      as the example plan. */
  lemma ExamplePlanParse()
    ensures ParseInstructions(Join(PlanLines(ExamplePlan()), "\n")) == Some(ExamplePlan())
  {
    var plan := ExamplePlan();
    assert Representable(plan) && |plan| == 4;
    ParsePlan(plan);
  }

  /** The example's first move: one crate from stack 2 to stack 1. */
  lemma ExampleFirstMove()
    ensures Moved(ExampleTowers(), ExamplePlan()[0]) == [['Z', 'N', 'D'], ['M', 'C'], ['P']]
  {
    var t0: Towers := [['Z', 'N'], ['M', 'C', 'D'], ['P']];
    var ins := ExamplePlan()[0];
    assert ins == Instruction(1, 1, 0);
    var s := t0[1];
    assert Min(1, |s|) == 1;
    assert Reverse(['D']) == ['D'];
    assert s[2..] == ['D'] && s[..2] == ['M', 'C'];
    assert ['Z', 'N'] + ['D'] == ['Z', 'N', 'D'];
    assert Moved(t0, ins) == t0[1 := ['M', 'C']][0 := ['Z', 'N'] + ['D']];
  }

  /** The second move: three crates from stack 1 to stack 3. */
  lemma ExampleSecondMove()
    ensures Moved([['Z', 'N', 'D'], ['M', 'C'], ['P']], ExamplePlan()[1])
      == [[], ['M', 'C'], ['P', 'D', 'N', 'Z']]
  {
    var t1: Towers := [['Z', 'N', 'D'], ['M', 'C'], ['P']];
    var ins := ExamplePlan()[1];
    assert ins == Instruction(3, 0, 2);
    assert Reverse(['Z', 'N', 'D']) == ['D', 'N', 'Z'];
    assert t1[0][0..] == ['Z', 'N', 'D'] && t1[0][..0] == [];
    assert ['P'] + ['D', 'N', 'Z'] == ['P', 'D', 'N', 'Z'];
    assert Moved(t1, ins) == t1[0 := []][2 := ['P'] + ['D', 'N', 'Z']];
  }

  /** The third move: two crates from stack 2 to stack 1. */
  lemma ExampleThirdMove()
    ensures Moved([[], ['M', 'C'], ['P', 'D', 'N', 'Z']], ExamplePlan()[2])
      == [['C', 'M'], [], ['P', 'D', 'N', 'Z']]
  {
    var t2: Towers := [[], ['M', 'C'], ['P', 'D', 'N', 'Z']];
    var ins := ExamplePlan()[2];
    assert ins == Instruction(2, 1, 0);
    assert Reverse(['M', 'C']) == ['C', 'M'];
    assert t2[1][0..] == ['M', 'C'] && t2[1][..0] == [];
    assert [] + ['C', 'M'] == ['C', 'M'];
    assert Moved(t2, ins) == t2[1 := []][0 := [] + ['C', 'M']];
  }

  /** The last move: one crate from stack 1 to stack 2. */
  lemma ExampleFourthMove()
    ensures Moved([['C', 'M'], [], ['P', 'D', 'N', 'Z']], ExamplePlan()[3])
      == [['C'], ['M'], ['P', 'D', 'N', 'Z']]
  {
    var t3: Towers := [['C', 'M'], [], ['P', 'D', 'N', 'Z']];
    var ins := ExamplePlan()[3];
    assert ins == Instruction(1, 0, 1);
    assert Reverse(['M']) == ['M'];
    assert t3[0][1..] == ['M'] && t3[0][..1] == ['C'];
    assert [] + ['M'] == ['M'];
    assert Moved(t3, ins) == t3[0 := ['C']][1 := [] + ['M']];
  }

  /** Carrying out the example's moves leaves C, M and Z on top. */
  lemma ExampleRun()
    ensures Run(ExampleTowers(), ExamplePlan()) == Some([['C'], ['M'], ['P', 'D', 'N', 'Z']])
  {
    var plan := ExamplePlan();
    var t1: Towers := [['Z', 'N', 'D'], ['M', 'C'], ['P']];
    var t2: Towers := [[], ['M', 'C'], ['P', 'D', 'N', 'Z']];
    var t3: Towers := [['C', 'M'], [], ['P', 'D', 'N', 'Z']];
    var t4: Towers := [['C'], ['M'], ['P', 'D', 'N', 'Z']];
    ExampleFirstMove();
    ExampleSecondMove();
    ExampleThirdMove();
    ExampleFourthMove();
    assert Run(t4, plan[4..]) == Some(t4) by { assert plan[4..] == []; }
    assert Run(t3, plan[3..]) == Run(t4, plan[4..]) by { assert plan[3..][1..] == plan[4..]; }
    assert Run(t2, plan[2..]) == Run(t3, plan[3..]) by { assert plan[2..][1..] == plan[3..]; }
    assert Run(t1, plan[1..]) == Run(t2, plan[2..]) by { assert plan[1..][1..] == plan[2..]; }
  }

  /** The tops of the final stacks read "CMZ". */
  lemma ExampleTops()
    ensures Trim(Tops([['C'], ['M'], ['P', 'D', 'N', 'Z']])) == "CMZ"
  {
    var t: Towers := [['C'], ['M'], ['P', 'D', 'N', 'Z']];
    assert Tops(t[2..]) == ['Z'] by { assert t[2..][1..] == []; }
    assert Tops(t[1..]) == ['M'] + Tops(t[2..]) by { assert t[1..][1..] == t[2..]; }
    assert Tops(t) == ['C', 'M', 'Z'];
    assert IsToken("CMZ");
    TrimToken("CMZ");
  }
}

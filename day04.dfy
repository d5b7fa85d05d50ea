/** Day 4, Camp Cleanup.  Each line assigns two elves a range of section
    numbers, "a-b,c-d".  Part one counts the pairs where one range contains
    the other, part two the pairs that overlap. */
module CampCleanup {
  import opened Wrappers
  import opened Text

  const U32_MAX: nat := 0xFFFF_FFFF

  /** A range of sections, both ends included.  The program never checks
      that `lo <= hi`; the lemmas that need it say so. */
  datatype Range = Range(lo: nat, hi: nat)

  predicate WellFormed(r: Range) {
    r.lo <= r.hi
  }

  /** `is_contained`: `r0` lies inside `r1`. */
  predicate IsContained(r0: Range, r1: Range) {
    r0.lo >= r1.lo && r0.hi <= r1.hi
  }

  /** `is_overlapping`: the upper end of `r0` lies inside `r1`. */
  predicate IsOverlapping(r0: Range, r1: Range) {
    r0.hi >= r1.lo && r0.hi <= r1.hi
  }

  /** The tests `one` and `two` apply to a line's pair, in both orders. */
  predicate EitherContained(a: Range, b: Range) {
    IsContained(a, b) || IsContained(b, a)
  }

  predicate EitherOverlapping(a: Range, b: Range) {
    IsOverlapping(a, b) || IsOverlapping(b, a)
  }

  // ------------------------------------------------------------ parsing

  /** One elf's "a-b": the pieces between '-' as `u32` values, then the
      first two of them (indexing `parts[1]` panics when there is only one). */
  function ParseRange(elf: string): Option<Range> {
    match ParseAll(Split(elf, "-"), U32_MAX)
    case Some(parts) => if |parts| >= 2 then Some(Range(parts[0], parts[1])) else None
    case None => None
  }

  /** `parse_line`: the ranges between ','. */
  function ParseLine(line: string): Option<seq<Range>> {
    All(ParseRange, Split(line, ","))
  }

  /** The pair `one` and `two` index, `ranges[0]` and `ranges[1]`: a panic
      when the line does not parse or has fewer than two ranges. */
  function LinePair(line: string): (r: Option<(Range, Range)>)
    ensures r.Some? <==> ParseLine(line).Some? && |ParseLine(line).value| >= 2
    ensures r.Some? ==> r.value == (ParseLine(line).value[0], ParseLine(line).value[1])
  {
    match ParseLine(line)
    case Some(ranges) => if |ranges| >= 2 then Some((ranges[0], ranges[1])) else None
    case None => None
  }

  /** The pairs of all the lines, or a panic when one line has none. */
  function Pairs(lines: seq<string>): Option<seq<(Range, Range)>> {
    All(LinePair, lines)
  }

  function CountContained(pairs: seq<(Range, Range)>): (n: nat)
    ensures n <= |pairs|
  {
    if pairs == [] then 0
    else (if EitherContained(pairs[0].0, pairs[0].1) then 1 else 0) + CountContained(pairs[1..])
  }

  function CountOverlapping(pairs: seq<(Range, Range)>): (n: nat)
    ensures n <= |pairs|
  {
    if pairs == [] then 0
    else (if EitherOverlapping(pairs[0].0, pairs[0].1) then 1 else 0) + CountOverlapping(pairs[1..])
  }

  /** `one`: the number of pairs where one range contains the other. */
  function One(input: string): Option<nat> {
    match Pairs(Lines(input))
    case Some(pairs) => Some(CountContained(pairs))
    case None => None
  }

  /** `two`: the number of pairs that overlap. */
  function Two(input: string): Option<nat> {
    match Pairs(Lines(input))
    case Some(pairs) => Some(CountOverlapping(pairs))
    case None => None
  }

  // ------------------------------------------------------------ lemmas

  predicate In(x: nat, r: Range) {
    r.lo <= x <= r.hi
  }

  /** The cases the program's tests check. */
  lemma TestCases()
    ensures IsContained(Range(3, 7), Range(2, 8))
    ensures IsContained(Range(6, 6), Range(4, 6))
    ensures !IsContained(Range(4, 6), Range(6, 6))
    ensures !IsContained(Range(1, 7), Range(4, 6))
    ensures IsOverlapping(Range(5, 7), Range(7, 9))
    ensures IsOverlapping(Range(3, 7), Range(2, 8))
    ensures IsOverlapping(Range(6, 6), Range(4, 6))
    ensures !IsOverlapping(Range(2, 4), Range(5, 6))
  {
  }

  /** `is_contained(r0, r1)` is containment of the section sets. */
  lemma ContainedIsSubset(r0: Range, r1: Range)
    requires WellFormed(r0)
    ensures IsContained(r0, r1) <==> forall x :: In(x, r0) ==> In(x, r1)
  {
    if forall x :: In(x, r0) ==> In(x, r1) {
      assert In(r0.lo, r0) && In(r0.hi, r0);
    }
  }

  /** Testing `is_overlapping` both ways finds exactly the pairs of
      well-formed ranges that share a section. */
  lemma OverlappingIsSharedSection(a: Range, b: Range)
    requires WellFormed(a) && WellFormed(b)
    ensures EitherOverlapping(a, b) <==> exists x :: In(x, a) && In(x, b)
  {
    if IsOverlapping(a, b) {
      assert In(a.hi, a) && In(a.hi, b);
    } else if IsOverlapping(b, a) {
      assert In(b.hi, a) && In(b.hi, b);
    }
    if exists x :: In(x, a) && In(x, b) {
      var x :| In(x, a) && In(x, b);
      assert a.hi <= b.hi ==> IsOverlapping(a, b);
      assert b.hi < a.hi ==> IsOverlapping(b, a);
    }
  }

  lemma OverlappingSymmetric(a: Range, b: Range)
    ensures EitherOverlapping(a, b) == EitherOverlapping(b, a)
  {
  }

  /** Containment either way implies overlap for well-formed ranges. */
  lemma ContainedImpliesOverlapping(a: Range, b: Range)
    requires WellFormed(a) && WellFormed(b)
    ensures EitherContained(a, b) ==> EitherOverlapping(a, b)
  {
  }

  /** Without `lo <= hi` it fails: (5,3) lies inside (4,9) by the test, but
      neither upper end falls in the other range. */
  lemma ContainedWithoutOverlap()
    ensures EitherContained(Range(5, 3), Range(4, 9))
    ensures !EitherOverlapping(Range(5, 3), Range(4, 9))
  {
  }

  predicate AllWellFormed(pairs: seq<(Range, Range)>) {
    forall k :: 0 <= k < |pairs| ==> WellFormed(pairs[k].0) && WellFormed(pairs[k].1)
  }

  lemma {:induction false} CountContainedAtMostOverlapping(pairs: seq<(Range, Range)>)
    requires AllWellFormed(pairs)
    ensures CountContained(pairs) <= CountOverlapping(pairs)
  {
    if pairs != [] {
      ContainedImpliesOverlapping(pairs[0].0, pairs[0].1);
      CountContainedAtMostOverlapping(pairs[1..]);
    }
  }

  /** Parts one and two fail on the same inputs, and when every range is
      well formed part two counts at least as many pairs as part one. */
  lemma TwoAtLeastOne(input: string)
    ensures One(input).Some? <==> Two(input).Some?
    ensures One(input).Some? && AllWellFormed(Pairs(Lines(input)).value) ==>
      One(input).value <= Two(input).value
  {
    var p := Pairs(Lines(input));
    if p.Some? && AllWellFormed(p.value) {
      CountContainedAtMostOverlapping(p.value);
    }
  }

  // ------------------------------------------------- parsing round trip

  /** The text of an assignment pair, "a-b,c-d". */
  function PairLine(a: Range, b: Range): string {
    RangeText(a) + "," + RangeText(b)
  }

  /** The text of one range, "a-b". */
  function RangeText(r: Range): string {
    ShowNat(r.lo) + "-" + ShowNat(r.hi)
  }

  predicate Fits(r: Range) {
    r.lo <= U32_MAX && r.hi <= U32_MAX
  }

  lemma NoSeparators(n: nat)
    ensures '-' !in ShowNat(n) && ',' !in ShowNat(n) && '\n' !in ShowNat(n)
  {
    NoSeparatorInNumeral(n, '-');
    NoSeparatorInNumeral(n, ',');
    NoSeparatorInNumeral(n, '\n');
  }

  lemma ParseRangeOfText(r: Range)
    requires Fits(r)
    ensures ParseRange(RangeText(r)) == Some(r)
  {
    var x, y := ShowNat(r.lo), ShowNat(r.hi);
    assert RangeText(r) == x + ['-'] + y;
    NoSeparators(r.lo);
    NoSeparators(r.hi);
    SplitInTwo(x, '-', y);
    ParseShowNat(r.lo, U32_MAX);
    ParseShowNat(r.hi, U32_MAX);
    var ns := ParseAll([x, y], U32_MAX);
    assert ns.Some? && ns.value[0] == r.lo && ns.value[1] == r.hi;
  }

  /** `parse_line` reads back the pair that `PairLine` writes. */
  lemma ParseLineOfText(a: Range, b: Range)
    requires Fits(a) && Fits(b)
    ensures ParseLine(PairLine(a, b)) == Some([a, b])
  {
    var x, y := RangeText(a), RangeText(b);
    assert PairLine(a, b) == x + [','] + y;
    NoSeparators(a.lo);
    NoSeparators(a.hi);
    NoSeparators(b.lo);
    NoSeparators(b.hi);
    SplitInTwo(x, ',', y);
    ParseRangeOfText(a);
    ParseRangeOfText(b);
    AllOfPair(ParseRange, x, y, a, b);
  }

  /** The pair a written line assigns is the pair it was written from. */
  lemma LinePairOfText(a: Range, b: Range)
    requires Fits(a) && Fits(b)
    ensures LinePair(PairLine(a, b)) == Some((a, b))
  {
    ParseLineOfText(a, b);
  }

  function PairLines(pairs: seq<(Range, Range)>): (lines: seq<string>)
    ensures |lines| == |pairs|
    ensures forall k :: 0 <= k < |pairs| ==> lines[k] == PairLine(pairs[k].0, pairs[k].1)
  {
    if pairs == [] then [] else [PairLine(pairs[0].0, pairs[0].1)] + PairLines(pairs[1..])
  }

  /** The lines written for a list of pairs read back as those pairs. */
  lemma PairsOfText(pairs: seq<(Range, Range)>)
    requires forall k :: 0 <= k < |pairs| ==> Fits(pairs[k].0) && Fits(pairs[k].1)
    ensures Pairs(PairLines(pairs)) == Some(pairs)
  {
    var lines := PairLines(pairs);
    forall k | 0 <= k < |lines|
      ensures LinePair(lines[k]) == Some(pairs[k])
    {
      LinePairOfText(pairs[k].0, pairs[k].1);
    }
    var r := All(LinePair, lines);
    assert r.Some?;
    assert r.value == pairs;
  }

  /** The input text for a list of pairs reads back as those pairs, so
      `one` and `two` count them. */
  lemma SolveText(pairs: seq<(Range, Range)>)
    requires forall k :: 0 <= k < |pairs| ==> Fits(pairs[k].0) && Fits(pairs[k].1)
    ensures One(Unlines(PairLines(pairs))) == Some(CountContained(pairs))
    ensures Two(Unlines(PairLines(pairs))) == Some(CountOverlapping(pairs))
  {
    var lines := PairLines(pairs);
    forall k | 0 <= k < |lines|
      ensures PlainLine(lines[k])
    {
      PlainPairLine(pairs[k].0, pairs[k].1);
    }
    LinesOfUnlines(lines);
    PairsOfText(pairs);
  }

  lemma PlainPairLine(a: Range, b: Range)
    ensures PlainLine(PairLine(a, b))
  {
    var l := PairLine(a, b);
    var t := ShowNat(b.hi);
    NoSeparators(a.lo);
    NoSeparators(a.hi);
    NoSeparators(b.lo);
    NoSeparators(b.hi);
    assert IsDigit(t[|t| - 1]);
    assert l[|l| - 1] == t[|t| - 1];
  }

  /** The example assignments: 2-4,6-8 / 2-3,4-5 / 5-7,7-9 / 2-8,3-7 /
      6-6,4-6 / 2-6,4-8. */
  function ExamplePairs(): seq<(Range, Range)> {
    [(Range(2, 4), Range(6, 8)), (Range(2, 3), Range(4, 5)),
     (Range(5, 7), Range(7, 9)), (Range(2, 8), Range(3, 7)),
     (Range(6, 6), Range(4, 6)), (Range(2, 6), Range(4, 8))]
  }

  lemma ExampleCounts()
    ensures CountContained(ExamplePairs()) == 2
    ensures CountOverlapping(ExamplePairs()) == 4
  {
    var pairs := ExamplePairs();
    assert pairs[1..][1..][1..][1..][1..][1..] == [];
    assert CountContained(pairs[1..][1..][1..][1..][1..]) == 0;
    assert CountContained(pairs[1..][1..][1..][1..]) == 1;
    assert CountContained(pairs[1..][1..][1..]) == 2;
    assert CountOverlapping(pairs[1..][1..][1..][1..][1..]) == 1;
    assert CountOverlapping(pairs[1..][1..][1..][1..]) == 2;
    assert CountOverlapping(pairs[1..][1..][1..]) == 3;
    assert CountOverlapping(pairs[1..][1..]) == 4;
  }

  /** The example has 2 pairs where one range contains the other and 4
      overlapping pairs. */
  lemma Example()
    ensures One(Unlines(PairLines(ExamplePairs()))) == Some(2)
    ensures Two(Unlines(PairLines(ExamplePairs()))) == Some(4)
  {
    var pairs := ExamplePairs();
    assert forall k :: 0 <= k < |pairs| ==> Fits(pairs[k].0) && Fits(pairs[k].1);
    SolveText(pairs);
    ExampleCounts();
  }
}

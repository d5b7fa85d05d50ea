/** Day 1, Calorie Counting.  The input lists the calories each elf
    carries, one number per line, with an empty line between elves; the
    answer is the largest elf total. */
module CalorieCounting {
  import opened Wrappers
  import opened Text

  const USIZE_MAX: nat := 0xFFFF_FFFF_FFFF_FFFF

  function Sum(xs: seq<nat>): nat {
    if xs == [] then 0 else xs[0] + Sum(xs[1..])
  }

  /** The calories of one line: its `usize` value, or 0 when the line does
      not parse (an empty line included), since a failed parse falls back to
      the default value instead of stopping the program. */
  function LineCalories(line: string): nat {
    ParseUnsigned(line, USIZE_MAX).GetOr(0)
  }

  /** The total of a block of lines. */
  function Total(lines: seq<string>): nat {
    if lines == [] then 0 else LineCalories(lines[0]) + Total(lines[1..])
  }

  /** `parse_elf`: the total of the lines of one elf's block. */
  function ParseElf(elf: string): nat {
    Total(Lines(elf))
  }

  /** The position of a largest element of a nonempty list. */
  function ArgMax(xs: seq<nat>): (m: nat)
    requires |xs| > 0
    ensures m < |xs|
    ensures forall k :: 0 <= k < |xs| ==> xs[k] <= xs[m]
  {
    if |xs| == 1 then 0
    else
      var rest := 1 + ArgMax(xs[1..]);
      if xs[0] >= xs[rest] then 0 else rest
  }

  /** The elves' blocks: the input split at every "\n\n". */
  function Elves(input: string): (blocks: seq<string>)
    ensures |blocks| >= 1
  {
    Split(input, "\n\n")
  }

  /** Each block's total, in block order. */
  function Totals(blocks: seq<string>): (totals: seq<nat>)
    ensures |totals| == |blocks|
    ensures forall k :: 0 <= k < |blocks| ==> totals[k] == ParseElf(blocks[k])
  {
    seq(|blocks|, k requires 0 <= k < |blocks| => ParseElf(blocks[k]))
  }

  /** `one`: the largest elf total.  `split` always yields at least one
      block, so the final `unwrap` never fails. */
  function One(input: string): (r: nat)
    ensures exists k :: 0 <= k < |Elves(input)| && ParseElf(Elves(input)[k]) == r
    ensures forall k :: 0 <= k < |Elves(input)| ==> ParseElf(Elves(input)[k]) <= r
  {
    var totals := Totals(Elves(input));
    totals[ArgMax(totals)]
  }

  // ------------------------------------------------------------ lemmas

  lemma {:induction false} TotalAppend(a: seq<string>, b: seq<string>)
    ensures Total(a + b) == Total(a) + Total(b)
  {
    if a == [] {
      assert a + b == b;
    } else {
      assert (a + b)[1..] == a[1..] + b;
      TotalAppend(a[1..], b);
    }
  }

  /** The lines that print the numbers `ns`. */
  function Numerals(ns: seq<nat>): (lines: seq<string>)
    ensures |lines| == |ns|
  {
    seq(|ns|, k requires 0 <= k < |ns| => ShowNat(ns[k]))
  }

  lemma {:induction false} TotalOfNumerals(ns: seq<nat>)
    requires forall k :: 0 <= k < |ns| ==> ns[k] <= USIZE_MAX
    ensures Total(Numerals(ns)) == Sum(ns)
  {
    if ns != [] {
      ParseShowNat(ns[0], USIZE_MAX);
      assert Numerals(ns)[1..] == Numerals(ns[1..]);
      TotalOfNumerals(ns[1..]);
    }
  }

  lemma NumeralsArePlain(ns: seq<nat>)
    ensures forall k :: 0 <= k < |ns| ==> PlainLine(Numerals(ns)[k]) && Numerals(ns)[k] != []
  {
    forall k | 0 <= k < |ns|
      ensures PlainLine(Numerals(ns)[k])
    {
      var t := ShowNat(ns[k]);
      assert IsDigit(t[|t| - 1]);
      assert forall i :: 0 <= i < |t| ==> t[i] != '\n';
    }
  }

  /** A block that prints the numbers `ns`, one per line, totals their sum,
      whether or not its last line is ended by a newline. */
  lemma ParseElfOfNumbers(ns: seq<nat>)
    requires forall k :: 0 <= k < |ns| ==> ns[k] <= USIZE_MAX
    ensures ParseElf(Unlines(Numerals(ns))) == Sum(ns)
    ensures |ns| > 0 ==> ParseElf(Join(Numerals(ns), "\n")) == Sum(ns)
  {
    NumeralsArePlain(ns);
    LinesOfUnlines(Numerals(ns));
    if |ns| > 0 {
      LinesOfJoin(Numerals(ns));
    }
    TotalOfNumerals(ns);
  }

  /** An empty block totals 0. */
  lemma ParseElfOfEmpty()
    ensures ParseElf("") == 0
  {
  }

  /** A line that is not a `usize` numeral adds nothing: the block totals
      the same with the line taken out. */
  lemma ParseElfSkipsMalformed(before: seq<string>, bad: string, after: seq<string>)
    requires forall k :: 0 <= k < |before| ==> PlainLine(before[k])
    requires forall k :: 0 <= k < |after| ==> PlainLine(after[k])
    requires PlainLine(bad) && ParseUnsigned(bad, USIZE_MAX).None?
    ensures ParseElf(Unlines(before + [bad] + after)) == ParseElf(Unlines(before + after))
  {
    var all := before + [bad] + after;
    assert forall k :: 0 <= k < |all| ==> PlainLine(all[k]);
    LinesOfUnlines(all);
    LinesOfUnlines(before + after);
    TotalAppend(before + [bad], after);
    TotalAppend(before, [bad]);
    TotalAppend(before, after);
  }
}

/** The parts of Rust's `str` API that the solvers read their puzzle text
    with: `lines`, `split`, `split_once`, `split_whitespace`, `trim`,
    `join` and `parse` into an unsigned integer type.  Each is given with
    the property that pins it down (a round trip or a characterisation),
    so the solvers' lemmas can reason about concrete inputs. */
module Text {
  import opened Wrappers

  /** `char::is_whitespace`: the Unicode White_Space property. */
  predicate IsWhitespace(c: char) {
    || c == ' '
    || '\t' <= c <= '\r'
    || c == '\U{85}' || c == '\U{A0}' || c == '\U{1680}'
    || '\U{2000}' <= c <= '\U{200A}'
    || c == '\U{2028}' || c == '\U{2029}' || c == '\U{202F}'
    || c == '\U{205F}' || c == '\U{3000}'
  }

  /** `char::to_digit(10)` succeeds. */
  predicate IsDigit(c: char) {
    '0' <= c <= '9'
  }

  function DigitValue(c: char): (d: nat)
    requires IsDigit(c)
    ensures d <= 9
  {
    (c as int) - ('0' as int)
  }

  function DigitChar(d: nat): (c: char)
    requires d <= 9
    ensures IsDigit(c) && DigitValue(c) == d
  {
    (('0' as int) + d) as char
  }

  // ---------------------------------------------------------------- search

  /** `sep` occurs in `s` starting at index `j`. */
  predicate At(s: string, j: nat, sep: string) {
    j + |sep| <= |s| && s[j..j + |sep|] == sep
  }

  ghost predicate Contains(s: string, sep: string) {
    exists j: nat :: At(s, j, sep)
  }

  /** The first index at or after `i` where `sep` occurs in `s`. */
  function Find(s: string, sep: string, i: nat): (r: Option<nat>)
    requires |sep| > 0 && i <= |s|
    ensures r.Some? ==> i <= r.value && At(s, r.value, sep)
    ensures forall j: nat :: i <= j && (r.None? || j < r.value) ==> !At(s, j, sep)
    decreases |s| - i
  {
    if i + |sep| > |s| then None
    else if s[i..i + |sep|] == sep then Some(i)
    else Find(s, sep, i + 1)
  }

  /** The first index at or after `i` holding the character `c`. */
  function FindChar(s: string, c: char, i: nat): (r: Option<nat>)
    requires i <= |s|
    ensures r.Some? ==> i <= r.value < |s| && s[r.value] == c
    ensures forall j :: i <= j < |s| && (r.None? || j < r.value) ==> s[j] != c
    decreases |s| - i
  {
    if i == |s| then None
    else if s[i] == c then Some(i)
    else FindChar(s, c, i + 1)
  }

  /** An occurrence of `sep` inside a prefix is an occurrence in the whole. */
  lemma AtPrefix(s: string, n: nat, j: nat, sep: string)
    requires n <= |s| && At(s[..n], j, sep)
    ensures At(s, j, sep) && j + |sep| <= n
  {
    assert s[..n][j..j + |sep|] == s[j..j + |sep|];
  }

  /** No occurrence of `sep` starts before `n`, so none lies inside `s[..n]`. */
  lemma NoneInPrefix(s: string, n: nat, sep: string)
    requires n <= |s| && |sep| > 0
    requires forall j: nat :: j < n ==> !At(s, j, sep)
    ensures !Contains(s[..n], sep)
  {
    forall j: nat | At(s[..n], j, sep)
      ensures false
    {
      AtPrefix(s, n, j, sep);
    }
  }

  // ------------------------------------------------------- split and join

  /** `parts.join(sep)` (Rust's `[String]::join`). */
  function Join(parts: seq<string>, sep: string): string
  {
    if |parts| == 0 then []
    else if |parts| == 1 then parts[0]
    else parts[0] + sep + Join(parts[1..], sep)
  }

  /** Joining a list with a first element puts `sep` after that element. */
  lemma JoinCons(first: string, rest: seq<string>, sep: string)
    requires |rest| > 0
    ensures Join([first] + rest, sep) == first + sep + Join(rest, sep)
  {
    assert ([first] + rest)[1..] == rest;
  }

  /** `s.split(sep)`: the pieces between the non-overlapping occurrences of
      `sep`, found left to right.  There is always at least one piece,
      joining the pieces back gives `s`, and no piece contains `sep`. */
  function Split(s: string, sep: string): (parts: seq<string>)
    requires |sep| > 0
    ensures |parts| >= 1 && Join(parts, sep) == s
    ensures forall k :: 0 <= k < |parts| ==> !Contains(parts[k], sep)
    decreases |s|
  {
    match Find(s, sep, 0)
    case None =>
      NoneInPrefix(s, |s|, sep);
      assert s[..|s|] == s;
      [s]
    case Some(i) =>
      NoneInPrefix(s, i, sep);
      var rest := Split(s[i + |sep|..], sep);
      assert s == s[..i] + sep + s[i + |sep|..];
      [s[..i]] + rest
  }

  /** A one-character separator occurs exactly where that character is. */
  lemma AtChar(s: string, j: nat, c: char)
    ensures At(s, j, [c]) <==> j < |s| && s[j] == c
  {
    if j < |s| {
      assert s[j..j + 1] == [s[j]];
    }
  }

  /** Text without the separator character is a single piece. */
  lemma SplitWithoutSeparator(x: string, c: char)
    requires c !in x
    ensures Split(x, [c]) == [x]
  {
    var r := Find(x, [c], 0);
    if r.Some? {
      AtChar(x, r.value, c);
    }
  }

  /** Splitting at a character cuts at its first occurrence. */
  lemma SplitAtFirst(x: string, c: char, y: string)
    requires c !in x
    ensures Split(x + [c] + y, [c]) == [x] + Split(y, [c])
  {
    var s := x + [c] + y;
    var r := Find(s, [c], 0);
    AtChar(s, |x|, c);
    if r.Some? {
      AtChar(s, r.value, c);
    }
    assert r == Some(|x|);
    assert s[..|x|] == x;
    assert s[|x| + 1..] == y;
  }

  /** Text with exactly one separator character splits into two pieces. */
  lemma SplitInTwo(x: string, c: char, y: string)
    requires c !in x && c !in y
    ensures Split(x + [c] + y, [c]) == [x, y]
  {
    SplitAtFirst(x, c, y);
    SplitWithoutSeparator(y, c);
  }

  /** `s.split_once(sep)`: the text before and after the first `sep`. */
  function SplitOnce(s: string, sep: string): (r: Option<(string, string)>)
    requires |sep| > 0
    ensures r.Some? ==> r.value.0 + sep + r.value.1 == s && !Contains(r.value.0, sep)
    ensures r.None? <==> !Contains(s, sep)
  {
    match Find(s, sep, 0)
    case None => None
    case Some(i) =>
      NoneInPrefix(s, i, sep);
      assert s == s[..i] + sep + s[i + |sep|..];
      Some((s[..i], s[i + |sep|..]))
  }

  /** `split_once` at a character cuts at its first occurrence. */
  lemma SplitOnceAtChar(x: string, c: char, y: string)
    requires c !in x
    ensures SplitOnce(x + [c] + y, [c]) == Some((x, y))
  {
    var s := x + [c] + y;
    var r := Find(s, [c], 0);
    AtChar(s, |x|, c);
    if r.Some? {
      AtChar(s, r.value, c);
    }
    assert r == Some(|x|);
    assert s[..|x|] == x;
    assert s[|x| + 1..] == y;
  }

  /** Without the separator there is nothing to split. */
  lemma SplitOnceWithoutChar(x: string, c: char)
    requires c !in x
    ensures SplitOnce(x, [c]) == None
  {
    var r := Find(x, [c], 0);
    if r.Some? {
      AtChar(x, r.value, c);
    }
  }

  // ------------------------------------------------------------------ lines

  predicate EndsWithCr(line: string) {
    |line| > 0 && line[|line| - 1] == '\r'
  }

  function StripCr(line: string): string {
    if EndsWithCr(line) then line[..|line| - 1] else line
  }

  /** `s.lines()`: the pieces ended by "\n", where an ending "\r\n" drops
      its '\r' too; the last line needs no ending, and a final "\n" is not
      followed by an empty line. */
  function Lines(s: string): (lines: seq<string>)
    ensures forall k :: 0 <= k < |lines| ==> '\n' !in lines[k]
    decreases |s|
  {
    if s == [] then []
    else match FindChar(s, '\n', 0)
      case None => [s]
      case Some(i) => [StripCr(s[..i])] + Lines(s[i + 1..])
  }

  /** The text whose lines are `lines`, each ended by "\n". */
  function Unlines(lines: seq<string>): string {
    if lines == [] then [] else lines[0] + "\n" + Unlines(lines[1..])
  }

  predicate PlainLine(line: string) {
    '\n' !in line && !EndsWithCr(line)
  }

  /** `lines` undoes `Unlines` for lines without a newline or a final '\r'. */
  lemma {:induction false} LinesOfUnlines(lines: seq<string>)
    requires forall k :: 0 <= k < |lines| ==> PlainLine(lines[k])
    ensures Lines(Unlines(lines)) == lines
  {
    if lines != [] {
      var l, rest := lines[0], lines[1..];
      var s := Unlines(lines);
      assert s == l + "\n" + Unlines(rest);
      assert s[|l|] == '\n';
      assert forall j :: 0 <= j < |l| ==> s[j] == l[j];
      assert PlainLine(l);
      assert FindChar(s, '\n', 0) == Some(|l|);
      assert s[..|l|] == l;
      assert s[|l| + 1..] == Unlines(rest);
      LinesOfUnlines(rest);
    }
  }

  /** The same holds for lines joined by "\n" whose last line is not empty. */
  lemma {:induction false} LinesOfJoin(lines: seq<string>)
    requires |lines| > 0 && lines[|lines| - 1] != []
    requires forall k :: 0 <= k < |lines| ==> PlainLine(lines[k])
    ensures Lines(Join(lines, "\n")) == lines
  {
    var l := lines[0];
    var s := Join(lines, "\n");
    if |lines| == 1 {
      assert FindChar(s, '\n', 0) == None;
    } else {
      var rest := lines[1..];
      assert s == l + "\n" + Join(rest, "\n");
      assert s[|l|] == '\n';
      assert forall j :: 0 <= j < |l| ==> s[j] == l[j];
      assert PlainLine(l);
      assert FindChar(s, '\n', 0) == Some(|l|);
      assert s[..|l|] == l;
      assert s[|l| + 1..] == Join(rest, "\n");
      LinesOfJoin(rest);
    }
  }

  // ------------------------------------------------------ split_whitespace

  /** A nonempty run of non-whitespace characters. */
  predicate IsToken(t: string) {
    |t| > 0 && forall k :: 0 <= k < |t| ==> !IsWhitespace(t[k])
  }

  /** The first whitespace index at or after `i` (or `|s|`). */
  function TokenEnd(s: string, i: nat): (j: nat)
    requires i <= |s|
    ensures i <= j <= |s| && (j < |s| ==> IsWhitespace(s[j]))
    ensures forall k :: i <= k < j ==> !IsWhitespace(s[k])
    decreases |s| - i
  {
    if i == |s| || IsWhitespace(s[i]) then i else TokenEnd(s, i + 1)
  }

  /** `s.split_whitespace()`: the maximal runs of non-whitespace, in order. */
  function SplitWhitespace(s: string): (tokens: seq<string>)
    ensures forall k :: 0 <= k < |tokens| ==> IsToken(tokens[k])
    decreases |s|
  {
    if s == [] then []
    else if IsWhitespace(s[0]) then SplitWhitespace(s[1..])
    else
      var j := TokenEnd(s, 0);
      [s[..j]] + SplitWhitespace(s[j..])
  }

  /** A single token splits into itself. */
  lemma SplitWhitespaceOfToken(t: string)
    requires IsToken(t)
    ensures SplitWhitespace(t) == [t]
  {
    assert TokenEnd(t, 0) == |t|;
    assert t[..|t|] == t;
    assert t[|t|..] == [];
  }

  /** A token of `a` ends no later than a whitespace character after `a`. */
  lemma TokenEndBeforeWhitespace(a: string, w: char, b: string)
    requires IsWhitespace(w)
    ensures TokenEnd(a + [w] + b, 0) == TokenEnd(a, 0)
  {
    var s := a + [w] + b;
    var j, j' := TokenEnd(a, 0), TokenEnd(s, 0);
    assert forall k :: 0 <= k < |a| ==> s[k] == a[k];
    assert s[|a|] == w;
  }

  /** A whitespace character separates the tokens on its two sides. */
  lemma {:induction false} SplitWhitespaceAround(a: string, w: char, b: string)
    requires IsWhitespace(w)
    ensures SplitWhitespace(a + [w] + b) == SplitWhitespace(a) + SplitWhitespace(b)
    decreases |a|
  {
    var s := a + [w] + b;
    if a == [] {
      assert s[1..] == b;
    } else if IsWhitespace(a[0]) {
      assert s[1..] == a[1..] + [w] + b;
      SplitWhitespaceAround(a[1..], w, b);
    } else {
      var j := TokenEnd(a, 0);
      TokenEndBeforeWhitespace(a, w, b);
      assert s[..j] == a[..j];
      assert s[j..] == a[j..] + [w] + b;
      SplitWhitespaceAround(a[j..], w, b);
    }
  }

  /** Two tokens with a space between them split back into the two. */
  lemma SplitWhitespaceOfPair(a: string, b: string)
    requires IsToken(a) && IsToken(b)
    ensures SplitWhitespace(a + " " + b) == [a, b]
  {
    assert a + " " + b == a + [' '] + b;
    SplitWhitespaceAround(a, ' ', b);
    SplitWhitespaceOfToken(a);
    SplitWhitespaceOfToken(b);
  }

  /** Tokens joined by single spaces split back into those tokens. */
  lemma {:induction false} SplitWhitespaceOfJoin(tokens: seq<string>)
    requires |tokens| > 0
    requires forall k :: 0 <= k < |tokens| ==> IsToken(tokens[k])
    ensures SplitWhitespace(Join(tokens, " ")) == tokens
  {
    SplitWhitespaceOfToken(tokens[0]);
    if |tokens| > 1 {
      var rest := Join(tokens[1..], " ");
      assert Join(tokens, " ") == tokens[0] + [' '] + rest;
      SplitWhitespaceAround(tokens[0], ' ', rest);
      SplitWhitespaceOfJoin(tokens[1..]);
      assert [tokens[0]] + tokens[1..] == tokens;
    }
  }

  // ------------------------------------------------------------------ trim

  /** `trim_start`: drops the leading whitespace and nothing else. */
  function TrimStart(s: string): (r: string)
    ensures |r| <= |s| && r == s[|s| - |r|..]
    ensures r != [] ==> !IsWhitespace(r[0])
    ensures forall k :: 0 <= k < |s| - |r| ==> IsWhitespace(s[k])
    decreases |s|
  {
    if s != [] && IsWhitespace(s[0]) then TrimStart(s[1..]) else s
  }

  /** `trim_end`: drops the trailing whitespace and nothing else. */
  function TrimEnd(s: string): (r: string)
    ensures |r| <= |s| && r == s[..|r|]
    ensures r != [] ==> !IsWhitespace(r[|r| - 1])
    ensures forall k :: |r| <= k < |s| ==> IsWhitespace(s[k])
    decreases |s|
  {
    if s != [] && IsWhitespace(s[|s| - 1]) then TrimEnd(s[..|s| - 1]) else s
  }

  /** `trim`: whitespace removed from both ends. */
  function Trim(s: string): (r: string)
    ensures |r| <= |s|
    ensures r != [] ==> !IsWhitespace(r[0]) && !IsWhitespace(r[|r| - 1])
  {
    TrimEnd(TrimStart(s))
  }

  /** A token has no whitespace to trim. */
  lemma TrimToken(t: string)
    requires IsToken(t)
    ensures Trim(t) == t
  {
    assert TrimStart(t) == t;
    assert TrimEnd(t) == t;
  }

  /** A token holds no space, newline or carriage return. */
  lemma TokenHasNoBreak(t: string)
    requires IsToken(t)
    ensures ' ' !in t && '\n' !in t && '\r' !in t
  {
    forall k | 0 <= k < |t|
      ensures t[k] != ' ' && t[k] != '\n' && t[k] != '\r'
    {
      assert !IsWhitespace(t[k]);
    }
  }

  // ------------------------------------------------------------ numbers

  predicate AllDigits(s: string) {
    forall k :: 0 <= k < |s| ==> IsDigit(s[k])
  }

  /** The value of a string of decimal digits, most significant first. */
  function DigitsValue(ds: string): nat
    requires AllDigits(ds)
    decreases |ds|
  {
    if ds == [] then 0 else DigitsValue(ds[..|ds| - 1]) * 10 + DigitValue(ds[|ds| - 1])
  }

  /** The digits of a numeral: an unsigned parse accepts one leading '+'. */
  function Unsigned(s: string): string {
    if |s| > 0 && s[0] == '+' then s[1..] else s
  }

  /** `s.parse::<uN>()` where `max` is the largest `uN`: a nonempty run of
      decimal digits, after at most one '+', whose value fits. */
  function ParseUnsigned(s: string, max: nat): (r: Option<nat>)
    ensures r.Some? ==> r.value <= max && |Unsigned(s)| > 0 && AllDigits(Unsigned(s))
  {
    var ds := Unsigned(s);
    if |ds| > 0 && AllDigits(ds) && DigitsValue(ds) <= max then Some(DigitsValue(ds)) else None
  }

  /** The decimal numeral of `n`, without leading zeros. */
  function ShowNat(n: nat): (s: string)
    ensures |s| > 0 && AllDigits(s)
    decreases n
  {
    if n < 10 then [DigitChar(n)] else ShowNat(n / 10) + [DigitChar(n % 10)]
  }

  lemma {:induction false} ValueOfShowNat(n: nat)
    ensures DigitsValue(ShowNat(n)) == n
    decreases n
  {
    if n >= 10 {
      ValueOfShowNat(n / 10);
      var s := ShowNat(n);
      assert s[..|s| - 1] == ShowNat(n / 10);
    }
  }

  /** Parsing undoes printing, for every value the type can hold. */
  lemma ParseShowNat(n: nat, max: nat)
    requires n <= max
    ensures ParseUnsigned(ShowNat(n), max) == Some(n)
    ensures IsToken(ShowNat(n))
  {
    ValueOfShowNat(n);
    var s := ShowNat(n);
    assert IsDigit(s[0]);
  }

  /** Every piece parsed with `ParseUnsigned`, as a `collect` of `expect`ed
      parses does: one bad piece makes the whole parse fail. */
  function ParseAll(pieces: seq<string>, max: nat): (r: Option<seq<nat>>)
    ensures r.Some? <==> forall k :: 0 <= k < |pieces| ==> ParseUnsigned(pieces[k], max).Some?
    ensures r.Some? ==> |r.value| == |pieces|
    ensures r.Some? ==> forall k :: 0 <= k < |pieces| ==> ParseUnsigned(pieces[k], max) == Some(r.value[k])
  {
    if pieces == [] then Some([])
    else match (ParseUnsigned(pieces[0], max), ParseAll(pieces[1..], max))
      case (Some(n), Some(rest)) => Some([n] + rest)
      case _ => None
  }

  lemma NoSeparatorInNumeral(n: nat, c: char)
    requires !IsDigit(c)
    ensures c !in ShowNat(n)
  {
    var x := ShowNat(n);
    assert forall k :: 0 <= k < |x| ==> IsDigit(x[k]);
  }
}

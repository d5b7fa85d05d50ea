/** Day 7, No Space Left On Device.  A terminal transcript of `cd` and `ls`
    commands is replayed into a map from directory paths to directories;
    part one sums the sizes of the small directories, part two finds the
    smallest directory whose deletion frees enough space.

    The program's directories are shared, reference-counted nodes: one node
    is both a value of the path map and a child of another directory.  Here
    the nodes live in a sequence (an arena) and are referred to by position,
    so sharing is a repeated position. */
module NoSpaceLeft {
  import opened Wrappers
  import opened Text

  const U32_MAX: nat := 0xFFFF_FFFF
  const SMALL_DIR: nat := 100000
  const MAX_SPACE: nat := 70000000
  const REQUIRED_SPACE: nat := 30000000

  /** An entry in a directory: a file of some size, or the directory stored
      at position `node` of the arena. */
  datatype Child = File(size: nat) | Sub(node: nat)

  /** `Entry::Dir`: the path of the directory it was created in, and its
      children in the order they were listed. */
  datatype Dir = Dir(parent: string, children: seq<Child>)

  /** The arena of directories and the map from path to position (the
      program's `HashMap<String, Rc<Entry>>`). */
  datatype Fs = Fs(nodes: seq<Dir>, index: map<string, nat>)

  /** The interpreter's state: the file system so far, the path stack and
      the current directory key. */
  datatype Shell = Shell(fs: Fs, path: seq<string>, cwd: string)

  /** The arena is well formed: the root is node 0 under key "", every key
      names a node, and a directory's children are the directory itself or
      directories created after it. */
  predicate Valid(fs: Fs) {
    && |fs.nodes| > 0
    && "" in fs.index && fs.index[""] == 0
    && (forall k :: k in fs.index ==> fs.index[k] < |fs.nodes|)
    && (forall i, j :: 0 <= i < |fs.nodes| && 0 <= j < |fs.nodes[i].children| && fs.nodes[i].children[j].Sub? ==>
          i <= fs.nodes[i].children[j].node < |fs.nodes|)
  }

  function JoinPath(path: seq<string>): string {
    Join(path, "/")
  }

  /** The state before the first line: the root directory, whose parent
      field is "/", under the key "" (the path [""] joined). */
  function Init(): (s: Shell)
    ensures Valid(s.fs)
  {
    Shell(Fs([Dir("/", [])], map[JoinPath([""]) := 0]), [""], "")
  }

  // ------------------------------------------------------ one transcript line

  /** The second word of the line is "cd" (`two.split_once(' ')`, with
      ("", "") when there is no space). */
  predicate IsCd(two: string) {
    match SplitOnce(two, " ")
    case Some((command, _)) => command == "cd"
    case None => false
  }

  /** After "cd" there is always a last whitespace-separated word. */
  lemma CdHasTarget(two: string)
    requires IsCd(two)
    ensures SplitWhitespace(two) != []
  {
    var rest := SplitOnce(two, " ").value.1;
    assert two == "cd" + [' '] + rest;
    SplitWhitespaceAround("cd", ' ', rest);
    SplitWhitespaceOfToken("cd");
  }

  /** `cd next`: ".." pops the path and takes the parent field of the
      directory now named by the path (a missing key panics); "/" goes back
      to the root; any other name is pushed. */
  function Cd(s: Shell, next: string): (r: Option<Shell>)
    requires Valid(s.fs)
    ensures r.Some? ==> r.value.fs == s.fs
    ensures r.None? <==> next == ".." && JoinPath(Pop(s.path)) !in s.fs.index
  {
    if next == ".." then
      var path := Pop(s.path);
      var key := JoinPath(path);
      if key in s.fs.index then Some(Shell(s.fs, path, s.fs.nodes[s.fs.index[key]].parent))
      else None
    else if next == "/" then Some(Shell(s.fs, [""], ""))
    else Some(Shell(s.fs, s.path + [next], JoinPath(s.path + [next])))
  }

  /** `Vec::pop`, which leaves an empty vector as it is. */
  function Pop(path: seq<string>): (r: seq<string>)
    ensures |path| > 0 ==> r + [path[|path| - 1]] == path
    ensures |path| == 0 ==> r == []
  {
    if |path| > 0 then path[..|path| - 1] else path
  }

  /** "dir name": a fresh empty directory whose parent field is the joined
      path goes under the key path + "/" + name, replacing whatever was
      there, and is appended to the current directory's children when the
      current directory is a key. */
  function AddDir(fs: Fs, parent: string, name: string, cwd: string): (r: Fs)
    requires Valid(fs)
    ensures Valid(r)
    ensures |r.nodes| == |fs.nodes| + 1 && r.nodes[|fs.nodes|].parent == parent
    ensures r.index == fs.index[parent + "/" + name := |fs.nodes|]
    ensures forall j :: 0 <= j < |fs.nodes| && (cwd !in r.index || j != r.index[cwd]) ==> r.nodes[j] == fs.nodes[j]
    ensures cwd !in r.index ==> r.nodes[|fs.nodes|] == Dir(parent, [])
    ensures cwd in r.index ==> (r.nodes[r.index[cwd]].children ==
      (if r.index[cwd] == |fs.nodes| then [] else fs.nodes[r.index[cwd]].children) + [Sub(|fs.nodes|)])
  {
    var n := |fs.nodes|;
    var key := parent + "/" + name;
    var nodes := fs.nodes + [Dir(parent, [])];
    var index := fs.index[key := n];
    if cwd in index then
      var m := index[cwd];
      Fs(nodes[m := nodes[m].(children := nodes[m].children + [Sub(n)])], index)
    else Fs(nodes, index)
  }

  /** A file appended to the children of node `m`. */
  function AddFile(fs: Fs, m: nat, size: nat): (r: Fs)
    requires Valid(fs) && m < |fs.nodes|
    ensures Valid(r) && r.index == fs.index && |r.nodes| == |fs.nodes|
    ensures r.nodes[m] == Dir(fs.nodes[m].parent, fs.nodes[m].children + [File(size)])
    ensures forall j :: 0 <= j < |fs.nodes| && j != m ==> r.nodes[j] == fs.nodes[j]
  {
    Fs(fs.nodes[m := fs.nodes[m].(children := fs.nodes[m].children + [File(size)])], fs.index)
  }

  /** One line of the transcript.  "$ ls" and lines without a space change
      nothing.  A line whose second word is "cd" changes directory, "dir x"
      adds a directory, and any other line adds a file whose size is its
      first word, a `u32`, to the current directory; when the current
      directory is not a key the file line is dropped without being parsed. */
  function Step(s: Shell, line: string): (r: Option<Shell>)
    requires Valid(s.fs)
    ensures r.Some? ==> Valid(r.value.fs)
  {
    if line == "$ ls" then Some(s)
    else match SplitOnce(line, " ")
      case None => Some(s)
      case Some((one, two)) =>
        if IsCd(two) then
          CdHasTarget(two);
          var words := SplitWhitespace(two);
          Cd(s, words[|words| - 1])
        else Listing(s, one, two)
  }

  /** A listing line "<one> <two>": "dir x" adds a directory, anything else
      a file of size `one` to the current directory, when that is a key. */
  function Listing(s: Shell, one: string, two: string): (r: Option<Shell>)
    requires Valid(s.fs)
    ensures r.Some? ==> Valid(r.value.fs)
  {
    if one == "dir" then
      Some(s.(fs := AddDir(s.fs, JoinPath(s.path), Trim(two), s.cwd)))
    else if s.cwd in s.fs.index then
      match ParseUnsigned(one, U32_MAX)
      case None => None
      case Some(size) => Some(s.(fs := AddFile(s.fs, s.fs.index[s.cwd], size)))
    else Some(s)
  }

  /** The lines replayed in order; `None` when one panics. */
  function Run(s: Shell, lines: seq<string>): (r: Option<Shell>)
    requires Valid(s.fs)
    ensures r.Some? ==> Valid(r.value.fs)
    decreases |lines|
  {
    if lines == [] then Some(s)
    else match Step(s, lines[0])
      case None => None
      case Some(t) => Run(t, lines[1..])
  }

  /** What `parse_terminal` returns for a transcript. */
  function Terminal(input: string): (r: Option<Fs>)
    ensures r.Some? ==> Valid(r.value)
  {
    match Run(Init(), Lines(input))
    case Some(s) => Some(s.fs)
    case None => None
  }

  /** The three kinds of line `Step` tells apart, once "$ ls" and lines
      without a space are set aside. */
  lemma StepCases(s: Shell, line: string, one: string, two: string)
    requires Valid(s.fs) && line != "$ ls" && SplitOnce(line, " ") == Some((one, two))
    ensures IsCd(two) ==> SplitWhitespace(two) != []
    ensures IsCd(two) ==> Step(s, line) == Cd(s, SplitWhitespace(two)[|SplitWhitespace(two)| - 1])
    ensures !IsCd(two) && one == "dir" ==>
      Step(s, line) == Some(s.(fs := AddDir(s.fs, JoinPath(s.path), Trim(two), s.cwd)))
    ensures !IsCd(two) && one != "dir" && s.cwd in s.fs.index ==>
      Step(s, line) == match ParseUnsigned(one, U32_MAX)
        case None => None
        case Some(size) => Some(s.(fs := AddFile(s.fs, s.fs.index[s.cwd], size)))
    ensures !IsCd(two) && one != "dir" && s.cwd !in s.fs.index ==> Step(s, line) == Some(s)
  {
    if IsCd(two) {
      CdHasTarget(two);
    }
  }

  lemma RunAppend(s: Shell, line: string, rest: seq<string>)
    requires Valid(s.fs)
    ensures Run(s, [line] + rest) ==
      match Step(s, line) case None => None case Some(t) => Run(t, rest)
  {
    assert ([line] + rest)[1..] == rest;
  }

  /** Replaying two pieces of transcript one after the other. */
  lemma {:induction false} RunConcat(s: Shell, a: seq<string>, b: seq<string>)
    requires Valid(s.fs)
    ensures Run(s, a + b) == match Run(s, a) case None => None case Some(t) => Run(t, b)
    decreases |a|
  {
    if a != [] {
      assert (a + b)[0] == a[0] && (a + b)[1..] == a[1..] + b;
      match Step(s, a[0])
      case None =>
      case Some(t) => RunConcat(t, a[1..], b);
    } else {
      assert a + b == b;
    }
  }

  /** "$ ls" lines are skipped. */
  lemma LsIgnored(s: Shell, rest: seq<string>)
    requires Valid(s.fs)
    ensures Run(s, ["$ ls"] + rest) == Run(s, rest)
  {
    RunAppend(s, "$ ls", rest);
  }

  /** The transcript lines for a command and for the two kinds of listing. */
  function CdLine(name: string): string { "$ cd " + name }
  function DirLine(name: string): string { "dir " + name }
  function FileLine(size: nat, name: string): string { ShowNat(size) + " " + name }

  /** `cd /` returns to the root, `cd ..` pops the path and takes the parent
      field of the directory it lands on, and any other name is pushed onto
      the path and becomes the current directory. */
  lemma StepCd(s: Shell, name: string)
    requires Valid(s.fs) && IsToken(name)
    ensures name == "/" ==> Step(s, CdLine(name)) == Some(Shell(s.fs, [""], ""))
    ensures name != "/" && name != ".." ==>
      Step(s, CdLine(name)) == Some(Shell(s.fs, s.path + [name], JoinPath(s.path + [name])))
    ensures name == ".." ==> var key := JoinPath(Pop(s.path));
      Step(s, CdLine(name)) == if key in s.fs.index
        then Some(Shell(s.fs, Pop(s.path), s.fs.nodes[s.fs.index[key]].parent)) else None
  {
    var line, two := CdLine(name), "cd" + [' '] + name;
    assert line == "$" + [' '] + two && line[2] == 'c';
    SplitOnceAtChar("$", ' ', two);
    TokenHasNoBreak(name);
    SplitOnceAtChar("cd", ' ', name);
    assert Join(["cd", name], " ") == two;
    SplitWhitespaceOfJoin(["cd", name]);
    StepCases(s, line, "$", two);
  }

  /** "dir name" adds the directory `name` under the current path. */
  lemma StepDir(s: Shell, name: string)
    requires Valid(s.fs) && IsToken(name)
    ensures Step(s, DirLine(name)) == Some(s.(fs := AddDir(s.fs, JoinPath(s.path), name, s.cwd)))
  {
    var line := DirLine(name);
    assert line != "$ ls" by {
      assert line[0] == 'd';
    }
    assert SplitOnce(line, " ") == Some(("dir", name)) by {
      assert line == "dir" + [' '] + name;
      SplitOnceAtChar("dir", ' ', name);
    }
    assert !IsCd(name) by {
      TokenHasNoBreak(name);
      SplitOnceWithoutChar(name, ' ');
    }
    TrimToken(name);
    StepCases(s, line, "dir", name);
  }

  /** "<size> name" adds a file to the current directory, and is dropped
      when the current directory is not a key. */
  lemma StepFile(s: Shell, size: nat, name: string)
    requires Valid(s.fs) && IsToken(name) && size <= U32_MAX
    ensures s.cwd in s.fs.index ==>
      Step(s, FileLine(size, name)) == Some(s.(fs := AddFile(s.fs, s.fs.index[s.cwd], size)))
    ensures s.cwd !in s.fs.index ==> Step(s, FileLine(size, name)) == Some(s)
  {
    var line, word := FileLine(size, name), ShowNat(size);
    assert line == word + [' '] + name && IsDigit(line[0]);
    NoSeparatorInNumeral(size, ' ');
    SplitOnceAtChar(word, ' ', name);
    TokenHasNoBreak(name);
    SplitOnceWithoutChar(name, ' ');
    ParseShowNat(size, U32_MAX);
    assert word != "dir" by {
      assert IsDigit(word[0]);
    }
    StepCases(s, line, word, name);
  }

  /** A listing line whose first word is not a `u32` panics, unless the
      current directory is not a key. */
  lemma StepFileMalformed(s: Shell, word: string, name: string)
    requires Valid(s.fs) && IsToken(word) && IsToken(name)
    requires word != "dir" && word + " " + name != "$ ls" && ParseUnsigned(word, U32_MAX).None?
    ensures Step(s, word + " " + name) == if s.cwd in s.fs.index then None else Some(s)
  {
    var line := word + " " + name;
    assert line == word + [' '] + name;
    TokenHasNoBreak(word);
    TokenHasNoBreak(name);
    SplitOnceAtChar(word, ' ', name);
    SplitOnceWithoutChar(name, ' ');
    StepCases(s, line, word, name);
  }

  /** The `cd` arm of `parse_terminal`'s loop on its variables: ".." pops
      the path and reads the parent field the map holds under it, "/" goes
      back to the root, any other name is pushed. */
  method ChangeDir(nodes: seq<Dir>, index: map<string, nat>, path: seq<string>, cwd: string, next: string)
    returns (r: Option<Shell>)
    requires Valid(Fs(nodes, index))
    ensures r == Cd(Shell(Fs(nodes, index), path, cwd), next)
  {
    if next == ".." {
      var up := path;
      if |up| > 0 {
        up := up[..|up| - 1];
      }
      var key := JoinPath(up);
      if key !in index {
        return None;
      }
      return Some(Shell(Fs(nodes, index), up, nodes[index[key]].parent));
    } else if next == "/" {
      return Some(Shell(Fs(nodes, index), [""], ""));
    }
    var down := path + [next];
    return Some(Shell(Fs(nodes, index), down, JoinPath(down)));
  }

  /** The "dir" arm: a new node inserted under parent + "/" + name and, when
      the current directory is a key, pushed onto its children. */
  method MakeDir(nodes: seq<Dir>, index: map<string, nat>, parent: string, name: string, cwd: string)
    returns (nodes': seq<Dir>, index': map<string, nat>)
    requires Valid(Fs(nodes, index))
    ensures Fs(nodes', index') == AddDir(Fs(nodes, index), parent, name, cwd)
  {
    var n := |nodes|;
    nodes' := nodes + [Dir(parent, [])];
    index' := index[parent + "/" + name := n];
    if cwd in index' {
      var m := index'[cwd];
      nodes' := nodes'[m := nodes'[m].(children := nodes'[m].children + [Sub(n)])];
    }
  }

  /** The file arm: a file pushed onto the children of node `m`. */
  method PushFile(nodes: seq<Dir>, index: map<string, nat>, m: nat, size: nat) returns (nodes': seq<Dir>)
    requires Valid(Fs(nodes, index)) && m < |nodes|
    ensures Fs(nodes', index) == AddFile(Fs(nodes, index), m, size)
  {
    nodes' := nodes[m := nodes[m].(children := nodes[m].children + [File(size)])];
  }

  /** One pass of `parse_terminal`'s loop on its variables: the map (here
      the arena and the index), the path stack and the current directory. */
  method ReplayLine(nodes: seq<Dir>, index: map<string, nat>, path: seq<string>, cwd: string, line: string)
    returns (r: Option<Shell>)
    requires Valid(Fs(nodes, index))
    ensures r == Step(Shell(Fs(nodes, index), path, cwd), line)
  {
    var halves := SplitOnce(line, " ");
    if line == "$ ls" || halves.None? {
      return Some(Shell(Fs(nodes, index), path, cwd));
    }
    var one, two := halves.value.0, halves.value.1;
    StepCases(Shell(Fs(nodes, index), path, cwd), line, one, two);
    if IsCd(two) {
      var words := SplitWhitespace(two);
      r := ChangeDir(nodes, index, path, cwd, words[|words| - 1]);
    } else {
      r := ReplayListing(nodes, index, path, cwd, one, two);
    }
  }

  /** The listing arms of the loop: "dir" lines and file lines. */
  method ReplayListing(nodes: seq<Dir>, index: map<string, nat>, path: seq<string>, cwd: string, one: string, two: string)
    returns (r: Option<Shell>)
    requires Valid(Fs(nodes, index))
    ensures r == Listing(Shell(Fs(nodes, index), path, cwd), one, two)
  {
    if one == "dir" {
      var nodes', index' := MakeDir(nodes, index, JoinPath(path), Trim(two), cwd);
      r := Some(Shell(Fs(nodes', index'), path, cwd));
    } else if cwd in index {
      var size := ParseUnsigned(one, U32_MAX);
      if size.None? {
        return None;
      }
      var nodes' := PushFile(nodes, index, index[cwd], size.value);
      r := Some(Shell(Fs(nodes', index), path, cwd));
    } else {
      r := Some(Shell(Fs(nodes, index), path, cwd));
    }
  }

  /** `parse_terminal`: the transcript replayed line by line into a mutable
      map, path stack and current directory. */
  method ParseTerminal(input: string) returns (r: Option<Fs>)
    ensures r == Terminal(input)
  {
    var nodes: seq<Dir> := [Dir("/", [])];
    var index: map<string, nat> := map[JoinPath([""]) := 0];
    var path: seq<string> := [""];
    var cwd := "";
    var lines := Lines(input);
    var i := 0;
    while i < |lines|
      invariant 0 <= i <= |lines|
      invariant Valid(Fs(nodes, index))
      invariant Run(Init(), lines) == Run(Shell(Fs(nodes, index), path, cwd), lines[i..])
    {
      RunAppend(Shell(Fs(nodes, index), path, cwd), lines[i], lines[i + 1..]);
      assert lines[i..] == [lines[i]] + lines[i + 1..];
      var next := ReplayLine(nodes, index, path, cwd, lines[i]);
      if next.None? {
        return None;
      }
      nodes, index, path, cwd := next.value.fs.nodes, next.value.fs.index, next.value.path, next.value.cwd;
      i := i + 1;
    }
    assert lines[i..] == [];
    return Some(Fs(nodes, index));
  }

  // ------------------------------------------------------------------ sizes

  /** `size` of node `i`: the sum of its children's sizes.  A directory that
      is its own child makes the recursion endless (the program overflows its
      stack), which is `None` here. */
  function Size(fs: Fs, i: nat): Option<nat>
    requires Valid(fs) && i < |fs.nodes|
    decreases |fs.nodes| - i, 1, 0
  {
    ChildrenSize(fs, i, 0)
  }

  /** The sizes of the children of node `i` from the `k`-th on, added up. */
  function ChildrenSize(fs: Fs, i: nat, k: nat): Option<nat>
    requires Valid(fs) && i < |fs.nodes| && k <= |fs.nodes[i].children|
    decreases |fs.nodes| - i, 0, |fs.nodes[i].children| - k
  {
    var cs := fs.nodes[i].children;
    if k == |cs| then Some(0)
    else
      var first := match cs[k]
        case File(n) => Some(n)
        case Sub(j) => if j == i then None else Size(fs, j);
      match (first, ChildrenSize(fs, i, k + 1))
      case (Some(a), Some(b)) => Some(a + b)
      case _ => None
  }

  /** The size of the directory under key `key`. */
  function SizeAt(fs: Fs, key: string): Option<nat>
    requires Valid(fs) && key in fs.index
  {
    Size(fs, fs.index[key])
  }

  /** No directory the map names has an endless size. */
  ghost predicate NoLoop(fs: Fs)
    requires Valid(fs)
  {
    forall key :: key in fs.index ==> SizeAt(fs, key).Some?
  }

  /** Only a directory that is its own child, reachable from node `i`, makes
      its size endless: without one every size is defined. */
  lemma {:induction false} SizeDefined(fs: Fs, i: nat)
    requires Valid(fs) && i < |fs.nodes|
    requires forall a, j :: 0 <= a < |fs.nodes| && 0 <= j < |fs.nodes[a].children| ==>
      fs.nodes[a].children[j] != Sub(a)
    ensures Size(fs, i).Some?
    decreases |fs.nodes| - i, 1, 0
  {
    ChildrenSizeDefined(fs, i, 0);
  }

  lemma {:induction false} ChildrenSizeDefined(fs: Fs, i: nat, k: nat)
    requires Valid(fs) && i < |fs.nodes| && k <= |fs.nodes[i].children|
    requires forall a, j :: 0 <= a < |fs.nodes| && 0 <= j < |fs.nodes[a].children| ==>
      fs.nodes[a].children[j] != Sub(a)
    ensures ChildrenSize(fs, i, k).Some?
    decreases |fs.nodes| - i, 0, |fs.nodes[i].children| - k
  {
    var cs := fs.nodes[i].children;
    if k < |cs| {
      if cs[k].Sub? {
        SizeDefined(fs, cs[k].node);
      }
      ChildrenSizeDefined(fs, i, k + 1);
    }
  }

  /** A directory that is its own child has no size. */
  lemma {:induction false} SelfChildEndless(fs: Fs, i: nat, k: nat)
    requires Valid(fs) && i < |fs.nodes| && k < |fs.nodes[i].children|
    requires fs.nodes[i].children[k] == Sub(i)
    ensures Size(fs, i).None?
  {
    SelfChildEndlessFrom(fs, i, 0, k);
  }

  lemma {:induction false} SelfChildEndlessFrom(fs: Fs, i: nat, from: nat, k: nat)
    requires Valid(fs) && i < |fs.nodes| && from <= k < |fs.nodes[i].children|
    requires fs.nodes[i].children[k] == Sub(i)
    ensures ChildrenSize(fs, i, from).None?
    decreases k - from
  {
    if from < k {
      SelfChildEndlessFrom(fs, i, from + 1, k);
    }
  }

  /** The program's own size check: a directory holding a file of 42 and a
      directory holding a file of 42 has size 84. */
  lemma SizeExample()
    ensures var fs := Fs([Dir("/", [File(42), Sub(1)]), Dir("a", [File(42)])], map["" := 0]);
      Valid(fs) && Size(fs, 0) == Some(84)
  {
    var fs := Fs([Dir("/", [File(42), Sub(1)]), Dir("a", [File(42)])], map["" := 0]);
    assert ChildrenSize(fs, 1, 0) == Some(42);
    assert ChildrenSize(fs, 0, 1) == Some(42);
  }

  // ----------------------------------------------------------- part one

  /** The sizes at most 100000 among the directories under `keys`, summed;
      `None` when one of the sizes is endless. */
  ghost function SumSmall(fs: Fs, keys: set<string>): (r: Option<nat>)
    requires Valid(fs) && keys <= fs.index.Keys
    ensures r.Some? <==> forall key :: key in keys ==> SizeAt(fs, key).Some?
    ensures r.Some? ==> r.value <= SMALL_DIR * |keys|
    decreases keys
  {
    if keys == {} then Some(0)
    else
      var key :| key in keys;
      AddSmall(SizeAt(fs, key), SumSmall(fs, keys - {key}))
  }

  /** One more size added to a running sum, when both are defined. */
  function AddSmall(size: Option<nat>, sum: Option<nat>): (r: Option<nat>)
    ensures r.Some? <==> size.Some? && sum.Some?
  {
    if size.Some? && sum.Some? then Some(Small(size.value) + sum.value) else None
  }

  /** A size counts toward part one when it is at most 100000. */
  function Small(size: nat): nat {
    if size <= SMALL_DIR then size else 0
  }

  lemma AddSmallSwap(a: Option<nat>, b: Option<nat>, sum: Option<nat>)
    ensures AddSmall(a, AddSmall(b, sum)) == AddSmall(b, AddSmall(a, sum))
  {
  }

  /** `one`: the sum over every directory in the map. */
  ghost function One(fs: Fs): Option<nat>
    requires Valid(fs)
  {
    SumSmall(fs, fs.index.Keys)
  }

  /** The sum does not depend on the order the keys are visited in: any key
      can be taken out first. */
  lemma {:induction false} SumSmallRemove(fs: Fs, keys: set<string>, key: string)
    requires Valid(fs) && keys <= fs.index.Keys && key in keys
    ensures SumSmall(fs, keys) == AddSmall(SizeAt(fs, key), SumSmall(fs, keys - {key}))
    decreases keys
  {
    var first :| first in keys && SumSmall(fs, keys) == AddSmall(SizeAt(fs, first), SumSmall(fs, keys - {first}));
    if first != key {
      AddSmallSwap(SizeAt(fs, first), SizeAt(fs, key), SumSmall(fs, keys - {first} - {key}));
      SumSmallRemove(fs, keys - {first}, key);
      SumSmallRemove(fs, keys - {key}, first);
      assert keys - {first} - {key} == keys - {key} - {first};
    }
  }

  // ----------------------------------------------------------- part two

  /** The root's size must lie between 40000000 and 70000000: otherwise
      `MAX_SPACE - root_size` or `REQUIRED_SPACE - available_space`
      underflows. */
  predicate RootFits(fs: Fs)
    requires Valid(fs)
  {
    var root := Size(fs, 0);
    root.Some? && MAX_SPACE - REQUIRED_SPACE <= root.value <= MAX_SPACE
  }

  /** The space to free: 30000000 - (70000000 - root size). */
  function Needed(fs: Fs): nat
    requires Valid(fs) && RootFits(fs)
  {
    REQUIRED_SPACE - (MAX_SPACE - Size(fs, 0).value)
  }

  /** The smallest element of a nonempty set. */
  ghost function MinOf(s: set<nat>): (m: nat)
    requires s != {}
    ensures m in s
    ensures forall y :: y in s ==> m <= y
    decreases s
  {
    var x :| x in s;
    if s == {x} then x
    else
      var m := MinOf(s - {x});
      assert forall y :: y in s ==> y == x || y in s - {x};
      if x <= m then x else m
  }

  /** The sizes of the directories large enough to free the space needed. */
  ghost function Candidates(fs: Fs): set<nat>
    requires Valid(fs) && RootFits(fs) && NoLoop(fs)
  {
    set key | key in fs.index && SizeAt(fs, key).value >= Needed(fs) :: SizeAt(fs, key).value
  }

  /** `two`: the smallest directory size that frees enough space.  The root
      always qualifies, so the final `unwrap` never fails. */
  ghost function Two(fs: Fs): (r: Option<nat>)
    requires Valid(fs) && RootFits(fs)
    ensures r.Some? <==> NoLoop(fs)
    ensures r.Some? ==> r.value >= Needed(fs)
    ensures r.Some? ==> exists key :: key in fs.index && SizeAt(fs, key) == Some(r.value)
    ensures r.Some? ==> forall key :: key in fs.index && SizeAt(fs, key).Some? ==>
      (SizeAt(fs, key).value >= Needed(fs) ==> r.value <= SizeAt(fs, key).value)
  {
    if NoLoop(fs) then
      assert Size(fs, 0).value in Candidates(fs) by {
        assert SizeAt(fs, "") == Size(fs, 0);
      }
      assert forall key :: key in fs.index && SizeAt(fs, key).value >= Needed(fs) ==>
        SizeAt(fs, key).value in Candidates(fs);
      Some(MinOf(Candidates(fs)))
    else None
  }

  // ------------------------------------------------------------ the example

  /** The directories the example transcript of the program's tests builds:
      / holds a, b.txt, c.dat and d; /a holds e, f, g and h.lst; /a/e holds
      i; /d holds j, d.log, d.ext and k. */
  function SampleFs(): Fs {
    Fs([Dir("/", [Sub(1), File(14848514), File(8504156), Sub(2)]),
        Dir("", [Sub(3), File(29116), File(2557), File(62596)]),
        Dir("", [File(4060174), File(8033020), File(5626152), File(7214296)]),
        Dir("/a", [File(584)])],
       map["" := 0, "/a" := 1, "/d" := 2, "/a/e" := 3])
  }

  lemma SampleSizes()
    ensures Valid(SampleFs())
    ensures SizeAt(SampleFs(), "/a/e") == Some(584)
    ensures SizeAt(SampleFs(), "/a") == Some(94853)
    ensures SizeAt(SampleFs(), "/d") == Some(24933642)
    ensures SizeAt(SampleFs(), "") == Some(48381165)
  {
    var fs := SampleFs();
    assert Valid(fs);
    assert Size(fs, 3) == Some(584);
    assert ChildrenSize(fs, 1, 1) == Some(94269);
    assert Size(fs, 1) == Some(94853);
    assert ChildrenSize(fs, 2, 2) == Some(12840448);
    assert Size(fs, 2) == Some(24933642);
    assert ChildrenSize(fs, 0, 1) == Some(48286312);
  }

  /** The sum over a few distinct keys, taken out one at a time. */
  lemma SumSmallOfTwo(fs: Fs, c: string, d: string)
    requires Valid(fs) && {c, d} <= fs.index.Keys && c != d
    ensures SumSmall(fs, {c, d}) == AddSmall(SizeAt(fs, c), AddSmall(SizeAt(fs, d), Some(0)))
  {
    SumSmallRemove(fs, {c, d}, c);
    assert {c, d} - {c} == {d};
    SumSmallRemove(fs, {d}, d);
    assert {d} - {d} == {};
  }

  lemma SumSmallOfThree(fs: Fs, b: string, c: string, d: string)
    requires Valid(fs) && {b, c, d} <= fs.index.Keys && b != c && b != d && c != d
    ensures SumSmall(fs, {b, c, d}) ==
      AddSmall(SizeAt(fs, b), AddSmall(SizeAt(fs, c), AddSmall(SizeAt(fs, d), Some(0))))
  {
    SumSmallRemove(fs, {b, c, d}, b);
    assert {b, c, d} - {b} == {c, d};
    SumSmallOfTwo(fs, c, d);
  }

  lemma SumSmallOfFour(fs: Fs, a: string, b: string, c: string, d: string)
    requires Valid(fs) && {a, b, c, d} <= fs.index.Keys
    requires a != b && a != c && a != d && b != c && b != d && c != d
    ensures SumSmall(fs, {a, b, c, d}) ==
      AddSmall(SizeAt(fs, a), AddSmall(SizeAt(fs, b), AddSmall(SizeAt(fs, c), AddSmall(SizeAt(fs, d), Some(0)))))
  {
    SumSmallRemove(fs, {a, b, c, d}, a);
    assert {a, b, c, d} - {a} == {b, c, d};
    SumSmallOfThree(fs, b, c, d);
  }

  /** Part one on the example: 94853 + 584 = 95437, as the program's test
      expects. */
  lemma SampleOne()
    ensures Valid(SampleFs()) && One(SampleFs()) == Some(95437)
  {
    SampleSizes();
    var fs := SampleFs();
    assert fs.index.Keys == {"", "/a", "/d", "/a/e"};
    SumSmallOfFour(fs, "", "/a", "/d", "/a/e");
  }

  /** Part two on the example: 8381165 must be freed, and /d, of 24933642,
      is the smallest directory that frees it, as the program's test
      expects. */
  lemma SampleTwo()
    ensures Valid(SampleFs()) && RootFits(SampleFs()) && Needed(SampleFs()) == 8381165
    ensures Two(SampleFs()) == Some(24933642)
  {
    SampleSizes();
    var fs := SampleFs();
    assert NoLoop(fs);
    var r := Two(fs);
    var key :| key in fs.index && SizeAt(fs, key) == Some(r.value);
    assert key in {"", "/a", "/d", "/a/e"};
  }

  /** After "dir a", "$ cd a" and "$ cd .." at the root, the current
      directory is the parent field of the root, "/", which is not a key:
      a file listed next is dropped. */
  lemma CdUpLandsAboveRoot(a: string, n: nat, f: string)
    requires IsToken(a) && IsToken(f) && n <= U32_MAX
    ensures var fs := Fs([Dir("/", [Sub(1)]), Dir("", [])], map["" := 0, "/" + a := 1]);
      && Valid(fs)
      && Step(Shell(fs, ["", a], "/" + a), CdLine("..")) == Some(Shell(fs, [""], "/"))
      && Step(Shell(fs, [""], "/"), FileLine(n, f)) == Some(Shell(fs, [""], "/"))
  {
    var fs := Fs([Dir("/", [Sub(1)]), Dir("", [])], map["" := 0, "/" + a := 1]);
    assert Valid(fs);
    assert JoinPath([""]) == "";
    assert Pop(["", a]) == [""];
    StepCd(Shell(fs, ["", a], "/" + a), "..");
    assert "/" !in fs.index by {
      assert "/" + a != "/" && "" != "/";
    }
    StepFile(Shell(fs, [""], "/"), n, f);
  }

  /** A transcript can make a directory its own child.  "$ cd .." at the
      root, as in the initial state, empties the path and makes "/", the
      root's parent field, the current directory; a "dir" line with an
      empty name then files a new directory under the key "/" and appends
      it to itself.  Its size is endless. */
  lemma SelfChildTranscript(s: Shell)
    requires Valid(s.fs) && s.path == [""] && s.fs.nodes[0].parent == "/"
    ensures var t := Shell(s.fs, [], "/");
      && Step(s, CdLine("..")) == Some(t)
      && Step(t, "dir ") == Some(t.(fs := AddDir(t.fs, "", "", "/")))
      && Size(AddDir(t.fs, "", "", "/"), |s.fs.nodes|).None?
  {
    CdUpAtRoot(s);
    DirWithEmptyName(Shell(s.fs, [], "/"));
    FiledUnderItself(s.fs);
  }

  /** "$ cd .." at the root empties the path and lands on the root's
      parent field. */
  lemma CdUpAtRoot(s: Shell)
    requires Valid(s.fs) && s.path == [""]
    ensures Step(s, CdLine("..")) == Some(Shell(s.fs, [], s.fs.nodes[0].parent))
  {
    assert Pop(s.path) == [] && JoinPath([]) == "";
    DotDotIsToken();
    StepCd(s, "..");
  }

  lemma DotDotIsToken()
    ensures IsToken("..")
  {
  }

  /** With an empty path, "dir " files a directory with an empty name under
      the key "/". */
  lemma DirWithEmptyName(t: Shell)
    requires Valid(t.fs) && t.path == []
    ensures Step(t, "dir ") == Some(t.(fs := AddDir(t.fs, "", "", t.cwd)))
  {
    assert SplitOnce("dir ", " ") == Some(("dir", "")) by {
      SplitOnceAtChar("dir", ' ', "");
      assert "dir" + [' '] + "" == "dir ";
    }
    assert !IsCd("");
    StepCases(t, "dir ", "dir", "");
    assert JoinPath([]) == "" && Trim("") == "";
  }

  /** A directory filed under "/" while "/" is the current directory is
      appended to its own children, and its size is endless. */
  lemma FiledUnderItself(fs0: Fs)
    requires Valid(fs0)
    ensures Size(AddDir(fs0, "", "", "/"), |fs0.nodes|).None?
  {
    var fs := AddDir(fs0, "", "", "/");
    var n := |fs0.nodes|;
    assert "" + "/" + "" == "/";
    assert fs.index["/"] == n;
    assert fs.nodes[n].children == [Sub(n)];
    SelfChildEndless(fs, n, 0);
  }

  /** The initial state is such a root. */
  lemma InitIsRoot()
    ensures Valid(Init().fs) && Init().path == [""] && Init().fs.nodes[0].parent == "/"
  {
  }
}

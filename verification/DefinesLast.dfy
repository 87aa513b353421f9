/** Moving defines behind the code: what a swap of neighbours does, and where swapping ends. */
module DefinesLast {
  import opened AssemblerModel

  /** The lines that are not defines, in order. */
  function CodeLines(s: seq<Instruction>): (r: seq<Instruction>) {
    if s == [] then [] else (if s[0].line.Define? then [] else [s[0]]) + CodeLines(s[1..])
  }

  /** The defines, in order. */
  function DataLines(s: seq<Instruction>): (r: seq<Instruction>) {
    if s == [] then [] else (if s[0].line.Define? then [s[0]] else []) + DataLines(s[1..])
  }

  /** Pairs of a define and a later line that is not one. */
  function Inversions(s: seq<Instruction>): nat {
    if s == [] then 0 else (if s[0].line.Define? then |CodeLines(s[1..])| else 0) + Inversions(s[1..])
  }

  /** Up to line `n`, no define stands just before code. */
  ghost predicate Ordered(s: seq<Instruction>, n: int) {
    forall i :: 0 <= i < n && i + 1 < |s| && s[i].line.Define? ==> s[i + 1].line.Define?
  }

  function Swapped(s: seq<Instruction>, i: nat): seq<Instruction>
    requires i + 1 < |s|
  {
    s[i := s[i + 1]][i + 1 := s[i]]
  }

  /** Taking the first line off. */
  lemma First(s: seq<Instruction>)
    requires s != []
    ensures CodeLines(s) == if s[0].line.Define? then CodeLines(s[1..]) else [s[0]] + CodeLines(s[1..])
    ensures DataLines(s) == if s[0].line.Define? then [s[0]] + DataLines(s[1..]) else DataLines(s[1..])
    ensures Inversions(s) == (if s[0].line.Define? then |CodeLines(s[1..])| else 0) + Inversions(s[1..])
  {
  }

  /** The same for the first two lines, in either order. */
  lemma FirstTwo(x: Instruction, y: Instruction, rest: seq<Instruction>)
    requires !x.line.Define? && y.line.Define?
    ensures CodeLines([y, x] + rest) == CodeLines([x, y] + rest) == [x] + CodeLines(rest)
    ensures DataLines([y, x] + rest) == DataLines([x, y] + rest) == [y] + DataLines(rest)
    ensures Inversions([y, x] + rest) == Inversions([x, y] + rest) + 1
  {
    hide CodeLines, DataLines, Inversions;
    var s, t := [y, x] + rest, [x, y] + rest;
    assert s[1..] == [x] + rest && t[1..] == [y] + rest && ([x] + rest)[1..] == rest == ([y] + rest)[1..];
    First(s);
    First(t);
    First([x] + rest);
    First([y] + rest);
  }

  /** Swapping a define with the code after it keeps both orders, and leaves one inversion less. */
  lemma {:induction false} SwapLowers(s: seq<Instruction>, i: nat)
    requires i + 1 < |s| && s[i].line.Define? && !s[i + 1].line.Define?
    ensures CodeLines(Swapped(s, i)) == CodeLines(s) && DataLines(Swapped(s, i)) == DataLines(s)
    ensures Inversions(Swapped(s, i)) == Inversions(s) - 1
    decreases |s|
  {
    hide CodeLines, DataLines, Inversions;
    var t := Swapped(s, i);
    if i == 0 {
      FirstTwo(s[1], s[0], s[2..]);
      assert s == [s[0], s[1]] + s[2..] && t == [s[1], s[0]] + s[2..];
    } else {
      SwapLowers(s[1..], i - 1);
      assert t[1..] == Swapped(s[1..], i - 1);
      First(s);
      First(t);
    }
  }

  /** A list in order is its code followed by its defines. */
  lemma {:induction false} OrderedIsPartitioned(s: seq<Instruction>)
    requires Ordered(s, |s| - 1)
    ensures s == CodeLines(s) + DataLines(s)
    decreases |s|
  {
    if s != [] {
      assert Ordered(s[1..], |s[1..]| - 1) by {
        forall i | 0 <= i < |s| - 2 && s[1..][i].line.Define?
          ensures s[1..][i + 1].line.Define?
        {
          assert s[i + 1].line.Define?;
        }
      }
      OrderedIsPartitioned(s[1..]);
      if s[0].line.Define? {
        OnlyDefines(s);
      }
    }
  }

  lemma {:induction false} OnlyDefines(s: seq<Instruction>)
    requires s != [] && s[0].line.Define? && Ordered(s, |s| - 1)
    ensures CodeLines(s) == []
    decreases |s|
  {
    if |s| > 1 {
      assert s[1].line.Define?;
      OnlyDefines(s[1..]);
    }
  }

  /** A partition loses and gains no line. */
  lemma {:induction false} PartitionKeeps(s: seq<Instruction>)
    ensures multiset(CodeLines(s) + DataLines(s)) == multiset(s)
    ensures forall x :: x in CodeLines(s) ==> !x.line.Define?
    ensures forall x :: x in DataLines(s) ==> x.line.Define?
  {
    if s != [] {
      PartitionKeeps(s[1..]);
      assert s == [s[0]] + s[1..];
    }
  }
}

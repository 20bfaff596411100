/** Splitting a list of lines into blocks that start at a header line: the accumulate-and-flush
    loop that the rule parser, the weight parser and the workflow step parser share. */
module Blocks {
  /** Lines before the first header belong to no block. */
  function FromHeader<T>(lines: seq<T>, header: T -> bool): seq<T> {
    if lines == [] || header(lines[0]) then lines else FromHeader(lines[1..], header)
  }

  function Flatten<T>(blocks: seq<seq<T>>): seq<T> {
    if blocks == [] then [] else Flatten(blocks[..|blocks| - 1]) + blocks[|blocks| - 1]
  }

  /** A block starts with its only header. */
  predicate IsBlock<T>(block: seq<T>, header: T -> bool) {
    block != [] && header(block[0]) && forall i :: 1 <= i < |block| ==> !header(block[i])
  }

  ghost predicate AllBlocks<T>(blocks: seq<seq<T>>, header: T -> bool) {
    forall i :: 0 <= i < |blocks| ==> IsBlock(blocks[i], header)
  }

  /** The loop keeps the finished blocks and the open one apart and flushes at the end. */
  method Parse<T>(lines: seq<T>, header: T -> bool) returns (blocks: seq<seq<T>>)
    ensures AllBlocks(blocks, header)
    ensures Flatten(blocks) == FromHeader(lines, header)
  {
    var done, current := [], [];
    for i := 0 to |lines|
      invariant AllBlocks(done, header)
      invariant current == [] ==> done == [] && forall j :: 0 <= j < i ==> !header(lines[j])
      invariant current != [] ==> IsBlock(current, header)
      invariant Flatten(done) + current == FromHeader(lines[..i], header)
    {
      FromHeaderSnoc(lines[..i], lines[i], header);
      assert lines[..i + 1] == lines[..i] + [lines[i]];
      if header(lines[i]) && current != [] {
        assert (done + [current])[..|done|] == done;
        done := done + [current];
        current := [lines[i]];
      } else if header(lines[i]) {
        current := [lines[i]];
      } else if current != [] {
        current := current + [lines[i]];
      }
    }
    assert lines[..|lines|] == lines;
    if current != [] {
      assert (done + [current])[..|done|] == done;
      return done + [current];
    }
    return done;
  }

  lemma {:induction false} FromHeaderSnoc<T>(lines: seq<T>, last: T, header: T -> bool)
    ensures FromHeader(lines + [last], header)
         == if FromHeader(lines, header) == [] && !header(last) then [] else FromHeader(lines, header) + [last]
    ensures FromHeader(lines, header) == [] <==> forall j :: 0 <= j < |lines| ==> !header(lines[j])
  {
    if lines == [] {
      assert FromHeader([last][1..], header) == [];
    } else {
      assert (lines + [last])[1..] == lines[1..] + [last];
      FromHeaderSnoc(lines[1..], last, header);
      assert forall j :: 1 <= j < |lines| ==> lines[j] == lines[1..][j - 1];
    }
  }

  /** There is only one way to cut lines into blocks, so the parse is determined. */
  lemma {:induction false} BlocksUnique<T>(a: seq<seq<T>>, b: seq<seq<T>>, header: T -> bool)
    requires AllBlocks(a, header) && AllBlocks(b, header) && Flatten(a) == Flatten(b)
    ensures a == b
    decreases |a|
  {
    if a == [] || b == [] {
      FlattenEmpty(a, header);
      FlattenEmpty(b, header);
    } else {
      var x, y := a[|a| - 1], b[|b| - 1];
      var s, t := Flatten(a[..|a| - 1]), Flatten(b[..|b| - 1]);
      LastBlock(s, x, t, y, header);
      BlocksUnique(a[..|a| - 1], b[..|b| - 1], header);
      assert a == a[..|a| - 1] + [x] && b == b[..|b| - 1] + [y];
    }
  }

  lemma FlattenEmpty<T>(a: seq<seq<T>>, header: T -> bool)
    requires AllBlocks(a, header)
    ensures Flatten(a) == [] <==> a == []
  {
    if a != [] { assert IsBlock(a[|a| - 1], header); }
  }

  lemma LastBlock<T>(s: seq<T>, x: seq<T>, t: seq<T>, y: seq<T>, header: T -> bool)
    requires s + x == t + y && IsBlock(x, header) && IsBlock(y, header)
    ensures s == t && x == y
  {
    var all := s + x;
    assert header(all[|s|]) && header(all[|t|]);
    assert forall i :: |s| < i < |all| ==> all[i] == x[i - |s|];
    assert forall i :: |t| < i < |all| ==> all[i] == y[i - |t|];
    assert |s| == |t|;
    assert s == all[..|s|] && t == all[..|t|];
    assert x == all[|s|..] && y == all[|t|..];
  }
}

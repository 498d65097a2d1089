// Cutting a stream at its newlines, element by element. The buffered readers of
// the gateway and of the runtime client are compared with this cut.

module Lines {

  /** The complete lines so far and what follows the last newline. */
  datatype Cut<T> = Cut(lines: seq<seq<T>>, rest: seq<T>)

  function FeedOne<T(==)>(cut: Cut<T>, x: T, newline: T): Cut<T> {
    if x == newline then Cut(cut.lines + [cut.rest], []) else Cut(cut.lines, cut.rest + [x])
  }

  function Feed<T(==)>(cut: Cut<T>, s: seq<T>, newline: T): Cut<T>
    decreases |s|
  {
    if s == [] then cut else Feed(FeedOne(cut, s[0], newline), s[1..], newline)
  }

  /** The cut of a whole stream. */
  function CutAll<T(==)>(s: seq<T>, newline: T): Cut<T> {
    Feed(Cut([], []), s, newline)
  }

  /** Feeding in two portions is feeding the whole. */
  lemma {:induction false} FeedAppend<T>(cut: Cut<T>, a: seq<T>, b: seq<T>, newline: T)
    ensures Feed(cut, a + b, newline) == Feed(Feed(cut, a, newline), b, newline)
    decreases |a|
  {
    if a == [] {
      assert a + b == b;
    } else {
      assert (a + b)[1..] == a[1..] + b;
      FeedAppend(FeedOne(cut, a[0], newline), a[1..], b, newline);
    }
  }

  /** The lines, each with its newline, and the open end behind them. */
  function Uncut<T>(lines: seq<seq<T>>, rest: seq<T>, newline: T): seq<T>
    decreases |lines|
  {
    if lines == [] then rest else lines[0] + [newline] + Uncut(lines[1..], rest, newline)
  }

  lemma {:induction false} UncutLast<T>(lines: seq<seq<T>>, last: seq<T>, rest: seq<T>, newline: T)
    ensures Uncut(lines + [last], rest, newline) == Uncut(lines, last + [newline] + rest, newline)
    decreases |lines|
  {
    if lines == [] {
      assert [last][1..] == [];
    } else {
      assert (lines + [last])[1..] == lines[1..] + [last];
      UncutLast(lines[1..], last, rest, newline);
    }
  }

  lemma {:induction false} UncutRest<T>(lines: seq<seq<T>>, rest: seq<T>, more: seq<T>, newline: T)
    ensures Uncut(lines, rest + more, newline) == Uncut(lines, rest, newline) + more
    decreases |lines|
  {
    if lines != [] {
      UncutRest(lines[1..], rest, more, newline);
    }
  }

  lemma {:induction false} FeedUncut<T>(cut: Cut<T>, s: seq<T>, newline: T)
    ensures var after := Feed(cut, s, newline);
            Uncut(after.lines, after.rest, newline) == Uncut(cut.lines, cut.rest, newline) + s
    decreases |s|
  {
    if s != [] {
      var next := FeedOne(cut, s[0], newline);
      FeedUncut(next, s[1..], newline);
      UncutRest(cut.lines, cut.rest, [s[0]], newline);
      if s[0] == newline {
        UncutLast(cut.lines, cut.rest, [], newline);
        assert cut.rest + [newline] + [] == cut.rest + [s[0]];
      }
      assert s == [s[0]] + s[1..];
    }
  }

  /** Cutting loses nothing: the lines with their newlines and the open end are the stream. */
  lemma CutIsWhole<T>(s: seq<T>, newline: T)
    ensures Uncut(CutAll(s, newline).lines, CutAll(s, newline).rest, newline) == s
  {
    FeedUncut(Cut([], []), s, newline);
  }

  lemma {:induction false} FeedPlain<T>(cut: Cut<T>, s: seq<T>, newline: T)
    requires newline !in s
    ensures Feed(cut, s, newline) == Cut(cut.lines, cut.rest + s)
    decreases |s|
  {
    if s == [] {
      assert cut.rest + s == cut.rest;
    } else {
      FeedPlain(FeedOne(cut, s[0], newline), s[1..], newline);
      assert cut.rest + [s[0]] + s[1..] == cut.rest + s;
    }
  }

  /** What the first newline of a stream does: it closes the open line. */
  lemma FeedFirstLine<T>(cut: Cut<T>, s: seq<T>, k: nat, newline: T)
    requires k < |s| && s[k] == newline && newline !in s[..k]
    ensures Feed(cut, s, newline) == Feed(Cut(cut.lines + [cut.rest + s[..k]], []), s[k + 1..], newline)
  {
    assert s == s[..k] + s[k..];
    FeedAppend(cut, s[..k], s[k..], newline);
    FeedPlain(cut, s[..k], newline);
    assert s[k..][1..] == s[k + 1..];
  }

  /** Lines already cut off play no part in cutting on. */
  lemma {:induction false} Resume<T>(lines: seq<seq<T>>, more: seq<seq<T>>, rest: seq<T>, s: seq<T>, newline: T)
    ensures Feed(Cut(lines + more, rest), s, newline)
            == Cut(lines + Feed(Cut(more, rest), s, newline).lines, Feed(Cut(more, rest), s, newline).rest)
    decreases |s|
  {
    if s != [] {
      assert lines + more + [rest] == lines + (more + [rest]);
      var next := FeedOne(Cut(more, rest), s[0], newline);
      Resume(lines, next.lines, next.rest, s[1..], newline);
    }
  }

  lemma {:induction false} RestHasNoNewline<T>(cut: Cut<T>, s: seq<T>, newline: T)
    requires newline !in cut.rest
    ensures newline !in Feed(cut, s, newline).rest
    decreases |s|
  {
    if s != [] {
      RestHasNoNewline(FeedOne(cut, s[0], newline), s[1..], newline);
    }
  }

  /** Lines are only ever added. */
  lemma {:induction false} LinesGrow<T>(cut: Cut<T>, s: seq<T>, newline: T)
    ensures cut.lines <= Feed(cut, s, newline).lines
    decreases |s|
  {
    if s != [] {
      LinesGrow(FeedOne(cut, s[0], newline), s[1..], newline);
    }
  }

  /** The same elements lead different cuts to different cuts. */
  lemma {:induction false} FeedInjective<T>(a: Cut<T>, b: Cut<T>, s: seq<T>, newline: T)
    requires Feed(a, s, newline) == Feed(b, s, newline)
    ensures a == b
    decreases |s|
  {
    if s != [] {
      var nextA, nextB := FeedOne(a, s[0], newline), FeedOne(b, s[0], newline);
      FeedInjective(nextA, nextB, s[1..], newline);
      if s[0] == newline {
        assert |a.lines| + 1 == |b.lines| + 1;
        assert nextA.lines[..|a.lines|] == a.lines && nextB.lines[..|b.lines|] == b.lines;
        assert nextA.lines[|a.lines|] == a.rest && nextB.lines[|b.lines|] == b.rest;
      } else {
        assert nextA.rest[..|a.rest|] == a.rest && nextB.rest[..|b.rest|] == b.rest;
      }
    }
  }

  /** Where a complete line stands in the stream it was cut from. */
  lemma {:induction false} LineAt<T>(s: seq<T>, i: nat, newline: T) returns (before: seq<T>, after: seq<T>)
    requires i < |CutAll(s, newline).lines|
    ensures s == before + CutAll(s, newline).lines[i] + [newline] + after
    ensures CutAll(before, newline) == Cut(CutAll(s, newline).lines[..i], [])
    decreases |s|
  {
    var front, last := s[..|s| - 1], s[|s| - 1];
    assert s == front + [last];
    FeedAppend(Cut([], []), front, [last], newline);
    var cut := CutAll(front, newline);
    assert CutAll(s, newline) == FeedOne(cut, last, newline);
    if i < |cut.lines| {
      before, after := LineAt(front, i, newline);
      after := after + [last];
      assert CutAll(s, newline).lines[..i] == cut.lines[..i];
    } else {
      OpenLine(front, newline);
      before, after := front[..|front| - |cut.rest|], [];
      assert CutAll(s, newline).lines[..i] == cut.lines;
    }
  }

  /** The open line is what the stream ends in. */
  lemma {:induction false} OpenLine<T>(s: seq<T>, newline: T)
    ensures var cut := CutAll(s, newline);
            && |cut.rest| <= |s|
            && s == s[..|s| - |cut.rest|] + cut.rest
            && CutAll(s[..|s| - |cut.rest|], newline) == Cut(cut.lines, [])
    decreases |s|
  {
    if s != [] {
      var front, last := s[..|s| - 1], s[|s| - 1];
      assert s == front + [last];
      FeedAppend(Cut([], []), front, [last], newline);
      OpenLine(front, newline);
      var cut, earlier := CutAll(s, newline), CutAll(front, newline);
      assert cut == FeedOne(earlier, last, newline);
      if last == newline {
        assert s[..|s|] == s;
      } else {
        assert s[..|s| - |cut.rest|] == front[..|front| - |earlier.rest|];
      }
    }
  }

  // ---------------------------------------------------------------------
  // Nothing is lost: the number of elements a cut accounts for

  function LinesWeight<T>(lines: seq<seq<T>>): nat {
    if lines == [] then 0 else LinesWeight(lines[..|lines| - 1]) + |lines[|lines| - 1]| + 1
  }

  function Weight<T>(cut: Cut<T>): nat {
    LinesWeight(cut.lines) + |cut.rest|
  }

  lemma {:induction false} FeedWeight<T>(cut: Cut<T>, s: seq<T>, newline: T)
    ensures Weight(Feed(cut, s, newline)) == Weight(cut) + |s|
    decreases |s|
  {
    if s != [] {
      var next := FeedOne(cut, s[0], newline);
      if s[0] == newline {
        assert next.lines[..|cut.lines|] == cut.lines;
      }
      FeedWeight(next, s[1..], newline);
    }
  }

  // ---------------------------------------------------------------------
  // Chunks

  function Concat<T>(chunks: seq<seq<T>>): seq<T> {
    if chunks == [] then [] else Concat(chunks[..|chunks| - 1]) + chunks[|chunks| - 1]
  }

  /** The position of the first newline, or -1: indexOf. */
  method IndexOf<T(==)>(s: seq<T>, newline: T) returns (k: int)
    ensures k == -1 ==> newline !in s
    ensures k != -1 ==> 0 <= k < |s| && s[k] == newline && newline !in s[..k]
  {
    k := 0;
    while k < |s|
      invariant 0 <= k <= |s|
      invariant newline !in s[..k]
    {
      if s[k] == newline {
        return;
      }
      k := k + 1;
    }
    k := -1;
  }
}

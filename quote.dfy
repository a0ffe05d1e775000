/**
 * `wordwrap` of the `quote` command: cut every line of a text into pieces of
 * at most `width` characters, breaking after the last white space that fits
 * and cutting a word only when no white space does, and start no line but
 * the first with a space. The break string is always "\n" and words are
 * always cut, as the command calls it with two arguments.
 */
module Quote {
  import opened JsString

  /** The width used when none is passed. */
  const DefaultWidth: int := 75

  predicate IsLineBreak(c: char) {
    c == '\n' || c == '\r'
  }

  predicate NoLineBreak(s: string) {
    forall i :: 0 <= i < |s| ==> !IsLineBreak(s[i])
  }

  /** The length of the first line of `s`. */
  function LineEnd(s: string): (k: nat)
    ensures k <= |s|
    ensures NoLineBreak(s[..k])
    ensures k < |s| ==> IsLineBreak(s[k])
  {
    if s == [] || IsLineBreak(s[0]) then 0
    else
      var k := LineEnd(s[1..]);
      assert s[..1 + k] == [s[0]] + s[1..][..k];
      1 + k
  }

  /** `split(/\r\n|\n|\r/)`: the lines of `s`, a carriage return followed by
      a line feed counting as one break. */
  function SplitLines(s: string): (r: seq<string>)
    ensures |r| >= 1
    ensures forall k :: 0 <= k < |r| ==> NoLineBreak(r[k])
    decreases |s|
  {
    var k := LineEnd(s);
    if k == |s| then
      assert s[..k] == s;
      [s]
    else
      var w := BreakWidth(s, k);
      [s[..k]] + SplitLines(s[k + w..])
  }

  /** The end of the last white space of `t`; 0 when it has none. */
  function LastSpaceEnd(t: string): (r: nat)
    ensures r <= |t|
    ensures r > 0 ==> IsSpace(t[r - 1])
    ensures forall i :: r <= i < |t| ==> !IsSpace(t[i])
  {
    if t == [] then 0
    else if IsSpace(t[|t| - 1]) then |t|
    else LastSpaceEnd(t[..|t| - 1])
  }

  /** Where a line `s` longer than `m` is broken: at `m` when the character
      there is white space, else right after the last white space of the
      first `m + 1` characters, else (a word longer than the width) at `m`. */
  function BreakAt(s: string, m: nat): (j: nat)
    requires 1 <= m < |s|
    ensures 1 <= j <= m
    ensures IsSpace(s[m]) ==> j == m
    ensures !IsSpace(s[m]) && (exists i :: 0 <= i < m && IsSpace(s[i])) ==>
              IsSpace(s[j - 1]) && forall i :: j <= i <= m ==> !IsSpace(s[i])
    ensures (forall i :: 0 <= i <= m ==> !IsSpace(s[i])) ==> j == m
  {
    var t := s[..m + 1];
    if IsSpace(t[m]) then m
    else
      var e := LastSpaceEnd(t);
      if e != 0 then e else m
  }

  /** The wrapped form of one line: its pieces joined by "\n". */
  function WrapLine(s: string, m: nat): string
    requires m >= 1
    decreases |s|
  {
    if |s| <= m then s
    else
      var j := BreakAt(s, m);
      s[..j] + "\n" + WrapLine(s[j..], m)
  }

  function WrapLines(lines: seq<string>, m: nat): (r: seq<string>)
    requires m >= 1
    ensures |r| == |lines| && forall k :: 0 <= k < |lines| ==> r[k] == WrapLine(lines[k], m)
  {
    if lines == [] then [] else [WrapLine(lines[0], m)] + WrapLines(lines[1..], m)
  }

  /** `t` without its leading spaces. */
  function DropSpaces(t: string): (r: string)
    ensures |r| <= |t| && r == t[|t| - |r|..]
    ensures r == [] || r[0] != ' '
  {
    if t != [] && t[0] == ' ' then DropSpaces(t[1..]) else t
  }

  /** The final replacement: every line feed and the spaces after it become
      the line feed alone. */
  function StripSpaces(x: string): string
    decreases |x|
  {
    if x == [] then []
    else if x[0] == '\n' then "\n" + StripSpaces(DropSpaces(x[1..]))
    else [x[0]] + StripSpaces(x[1..])
  }

  /** The result of `wordwrap(str, m)` for a width `m` of at least 1. */
  function Wrap(str: string, m: nat): string
    requires m >= 1
  {
    StripSpaces(Join(WrapLines(SplitLines(str), m), "\n"))
  }

  /** `wordwrap(str, intWidth)`, with the width left out when `width` is
      `None`. */
  method WordWrap(str: string, width: Option<int>) returns (out: string)
    ensures var m := if width.Some? then width.value else DefaultWidth;
            (m < 1 ==> out == str) && (m >= 1 ==> out == Wrap(str, m))
  {
    var m := if width.Some? then width.value else DefaultWidth;
    if m < 1 {
      return str;
    }
    var lines := SplitLines(str);
    var r := new string[|lines|](k requires 0 <= k < |lines| => lines[k]);
    for i := 0 to r.Length
      invariant forall k :: 0 <= k < i ==> r[k] == WrapLine(lines[k], m)
      invariant forall k :: i <= k < r.Length ==> r[k] == lines[k]
    {
      WrapEntry(r, i, m);
    }
    assert r[..] == WrapLines(lines, m);
    out := StripSpaces(Join(r[..], "\n"));
  }

  /** One pass of the outer loop: wraps the line `r[i]` in place. */
  method WrapEntry(r: array<string>, i: nat, m: nat)
    requires i < r.Length && m >= 1
    modifies r
    ensures r[i] == WrapLine(old(r[i]), m)
    ensures forall k :: 0 <= k < r.Length && k != i ==> r[k] == old(r[k])
  {
    var s := r[i];
    ghost var line := s;
    r[i] := "";
    while |s| > m
      invariant r[i] + WrapLine(s, m) == WrapLine(line, m)
      invariant forall k :: 0 <= k < r.Length && k != i ==> r[k] == old(r[k])
    {
      var j := BreakAt(s, m);
      var rest := s[j..];
      ghost var before := r[i];
      WrapLineUnfold(s, m);
      AppendPiece(before, s[..j], WrapLine(rest, m), WrapLine(s, m));
      r[i] := r[i] + (s[..j] + (if |rest| > 0 then "\n" else ""));
      s := rest;
    }
    r[i] := r[i] + s;
  }

  lemma {:induction false} WrapLineUnfold(s: string, m: nat)
    requires 1 <= m < |s|
    ensures WrapLine(s, m) == s[..BreakAt(s, m)] + "\n" + WrapLine(s[BreakAt(s, m)..], m)
  {
  }

  lemma {:induction false} AppendPiece(before: string, piece: string, tail: string, whole: string)
    requires whole == piece + "\n" + tail
    ensures before + (piece + "\n") + tail == before + whole
  {
  }

  // ---------------------------------------------------------------------
  // The pieces of a line.

  /** The pieces a line is cut into, each at most `m` long. */
  function Pieces(s: string, m: nat): (r: seq<string>)
    requires m >= 1
    ensures |r| >= 1
    ensures forall k :: 0 <= k < |r| ==> |r[k]| <= m
    ensures NoLineBreak(s) ==> forall k :: 0 <= k < |r| ==> NoLineBreak(r[k])
    decreases |s|
  {
    if |s| <= m then [s]
    else
      var j := BreakAt(s, m);
      var rest := Pieces(s[j..], m);
      assert NoLineBreak(s) ==> NoLineBreak(s[..j]) && NoLineBreak(s[j..]);
      [s[..j]] + rest
  }

  function Concat(ps: seq<string>): string {
    if ps == [] then [] else ps[0] + Concat(ps[1..])
  }

  /** Cutting loses nothing: the pieces put together are the line. */
  lemma {:induction false} PiecesCover(s: string, m: nat)
    requires m >= 1
    ensures Concat(Pieces(s, m)) == s
    decreases |s|
  {
    if |s| > m {
      var j := BreakAt(s, m);
      PiecesCover(s[j..], m);
      assert Pieces(s, m)[1..] == Pieces(s[j..], m);
      assert s == s[..j] + s[j..];
    }
  }

  /** A wrapped line is its pieces, one per line. */
  lemma {:induction false} WrapLinePieces(s: string, m: nat)
    requires m >= 1
    ensures WrapLine(s, m) == Join(Pieces(s, m), "\n")
    decreases |s|
  {
    if |s| > m {
      var j := BreakAt(s, m);
      WrapLinePieces(s[j..], m);
      assert Pieces(s, m)[1..] == Pieces(s[j..], m);
    }
  }

  /** All pieces of all lines, in order. */
  function AllPieces(lines: seq<string>, m: nat): (r: seq<string>)
    requires m >= 1
    ensures lines != [] ==> |r| >= 1
    ensures forall k :: 0 <= k < |r| ==> |r[k]| <= m
    ensures (forall k :: 0 <= k < |lines| ==> NoLineBreak(lines[k])) ==>
              forall k :: 0 <= k < |r| ==> NoLineBreak(r[k])
  {
    if lines == [] then []
    else
      var head := Pieces(lines[0], m);
      var rest := AllPieces(lines[1..], m);
      assert forall k :: 0 <= k < |head + rest| ==>
               (head + rest)[k] == if k < |head| then head[k] else rest[k - |head|];
      head + rest
  }

  lemma {:induction false} JoinConcat(a: seq<string>, b: seq<string>, sep: string)
    requires |a| >= 1 && |b| >= 1
    ensures Join(a + b, sep) == Join(a, sep) + sep + Join(b, sep)
  {
    if |a| == 1 {
      assert (a + b)[1..] == b;
    } else {
      assert (a + b)[1..] == a[1..] + b;
      JoinConcat(a[1..], b, sep);
    }
  }

  /** Joining the wrapped lines joins all their pieces. */
  lemma {:induction false} JoinWrapLines(lines: seq<string>, m: nat)
    requires m >= 1 && |lines| >= 1
    ensures Join(WrapLines(lines, m), "\n") == Join(AllPieces(lines, m), "\n")
  {
    WrapLinePieces(lines[0], m);
    if |lines| == 1 {
      assert AllPieces(lines[1..], m) == [];
      assert AllPieces(lines, m) == Pieces(lines[0], m) + [];
      assert Pieces(lines[0], m) + [] == Pieces(lines[0], m);
      assert WrapLines(lines, m) == [WrapLine(lines[0], m)];
    } else {
      JoinWrapLines(lines[1..], m);
      assert WrapLines(lines, m)[1..] == WrapLines(lines[1..], m);
      JoinConcat(Pieces(lines[0], m), AllPieces(lines[1..], m), "\n");
    }
  }

  // ---------------------------------------------------------------------
  // The final replacement.

  /** Every string of `ps` without its leading spaces. */
  function DropAll(ps: seq<string>): seq<string> {
    if ps == [] then [] else [DropSpaces(ps[0])] + DropAll(ps[1..])
  }

  lemma {:induction false} DropAllAt(ps: seq<string>)
    ensures |DropAll(ps)| == |ps| && forall k :: 0 <= k < |ps| ==> DropAll(ps)[k] == DropSpaces(ps[k])
  {
    if ps != [] {
      DropAllAt(ps[1..]);
      var r := DropAll(ps[1..]);
      forall k | 0 <= k < |ps|
        ensures DropAll(ps)[k] == DropSpaces(ps[k])
      {
        if k > 0 {
          assert DropAll(ps)[k] == r[k - 1] && ps[1..][k - 1] == ps[k];
        }
      }
    }
  }

  /** The lines after the replacement: all but the first lose their leading
      spaces. */
  function Unindent(ps: seq<string>): seq<string>
    requires |ps| >= 1
  {
    [ps[0]] + DropAll(ps[1..])
  }

  lemma {:induction false} StripLine(p: string, t: string)
    requires NoLineBreak(p)
    ensures StripSpaces(p + t) == p + StripSpaces(t)
  {
    if p != [] {
      assert (p + t)[0] == p[0] && !IsLineBreak(p[0]);
      assert (p + t)[1..] == p[1..] + t;
      StripLine(p[1..], t);
    } else {
      assert p + t == t;
    }
  }

  lemma {:induction false} DropSpacesAppend(a: string, b: string)
    requires b == [] || b[0] != ' '
    ensures DropSpaces(a + b) == DropSpaces(a) + b
  {
    if a != [] {
      assert (a + b)[0] == a[0];
      if a[0] == ' ' {
        assert (a + b)[1..] == a[1..] + b;
        DropSpacesAppend(a[1..], b);
      }
    } else {
      assert a + b == b;
    }
  }

  lemma {:induction false} NoLineBreakSuffix(s: string, t: string)
    requires NoLineBreak(s) && |t| <= |s| && t == s[|s| - |t|..]
    ensures NoLineBreak(t)
  {
    assert forall i :: 0 <= i < |t| ==> t[i] == s[|s| - |t| + i];
  }

  /** The replacement after a line feed: with the spaces it drops, it leaves
      every line without its leading spaces. */
  lemma {:induction false} StripDropped(ps: seq<string>)
    requires |ps| >= 1 && forall k :: 0 <= k < |ps| ==> NoLineBreak(ps[k])
    ensures StripSpaces(DropSpaces(Join(ps, "\n"))) == Join(DropAll(ps), "\n")
  {
    if |ps| == 1 {
      var d := DropSpaces(ps[0]);
      NoLineBreakSuffix(ps[0], d);
      StripLine(d, []);
      assert d + [] == d;
    } else {
      StripDropped(ps[1..]);
      JoinDropAll(ps);
      StripStep(ps[0], Join(ps[1..], "\n"), Join(ps, "\n"), Join(DropAll(ps[1..]), "\n"));
    }
  }

  /** The joined lines without leading spaces, one line at a time. */
  lemma {:induction false} JoinDropAll(ps: seq<string>)
    requires |ps| >= 2
    ensures Join(DropAll(ps), "\n") == DropSpaces(ps[0]) + "\n" + Join(DropAll(ps[1..]), "\n")
  {
    assert DropAll(ps[1..]) == [DropSpaces(ps[1])] + DropAll(ps[2..]);
    JoinCons(DropAll(ps), "\n");
  }

  lemma {:induction false} JoinCons(ls: seq<string>, sep: string)
    requires |ls| >= 2
    ensures Join(ls, sep) == ls[0] + sep + Join(ls[1..], sep)
  {
  }

  /** One line of `StripDropped` and `StripJoin`. */
  lemma {:induction false} StripStep(p: string, rest: string, joined: string, done: string)
    requires NoLineBreak(p) && joined == p + "\n" + rest
    requires StripSpaces(DropSpaces(rest)) == done
    ensures StripSpaces(DropSpaces(joined)) == DropSpaces(p) + "\n" + done
    ensures StripSpaces(joined) == p + "\n" + done
  {
    var d := DropSpaces(p);
    NoLineBreakSuffix(p, d);
    var tail := "\n" + rest;
    var shown := "\n" + done;
    Regroup(p, "\n", rest, joined);
    DropSpacesAppend(p, tail);
    StripNewline(rest);
    StripAfterLine(d, tail, shown);
    StripAfterLine(p, tail, shown);
    Regroup(d, "\n", done, d + "\n" + done);
    Regroup(p, "\n", done, p + "\n" + done);
  }

  lemma {:induction false} Regroup(a: string, b: string, c: string, x: string)
    requires x == a + b + c
    ensures x == a + (b + c)
  {
  }

  lemma {:induction false} StripAfterLine(p: string, tail: string, done: string)
    requires NoLineBreak(p) && StripSpaces(tail) == done
    ensures StripSpaces(p + tail) == p + done
  {
    StripLine(p, tail);
  }

  lemma {:induction false} StripNewline(rest: string)
    ensures StripSpaces("\n" + rest) == "\n" + StripSpaces(DropSpaces(rest))
  {
    assert ("\n" + rest)[0] == '\n' && ("\n" + rest)[1..] == rest;
  }

  /** The replacement on lines without line feeds: every line but the first
      loses its leading spaces. */
  lemma {:induction false} StripJoin(ps: seq<string>)
    requires |ps| >= 1 && forall k :: 0 <= k < |ps| ==> NoLineBreak(ps[k])
    ensures StripSpaces(Join(ps, "\n")) == Join(Unindent(ps), "\n")
  {
    if |ps| == 1 {
      StripLine(ps[0], []);
      assert ps[0] + [] == ps[0];
    } else {
      StripDropped(ps[1..]);
      assert Unindent(ps)[1..] == DropAll(ps[1..]);
      StripStep(ps[0], Join(ps[1..], "\n"), Join(ps, "\n"), Join(DropAll(ps[1..]), "\n"));
    }
  }

  /** `split` undoes `join` on lines without breaks. */
  lemma {:induction false} SplitJoin(ls: seq<string>)
    requires |ls| >= 1 && forall k :: 0 <= k < |ls| ==> NoLineBreak(ls[k])
    ensures SplitLines(Join(ls, "\n")) == ls
  {
    var s := Join(ls, "\n");
    if |ls| == 1 {
      LineEndOf(ls[0], []);
      assert ls[0] + [] == ls[0];
    } else {
      var rest := Join(ls[1..], "\n");
      SplitJoin(ls[1..]);
      SplitJoinStep(s, ls[0], rest);
      assert [ls[0]] + ls[1..] == ls;
    }
  }

  /** A line without breaks, a line feed, and the rest. */
  lemma {:induction false} SplitJoinStep(s: string, a: string, rest: string)
    requires s == a + "\n" + rest && NoLineBreak(a)
    ensures SplitLines(s) == [a] + SplitLines(rest)
  {
    assert s == a + ("\n" + rest);
    LineEndOf(a, "\n" + rest);
    assert s[..|a|] == a && s[|a| + 1..] == rest;
  }

  lemma {:induction false} LineEndOf(a: string, b: string)
    requires NoLineBreak(a) && (b == [] || IsLineBreak(b[0]))
    ensures LineEnd(a + b) == |a|
  {
    if a != [] {
      assert (a + b)[0] == a[0] && (a + b)[1..] == a[1..] + b;
      LineEndOf(a[1..], b);
    } else {
      assert a + b == b;
    }
  }

  // ---------------------------------------------------------------------
  // What `wordwrap` promises.

  /** The lines of the output: the pieces of every input line, all but the
      first without leading spaces. */
  function OutputLines(str: string, m: nat): seq<string>
    requires m >= 1
  {
    Unindent(AllPieces(SplitLines(str), m))
  }

  /** The output is its lines joined by "\n". */
  lemma {:induction false} WrapShape(str: string, m: nat)
    requires m >= 1
    ensures Wrap(str, m) == Join(OutputLines(str, m), "\n")
  {
    var lines := SplitLines(str);
    JoinWrapLines(lines, m);
    StripJoin(AllPieces(lines, m));
  }

  /** No output line is longer than the width, and no line but the first
      starts with a space. */
  lemma {:induction false} WrappedLines(str: string, m: nat)
    requires m >= 1
    ensures var lines := SplitLines(Wrap(str, m));
            && (forall k :: 0 <= k < |lines| ==> |lines[k]| <= m)
            && (forall k :: 1 <= k < |lines| ==> lines[k] == [] || lines[k][0] != ' ')
  {
    WrapShape(str, m);
    var ps := AllPieces(SplitLines(str), m);
    var out := OutputLines(str, m);
    DropAllAt(ps[1..]);
    forall k | 0 <= k < |out|
      ensures NoLineBreak(out[k]) && |out[k]| <= m
    {
      if k > 0 {
        assert out[k] == DropSpaces(ps[1..][k - 1]) && ps[1..][k - 1] == ps[k];
        NoLineBreakSuffix(ps[k], out[k]);
      }
    }
    SplitJoin(out);
  }

  // ---------------------------------------------------------------------
  // Nothing but spaces and line breaks is lost.

  /** The characters the wrap may add or remove. */
  predicate Layout(c: char) {
    c == ' ' || IsLineBreak(c)
  }

  /** `s` without its spaces and line breaks. */
  function Kept(s: string): string {
    if s == [] then [] else (if Layout(s[0]) then [] else [s[0]]) + Kept(s[1..])
  }

  lemma {:induction false} KeptAppend(a: string, b: string)
    ensures Kept(a + b) == Kept(a) + Kept(b)
  {
    if a != [] {
      assert (a + b)[0] == a[0] && (a + b)[1..] == a[1..] + b;
      KeptAppend(a[1..], b);
    } else {
      assert a + b == b;
    }
  }

  function KeptAll(ls: seq<string>): string {
    if ls == [] then [] else Kept(ls[0]) + KeptAll(ls[1..])
  }

  lemma {:induction false} KeptJoin(ls: seq<string>)
    requires |ls| >= 1
    ensures Kept(Join(ls, "\n")) == KeptAll(ls)
  {
    if |ls| == 1 {
      assert KeptAll(ls[1..]) == [];
      assert Kept(ls[0]) + [] == Kept(ls[0]);
    } else {
      KeptJoin(ls[1..]);
      KeptStep(ls[0], "\n", Join(ls[1..], "\n"), Join(ls, "\n"));
      assert Kept("\n") == [];
    }
  }

  /** `Kept` of three pieces put together. */
  lemma {:induction false} KeptStep(a: string, b: string, c: string, x: string)
    requires x == a + b + c
    ensures Kept(x) == Kept(a) + Kept(b) + Kept(c)
  {
    KeptAppend(a + b, c);
    KeptAppend(a, b);
  }

  /** Splitting into lines drops only the line breaks. */
  lemma {:induction false} KeptSplit(s: string)
    ensures KeptAll(SplitLines(s)) == Kept(s)
    decreases |s|
  {
    var k := LineEnd(s);
    if k == |s| {
      assert s[..k] == s;
      assert KeptAll([s][1..]) == [];
      assert Kept(s) + [] == Kept(s);
    } else {
      var line, br, tail := SplitHead(s);
      KeptSplit(tail);
      KeptSplitStep(s, line, br, tail, SplitLines(s), SplitLines(tail));
    }
  }

  /** The first line of `s`, the break after it and the text after that. */
  lemma {:induction false} SplitHead(s: string) returns (line: string, br: string, tail: string)
    requires LineEnd(s) < |s|
    ensures s == line + br + tail && Kept(br) == [] && |tail| < |s|
    ensures SplitLines(s) == [line] + SplitLines(tail)
  {
    var k := LineEnd(s);
    var w := BreakWidth(s, k);
    line, br, tail := s[..k], s[k..k + w], s[k + w..];
    ThreeParts(s, k, k + w);
    BreakKept(s, k, w);
  }

  /** How many characters the break at `k` takes: two for "\r\n". */
  function BreakWidth(s: string, k: nat): (w: nat)
    requires k < |s| && IsLineBreak(s[k])
    ensures 1 <= w <= 2 && k + w <= |s|
    ensures forall i :: k <= i < k + w ==> IsLineBreak(s[i])
  {
    if s[k] == '\r' && k + 1 < |s| && s[k + 1] == '\n' then 2 else 1
  }

  /** The break characters are dropped by `Kept`. */
  lemma {:induction false} BreakKept(s: string, k: nat, w: nat)
    requires k + w <= |s| && forall i :: k <= i < k + w ==> IsLineBreak(s[i])
    ensures Kept(s[k..k + w]) == []
  {
    var br := s[k..k + w];
    forall i | 0 <= i < |br|
      ensures Layout(br[i])
    {
      assert br[i] == s[k + i];
    }
    KeptLayout(br);
  }

  lemma {:induction false} ThreeParts(s: string, i: nat, j: nat)
    requires i <= j <= |s|
    ensures s == s[..i] + s[i..j] + s[j..]
  {
    assert s[i..] == s[i..j] + s[j..];
  }

  /** One line, its break and the lines after it. */
  lemma {:induction false} KeptSplitStep(s: string, line: string, br: string, tail: string, ls: seq<string>, rest: seq<string>)
    requires s == line + br + tail && Kept(br) == []
    requires ls == [line] + rest && KeptAll(rest) == Kept(tail)
    ensures KeptAll(ls) == Kept(s)
  {
    KeptStep(line, br, tail, s);
    assert ls[1..] == rest;
    assert KeptAll(ls) == Kept(line) + KeptAll(rest);
    assert Kept(line) + [] + Kept(tail) == Kept(line) + Kept(tail);
  }

  lemma {:induction false} KeptLayout(t: string)
    requires forall i :: 0 <= i < |t| ==> Layout(t[i])
    ensures Kept(t) == []
  {
    if t != [] {
      KeptLayout(t[1..]);
    }
  }

  /** Wrapping a line adds only line breaks. */
  lemma {:induction false} KeptWrapLine(s: string, m: nat)
    requires m >= 1
    ensures Kept(WrapLine(s, m)) == Kept(s)
    decreases |s|
  {
    if |s| > m {
      var j := BreakAt(s, m);
      KeptWrapLine(s[j..], m);
      assert s[..j] + s[j..] == s;
      KeptBreak(s[..j], s[j..], WrapLine(s[j..], m), s, WrapLine(s, m));
    }
  }

  /** A line break put between `a` and the wrapped rest `w` of `t`. */
  lemma {:induction false} KeptBreak(a: string, t: string, w: string, s: string, x: string)
    requires s == a + t && x == a + "\n" + w && Kept(w) == Kept(t)
    ensures Kept(x) == Kept(s)
  {
    KeptStep(a, "\n", w, x);
    assert Kept("\n") == [];
    KeptAppend(a, t);
    assert Kept(a) + [] == Kept(a);
  }

  lemma {:induction false} KeptWrapLines(ls: seq<string>, m: nat)
    requires m >= 1
    ensures KeptAll(WrapLines(ls, m)) == KeptAll(ls)
  {
    if ls != [] {
      KeptWrapLine(ls[0], m);
      KeptWrapLines(ls[1..], m);
      assert WrapLines(ls, m)[1..] == WrapLines(ls[1..], m);
    }
  }

  lemma {:induction false} KeptDropSpaces(t: string)
    ensures Kept(DropSpaces(t)) == Kept(t)
  {
    if t != [] && t[0] == ' ' {
      KeptDropSpaces(t[1..]);
    }
  }

  /** The replacement removes only spaces. */
  lemma {:induction false} KeptStrip(x: string)
    ensures Kept(StripSpaces(x)) == Kept(x)
    decreases |x|
  {
    if x != [] {
      var head := [x[0]];
      var rest := if x[0] == '\n' then DropSpaces(x[1..]) else x[1..];
      KeptStrip(rest);
      KeptDropSpaces(x[1..]);
      KeptStripStep(x, head, rest, StripSpaces(rest));
    }
  }

  lemma {:induction false} KeptStripStep(x: string, head: string, rest: string, done: string)
    requires x != [] && head == [x[0]]
    requires rest == if x[0] == '\n' then DropSpaces(x[1..]) else x[1..]
    requires done == StripSpaces(rest) && Kept(done) == Kept(rest) && Kept(rest) == Kept(x[1..])
    ensures Kept(StripSpaces(x)) == Kept(x)
  {
    assert StripSpaces(x) == head + done;
    KeptAppend(head, done);
  }

  /** Every character other than spaces and line breaks reaches the output,
      in its order. */
  lemma {:induction false} WrapKeepsText(str: string, m: nat)
    requires m >= 1
    ensures Kept(Wrap(str, m)) == Kept(str)
  {
    var lines := SplitLines(str);
    KeptStrip(Join(WrapLines(lines, m), "\n"));
    KeptJoin(WrapLines(lines, m));
    KeptWrapLines(lines, m);
    KeptSplit(str);
  }
}

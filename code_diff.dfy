/**
 * The code-diff viewer's positional line diff. Both texts are split on `\n`
 * and compared line by line at equal positions (no alignment): equal lines are
 * `unchanged`; at a differing position the original line, if non-empty, is
 * `removed` and then the modified line, if non-empty, is `added`.
 */
module CodeDiff {

  datatype Kind = Added | Removed | Unchanged
  datatype DiffLine = DiffLine(kind: Kind, text: string)

  // ---------------------------------------------------------------------------
  // String.prototype.split('\n') and its inverse
  // ---------------------------------------------------------------------------

  /** `s.split('\n')`: the pieces of `s` between newlines; `''` splits into `['']`. */
  function Split(s: string): (lines: seq<string>)
    ensures |lines| >= 1
  {
    if s == [] then [""]
    else
      var rest := Split(s[1..]);
      if s[0] == '\n' then [""] + rest else [[s[0]] + rest[0]] + rest[1..]
  }

  /** `lines.join('\n')`. */
  function Join(lines: seq<string>): string
    requires |lines| >= 1
  {
    if |lines| == 1 then lines[0] else lines[0] + "\n" + Join(lines[1..])
  }

  predicate NoNewlines(lines: seq<string>)
  {
    forall i :: 0 <= i < |lines| ==> '\n' !in lines[i]
  }

  /** Joining the pieces with newlines gives back the text, and no piece holds a newline. */
  lemma {:induction false} JoinSplit(s: string)
    ensures Join(Split(s)) == s && NoNewlines(Split(s))
  {
    if s != [] {
      var rest := Split(s[1..]);
      JoinSplit(s[1..]);
      if s[0] == '\n' {
        assert Split(s)[1..] == rest;
        assert Join(Split(s)) == "" + "\n" + Join(rest);
      } else {
        var lines := Split(s);
        assert lines[1..] == rest[1..];
        if |rest| == 1 {
          assert Join(lines) == [s[0]] + rest[0];
        } else {
          assert Join(rest) == rest[0] + "\n" + Join(rest[1..]);
          assert Join(lines) == ([s[0]] + rest[0]) + "\n" + Join(rest[1..]);
        }
        assert s == [s[0]] + s[1..];
        forall i | 0 <= i < |lines| ensures '\n' !in lines[i] {
          if i > 0 { assert lines[i] == rest[i]; }
        }
      }
    }
  }

  /** Splitting a newline-free list of lines after joining it gives the list back. */
  lemma {:induction false} SplitJoin(lines: seq<string>)
    requires |lines| >= 1 && NoNewlines(lines)
    ensures Split(Join(lines)) == lines
  {
    if |lines| == 1 {
      SplitNoNewline(lines[0]);
    } else {
      assert NoNewlines(lines[1..]) by {
        forall i | 0 <= i < |lines| - 1 ensures '\n' !in lines[1..][i] {
          assert lines[1..][i] == lines[i + 1];
        }
      }
      SplitJoin(lines[1..]);
      SplitAfterLine(lines[0], Join(lines[1..]));
    }
  }

  lemma {:induction false} SplitNoNewline(line: string)
    requires '\n' !in line
    ensures Split(line) == [line]
  {
    if line != [] {
      assert '\n' !in line[1..];
      SplitNoNewline(line[1..]);
      assert line == [line[0]] + line[1..];
    }
  }

  /** A newline-free line followed by a newline contributes exactly one piece. */
  lemma {:induction false} SplitAfterLine(line: string, tail: string)
    requires '\n' !in line
    ensures Split(line + "\n" + tail) == [line] + Split(tail)
  {
    var s := line + "\n" + tail;
    if line == [] {
      assert s == "\n" + tail;
      assert s[1..] == tail;
    } else {
      assert s[1..] == line[1..] + "\n" + tail;
      assert '\n' !in line[1..];
      SplitAfterLine(line[1..], tail);
      assert line == [line[0]] + line[1..];
    }
  }

  // ---------------------------------------------------------------------------
  // The diff
  // ---------------------------------------------------------------------------

  /** `lines[i] || ''`: the line at position `i`, or `''` past the end. */
  function LineAt(lines: seq<string>, i: nat): (r: string)
    ensures r == "" <==> i >= |lines| || lines[i] == ""
    ensures r != "" ==> r == lines[i]
  {
    if i < |lines| then lines[i] else ""
  }

  /**
   * The entries emitted for one position holding `orig` and `modi`: one
   * `unchanged` entry when they are equal, else the original line as `removed`
   * unless it is empty, then the modified line as `added` unless it is empty.
   */
  function Entries(orig: string, modi: string): (r: seq<DiffLine>)
    ensures 1 <= |r| <= 2
  {
    if orig == modi then [DiffLine(Unchanged, orig)]
    else if orig == "" then [DiffLine(Added, modi)]
    else if modi == "" then [DiffLine(Removed, orig)]
    else [DiffLine(Removed, orig), DiffLine(Added, modi)]
  }

  /** The entries emitted for positions `0 .. n-1`, in order. */
  function DiffUpTo(a: seq<string>, b: seq<string>, n: nat): seq<DiffLine>
  {
    if n == 0 then [] else DiffUpTo(a, b, n - 1) + Entries(LineAt(a, n - 1), LineAt(b, n - 1))
  }

  function Max(x: nat, y: nat): nat
  {
    if x >= y then x else y
  }

  /** The diff of two texts; two empty texts have an empty diff. */
  function Diff(original: string, modified: string): (r: seq<DiffLine>)
    ensures r == [] <==> original == "" && modified == ""
  {
    if original == "" && modified == "" then []
    else
      var a, b := Split(original), Split(modified);
      DiffUpToLength(a, b, Max(|a|, |b|));
      DiffUpTo(a, b, Max(|a|, |b|))
  }

  /** `computeDiff`: the positional walk over both line lists. */
  method ComputeDiff(originalCode: string, modifiedCode: string) returns (result: seq<DiffLine>)
    ensures result == Diff(originalCode, modifiedCode)
  {
    if originalCode == "" && modifiedCode == "" {
      return [];
    }
    var originalLines := Split(originalCode);
    var modifiedLines := Split(modifiedCode);
    result := [];
    var maxLength := Max(|originalLines|, |modifiedLines|);
    for i := 0 to maxLength
      invariant result == DiffUpTo(originalLines, modifiedLines, i)
    {
      var origLine := if i < |originalLines| then originalLines[i] else "";
      var modLine := if i < |modifiedLines| then modifiedLines[i] else "";
      ghost var before := result;
      assert origLine == LineAt(originalLines, i);
      assert modLine == LineAt(modifiedLines, i);
      if origLine == modLine {
        result := result + [DiffLine(Unchanged, origLine)];
      } else {
        if origLine != "" {
          result := result + [DiffLine(Removed, origLine)];
        }
        if modLine != "" {
          result := result + [DiffLine(Added, modLine)];
        }
      }
      assert result == before + Entries(origLine, modLine);
    }
  }

  // ---------------------------------------------------------------------------
  // Properties
  // ---------------------------------------------------------------------------

  /**
   * What one position contributes: a single `unchanged` entry holding the
   * line both sides share, or, where they differ, the non-empty original line
   * as `removed` followed by the non-empty modified line as `added`.
   */
  lemma EntriesShape(orig: string, modi: string)
    ensures var d := Entries(orig, modi);
            if orig == modi then d == [DiffLine(Unchanged, orig)]
            else
              && (forall k :: 0 <= k < |d| ==> d[k].kind != Unchanged && d[k].text != "")
              && (orig != "" <==> DiffLine(Removed, orig) in d)
              && (modi != "" <==> DiffLine(Added, modi) in d)
              && (|d| == 2 ==> d == [DiffLine(Removed, orig), DiffLine(Added, modi)])
  {
  }

  /** With N the larger line count, the diff has between N and 2N entries. */
  lemma DiffLengthBounds(original: string, modified: string)
    requires original != "" || modified != ""
    ensures var n := Max(|Split(original)|, |Split(modified)|);
            n <= |Diff(original, modified)| <= 2 * n
  {
    DiffUpToLength(Split(original), Split(modified), Max(|Split(original)|, |Split(modified)|));
  }

  lemma {:induction false} DiffUpToLength(a: seq<string>, b: seq<string>, n: nat)
    ensures n <= |DiffUpTo(a, b, n)| <= 2 * n
  {
    if n > 0 {
      DiffUpToLength(a, b, n - 1);
    }
  }

  lemma {:induction false} DiffUpToSame(a: seq<string>, n: nat)
    requires n <= |a|
    ensures |DiffUpTo(a, a, n)| == n
    ensures forall k :: 0 <= k < n ==> DiffUpTo(a, a, n)[k] == DiffLine(Unchanged, a[k])
  {
    if n > 0 {
      DiffUpToSame(a, n - 1);
    }
  }

  /** Identical texts give one `unchanged` entry per line and nothing else. */
  lemma DiffIdentical(s: string)
    ensures s == "" ==> Diff(s, s) == []
    ensures s != "" ==> |Diff(s, s)| == |Split(s)|
                        && forall k :: 0 <= k < |Split(s)| ==> Diff(s, s)[k] == DiffLine(Unchanged, Split(s)[k])
  {
    if s != "" {
      DiffUpToSame(Split(s), |Split(s)|);
    }
  }

  lemma {:induction false} DiffUpToNoEmptyChanges(a: seq<string>, b: seq<string>, n: nat)
    ensures forall k :: 0 <= k < |DiffUpTo(a, b, n)| && DiffUpTo(a, b, n)[k].kind != Unchanged ==> DiffUpTo(a, b, n)[k].text != ""
  {
    if n > 0 {
      DiffUpToNoEmptyChanges(a, b, n - 1);
      EntriesShape(LineAt(a, n - 1), LineAt(b, n - 1));
    }
  }

  /** Only non-empty lines are ever reported as `removed` or `added`. */
  lemma DiffNoEmptyChanges(original: string, modified: string)
    ensures forall e :: e in Diff(original, modified) && e.kind != Unchanged ==> e.text != ""
  {
    if original != "" || modified != "" {
      DiffUpToNoEmptyChanges(Split(original), Split(modified), Max(|Split(original)|, |Split(modified)|));
    }
  }

  /** The texts a diff shows for the original side: `unchanged` and `removed` entries. */
  function OriginalSide(d: seq<DiffLine>): seq<string>
  {
    if d == [] then [] else (if d[0].kind != Added then [d[0].text] else []) + OriginalSide(d[1..])
  }

  /** The texts a diff shows for the modified side: `unchanged` and `added` entries. */
  function ModifiedSide(d: seq<DiffLine>): seq<string>
  {
    if d == [] then [] else (if d[0].kind != Removed then [d[0].text] else []) + ModifiedSide(d[1..])
  }

  /** The non-empty lines of `lines`, in order. */
  function NonEmpty(lines: seq<string>): seq<string>
  {
    if lines == [] then [] else (if lines[0] != "" then [lines[0]] else []) + NonEmpty(lines[1..])
  }

  lemma {:induction false} SidesAppend(x: seq<DiffLine>, y: seq<DiffLine>)
    ensures OriginalSide(x + y) == OriginalSide(x) + OriginalSide(y)
    ensures ModifiedSide(x + y) == ModifiedSide(x) + ModifiedSide(y)
  {
    if x == [] {
      assert x + y == y;
    } else {
      assert (x + y)[1..] == x[1..] + y;
      SidesAppend(x[1..], y);
    }
  }

  lemma {:induction false} NonEmptyAppend(x: seq<string>, y: seq<string>)
    ensures NonEmpty(x + y) == NonEmpty(x) + NonEmpty(y)
  {
    if x == [] {
      assert x + y == y;
    } else {
      assert (x + y)[1..] == x[1..] + y;
      NonEmptyAppend(x[1..], y);
    }
  }

  /** One position shows, on each side, that side's line unless it is empty. */
  lemma EntriesKeepLines(orig: string, modi: string)
    ensures NonEmpty(OriginalSide(Entries(orig, modi))) == NonEmpty([orig])
    ensures NonEmpty(ModifiedSide(Entries(orig, modi))) == NonEmpty([modi])
  {
    assert NonEmpty([]) == [];
    assert NonEmpty([""]) == [];
    var d := Entries(orig, modi);
    if orig != modi && orig != "" && modi != "" {
      SidesAppend([DiffLine(Removed, orig)], [DiffLine(Added, modi)]);
      assert d == [DiffLine(Removed, orig)] + [DiffLine(Added, modi)];
    }
  }

  /** The first `n` lines of `lines` (all of them when there are fewer). */
  function Prefix(lines: seq<string>, n: nat): seq<string>
  {
    if n <= |lines| then lines[..n] else lines
  }

  /** Extending a prefix by one position adds that position's line, unless it is empty or missing. */
  lemma PrefixStep(lines: seq<string>, m: nat)
    ensures NonEmpty(Prefix(lines, m + 1)) == NonEmpty(Prefix(lines, m)) + NonEmpty([LineAt(lines, m)])
  {
    if m < |lines| {
      assert Prefix(lines, m + 1) == Prefix(lines, m) + [lines[m]];
      NonEmptyAppend(Prefix(lines, m), [lines[m]]);
    } else {
      assert Prefix(lines, m + 1) == Prefix(lines, m);
      assert NonEmpty([""]) == [];
      assert NonEmpty(Prefix(lines, m)) + [] == NonEmpty(Prefix(lines, m));
    }
  }

  lemma {:induction false} DiffUpToKeepsLines(a: seq<string>, b: seq<string>, n: nat)
    ensures NonEmpty(OriginalSide(DiffUpTo(a, b, n))) == NonEmpty(Prefix(a, n))
    ensures NonEmpty(ModifiedSide(DiffUpTo(a, b, n))) == NonEmpty(Prefix(b, n))
  {
    if n > 0 {
      var m := n - 1;
      var prev, step := DiffUpTo(a, b, m), Entries(LineAt(a, m), LineAt(b, m));
      DiffUpToKeepsLines(a, b, m);
      SidesAppend(prev, step);
      NonEmptyAppend(OriginalSide(prev), OriginalSide(step));
      NonEmptyAppend(ModifiedSide(prev), ModifiedSide(step));
      EntriesKeepLines(LineAt(a, m), LineAt(b, m));
      PrefixStep(a, m);
      PrefixStep(b, m);
    }
  }

  /**
   * No line is lost: the non-empty lines of each text, in order, are exactly
   * the non-empty texts the diff shows for that side.
   */
  lemma DiffKeepsEveryLine(original: string, modified: string)
    requires original != "" || modified != ""
    ensures NonEmpty(OriginalSide(Diff(original, modified))) == NonEmpty(Split(original))
    ensures NonEmpty(ModifiedSide(Diff(original, modified))) == NonEmpty(Split(modified))
  {
    var a, b := Split(original), Split(modified);
    DiffUpToKeepsLines(a, b, Max(|a|, |b|));
    assert Prefix(a, Max(|a|, |b|)) == a;
    assert Prefix(b, Max(|a|, |b|)) == b;
  }

  /** The original text of the viewer's test splits into its three lines. */
  lemma ExampleOriginalLines()
    ensures Split("line 1\nline 2\nline 3") == ["line 1", "line 2", "line 3"]
  {
    var a := ["line 1", "line 2", "line 3"];
    assert Join(a[1..]) == "line 2\nline 3";
    assert Join(a) == "line 1\nline 2\nline 3";
    SplitJoin(a);
  }

  /** The modified text of the viewer's test splits into its three lines. */
  lemma ExampleModifiedLines()
    ensures Split("line 1\nmodified line\nline 3") == ["line 1", "modified line", "line 3"]
  {
    var b := ["line 1", "modified line", "line 3"];
    assert Join(b[1..]) == "modified line\nline 3";
    assert Join(b) == "line 1\nmodified line\nline 3";
    SplitJoin(b);
  }

  /** The positional walk over the example's lines. */
  lemma ExampleWalk()
    ensures DiffUpTo(["line 1", "line 2", "line 3"], ["line 1", "modified line", "line 3"], 3)
         == [DiffLine(Unchanged, "line 1"), DiffLine(Removed, "line 2"),
             DiffLine(Added, "modified line"), DiffLine(Unchanged, "line 3")]
  {
    var a := ["line 1", "line 2", "line 3"];
    var b := ["line 1", "modified line", "line 3"];
    assert Entries("line 2", "modified line") == [DiffLine(Removed, "line 2"), DiffLine(Added, "modified line")] by {
      assert |"line 2"| != |"modified line"|;
    }
    assert DiffUpTo(a, b, 1) == [DiffLine(Unchanged, "line 1")];
    assert DiffUpTo(a, b, 2) == [DiffLine(Unchanged, "line 1"), DiffLine(Removed, "line 2"), DiffLine(Added, "modified line")];
  }

  /** The example of the viewer's test: one changed line in the middle of three. */
  lemma DiffExample()
    ensures Diff("line 1\nline 2\nline 3", "line 1\nmodified line\nline 3")
         == [DiffLine(Unchanged, "line 1"), DiffLine(Removed, "line 2"),
             DiffLine(Added, "modified line"), DiffLine(Unchanged, "line 3")]
  {
    ExampleOriginalLines();
    ExampleModifiedLines();
    ExampleWalk();
  }
}

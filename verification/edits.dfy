/** File-edit handling: applying line edits to a file's text (the pure part of
    EditFile), the line-by-line diff of ShowDiff, and the parser that reads
    edit blocks out of an assistant's reply (ParseFileEdits). Reading and
    writing the file are left to the caller. */
module Edits {
  import opened Wrappers
  import opened Text

  /** A 1-based line number and the text that replaces that line; an empty
      text deletes the line. */
  datatype FileEdit = FileEdit(lineNumber: int, newContent: string)

  // ---------------------------------------------------------------------
  // Applying edits

  /** One edit: outside [1, |lines|] it does nothing; with empty content it
      deletes the line; otherwise it replaces the line. */
  function ApplyEdit(lines: seq<string>, e: FileEdit): (r: seq<string>)
    ensures |r| == if 0 < e.lineNumber <= |lines| && e.newContent == "" then |lines| - 1 else |lines|
  {
    if 0 < e.lineNumber <= |lines| then
      if e.newContent == "" then lines[..e.lineNumber - 1] + lines[e.lineNumber..]
      else lines[e.lineNumber - 1 := e.newContent]
    else lines
  }

  /** What one edit does to each line. */
  lemma ApplyEditEffect(lines: seq<string>, e: FileEdit)
    ensures var r := ApplyEdit(lines, e);
      && (!(0 < e.lineNumber <= |lines|) ==> r == lines)
      && (0 < e.lineNumber <= |lines| && e.newContent == "" ==>
            && (forall i :: 0 <= i < e.lineNumber - 1 ==> r[i] == lines[i])
            && (forall i :: e.lineNumber - 1 <= i < |r| ==> r[i] == lines[i + 1]))
      && (0 < e.lineNumber <= |lines| && e.newContent != "" ==>
            && r[e.lineNumber - 1] == e.newContent
            && (forall i :: 0 <= i < |lines| && i != e.lineNumber - 1 ==> r[i] == lines[i]))
  {
  }

  /** The edits in order, each against the result of the one before. Lines
      only ever disappear, so edits that point outside the original lines
      stay outside and change nothing. */
  function ApplyEdits(lines: seq<string>, edits: seq<FileEdit>): (r: seq<string>)
    ensures |lines| - |edits| <= |r| <= |lines|
    ensures (forall k :: 0 <= k < |edits| ==> !(0 < edits[k].lineNumber <= |lines|)) ==> r == lines
    decreases |edits|
  {
    if |edits| == 0 then lines else ApplyEdits(ApplyEdit(lines, edits[0]), edits[1..])
  }

  /** Applying a list of edits is applying its first part, then the rest. */
  lemma {:induction false} ApplyEditsSequential(lines: seq<string>, a: seq<FileEdit>, b: seq<FileEdit>)
    ensures ApplyEdits(lines, a + b) == ApplyEdits(ApplyEdits(lines, a), b)
    decreases |a|
  {
    if |a| == 0 {
      assert a + b == b;
    } else {
      var first := ApplyEdit(lines, a[0]);
      ApplyEditsSequential(first, a[1..], b);
      AppendTail(a, b);
      assert ApplyEdits(lines, a + b) == ApplyEdits(first, a[1..] + b);
    }
  }

  /** Edits that all replace lines keep the line count. */
  lemma {:induction false} ReplacementsKeepLineCount(lines: seq<string>, edits: seq<FileEdit>)
    requires forall k :: 0 <= k < |edits| ==> edits[k].newContent != ""
    ensures |ApplyEdits(lines, edits)| == |lines|
    decreases |edits|
  {
    if |edits| > 0 {
      ReplacementsKeepLineCount(ApplyEdit(lines, edits[0]), edits[1..]);
    }
  }

  /** EditFile between the read and the write: split on newlines, apply the
      edits, join again. Edits that all point outside the file write the
      text back unchanged. */
  function EditContent(content: string, edits: seq<FileEdit>): (r: string)
    ensures (forall k :: 0 <= k < |edits| ==> !(0 < edits[k].lineNumber <= |Split(content, '\n')|)) ==> r == content
  {
    JoinSplit(content, '\n');
    Join(ApplyEdits(Split(content, '\n'), edits), "\n")
  }

  /** With no edits the text is written back unchanged. */
  lemma EditNothing(content: string)
    ensures EditContent(content, []) == content
  {
    JoinSplit(content, '\n');
  }

  /** Replacing one existing line by a one-line text changes that line of the
      file and no other. */
  lemma EditOneLine(content: string, n: int, text: string)
    requires 0 < n <= |Split(content, '\n')|
    requires text != "" && '\n' !in text
    ensures var lines := Split(content, '\n');
      Split(EditContent(content, [FileEdit(n, text)]), '\n') == lines[n - 1 := text]
  {
    var lines := Split(content, '\n');
    var edited := lines[n - 1 := text];
    assert ApplyEdits(lines, [FileEdit(n, text)]) == ApplyEdits(edited, []);
    assert forall i :: 0 <= i < |edited| ==> '\n' !in edited[i];
    SplitJoin(edited, '\n');
  }

  // ---------------------------------------------------------------------
  // ShowDiff

  /** One diff line: the 1-based line number and the text shown. */
  datatype DiffLine = Same(number: nat, text: string) | Removed(number: nat, text: string) | Added(number: nat, text: string)

  function RenderDiffLine(d: DiffLine): string {
    match d
    case Same(n, t) => "  " + NatToString(n) + ": " + t + "\n"
    case Removed(n, t) => "- " + NatToString(n) + ": " + t + "\n"
    case Added(n, t) => "+ " + NatToString(n) + ": " + t + "\n"
  }

  function RenderDiff(ds: seq<DiffLine>): string {
    if |ds| == 0 then "" else RenderDiffLine(ds[0]) + RenderDiff(ds[1..])
  }

  /** The line at index i, or "" past the end. */
  function LineAt(lines: seq<string>, i: nat): string {
    if i < |lines| then lines[i] else ""
  }

  function Max(a: nat, b: nat): nat {
    if a < b then b else a
  }

  /** The loop body of ShowDiff for index i: equal texts (missing lines read
      as "") give one unchanged line; otherwise a removal if the original has
      the index and an addition if the new text has it. */
  function DiffAt(orig: seq<string>, updated: seq<string>, i: nat): (r: seq<DiffLine>)
    ensures forall k :: 0 <= k < |r| ==> r[k].number == i + 1
  {
    var o := LineAt(orig, i);
    var n := LineAt(updated, i);
    if o == n then [Same(i + 1, o)]
    else (if i < |orig| then [Removed(i + 1, o)] else []) + (if i < |updated| then [Added(i + 1, n)] else [])
  }

  /** Equal texts at an index show as unchanged; different ones as a removal
      exactly when the original has the index and an addition exactly when
      the new text has it, and never as unchanged. */
  lemma DiffAtShape(orig: seq<string>, updated: seq<string>, i: nat)
    ensures var r := DiffAt(orig, updated, i);
      && (LineAt(orig, i) == LineAt(updated, i) ==> r == [Same(i + 1, LineAt(orig, i))])
      && (LineAt(orig, i) != LineAt(updated, i) ==>
            && 1 <= |r| <= 2
            && (forall k :: 0 <= k < |r| ==> !r[k].Same?)
            && (Removed(i + 1, LineAt(orig, i)) in r <==> i < |orig|)
            && (Added(i + 1, LineAt(updated, i)) in r <==> i < |updated|))
  {
  }

  function DiffFrom(orig: seq<string>, updated: seq<string>, i: nat): seq<DiffLine>
    decreases Max(|orig|, |updated|) - i
  {
    if i >= Max(|orig|, |updated|) then [] else DiffAt(orig, updated, i) + DiffFrom(orig, updated, i + 1)
  }

  const DiffHeader := "--- Original\n+++ Modified\n"

  /** ShowDiff: the header, then the diff lines of every index up to the
      longer of the two texts. */
  function ShowDiff(original: string, updated: string): (r: string)
    ensures HasPrefix(r, DiffHeader)
  {
    var body := RenderDiff(DiffFrom(Split(original, '\n'), Split(updated, '\n'), 0));
    assert (DiffHeader + body)[..|DiffHeader|] == DiffHeader;
    DiffHeader + body
  }

  /** The original side of a diff (unchanged and removed lines) and the new
      side (unchanged and added lines). */
  function OldSide(ds: seq<DiffLine>): seq<string> {
    if |ds| == 0 then [] else (if ds[0].Added? then [] else [ds[0].text]) + OldSide(ds[1..])
  }

  function NewSide(ds: seq<DiffLine>): seq<string> {
    if |ds| == 0 then [] else (if ds[0].Removed? then [] else [ds[0].text]) + NewSide(ds[1..])
  }

  lemma SidesAppend(a: seq<DiffLine>, b: seq<DiffLine>)
    ensures OldSide(a + b) == OldSide(a) + OldSide(b)
    ensures NewSide(a + b) == NewSide(a) + NewSide(b)
  {
    OldSideAppend(a, b);
    NewSideAppend(a, b);
  }

  lemma {:induction false} OldSideAppend(a: seq<DiffLine>, b: seq<DiffLine>)
    ensures OldSide(a + b) == OldSide(a) + OldSide(b)
    decreases |a|
  {
    if |a| == 0 {
      assert a + b == b;
    } else {
      OldSideAppend(a[1..], b);
      AppendTail(a, b);
      var h := if a[0].Added? then [] else [a[0].text];
      assert OldSide(a + b) == h + OldSide(a[1..] + b);
      assert OldSide(a) == h + OldSide(a[1..]);
      Assoc(h, OldSide(a[1..]), OldSide(b));
    }
  }

  lemma {:induction false} NewSideAppend(a: seq<DiffLine>, b: seq<DiffLine>)
    ensures NewSide(a + b) == NewSide(a) + NewSide(b)
    decreases |a|
  {
    if |a| == 0 {
      assert a + b == b;
    } else {
      NewSideAppend(a[1..], b);
      AppendTail(a, b);
      var h := if a[0].Removed? then [] else [a[0].text];
      assert NewSide(a + b) == h + NewSide(a[1..] + b);
      assert NewSide(a) == h + NewSide(a[1..]);
      Assoc(h, NewSide(a[1..]), NewSide(b));
    }
  }

  /** Diffing lines against themselves shows every line once, unchanged,
      numbered from 1, with no removal or addition. */
  lemma {:induction false} DiffOfSelf(lines: seq<string>, i: nat)
    requires i <= |lines|
    ensures var ds := DiffFrom(lines, lines, i);
      && |ds| == |lines| - i
      && forall k :: 0 <= k < |ds| ==> ds[k] == Same(i + k + 1, lines[i + k])
    decreases |lines| - i
  {
    if i < |lines| {
      DiffOfSelf(lines, i + 1);
      var rest := DiffFrom(lines, lines, i + 1);
      assert DiffFrom(lines, lines, i) == [Same(i + 1, lines[i])] + rest;
    }
  }

  /** ShowDiff(x, x) is the header and one unchanged line per line of x. */
  lemma ShowDiffOfSelf(x: string)
    ensures var lines := Split(x, '\n');
      var ds := DiffFrom(lines, lines, 0);
      && ShowDiff(x, x) == DiffHeader + RenderDiff(ds)
      && |ds| == |lines|
      && forall k :: 0 <= k < |ds| ==> ds[k] == Same(k + 1, lines[k])
  {
    DiffOfSelf(Split(x, '\n'), 0);
  }

  /** A Same line past the end of one text: the only way the as-written diff
      loses a line. */
  predicate PadsMatch(orig: seq<string>, updated: seq<string>) {
    && (forall i: nat :: |orig| <= i < |updated| ==> LineAt(updated, i) != "")
    && (forall i: nat :: |updated| <= i < |orig| ==> LineAt(orig, i) != "")
  }

  /** When no line past the end of the shorter text is empty, each side of the
      as-written diff gives back its text. */
  lemma {:induction false} DiffSidesFrom(orig: seq<string>, updated: seq<string>, i: nat)
    requires PadsMatch(orig, updated)
    requires i <= Max(|orig|, |updated|)
    ensures OldSide(DiffFrom(orig, updated, i)) == (if i < |orig| then orig[i..] else [])
    ensures NewSide(DiffFrom(orig, updated, i)) == (if i < |updated| then updated[i..] else [])
    decreases Max(|orig|, |updated|) - i
  {
    if i < Max(|orig|, |updated|) {
      var d := DiffAt(orig, updated, i);
      var rest := DiffFrom(orig, updated, i + 1);
      assert DiffFrom(orig, updated, i) == d + rest;
      DiffSidesFrom(orig, updated, i + 1);
      SidesAppend(d, rest);
      DiffAtSides(orig, updated, i);
      SuffixStep(orig, i);
      SuffixStep(updated, i);
      assert OldSide(d + rest) == OldSide(d) + OldSide(rest);
      assert NewSide(d + rest) == NewSide(d) + NewSide(rest);
    }
  }

  lemma SuffixStep(lines: seq<string>, i: nat)
    ensures (if i < |lines| then lines[i..] else [])
         == (if i < |lines| then [lines[i]] else []) + (if i + 1 < |lines| then lines[i + 1..] else [])
  {
    if i < |lines| {
      assert lines[i..] == [lines[i]] + lines[i + 1..];
    }
  }

  lemma DiffAtSides(orig: seq<string>, updated: seq<string>, i: nat)
    requires PadsMatch(orig, updated)
    requires i < Max(|orig|, |updated|)
    ensures OldSide(DiffAt(orig, updated, i)) == (if i < |orig| then [orig[i]] else [])
    ensures NewSide(DiffAt(orig, updated, i)) == (if i < |updated| then [updated[i]] else [])
  {
    var d := DiffAt(orig, updated, i);
    if LineAt(orig, i) == LineAt(updated, i) {
      assert d == [Same(i + 1, LineAt(orig, i))];
    } else if i < |orig| && i < |updated| {
      assert d == [Removed(i + 1, orig[i]), Added(i + 1, updated[i])];
      assert d[1..] == [Added(i + 1, updated[i])];
      assert OldSide(d[1..]) == [] + OldSide(d[2..]);
      assert NewSide(d[1..]) == [updated[i]] + NewSide(d[2..]);
    } else if i < |orig| {
      assert d == [Removed(i + 1, orig[i])];
    } else {
      assert d == [Added(i + 1, updated[i])];
    }
  }

  /** As written, adding an empty last line ("a" against "a\n") shows the new
      line as unchanged: no "+" line appears, and the original side of the
      diff has a line the original text does not. */
  lemma AddedEmptyLineShownUnchanged()
    ensures Split("a", '\n') == ["a"]
    ensures Split("a\n", '\n') == ["a", ""]
    ensures DiffFrom(["a"], ["a", ""], 0) == [Same(1, "a"), Same(2, "")]
    ensures OldSide(DiffFrom(["a"], ["a", ""], 0)) != ["a"]
  {
    SplitJoin(["a"], '\n');
    assert Join(["a", ""], "\n") == "a\n";
    SplitJoin(["a", ""], '\n');
    assert DiffAt(["a"], ["a", ""], 0) == [Same(1, "a")];
    assert DiffAt(["a"], ["a", ""], 1) == [Same(2, "")];
  }

  /** The evident intent: a line is unchanged only when both texts have it
      and it is equal. */
  function AlignedDiffAt(orig: seq<string>, updated: seq<string>, i: nat): (r: seq<DiffLine>)
    ensures forall k :: 0 <= k < |r| ==> r[k].number == i + 1
    ensures Same(i + 1, LineAt(orig, i)) in r ==> i < |orig| && i < |updated|
  {
    if i < |orig| && i < |updated| && orig[i] == updated[i] then [Same(i + 1, orig[i])]
    else
      (if i < |orig| then [Removed(i + 1, LineAt(orig, i))] else [])
      + (if i < |updated| then [Added(i + 1, LineAt(updated, i))] else [])
  }

  function AlignedDiffFrom(orig: seq<string>, updated: seq<string>, i: nat): seq<DiffLine>
    decreases Max(|orig|, |updated|) - i
  {
    if i >= Max(|orig|, |updated|) then [] else AlignedDiffAt(orig, updated, i) + AlignedDiffFrom(orig, updated, i + 1)
  }

  /** ShowDiff with the aligned comparison. */
  function ShowDiffAligned(original: string, updated: string): (r: string)
    ensures HasPrefix(r, DiffHeader)
  {
    var body := RenderDiff(AlignedDiffFrom(Split(original, '\n'), Split(updated, '\n'), 0));
    assert (DiffHeader + body)[..|DiffHeader|] == DiffHeader;
    DiffHeader + body
  }

  /** The aligned diff always gives back both texts: its original side is the
      original lines and its new side the new lines. */
  lemma {:induction false} AlignedDiffSides(orig: seq<string>, updated: seq<string>, i: nat)
    requires i <= Max(|orig|, |updated|)
    ensures OldSide(AlignedDiffFrom(orig, updated, i)) == (if i < |orig| then orig[i..] else [])
    ensures NewSide(AlignedDiffFrom(orig, updated, i)) == (if i < |updated| then updated[i..] else [])
    decreases Max(|orig|, |updated|) - i
  {
    if i < Max(|orig|, |updated|) {
      var d := AlignedDiffAt(orig, updated, i);
      var rest := AlignedDiffFrom(orig, updated, i + 1);
      assert AlignedDiffFrom(orig, updated, i) == d + rest;
      AlignedDiffSides(orig, updated, i + 1);
      SidesAppend(d, rest);
      AlignedDiffAtSides(orig, updated, i);
      SuffixStep(orig, i);
      SuffixStep(updated, i);
    }
  }

  lemma AlignedDiffAtSides(orig: seq<string>, updated: seq<string>, i: nat)
    requires i < Max(|orig|, |updated|)
    ensures OldSide(AlignedDiffAt(orig, updated, i)) == (if i < |orig| then [orig[i]] else [])
    ensures NewSide(AlignedDiffAt(orig, updated, i)) == (if i < |updated| then [updated[i]] else [])
  {
    var d := AlignedDiffAt(orig, updated, i);
    if i < |orig| && i < |updated| && orig[i] == updated[i] {
      assert d == [Same(i + 1, orig[i])];
    } else if i < |orig| && i < |updated| {
      assert d == [Removed(i + 1, orig[i]), Added(i + 1, updated[i])];
      assert d[1..] == [Added(i + 1, updated[i])];
      assert OldSide(d[1..]) == [] + OldSide(d[2..]);
      assert NewSide(d[1..]) == [updated[i]] + NewSide(d[2..]);
    } else if i < |orig| {
      assert d == [Removed(i + 1, orig[i])];
    } else {
      assert d == [Added(i + 1, updated[i])];
    }
  }

  /** The aligned diff of two texts always gives both texts back: joining its
      original side with newlines is the original, its new side the new text. */
  lemma ShowDiffAlignedRecovers(original: string, updated: string)
    ensures var ds := AlignedDiffFrom(Split(original, '\n'), Split(updated, '\n'), 0);
      && ShowDiffAligned(original, updated) == DiffHeader + RenderDiff(ds)
      && Join(OldSide(ds), "\n") == original
      && Join(NewSide(ds), "\n") == updated
  {
    AlignedDiffSides(Split(original, '\n'), Split(updated, '\n'), 0);
    JoinSplit(original, '\n');
    JoinSplit(updated, '\n');
  }

  /** The as-written diff gives both texts back only when the longer text has
      no empty line past the end of the shorter one. */
  lemma ShowDiffRecovers(original: string, updated: string)
    requires PadsMatch(Split(original, '\n'), Split(updated, '\n'))
    ensures var ds := DiffFrom(Split(original, '\n'), Split(updated, '\n'), 0);
      && ShowDiff(original, updated) == DiffHeader + RenderDiff(ds)
      && Join(OldSide(ds), "\n") == original
      && Join(NewSide(ds), "\n") == updated
  {
    DiffSidesFrom(Split(original, '\n'), Split(updated, '\n'), 0);
    JoinSplit(original, '\n');
    JoinSplit(updated, '\n');
  }

  /** The aligned diff and the as-written one agree on texts of equal line
      count. */
  lemma {:induction false} AlignedAgreesOnEqualLength(orig: seq<string>, updated: seq<string>, i: nat)
    requires |orig| == |updated|
    ensures AlignedDiffFrom(orig, updated, i) == DiffFrom(orig, updated, i)
    decreases Max(|orig|, |updated|) - i
  {
    if i < |orig| {
      AlignedAgreesOnEqualLength(orig, updated, i + 1);
      AlignedAtAgrees(orig, updated, i);
    }
  }

  /** At an index both texts have, the two loop bodies agree. */
  lemma AlignedAtAgrees(orig: seq<string>, updated: seq<string>, i: nat)
    requires i < |orig| && i < |updated|
    ensures AlignedDiffAt(orig, updated, i) == DiffAt(orig, updated, i)
  {
    assert LineAt(orig, i) == orig[i] && LineAt(updated, i) == updated[i];
  }

  // ---------------------------------------------------------------------
  // ParseFileEdits

  /** A line that can be part of an edit's content. */
  predicate BodyLine(line: string) {
    !HasPrefix(line, "```") && !HasPrefix(line, "Edit file:") && !HasPrefix(line, "Line:")
  }

  /** The parser's state: the edits found so far, the current edit's line
      number and content (held as its lines; the content is each followed by
      a newline), and whether an edit block is open. */
  datatype Parser = Parser(edits: seq<FileEdit>, lineNumber: int, body: seq<string>, inEdit: bool)

  const ParseStart := Parser([], 0, [], false)

  /** One line of ParseFileEdits' loop; scan stands for
      fmt.Sscanf(line, "Line: %d", ...), None when nothing was scanned. A
      fence ends an open block (keeping the edit when it has content), an
      "Edit file:" line opens a block, a "Line:" line sets the line number,
      and any other line joins the content of an open block whose line number
      is positive. */
  function ParseLine(p: Parser, line: string, scan: string -> Option<int>): (r: Parser)
    ensures r.edits != p.edits ==>
      && HasPrefix(line, "```") && p.inEdit
      && r.edits == p.edits + [FileEdit(p.lineNumber, Terminated(p.body))]
    ensures r.body != p.body ==>
      || (p.inEdit && p.lineNumber > 0 && BodyLine(line) && r.body == p.body + [line])
      || (HasPrefix(line, "```") && p.inEdit && r.body == [])
  {
    if HasPrefix(line, "```") then
      if p.inEdit then
        var content := Terminated(p.body);
        Parser(if content != "" then p.edits + [FileEdit(p.lineNumber, content)] else p.edits, 0, [], false)
      else p
    else if HasPrefix(line, "Edit file:") then p.(inEdit := true)
    else if HasPrefix(line, "Line:") then p.(lineNumber := scan(line).GetOr(p.lineNumber))
    else if p.inEdit && p.lineNumber > 0 then p.(body := p.body + [line])
    else p
  }

  function ParseFrom(p: Parser, lines: seq<string>, scan: string -> Option<int>): Parser
    decreases |lines|
  {
    if |lines| == 0 then p else ParseFrom(ParseLine(p, lines[0], scan), lines[1..], scan)
  }

  /** ParseFileEdits: every edit it returns has content, ending in a newline. */
  function ParseFileEdits(content: string, scan: string -> Option<int>): (edits: seq<FileEdit>)
    ensures forall k :: 0 <= k < |edits| ==>
      var c := edits[k].newContent; c != "" && c[|c| - 1] == '\n'
  {
    var p := ParseFrom(ParseStart, Split(content, '\n'), scan);
    ParseKeepsInvariant(ParseStart, Split(content, '\n'), scan);
    EditsEndInNewline(p);
    p.edits
  }

  lemma {:induction false} ParseFromAppend(p: Parser, a: seq<string>, b: seq<string>, scan: string -> Option<int>)
    ensures ParseFrom(p, a + b, scan) == ParseFrom(ParseFrom(p, a, scan), b, scan)
    decreases |a|
  {
    if |a| == 0 {
      assert a + b == b;
    } else {
      ParseFromAppend(ParseLine(p, a[0], scan), a[1..], b, scan);
      AppendTail(a, b);
    }
  }

  /** A block still open when the input ends is discarded: a last line that
      is not a fence adds no edit. */
  lemma OpenBlockDiscarded(lines: seq<string>, last: string, scan: string -> Option<int>)
    requires !HasPrefix(last, "```")
    ensures ParseFrom(ParseStart, lines + [last], scan).edits == ParseFrom(ParseStart, lines, scan).edits
  {
    ParseFromAppend(ParseStart, lines, [last], scan);
  }

  /** Content made of body lines only, each followed by a newline. */
  ghost predicate IsEditContent(c: string) {
    exists body: seq<string> :: && |body| > 0
                                && (forall k :: 0 <= k < |body| ==> BodyLine(body[k]))
                                && Terminated(body) == c
  }

  /** What the parser keeps true: every edit found has content made of body
      lines, and the pending content holds body lines only. */
  ghost predicate ParserInvariant(p: Parser) {
    && (forall k :: 0 <= k < |p.edits| ==> IsEditContent(p.edits[k].newContent))
    && (forall k :: 0 <= k < |p.body| ==> BodyLine(p.body[k]))
  }

  lemma {:induction false} ParseKeepsInvariant(p: Parser, lines: seq<string>, scan: string -> Option<int>)
    requires ParserInvariant(p)
    ensures ParserInvariant(ParseFrom(p, lines, scan))
    decreases |lines|
  {
    if |lines| > 0 {
      var q := ParseLine(p, lines[0], scan);
      TerminatedEmpty(p.body);
      if q.edits != p.edits {
        assert IsEditContent(Terminated(p.body));
      }
      assert ParserInvariant(q);
      ParseKeepsInvariant(q, lines[1..], scan);
    }
  }

  /** Every parsed edit's content is a non-empty run of lines, each followed
      by a newline, none of which is a fence, an "Edit file:" or a "Line:"
      line. */
  lemma ParsedEditsAreBodies(content: string, scan: string -> Option<int>)
    ensures forall e :: e in ParseFileEdits(content, scan) ==> IsEditContent(e.newContent)
  {
    ParseKeepsInvariant(ParseStart, Split(content, '\n'), scan);
  }

  /** Content built that way is non-empty and ends in a newline. */
  lemma {:induction false} EditContentShape(c: string)
    requires IsEditContent(c)
    ensures c != "" && c[|c| - 1] == '\n'
  {
    var body :| && |body| > 0
                && (forall k :: 0 <= k < |body| ==> BodyLine(body[k]))
                && Terminated(body) == c;
    TerminatedEndsInNewline(body);
  }

  /** Under the parser's invariant, every edit found so far has content
      ending in a newline. */
  lemma EditsEndInNewline(p: Parser)
    requires ParserInvariant(p)
    ensures forall k :: 0 <= k < |p.edits| ==>
      var c := p.edits[k].newContent; c != "" && c[|c| - 1] == '\n'
  {
    forall k | 0 <= k < |p.edits| {
      EditContentShape(p.edits[k].newContent);
    }
  }
}

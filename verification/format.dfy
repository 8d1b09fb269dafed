/** Terminal text formatting: the fenced-code-block structure of
    FormatMarkdown with its header and list rules, the padding helpers,
    WordWrap and the per-extension colour table. Display width is the string
    length (the ASCII case). The regular-expression inline formatting (code
    spans, bold, italic) is a parameter `inline`; the link pass returns every
    match unchanged and so is the identity. */
module Format {
  import opened Text

  const Reset := "\U{1B}[0m"

  // ---------------------------------------------------------------------
  // Headers and lists

  const H1Color := "\U{1B}[1;34m"
  const H2Color := "\U{1B}[1;35m"
  const H3Color := "\U{1B}[1;36m"

  /** formatHeaders */
  function Headers(line: string): string {
    if HasPrefix(line, "### ") then H3Color + TrimPrefix(line, "### ") + Reset
    else if HasPrefix(line, "## ") then H2Color + TrimPrefix(line, "## ") + Reset
    else if HasPrefix(line, "# ") then H1Color + TrimPrefix(line, "# ") + Reset
    else line
  }

  /** The three header prefixes exclude each other ("## x" does not start
      with "# " and "### x" does not start with "## "), so each rule holds on
      its own, whatever the order of the tests: the marker is stripped and the
      rest wrapped in its colour; other lines are unchanged. */
  lemma HeaderRules(line: string)
    ensures HasPrefix(line, "### ") ==> Headers(line) == H3Color + line[4..] + Reset
    ensures HasPrefix(line, "## ") ==> Headers(line) == H2Color + line[3..] + Reset
    ensures HasPrefix(line, "# ") ==> Headers(line) == H1Color + line[2..] + Reset
    ensures !HasPrefix(line, "### ") && !HasPrefix(line, "## ") && !HasPrefix(line, "# ") ==> Headers(line) == line
  {
    HeaderPrefixesExclusive(line);
  }

  lemma HeaderPrefixesExclusive(line: string)
    ensures HasPrefix(line, "### ") ==> !HasPrefix(line, "## ") && !HasPrefix(line, "# ")
    ensures HasPrefix(line, "## ") ==> !HasPrefix(line, "# ")
  {
    if HasPrefix(line, "### ") || HasPrefix(line, "## ") {
      assert line[1] == '#';
    }
    if HasPrefix(line, "### ") {
      assert line[2] == '#';
    }
  }

  /** The characters of the regular-expression class \s (tab, newline, form
      feed, carriage return, space). */
  predicate IsRegexpSpace(c: char) {
    c == '\t' || c == '\n' || c == '\U{C}' || c == '\r' || c == ' '
  }

  predicate IsDigit(c: char) {
    '0' <= c <= '9'
  }

  /** Length of the run of decimal digits at the start of s. */
  function LeadingDigits(s: string): (k: nat)
    ensures k <= |s|
    ensures forall i :: 0 <= i < k ==> IsDigit(s[i])
    ensures k < |s| ==> !IsDigit(s[k])
    decreases |s|
  {
    if |s| > 0 && IsDigit(s[0]) then 1 + LeadingDigits(s[1..]) else 0
  }

  /** A match of ^\d+\.\s: digits, a dot, then a \s character. Backtracking
      over \d+ cannot help, since a shorter run is followed by a digit. */
  predicate NumberedItem(line: string) {
    var k := LeadingDigits(line);
    k >= 1 && k + 1 < |line| && line[k] == '.' && IsRegexpSpace(line[k + 1])
  }

  const Bullet := "  \U{2022} "

  /** formatLists */
  function Lists(line: string): string {
    if HasPrefix(line, "- ") || HasPrefix(line, "* ") then
      Bullet + TrimPrefix(TrimPrefix(line, "- "), "* ")
    else if NumberedItem(line) then "  " + line
    else line
  }

  /** Bullets are rewritten to the bullet sign, numbered items indented by
      two spaces, and other lines left alone. A "- " item loses a following
      "* " too, as both prefixes are trimmed in turn. */
  lemma ListRules(line: string)
    ensures HasPrefix(line, "* ") ==> Lists(line) == Bullet + line[2..]
    ensures HasPrefix(line, "- ") ==> Lists(line) == Bullet + TrimPrefix(line[2..], "* ")
    ensures NumberedItem(line) ==> Lists(line) == "  " + line
    ensures !HasPrefix(line, "- ") && !HasPrefix(line, "* ") && !NumberedItem(line) ==> Lists(line) == line
  {
    if NumberedItem(line) {
      assert IsDigit(line[0]);
    }
  }

  // ---------------------------------------------------------------------
  // Code blocks

  const FenceColor := "\U{1B}[33m"
  const CodeColor := "\U{1B}[90m"

  function Gray(lines: seq<string>): (r: seq<string>)
    ensures |r| == |lines|
    ensures forall k :: 0 <= k < |lines| ==> r[k] == CodeColor + lines[k] + Reset
  {
    seq(|lines|, k requires 0 <= k < |lines| => CodeColor + lines[k] + Reset)
  }

  /** formatCodeBlock: nothing for an empty block; otherwise an opening fence
      carrying the language, each line in grey, and a closing fence, every
      one followed by a newline. */
  function CodeBlock(lang: string, lines: seq<string>): (r: string)
    ensures r == "" <==> lines == []
    ensures WholeLines(r)
  {
    if |lines| == 0 then ""
    else
      var t := Terminated([FenceColor + "```" + lang + Reset] + Gray(lines) + [FenceColor + "```" + Reset]);
      TerminatedEndsInNewline([FenceColor + "```" + lang + Reset] + Gray(lines) + [FenceColor + "```" + Reset]);
      t
  }

  /** A code block of newline-free lines is, line by line, the opening
      fence, the grey code lines in order, the closing fence, and nothing
      after the final newline. */
  lemma CodeBlockLines(lang: string, lines: seq<string>)
    requires |lines| > 0
    requires '\n' !in lang
    requires forall k :: 0 <= k < |lines| ==> '\n' !in lines[k]
    ensures var out := Split(CodeBlock(lang, lines), '\n');
      && |out| == |lines| + 3
      && out[0] == FenceColor + "```" + lang + Reset
      && (forall k :: 0 <= k < |lines| ==> out[k + 1] == CodeColor + lines[k] + Reset)
      && out[|lines| + 1] == FenceColor + "```" + Reset
      && out[|lines| + 2] == ""
  {
    var xs := [FenceColor + "```" + lang + Reset] + Gray(lines) + [FenceColor + "```" + Reset];
    TerminatedJoin(xs, "");
    assert Terminated(xs) + "" == Terminated(xs);
    forall k | 0 <= k < |xs + [""]|
      ensures '\n' !in (xs + [""])[k]
    {
      if 1 <= k <= |lines| {
        assert (xs + [""])[k] == CodeColor + lines[k - 1] + Reset;
      }
    }
    SplitJoin(xs + [""], '\n');
  }

  // ---------------------------------------------------------------------
  // FormatMarkdown

  predicate IsFence(line: string) {
    HasPrefix(line, "```")
  }

  /** The language of an opening fence: the second piece of what follows the
      backticks split at spaces, or "" when there is none. */
  function FenceLang(line: string): string {
    var parts := Split(TrimPrefix(line, "```"), ' ');
    if |parts| > 1 then parts[1] else ""
  }

  /** A fence with a word straight after the backticks has no language; the
      language is the word after a space. */
  lemma FenceLanguage(w: string)
    requires ' ' !in w
    ensures FenceLang("```" + w) == ""
    ensures FenceLang("``` " + w) == w
  {
    assert TrimPrefix("```" + w, "```") == w by {
      assert ("```" + w)[..3] == "```";
    }
    SplitJoin([w], ' ');
    assert TrimPrefix("``` " + w, "```") == " " + w by {
      assert ("``` " + w)[..3] == "```";
    }
    assert Join(["", w], " ") == " " + w;
    SplitJoin(["", w], ' ');
  }

  /** The formatting a line outside code blocks receives. */
  function RenderLine(line: string, inline: string -> string): string {
    Lists(Headers(inline(line)))
  }

  function Rendered(lines: seq<string>, inline: string -> string): (r: seq<string>)
    ensures |r| == |lines|
    ensures forall k :: 0 <= k < |lines| ==> r[k] == RenderLine(lines[k], inline)
  {
    seq(|lines|, k requires 0 <= k < |lines| => RenderLine(lines[k], inline))
  }

  /** The loop state of FormatMarkdown: the output so far, whether a code
      block is open, its language and its lines. */
  datatype Markdown = Markdown(out: string, inCode: bool, lang: string, code: seq<string>)

  const MarkdownStart := Markdown("", false, "", [])

  /** Outside a block the language and the pending lines are always empty. */
  predicate Settled(m: Markdown) {
    !m.inCode ==> m.lang == "" && m.code == []
  }

  /** One line of FormatMarkdown: a fence closes an open block (emitting it)
      or opens one (taking its language when it has one); a line inside a
      block is kept for it; any other line is formatted and emitted with a
      newline. */
  function MarkdownStep(m: Markdown, line: string, inline: string -> string): (r: Markdown)
    ensures Settled(m) ==> Settled(r)
    ensures !IsFence(line) ==> r.inCode == m.inCode
    ensures HasPrefix(r.out, m.out)
    ensures WholeLines(m.out) ==> WholeLines(r.out)
  {
    if IsFence(line) then
      if m.inCode then Markdown(m.out + CodeBlock(m.lang, m.code), false, "", [])
      else
        var parts := Split(TrimPrefix(line, "```"), ' ');
        m.(inCode := true, lang := if |parts| > 1 then parts[1] else m.lang)
    else if m.inCode then m.(code := m.code + [line])
    else m.(out := m.out + RenderLine(line, inline) + "\n")
  }

  /** The loop over the lines: output is only ever appended, and it stays
      made of whole lines. */
  function MarkdownFrom(m: Markdown, lines: seq<string>, inline: string -> string): (r: Markdown)
    ensures Settled(m) ==> Settled(r)
    ensures HasPrefix(r.out, m.out)
    ensures WholeLines(m.out) ==> WholeLines(r.out)
    decreases |lines|
  {
    if |lines| == 0 then m
    else
      var next := MarkdownStep(m, lines[0], inline);
      var r := MarkdownFrom(next, lines[1..], inline);
      assert r.out[..|m.out|] == r.out[..|next.out|][..|m.out|];
      r
  }

  /** FormatMarkdown: the output is a sequence of whole, newline-terminated
      lines. */
  function FormatMarkdown(text: string, inline: string -> string): (r: string)
    ensures WholeLines(r)
  {
    MarkdownFrom(MarkdownStart, Split(text, '\n'), inline).out
  }

  predicate NoFence(lines: seq<string>) {
    forall k :: 0 <= k < |lines| ==> !IsFence(lines[k])
  }

  lemma {:induction false} MarkdownFromAppend(m: Markdown, a: seq<string>, b: seq<string>, inline: string -> string)
    ensures MarkdownFrom(m, a + b, inline) == MarkdownFrom(MarkdownFrom(m, a, inline), b, inline)
    decreases |a|
  {
    if |a| == 0 {
      assert a + b == b;
    } else {
      var next := MarkdownStep(m, a[0], inline);
      MarkdownFromAppend(next, a[1..], b, inline);
      AppendTail(a, b);
      FromCons(m, a + b, inline);
      FromCons(m, a, inline);
    }
  }

  lemma PlainStep(m: Markdown, line: string, inline: string -> string)
    requires !m.inCode && !IsFence(line)
    ensures MarkdownStep(m, line, inline) == m.(out := m.out + (RenderLine(line, inline) + "\n"))
  {
    Assoc(m.out, RenderLine(line, inline), "\n");
  }

  lemma FromCons(m: Markdown, lines: seq<string>, inline: string -> string)
    requires |lines| > 0
    ensures MarkdownFrom(m, lines, inline) == MarkdownFrom(MarkdownStep(m, lines[0], inline), lines[1..], inline)
  {
  }

  lemma RenderedCons(lines: seq<string>, inline: string -> string)
    requires |lines| > 0
    ensures Terminated(Rendered(lines, inline))
         == RenderLine(lines[0], inline) + "\n" + Terminated(Rendered(lines[1..], inline))
  {
    var r := Rendered(lines, inline);
    assert r[1..] == Rendered(lines[1..], inline);
  }

  /** Outside a block, each fence-free line gives exactly one formatted,
      newline-terminated output line, in order. */
  lemma {:induction false} PlainLines(m: Markdown, lines: seq<string>, inline: string -> string)
    requires !m.inCode
    requires NoFence(lines)
    ensures MarkdownFrom(m, lines, inline) == m.(out := m.out + Terminated(Rendered(lines, inline)))
    decreases |lines|
  {
    if |lines| > 0 {
      var head := RenderLine(lines[0], inline) + "\n";
      var tail := Terminated(Rendered(lines[1..], inline));
      var next := m.(out := m.out + head);
      PlainStep(m, lines[0], inline);
      FromCons(m, lines, inline);
      PlainLines(next, lines[1..], inline);
      RenderedCons(lines, inline);
      Assoc(m.out, head, tail);
      calc {
        MarkdownFrom(m, lines, inline);
        MarkdownFrom(next, lines[1..], inline);
        next.(out := m.out + head + tail);
        m.(out := m.out + Terminated(Rendered(lines, inline)));
      }
    } else {
      assert Rendered(lines, inline) == [];
      assert m.out + "" == m.out;
    }
  }

  /** Inside a block, fence-free lines are only collected. */
  lemma {:induction false} CodeLines(m: Markdown, lines: seq<string>, inline: string -> string)
    requires m.inCode
    requires NoFence(lines)
    ensures MarkdownFrom(m, lines, inline) == m.(code := m.code + lines)
    decreases |lines|
  {
    if |lines| > 0 {
      CodeLines(m.(code := m.code + [lines[0]]), lines[1..], inline);
      assert m.code + [lines[0]] + lines[1..] == m.code + lines;
    }
  }

  /** A text without fences is formatted line by line. */
  lemma FormatPlainText(text: string, inline: string -> string)
    requires NoFence(Split(text, '\n'))
    ensures FormatMarkdown(text, inline) == Terminated(Rendered(Split(text, '\n'), inline))
  {
    PlainLines(MarkdownStart, Split(text, '\n'), inline);
  }

  /** A block that is entered and never closed leaves no trace in the output. */
  lemma UnclosedBlockVanishes(before: seq<string>, fence: string, rest: seq<string>, inline: string -> string)
    requires !MarkdownFrom(MarkdownStart, before, inline).inCode
    requires IsFence(fence)
    requires NoFence(rest)
    ensures MarkdownFrom(MarkdownStart, before + [fence] + rest, inline).out
         == MarkdownFrom(MarkdownStart, before, inline).out
  {
    var m := MarkdownFrom(MarkdownStart, before, inline);
    MarkdownFromAppend(MarkdownStart, before + [fence], rest, inline);
    MarkdownFromAppend(MarkdownStart, before, [fence], inline);
    var entered := MarkdownStep(m, fence, inline);
    assert MarkdownFrom(m, [fence], inline) == entered;
    CodeLines(entered, rest, inline);
  }

  /** A closed block emits exactly its code block, with the language of its
      opening fence. */
  lemma ClosedBlock(m: Markdown, openFence: string, body: seq<string>, closeFence: string, inline: string -> string)
    requires Settled(m) && !m.inCode
    requires IsFence(openFence) && IsFence(closeFence)
    requires NoFence(body)
    ensures MarkdownFrom(m, [openFence] + body + [closeFence], inline)
         == MarkdownStart.(out := m.out + CodeBlock(FenceLang(openFence), body))
  {
    var entered := MarkdownStep(m, openFence, inline);
    assert entered == m.(inCode := true, lang := FenceLang(openFence));
    MarkdownFromAppend(m, [openFence] + body, [closeFence], inline);
    MarkdownFromAppend(m, [openFence], body, inline);
    assert MarkdownFrom(m, [openFence], inline) == entered;
    CodeLines(entered, body, inline);
    assert entered.code + body == body;
  }

  // ---------------------------------------------------------------------
  // Padding

  /** PadRight: s followed by spaces up to the width. */
  function PadRight(s: string, width: int): (r: string)
    ensures |r| == if |s| >= width then |s| else width
    ensures r[..|s|] == s
    ensures forall i :: |s| <= i < |r| ==> r[i] == ' '
  {
    if |s| >= width then s else s + Spaces(width - |s|)
  }

  /** PadLeft: spaces up to the width, then s. */
  function PadLeft(s: string, width: int): (r: string)
    ensures |r| == if |s| >= width then |s| else width
    ensures r[|r| - |s|..] == s
    ensures forall i :: 0 <= i < |r| - |s| ==> r[i] == ' '
  {
    if |s| >= width then s else Spaces(width - |s|) + s
  }

  /** Center: half the missing width (rounded down) on the left, the rest on
      the right. */
  function Center(s: string, width: int): (r: string)
    ensures |s| >= width ==> r == s
    ensures |s| < width ==>
      var left := (width - |s|) / 2;
      var right := width - |s| - left;
      && |r| == width
      && r[left..left + |s|] == s
      && (forall i :: 0 <= i < left ==> r[i] == ' ')
      && (forall i :: left + |s| <= i < width ==> r[i] == ' ')
      && 0 <= right - left <= 1
  {
    if |s| >= width then s
    else
      var left := (width - |s|) / 2;
      var right := width - |s| - left;
      Spaces(left) + s + Spaces(right)
  }

  /** Centering is left padding by the left share, then right padding to the
      full width. */
  lemma CenterIsPadded(s: string, width: int)
    requires |s| < width
    ensures Center(s, width) == PadRight(PadLeft(s, |s| + (width - |s|) / 2), width)
  {
    var left := (width - |s|) / 2;
    var c := Center(s, width);
    var p := PadRight(PadLeft(s, |s| + left), width);
    assert |c| == |p|;
    forall i | 0 <= i < |c|
      ensures c[i] == p[i]
    {
      if left <= i < left + |s| {
        assert c[i] == c[left..left + |s|][i - left];
        assert p[..|s| + left][left..] == s;
        assert p[i] == p[..|s| + left][left..][i - left];
      }
    }
  }

  // ---------------------------------------------------------------------
  // WordWrap

  /** The wrap loop's state: finished lines and the line being filled. */
  datatype Wrap = Wrap(done: seq<string>, current: string)

  /** One word: it starts the line when the line is empty, joins it with a
      space when that fits, and otherwise finishes the line and starts the
      next one. */
  function WrapWord(w: Wrap, word: string, width: int): Wrap {
    if w.current == "" then w.(current := word)
    else if |w.current + " " + word| <= width then w.(current := w.current + " " + word)
    else Wrap(w.done + [w.current], word)
  }

  function WrapWords(w: Wrap, words: seq<string>, width: int): Wrap
    decreases |words|
  {
    if |words| == 0 then w else WrapWords(WrapWord(w, words[0], width), words[1..], width)
  }

  /** WordWrap: the finished lines and the last one, newline-separated (the
      last one is written only when non-empty, which is the same text). */
  function WordWrap(text: string, width: int): string {
    var w := WrapWords(Wrap([], ""), Fields(text), width);
    Join(w.done + [w.current], "\n")
  }

  /** A line of the wrapped output: no newline, fits the width unless it is
      a single word, and does not end in white space. */
  predicate LineFits(line: string, width: int) {
    && '\n' !in line
    && (|Fields(line)| > 1 ==> |line| <= width)
    && (|line| > 0 ==> !IsSpace(line[|line| - 1]))
  }

  predicate WrapInvariant(w: Wrap, width: int) {
    && (w.current == "" ==> w.done == [])
    && (forall k :: 0 <= k < |w.done| ==> w.done[k] != "" && LineFits(w.done[k], width))
    && LineFits(w.current, width)
  }

  function Lines(w: Wrap): seq<string> {
    w.done + [w.current]
  }

  lemma WordLine(word: string, width: int)
    requires IsWord(word)
    ensures LineFits(word, width)
    ensures Fields(word) == [word]
  {
    FieldsOfWord(word);
  }

  lemma FieldsOfAllSnoc(a: seq<string>, x: string)
    ensures FieldsOfAll(a + [x]) == FieldsOfAll(a) + Fields(x)
  {
    FieldsOfAllAppend(a, [x]);
    assert FieldsOfAll([x]) == Fields(x) + FieldsOfAll([]);
  }

  /** Joining a word to a non-empty line with a space keeps the line's words
      and adds the word; the line ends in the word's last character. */
  lemma JoinedLine(c: string, word: string)
    requires c != ""
    requires IsWord(word)
    ensures Fields(c + " " + word) == Fields(c) + [word]
    ensures '\n' !in c ==> '\n' !in c + " " + word
    ensures var l := c + " " + word; l[|l| - 1] == word[|word| - 1]
  {
    FieldsOfWord(word);
    assert c + " " + word == c + [' '] + word;
    FieldsAroundSpace(c, ' ', word);
  }

  lemma WrapWordKeepsInvariant(w: Wrap, word: string, width: int)
    requires WrapInvariant(w, width)
    requires IsWord(word)
    ensures WrapInvariant(WrapWord(w, word, width), width)
  {
    WordLine(word, width);
    if w.current != "" {
      JoinedLine(w.current, word);
    }
  }

  lemma WrapWordFields(w: Wrap, word: string, width: int)
    requires WrapInvariant(w, width)
    requires IsWord(word)
    ensures FieldsOfAll(Lines(WrapWord(w, word, width))) == FieldsOfAll(Lines(w)) + [word]
  {
    FieldsOfWord(word);
    var c := w.current;
    FieldsOfAllSnoc(w.done, c);
    if c == "" {
      assert Lines(WrapWord(w, word, width)) == [] + [word];
      FieldsOfAllSnoc([], word);
      assert Fields(c) == [];
    } else if |c + " " + word| <= width {
      JoinedLine(c, word);
      FieldsOfAllSnoc(w.done, c + " " + word);
    } else {
      assert Lines(WrapWord(w, word, width)) == (w.done + [c]) + [word];
      FieldsOfAllSnoc(w.done + [c], word);
    }
  }

  lemma {:induction false} WrapWordsInvariant(w: Wrap, words: seq<string>, width: int)
    requires WrapInvariant(w, width)
    requires forall k :: 0 <= k < |words| ==> IsWord(words[k])
    ensures WrapInvariant(WrapWords(w, words, width), width)
    ensures FieldsOfAll(Lines(WrapWords(w, words, width))) == FieldsOfAll(Lines(w)) + words
    decreases |words|
  {
    if |words| > 0 {
      WrapWordKeepsInvariant(w, words[0], width);
      WrapWordFields(w, words[0], width);
      WrapWordsInvariant(WrapWord(w, words[0], width), words[1..], width);
      assert [words[0]] + words[1..] == words;
    }
  }

  lemma {:induction false} JoinEndsWithLast(lines: seq<string>, sep: string)
    requires |lines| >= 1
    ensures HasSuffix(Join(lines, sep), lines[|lines| - 1])
    decreases |lines|
  {
    if |lines| > 1 {
      JoinEndsWithLast(lines[1..], sep);
      var j := Join(lines, sep);
      var tail := Join(lines[1..], sep);
      assert j == lines[0] + sep + tail;
      var last := lines[|lines| - 1];
      assert j[|j| - |last|..] == tail[|tail| - |last|..];
    }
  }

  function WrapOf(text: string, width: int): Wrap {
    WrapWords(Wrap([], ""), Fields(text), width)
  }

  lemma WrapOfInvariant(text: string, width: int)
    ensures WrapInvariant(WrapOf(text, width), width)
    ensures FieldsOfAll(Lines(WrapOf(text, width))) == Fields(text)
    ensures WordWrap(text, width) == Join(Lines(WrapOf(text, width)), "\n")
  {
    var start := Wrap([], "");
    assert FieldsOfAll(Lines(start)) == [] by {
      assert FieldsOfAll([""]) == Fields("") + FieldsOfAll([]);
    }
    WrapWordsInvariant(start, Fields(text), width);
  }

  lemma WrappedLinesHaveNoNewline(w: Wrap, width: int)
    requires WrapInvariant(w, width)
    ensures forall k :: 0 <= k < |Lines(w)| ==> LineFits(Lines(w)[k], width)
  {
    forall k | 0 <= k < |Lines(w)|
      ensures LineFits(Lines(w)[k], width)
    {
      if k < |w.done| {
        assert Lines(w)[k] == w.done[k];
      }
    }
  }

  /** WordWrap keeps the words of the text and their order. */
  lemma WordWrapKeepsWords(text: string, width: int)
    ensures Fields(WordWrap(text, width)) == Fields(text)
  {
    WrapOfInvariant(text, width);
    FieldsOfJoin(Lines(WrapOf(text, width)), '\n');
  }

  /** Every line of WordWrap's output fits the width unless it holds a single
      word. */
  lemma WordWrapLinesFit(text: string, width: int)
    ensures forall line :: line in Split(WordWrap(text, width), '\n') ==>
      (|Fields(line)| > 1 ==> |line| <= width)
  {
    WrapOfInvariant(text, width);
    var lines := Lines(WrapOf(text, width));
    WrappedLinesHaveNoNewline(WrapOf(text, width), width);
    SplitJoin(lines, '\n');
  }

  /** WordWrap's output never ends in a newline. */
  lemma WordWrapNoTrailingNewline(text: string, width: int)
    ensures var out := WordWrap(text, width); |out| > 0 ==> out[|out| - 1] != '\n'
  {
    WrapOfInvariant(text, width);
    var w := WrapOf(text, width);
    var lines := Lines(w);
    JoinEndsWithLast(lines, "\n");
    var out := WordWrap(text, width);
    if |out| > 0 && w.current != "" {
      assert out[|out| - 1] == w.current[|w.current| - 1];
    }
  }

  // ---------------------------------------------------------------------
  // GetColorForFile

  const Green := "\U{1B}[32m"
  const Yellow := "\U{1B}[33m"
  const Blue := "\U{1B}[34m"
  const Red := "\U{1B}[31m"
  const Cyan := "\U{1B}[36m"
  const Magenta := "\U{1B}[35m"
  const White := "\U{1B}[37m"

  const KnownExtensions: set<string> := {"go", "js", "ts", "jsx", "tsx", "py", "rs", "java", "c", "cpp", "h"}

  function ExtensionColor(ext: string): string {
    match ext
    case "go" => Green
    case "js" => Yellow
    case "ts" => Yellow
    case "jsx" => Yellow
    case "tsx" => Yellow
    case "py" => Blue
    case "rs" => Red
    case "java" => Cyan
    case "c" => Magenta
    case "cpp" => Magenta
    case "h" => Magenta
    case _ => White
  }

  /** GetColorForFile: the colour of the extension after one leading dot is
      removed; white for anything not listed. */
  function ColorForFile(filename: string): (r: string)
    ensures TrimPrefix(filename, ".") !in KnownExtensions ==> r == White
    ensures r in {Green, Yellow, Blue, Red, Cyan, Magenta, White}
  {
    ExtensionColor(TrimPrefix(filename, "."))
  }

  /** One leading dot makes no difference, a second one does. */
  lemma ColorForFileDot(ext: string)
    requires !HasPrefix(ext, ".")
    ensures ColorForFile("." + ext) == ColorForFile(ext)
    ensures ColorForFile("." + ("." + ext)) == White
  {
    assert ("." + ext)[..1] == ".";
    assert TrimPrefix("." + ext, ".") == ext;
    assert ("." + ("." + ext))[..1] == ".";
    assert TrimPrefix("." + ("." + ext), ".") == "." + ext;
    assert forall e :: e in KnownExtensions ==> |e| > 0 && e[0] != '.';
    assert ("." + ext)[0] == '.';
  }

  lemma ColorForFileGo()
    ensures ColorForFile("go") == Green
    ensures ColorForFile(".go") == Green
    ensures ColorForFile("..go") == White
  {
    assert "go"[..1] == "g";
    ColorForFileDot("go");
  }
}

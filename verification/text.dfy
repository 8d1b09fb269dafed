/** String helpers with the meaning of the Go standard-library functions the
    client relies on (strings.Split, strings.Join, strings.Fields,
    strings.TrimSpace, strings.HasPrefix, strings.Contains, strings.Repeat,
    fmt's %d), over strings seen as sequences of characters. */
module Text {

  /** unicode.IsSpace: the characters strings.TrimSpace and strings.Fields
      treat as white space. */
  predicate IsSpace(c: char) {
    || c == '\t' || c == '\n' || c == '\U{B}' || c == '\U{C}' || c == '\r' || c == ' '
    || c == '\U{85}' || c == '\U{A0}' || c == '\U{1680}'
    || ('\U{2000}' <= c <= '\U{200A}')
    || c == '\U{2028}' || c == '\U{2029}' || c == '\U{202F}' || c == '\U{205F}' || c == '\U{3000}'
  }

  predicate HasPrefix(s: string, p: string) {
    |p| <= |s| && s[..|p|] == p
  }

  predicate HasSuffix(s: string, p: string) {
    |p| <= |s| && s[|s| - |p|..] == p
  }

  /** strings.TrimPrefix: removes p once, when s starts with it. */
  function TrimPrefix(s: string, p: string): (r: string)
    ensures HasPrefix(s, p) ==> p + r == s
    ensures !HasPrefix(s, p) ==> r == s
  {
    if HasPrefix(s, p) then s[|p|..] else s
  }

  /** s without its leading white space. */
  function TrimLeft(s: string): string
    decreases |s|
  {
    if |s| > 0 && IsSpace(s[0]) then TrimLeft(s[1..]) else s
  }

  /** s without its trailing white space. */
  function TrimRight(s: string): string
    decreases |s|
  {
    if |s| > 0 && IsSpace(s[|s| - 1]) then TrimRight(s[..|s| - 1]) else s
  }

  /** strings.TrimSpace */
  function TrimSpace(s: string): string {
    TrimRight(TrimLeft(s))
  }

  /** strings.Contains */
  predicate Contains(s: string, sub: string)
    decreases |s|
  {
    HasPrefix(s, sub) || (|s| > 0 && Contains(s[1..], sub))
  }

  /** unicode.ToLower for the characters it maps to ASCII: the ASCII capitals,
      the dotted capital I (U+0130) and the Kelvin sign (U+212A). Every other
      character is left as it is; unicode.ToLower maps it to itself or to
      another non-ASCII character. */
  function LowerChar(c: char): char {
    if 'A' <= c <= 'Z' then (c as int + 32) as char
    else if c == '\U{130}' then 'i'
    else if c == '\U{212A}' then 'k'
    else c
  }

  function ToLower(s: string): (r: string)
    ensures |r| == |s|
    ensures forall i :: 0 <= i < |s| ==> r[i] == LowerChar(s[i])
  {
    seq(|s|, i requires 0 <= i < |s| => LowerChar(s[i]))
  }

  /** strings.Repeat(" ", n) */
  function Spaces(n: nat): (r: string)
    ensures |r| == n
    ensures forall i :: 0 <= i < n ==> r[i] == ' '
  {
    seq(n, _ => ' ')
  }

  /** Each line followed by a newline, in order. */
  function Terminated(lines: seq<string>): string {
    if |lines| == 0 then "" else lines[0] + "\n" + Terminated(lines[1..])
  }

  /** Text made of whole lines: empty, or ending in a newline. */
  predicate WholeLines(s: string) {
    s == "" || s[|s| - 1] == '\n'
  }

  /** Terminated text is empty exactly when there are no lines. */
  lemma TerminatedEmpty(lines: seq<string>)
    ensures Terminated(lines) == "" <==> lines == []
  {
    if lines != [] {
      assert |Terminated(lines)| >= 1;
    }
  }

  /** Terminated text of at least one line ends in a newline. */
  lemma {:induction false} TerminatedEndsInNewline(lines: seq<string>)
    requires |lines| > 0
    ensures var t := Terminated(lines); |t| > 0 && t[|t| - 1] == '\n'
    decreases |lines|
  {
    if |lines| > 1 {
      TerminatedEndsInNewline(lines[1..]);
    }
  }

  /** strings.Join */
  function Join(parts: seq<string>, sep: string): string {
    if |parts| == 0 then ""
    else if |parts| == 1 then parts[0]
    else parts[0] + sep + Join(parts[1..], sep)
  }

  /** Index of the first c in s, or |s| when there is none. */
  function IndexOf(s: string, c: char): (k: nat)
    ensures k <= |s|
    ensures k < |s| ==> s[k] == c
    ensures forall i :: 0 <= i < k ==> s[i] != c
    decreases |s|
  {
    if |s| == 0 || s[0] == c then 0 else 1 + IndexOf(s[1..], c)
  }

  /** strings.Split with a one-character separator: the pieces between
      consecutive separators, always at least one. */
  function Split(s: string, c: char): (parts: seq<string>)
    ensures |parts| >= 1
    ensures forall i :: 0 <= i < |parts| ==> c !in parts[i]
    decreases |s|
  {
    var k := IndexOf(s, c);
    if k == |s| then [s] else [s[..k]] + Split(s[k + 1..], c)
  }

  lemma IndexOfIs(s: string, c: char, k: nat)
    requires k <= |s|
    requires k < |s| ==> s[k] == c
    requires forall i :: 0 <= i < k ==> s[i] != c
    ensures IndexOf(s, c) == k
  {
  }

  /** Joining the pieces of a split with the separator gives back the string. */
  lemma {:induction false} JoinSplit(s: string, c: char)
    ensures Join(Split(s, c), [c]) == s
    decreases |s|
  {
    var k := IndexOf(s, c);
    if k < |s| {
      var rest := s[k + 1..];
      var tail := Split(rest, c);
      JoinSplit(rest, c);
      assert Split(s, c) == [s[..k]] + tail;
      JoinCons(s[..k], tail, [c]);
      assert s == s[..k] + [c] + rest;
    }
  }

  lemma JoinCons(head: string, tail: seq<string>, sep: string)
    requires |tail| >= 1
    ensures Join([head] + tail, sep) == head + sep + Join(tail, sep)
  {
    assert ([head] + tail)[1..] == tail;
  }

  /** The head and tail of a concatenation whose left part is non-empty. */
  lemma AppendTail<T>(a: seq<T>, b: seq<T>)
    requires |a| > 0
    ensures (a + b)[0] == a[0]
    ensures (a + b)[1..] == a[1..] + b
  {
  }

  lemma Assoc<T>(a: seq<T>, b: seq<T>, c: seq<T>)
    ensures a + b + c == a + (b + c)
  {
  }

  /** Cutting a concatenation inside its left part. */
  lemma SliceAppend<T>(a: seq<T>, b: seq<T>, j: nat)
    requires j <= |a|
    ensures (a + b)[..j] == a[..j]
    ensures (a + b)[j..] == a[j..] + b
  {
  }

  /** Splitting a join of pieces free of the separator gives back the pieces. */
  lemma {:induction false} SplitJoin(parts: seq<string>, c: char)
    requires |parts| >= 1
    requires forall i :: 0 <= i < |parts| ==> c !in parts[i]
    ensures Split(Join(parts, [c]), c) == parts
    decreases |parts|
  {
    var p := parts[0];
    if |parts| == 1 {
      IndexOfIs(p, c, |p|);
    } else {
      var tail := Join(parts[1..], [c]);
      assert Join(parts, [c]) == p + [c] + tail;
      SplitCons(p, c, tail);
      SplitJoin(parts[1..], c);
      assert parts == [p] + parts[1..];
    }
  }

  /** Splitting a piece free of the separator, the separator and a rest. */
  lemma SplitCons(p: string, c: char, tail: string)
    requires c !in p
    ensures Split(p + [c] + tail, c) == [p] + Split(tail, c)
  {
    var s := p + [c] + tail;
    IndexOfIs(s, c, |p|);
    assert s[..|p|] == p;
    assert s[|p| + 1..] == tail;
  }

  /** Newline-terminated lines followed by an unterminated tail are the
      newline join of the lines with the tail appended. */
  lemma {:induction false} TerminatedJoin(lines: seq<string>, tail: string)
    ensures Terminated(lines) + tail == Join(lines + [tail], "\n")
    decreases |lines|
  {
    if |lines| > 0 {
      TerminatedJoin(lines[1..], tail);
      assert (lines + [tail])[1..] == lines[1..] + [tail];
    }
  }

  /** sub occurs in any string that has it as an infix. */
  lemma {:induction false} ContainsInfix(pre: string, sub: string, post: string)
    ensures Contains(pre + sub + post, sub)
    decreases |pre|
  {
    var s := pre + sub + post;
    if |pre| == 0 {
      assert s[..|sub|] == sub;
    } else {
      ContainsInfix(pre[1..], sub, post);
      assert s[1..] == pre[1..] + sub + post;
    }
  }

  // ---------------------------------------------------------------------
  // strings.Fields

  /** A non-empty run of non-space characters. */
  predicate IsWord(w: string) {
    w != [] && forall i :: 0 <= i < |w| ==> !IsSpace(w[i])
  }

  /** Length of the leading run of non-space characters. */
  function WordEnd(s: string): (k: nat)
    ensures k <= |s|
    ensures forall i :: 0 <= i < k ==> !IsSpace(s[i])
    ensures k < |s| ==> IsSpace(s[k])
    decreases |s|
  {
    if |s| == 0 || IsSpace(s[0]) then 0 else 1 + WordEnd(s[1..])
  }

  /** strings.Fields: the maximal runs of non-space characters, in order. */
  function Fields(s: string): (words: seq<string>)
    ensures forall i :: 0 <= i < |words| ==> IsWord(words[i])
    decreases |s|
  {
    if |s| == 0 then []
    else if IsSpace(s[0]) then Fields(s[1..])
    else
      var k := WordEnd(s);
      [s[..k]] + Fields(s[k..])
  }

  /** The words of each string in turn. */
  function FieldsOfAll(lines: seq<string>): seq<string> {
    if |lines| == 0 then [] else Fields(lines[0]) + FieldsOfAll(lines[1..])
  }

  lemma WordEndIs(s: string, k: nat)
    requires k <= |s|
    requires forall i :: 0 <= i < k ==> !IsSpace(s[i])
    requires k < |s| ==> IsSpace(s[k])
    ensures WordEnd(s) == k
  {
  }

  /** A word's only field is itself. */
  lemma FieldsOfWord(w: string)
    requires IsWord(w)
    ensures Fields(w) == [w]
  {
    WordEndIs(w, |w|);
    assert !IsSpace(w[0]);
    assert w[..|w|] == w;
    assert w[|w|..] == [];
  }

  /** A white-space character splits the fields of a string in two. */
  lemma {:induction false} FieldsAroundSpace(a: string, c: char, b: string)
    requires IsSpace(c)
    ensures Fields(a + [c] + b) == Fields(a) + Fields(b)
    decreases |a|
  {
    var s := a + [c] + b;
    if |a| == 0 {
      assert s[1..] == b;
    } else if IsSpace(a[0]) {
      FieldsAroundSpace(a[1..], c, b);
      assert s[1..] == a[1..] + [c] + b;
    } else {
      var j := WordEnd(a);
      if j < |a| {
        FieldsAroundSpace(a[j..], c, b);
        FieldsSplitWord(a, c, b, j);
      } else {
        FieldsLastWord(a, c, b);
      }
    }
  }

  /** The first word of a, when a space follows it inside a. */
  lemma FieldsSplitWord(a: string, c: char, b: string, j: nat)
    requires IsSpace(c)
    requires 0 < |a| && !IsSpace(a[0])
    requires j == WordEnd(a) && j < |a|
    requires Fields(a[j..] + [c] + b) == Fields(a[j..]) + Fields(b)
    ensures Fields(a + [c] + b) == Fields(a) + Fields(b)
  {
    var s := a + ([c] + b);
    Assoc(a, [c], b);
    WordEndIs(s, j);
    SliceAppend(a, [c] + b, j);
    Assoc(a[j..], [c], b);
    assert Fields(s) == [a[..j]] + Fields(a[j..] + [c] + b);
    assert Fields(a) == [a[..j]] + Fields(a[j..]);
    Assoc([a[..j]], Fields(a[j..]), Fields(b));
  }

  /** a is one word, ended by c. */
  lemma FieldsLastWord(a: string, c: char, b: string)
    requires IsSpace(c)
    requires 0 < |a| && !IsSpace(a[0])
    requires WordEnd(a) == |a|
    ensures Fields(a + [c] + b) == Fields(a) + Fields(b)
  {
    var s := a + [c] + b;
    WordEndIs(s, |a|);
    assert s[..|a|] == a;
    assert s[|a|..] == [c] + b;
    assert ([c] + b)[1..] == b;
    assert Fields(s) == [a] + Fields([c] + b);
    assert a[..|a|] == a;
    assert a[|a|..] == [];
    assert Fields(a) == [a] + Fields([]);
  }

  /** The fields of a join over a white-space separator are the fields of the
      parts, in order. */
  lemma {:induction false} FieldsOfJoin(lines: seq<string>, c: char)
    requires IsSpace(c)
    ensures Fields(Join(lines, [c])) == FieldsOfAll(lines)
    decreases |lines|
  {
    if |lines| == 1 {
      assert FieldsOfAll(lines[1..]) == [];
    } else if |lines| > 1 {
      FieldsOfJoin(lines[1..], c);
      FieldsAroundSpace(lines[0], c, Join(lines[1..], [c]));
    }
  }

  lemma {:induction false} FieldsOfAllAppend(a: seq<string>, b: seq<string>)
    ensures FieldsOfAll(a + b) == FieldsOfAll(a) + FieldsOfAll(b)
    decreases |a|
  {
    if |a| == 0 {
      assert a + b == b;
    } else {
      FieldsOfAllAppend(a[1..], b);
      AppendTail(a, b);
      calc {
        FieldsOfAll(a + b);
        Fields(a[0]) + FieldsOfAll(a[1..] + b);
        Fields(a[0]) + (FieldsOfAll(a[1..]) + FieldsOfAll(b));
      }
    }
  }

  // ---------------------------------------------------------------------
  // fmt's %d

  function DigitChar(d: nat): (c: char)
    requires d < 10
    ensures '0' <= c <= '9'
  {
    "0123456789"[d]
  }

  /** Decimal digits of n, most significant first, no leading zeros. */
  function NatToString(n: nat): (r: string)
    ensures |r| >= 1
    ensures forall i :: 0 <= i < |r| ==> '0' <= r[i] <= '9'
    decreases n
  {
    if n < 10 then [DigitChar(n)] else NatToString(n / 10) + [DigitChar(n % 10)]
  }

  function IntToString(i: int): string {
    if i < 0 then "-" + NatToString(-i) else NatToString(i)
  }
}

/** Python's `str.splitlines`, `str.strip` and `str.endswith` as far as the ledger uses them, and hex strings. */
module LineText {
  import opened Sequences

  /** The characters at which `splitlines` ends a line. */
  predicate IsBreak(c: char) {
    c == '\n' || c == '\r' || c == '\U{0B}' || c == '\U{0C}' || c == '\U{1C}' || c == '\U{1D}' || c == '\U{1E}'
    || c == '\U{85}' || c == '\U{2028}' || c == '\U{2029}'
  }

  predicate IsSpace(c: char) {
    IsBreak(c) || c == ' ' || c == '\t' || c == '\U{1F}' || c == '\U{A0}' || c == '\U{1680}'
    || '\U{2000}' <= c <= '\U{200A}' || c == '\U{202F}' || c == '\U{205F}' || c == '\U{3000}'
  }

  /** `not line.strip()`. */
  predicate Blank(line: string) {
    forall i :: 0 <= i < |line| ==> IsSpace(line[i])
  }

  /** `str.strip`. */
  function Strip(s: string): string
    decreases |s|
  {
    if s == "" then s
    else if IsSpace(s[0]) then Strip(s[1..])
    else if IsSpace(s[|s| - 1]) then Strip(s[..|s| - 1])
    else s
  }

  /** `n` lower-case hexadecimal digits. */
  predicate IsHex(s: string, n: nat) {
    |s| == n && forall i :: 0 <= i < n ==> '0' <= s[i] <= '9' || 'a' <= s[i] <= 'f'
  }

  predicate Unbroken(line: string) {
    forall i :: 0 <= i < |line| ==> !IsBreak(line[i])
  }

  /** Split `text`, where `line` is what the current line holds so far. */
  function SplitFrom(line: string, text: string): seq<string>
    decreases |text|
  {
    if text == "" then
      if line == "" then [] else [line]
    else if text[0] == '\r' && |text| > 1 && text[1] == '\n' then
      [line] + SplitFrom("", text[2..])
    else if IsBreak(text[0]) then
      [line] + SplitFrom("", text[1..])
    else
      SplitFrom(line + [text[0]], text[1..])
  }

  function SplitLines(text: string): seq<string> {
    SplitFrom("", text)
  }

  predicate EndsWithNewline(text: string) {
    text != "" && text[|text| - 1] == '\n'
  }

  /** How many characters the first step of the split takes. */
  function Taken(text: string): (k: nat)
    requires text != ""
    ensures 1 <= k <= |text|
  {
    if text[0] == '\r' && |text| > 1 && text[1] == '\n' then 2 else 1
  }

  lemma SplitStep(line: string, text: string)
    requires text != ""
    ensures SplitFrom(line, text) ==
            if IsBreak(text[0]) then [line] + SplitFrom("", text[Taken(text)..])
            else SplitFrom(line + [text[0]], text[Taken(text)..])
  {
  }

  /** A line ends where `a` ends, whatever `b` goes on with. */
  predicate Boundary(a: string, b: string) {
    a != "" && IsBreak(a[|a| - 1]) && !(a[|a| - 1] == '\r' && b != "" && b[0] == '\n')
  }

  lemma SplitStepBefore(line: string, a: string, b: string)
    requires Boundary(a, b)
    ensures SplitFrom(line, a + b) ==
            if IsBreak(a[0]) then [line] + SplitFrom("", a[Taken(a)..] + b)
            else SplitFrom(line + [a[0]], a[Taken(a)..] + b)
  {
    assert (a + b)[0] == a[0] && Taken(a + b) == Taken(a);
    assert (a + b)[Taken(a)..] == a[Taken(a)..] + b;
    SplitStep(line, a + b);
  }

  /** The boundary stays where it is while characters in front of it are taken. */
  lemma BoundaryTail(a: string, b: string)
    requires Boundary(a, b)
    ensures if a[Taken(a)..] == "" then IsBreak(a[0]) else Boundary(a[Taken(a)..], b)
  {
  }

  lemma {:induction false} SplitFromAtBoundary(line: string, a: string, b: string)
    requires Boundary(a, b)
    ensures SplitFrom(line, a + b) == SplitFrom(line, a) + SplitFrom("", b)
    decreases |a|
  {
    SplitStepBefore(line, a, b);
    SplitStep(line, a);
    BoundaryTail(a, b);
    var tail := a[Taken(a)..];
    if tail == "" {
      assert tail + b == b;
    } else if IsBreak(a[0]) {
      SplitFromAtBoundary("", tail, b);
      Associative([line], SplitFrom("", tail), SplitFrom("", b));
    } else {
      SplitFromAtBoundary(line + [a[0]], tail, b);
    }
  }

  /** Text after a line boundary is split on its own. */
  lemma SplitAtBoundary(a: string, b: string)
    requires a == "" || Boundary(a, b)
    ensures SplitLines(a + b) == SplitLines(a) + SplitLines(b)
  {
    if a == "" {
      assert a + b == b;
    } else {
      SplitFromAtBoundary("", a, b);
    }
  }

  lemma {:induction false} SplitFromUnbroken(line: string, a: string, rest: string)
    requires Unbroken(a)
    ensures SplitFrom(line, a + rest) == SplitFrom(line + a, rest)
    decreases |a|
  {
    if a == "" {
      assert a + rest == rest && line + a == line;
    } else {
      assert (a + rest)[1..] == a[1..] + rest;
      SplitFromUnbroken(line + [a[0]], a[1..], rest);
      assert line + [a[0]] + a[1..] == line + a;
    }
  }

  /** One unbroken line, with or without its newline. */
  lemma SplitOneLine(line: string)
    requires Unbroken(line)
    ensures SplitLines(line + "\n") == [line]
    ensures SplitLines(line) == if line == "" then [] else [line]
  {
    SplitFromUnbroken("", line, "\n");
    SplitFromUnbroken("", line, "");
    assert line + "" == line && "" + line == line;
    assert "\n"[1..] == "";
  }

  /** A line that breaks at `n` starts with what stands before the break. */
  lemma SplitBrokenLine(line: string, n: nat)
    requires n < |line| && Unbroken(line[..n]) && IsBreak(line[n])
    ensures SplitLines(line) != [] && SplitLines(line)[0] == line[..n]
  {
    assert line[..n] + line[n..] == line;
    SplitFromUnbroken("", line[..n], line[n..]);
    assert "" + line[..n] == line[..n];
    SplitStep(line[..n], line[n..]);
  }

  /** The part of `text` after its last line boundary. */
  function Tail(text: string): (t: string)
    ensures |t| <= |text| && text[|text| - |t|..] == t && Unbroken(t)
    ensures |t| < |text| ==> IsBreak(text[|text| - |t| - 1])
  {
    if text == "" || IsBreak(text[|text| - 1]) then
      ""
    else
      var t := Tail(text[..|text| - 1]);
      t + [text[|text| - 1]]
  }

  lemma {:induction false} FirstBreak(line: string) returns (n: nat)
    requires !Unbroken(line)
    ensures n < |line| && Unbroken(line[..n]) && IsBreak(line[n])
    decreases |line|
  {
    if Unbroken(line[..|line| - 1]) {
      n := |line| - 1;
    } else {
      n := FirstBreak(line[..|line| - 1]);
      assert line[..|line| - 1][..n] == line[..n];
    }
  }
}

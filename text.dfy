/** The part of Python's string handling the coordinate reader relies on:
    `str.split()` without arguments and `str.strip()` used as a truth value. */
module Text {
  import opened Wrappers

  /** The characters Python's `str.split()` and `str.strip()` treat as whitespace. */
  predicate IsSpace(c: char) {
    c == ' ' || c == '\t' || c == '\n' || c == '\r' || c == '\U{000B}' || c == '\U{000C}' ||
    ('\U{001C}' <= c <= '\U{001F}') || c == '\U{0085}' || c == '\U{00A0}' || c == '\U{1680}' ||
    ('\U{2000}' <= c <= '\U{200A}') || c == '\U{2028}' || c == '\U{2029}' || c == '\U{202F}' ||
    c == '\U{205F}' || c == '\U{3000}'
  }

  /** Every character of `s` is whitespace, so `s.strip()` is the empty, false string. */
  predicate IsBlank(s: string) {
    forall i :: 0 <= i < |s| ==> IsSpace(s[i])
  }

  /** No character of `s` is whitespace. */
  predicate IsWord(s: string) {
    s != [] && forall i :: 0 <= i < |s| ==> !IsSpace(s[i])
  }

  /** Length of the run of non-whitespace characters that starts `s`. */
  function WordLength(s: string): (n: nat)
    ensures n <= |s|
    ensures forall i :: 0 <= i < n ==> !IsSpace(s[i])
    ensures n < |s| ==> IsSpace(s[n])
  {
    if s == [] || IsSpace(s[0]) then 0 else 1 + WordLength(s[1..])
  }

  /** `s.split()`: the maximal runs of non-whitespace characters, left to right. */
  function Split(s: string): (columns: seq<string>)
    ensures forall c :: c in columns ==> IsWord(c)
    decreases |s|
  {
    if s == [] then []
    else if IsSpace(s[0]) then Split(s[1..])
    else
      var n := WordLength(s);
      [s[..n]] + Split(s[n..])
  }

  /** The first whitespace-separated column of a line, if the line has one. */
  function FirstToken(line: string): Option<string>
  {
    var columns := Split(line);
    if columns == [] then None else Some(columns[0])
  }

  /** A line splits into no columns exactly when it is blank. */
  lemma {:induction false} SplitEmptyIffBlank(s: string)
    ensures Split(s) == [] <==> IsBlank(s)
    decreases |s|
  {
    if s != [] && IsSpace(s[0]) {
      SplitEmptyIffBlank(s[1..]);
      if IsBlank(s[1..]) {
        forall i | 0 <= i < |s| ensures IsSpace(s[i]) {
          if i > 0 { assert s[i] == s[1..][i - 1]; }
        }
      }
    }
  }

  /** `w` sits at position `i` of `line`, with only whitespace before it and
      whitespace or the end of the line after it. */
  predicate LeadingWordAt(line: string, w: string, i: nat) {
    i + |w| <= |line| && IsBlank(line[..i]) && line[i..i + |w|] == w &&
    (i + |w| == |line| || IsSpace(line[i + |w|]))
  }

  lemma FirstTokenSkipsSpace(line: string)
    requires line != [] && IsSpace(line[0])
    ensures FirstToken(line) == FirstToken(line[1..])
  {
  }

  lemma FirstTokenTakesWord(line: string)
    requires line != [] && !IsSpace(line[0])
    ensures FirstToken(line) == Some(line[..WordLength(line)])
  {
  }

  lemma LeadingWordShift(line: string, w: string, i: nat)
    requires line != [] && IsSpace(line[0]) && LeadingWordAt(line[1..], w, i)
    ensures LeadingWordAt(line, w, i + 1)
  {
    var rest := line[1..];
    assert line[..i + 1] == [line[0]] + rest[..i];
    assert line[i + 1..i + 1 + |w|] == rest[i..i + |w|];
  }

  /** The first column of a line is the first maximal run of non-whitespace
      characters: only whitespace precedes it, and whitespace or the end of the
      line follows it. A blank line has no first column. */
  lemma {:induction false} FirstTokenIsLeadingWord(line: string)
    ensures FirstToken(line).None? <==> IsBlank(line)
    ensures FirstToken(line).Some? ==>
      IsWord(FirstToken(line).value) && exists i: nat :: LeadingWordAt(line, FirstToken(line).value, i)
    decreases |line|
  {
    SplitEmptyIffBlank(line);
    if line != [] {
      if IsSpace(line[0]) {
        FirstTokenSkipsSpace(line);
        FirstTokenIsLeadingWord(line[1..]);
        if FirstToken(line[1..]).Some? {
          var i: nat :| LeadingWordAt(line[1..], FirstToken(line).value, i);
          LeadingWordShift(line, FirstToken(line).value, i);
        }
      } else {
        FirstTokenTakesWord(line);
        var n := WordLength(line);
        assert line[..0] == [];
        assert line[0..n] == line[..n];
        assert LeadingWordAt(line, line[..n], 0);
      }
    }
  }
}

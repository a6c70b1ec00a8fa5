/** `read_elements`: the distinct chemical symbols of an XYZ coordinate file, taken
    from the first column of every line after the two header lines, in the order in
    which they first appear. The file is given as the sequence of its lines. */
module Elements {
  import opened Wrappers
  import opened Sequences
  import opened Text

  /** `next(file)` found no line where a header line was expected. */
  datatype ReadError = MissingHeaderLine

  /** The first column of `line` as a zero- or one-element sequence. */
  function TokenOf(line: string): seq<string>
  {
    match FirstToken(line)
    case None => []
    case Some(symbol) => [symbol]
  }

  /** The first columns of the non-blank lines of `body`, in line order. */
  function FirstTokens(body: seq<string>): seq<string>
  {
    if body == [] then [] else FirstTokens(body[..|body| - 1]) + TokenOf(body[|body| - 1])
  }

  /** The element list `read_elements` returns for the lines after the header. */
  function ElementsOf(body: seq<string>): seq<string>
  {
    Dedup(FirstTokens(body))
  }

  /** `read_elements` over the lines of the coordinate file. The two `next(file)`
      calls raise when the file has fewer than two lines. */
  method ReadElements(lines: seq<string>) returns (r: Result<seq<string>, ReadError>)
    ensures r.Failure? <==> |lines| < 2
    ensures r.Success? ==> r.value == ElementsOf(lines[2..])
  {
    if |lines| < 2 {
      return Failure(MissingHeaderLine);
    }
    var elements: seq<string> := [];
    var k := 2;
    while k < |lines|
      invariant 2 <= k <= |lines|
      invariant elements == ElementsOf(lines[2..k])
    {
      elements := ScanLine(lines[2..k], lines[k], elements);
      SliceSnoc(lines, 2, k);
      k := k + 1;
    }
    assert lines[2..k] == lines[2..];
    return Success(elements);
  }

  /** The body of the line loop of `read_elements`: the first non-blank column of
      `line` is appended when it is not listed yet. */
  method ScanLine(ghost body: seq<string>, line: string, elements: seq<string>) returns (next: seq<string>)
    requires elements == ElementsOf(body)
    ensures next == ElementsOf(body + [line])
  {
    var columns := Split(line);
    var firstCol := FirstNonBlankColumn(columns);
    FirstColumnIsFirstToken(line, firstCol);
    next := elements;
    if firstCol.Some? && firstCol.value != "" && firstCol.value !in elements {
      next := elements + [firstCol.value];
    }
    ReadStep(body, line, firstCol, elements, next);
  }

  /** The inner loop of `read_elements`: the first column whose `strip()` is
      non-empty, or nothing when every column is blank. */
  method FirstNonBlankColumn(columns: seq<string>) returns (firstCol: Option<string>)
    ensures firstCol.None? ==> forall i :: 0 <= i < |columns| ==> IsBlank(columns[i])
    ensures firstCol.Some? ==> exists j :: 0 <= j < |columns| && firstCol.value == columns[j] &&
                                 !IsBlank(columns[j]) && forall i :: 0 <= i < j ==> IsBlank(columns[i])
  {
    firstCol := None;
    var j := 0;
    while j < |columns|
      invariant 0 <= j <= |columns|
      invariant firstCol == None
      invariant forall i :: 0 <= i < j ==> IsBlank(columns[i])
    {
      if !IsBlank(columns[j]) {
        firstCol := Some(columns[j]);
        return;
      }
      j := j + 1;
    }
  }

  /** Since every column produced by `split()` is non-blank, the search stops at
      the first column, which is the first token; a blank line has no column. */
  lemma FirstColumnIsFirstToken(line: string, firstCol: Option<string>)
    requires firstCol.None? ==> forall i :: 0 <= i < |Split(line)| ==> IsBlank(Split(line)[i])
    requires firstCol.Some? ==> exists j :: 0 <= j < |Split(line)| && firstCol.value == Split(line)[j] &&
                                  forall i :: 0 <= i < j ==> IsBlank(Split(line)[i])
    ensures firstCol == FirstToken(line)
  {
    var columns := Split(line);
    if columns != [] {
      assert columns[0] in columns;
      assert !IsSpace(columns[0][0]);
    }
  }

  /** The update `read_elements` makes for one line keeps the list equal to the
      element list of the lines read so far. */
  lemma ReadStep(body: seq<string>, line: string, firstCol: Option<string>,
                 before: seq<string>, after: seq<string>)
    requires before == ElementsOf(body) && firstCol == FirstToken(line)
    requires after == if firstCol.Some? && firstCol.value != "" && firstCol.value !in before
                      then before + [firstCol.value] else before
    ensures after == ElementsOf(body + [line])
  {
    if firstCol.Some? {
      assert firstCol.value in Split(line);
    }
    ElementsSnoc(body, line);
  }

  /** One loop step: a line whose first column is new appends it; any other line
      leaves the list as it is. */
  lemma ElementsSnoc(body: seq<string>, line: string)
    ensures ElementsOf(body + [line]) ==
      match FirstToken(line)
      case None => ElementsOf(body)
      case Some(x) => if x in ElementsOf(body) then ElementsOf(body) else ElementsOf(body) + [x]
  {
    assert (body + [line])[..|body|] == body;
    assert FirstTokens(body + [line]) == FirstTokens(body) + TokenOf(line);
    if FirstToken(line).None? {
      assert FirstTokens(body + [line]) == FirstTokens(body);
    } else {
      DedupSnoc(FirstTokens(body), FirstToken(line).value);
    }
  }

  lemma {:induction false} FirstTokensAppend(a: seq<string>, b: seq<string>)
    ensures FirstTokens(a + b) == FirstTokens(a) + FirstTokens(b)
    decreases |b|
  {
    if b != [] {
      var init := b[..|b| - 1];
      assert (a + b)[..|a + b| - 1] == a + init;
      FirstTokensAppend(a, init);
    } else {
      assert a + b == a;
    }
  }

  lemma {:induction false} FirstTokensMembers(body: seq<string>, x: string)
    ensures x in FirstTokens(body) <==> exists k :: 0 <= k < |body| && FirstToken(body[k]) == Some(x)
  {
    if body != [] {
      var init, last := body[..|body| - 1], body[|body| - 1];
      assert FirstTokens(body) == FirstTokens(init) + TokenOf(last);
      assert x in TokenOf(last) <==> FirstToken(last) == Some(x);
      FirstTokensMembers(init, x);
      if x in FirstTokens(init) {
        var k :| 0 <= k < |init| && FirstToken(init[k]) == Some(x);
        assert body[k] == init[k];
      }
      if exists k :: 0 <= k < |body| && FirstToken(body[k]) == Some(x) {
        var k :| 0 <= k < |body| && FirstToken(body[k]) == Some(x);
        if k < |init| { assert init[k] == body[k]; }
      }
    }
  }

  /** A symbol is in the list exactly when it is the first column of some line
      after the header. */
  lemma ElementsMembers(body: seq<string>, x: string)
    ensures x in ElementsOf(body) <==> exists k :: 0 <= k < |body| && FirstToken(body[k]) == Some(x)
  {
    DedupMembers(FirstTokens(body), x);
    FirstTokensMembers(body, x);
  }

  /** Every non-blank line after the header contributes its first column. */
  lemma ElementsCoverEveryLine(body: seq<string>, k: nat)
    requires k < |body| && !IsBlank(body[k])
    ensures FirstToken(body[k]).Some? && FirstToken(body[k]).value in ElementsOf(body)
  {
    FirstTokenIsLeadingWord(body[k]);
    ElementsMembers(body, FirstToken(body[k]).value);
  }

  /** Every listed symbol is a non-empty run of non-whitespace characters. */
  lemma ElementsAreWords(body: seq<string>, x: string)
    requires x in ElementsOf(body)
    ensures IsWord(x)
  {
    ElementsMembers(body, x);
    var k :| 0 <= k < |body| && FirstToken(body[k]) == Some(x);
    assert x in Split(body[k]);
  }

  /** No symbol is listed twice. */
  lemma ElementsNoDuplicates(body: seq<string>)
    ensures NoDuplicates(ElementsOf(body))
  {
    DedupNoDuplicates(FirstTokens(body));
  }

  /** First-seen order: a symbol listed before another occurs as a first column
      on an earlier line than every line that starts with the later one. */
  lemma {:induction false} ElementsFirstSeenOrder(body: seq<string>, i: nat, j: nat, k: nat)
    requires i < j < |ElementsOf(body)|
    requires k < |body| && FirstToken(body[k]) == Some(ElementsOf(body)[j])
    ensures exists k' :: 0 <= k' < k && FirstToken(body[k']) == Some(ElementsOf(body)[i])
  {
    var init, last := body[..|body| - 1], body[|body| - 1];
    assert body == init + [last];
    ElementsSnoc(init, last);
    var prev := ElementsOf(init);
    var r := ElementsOf(body);
    if j < |prev| {
      assert r[i] == prev[i] && r[j] == prev[j];
      if k < |init| {
        assert init[k] == body[k];
        ElementsFirstSeenOrder(init, i, j, k);
        var k' :| 0 <= k' < k && FirstToken(init[k']) == Some(prev[i]);
        assert body[k'] == init[k'];
      } else {
        ElementsMembers(init, prev[j]);
        var k2 :| 0 <= k2 < |init| && FirstToken(init[k2]) == Some(prev[j]);
        ElementsFirstSeenOrder(init, i, j, k2);
        var k' :| 0 <= k' < k2 && FirstToken(init[k']) == Some(prev[i]);
        assert body[k'] == init[k'];
      }
    } else {
      assert r == prev + [r[j]] && r[j] !in prev;
      forall m | 0 <= m < |init| ensures FirstToken(body[m]) != Some(r[j]) {
        assert body[m] == init[m];
        ElementsMembers(init, r[j]);
      }
      ElementsMembers(init, prev[i]);
      var k' :| 0 <= k' < |init| && FirstToken(init[k']) == Some(prev[i]);
      assert body[k'] == init[k'];
    }
  }

  /** A blank or whitespace-only line anywhere after the header changes nothing. */
  lemma BlankLineIgnored(before: seq<string>, line: string, after: seq<string>)
    requires IsBlank(line)
    ensures ElementsOf(before + [line] + after) == ElementsOf(before + after)
  {
    SplitEmptyIffBlank(line);
    assert TokenOf(line) == [];
    assert (before + [line])[..|before|] == before;
    assert FirstTokens(before + [line]) == FirstTokens(before);
    FirstTokensAppend(before + [line], after);
    FirstTokensAppend(before, after);
  }
}

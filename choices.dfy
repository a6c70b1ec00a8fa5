/** `user_choices`: three prompts that repeat until the answer is one they accept.
    The answers typed at the terminal are given as a sequence; reaching its end is
    the `EOFError` that `input()` raises when standard input is closed. */
module Choices {
  import opened Wrappers
  import opened VmdScript

  datatype Question = BackgroundQuestion | StyleQuestion | MovieQuestion

  /** The answers each prompt loop leaves its loop on. */
  predicate Accepts(q: Question, answer: string)
  {
    match q
    case BackgroundQuestion => answer == "1" || answer == "2" || answer == ""
    case StyleQuestion => answer == "1" || answer == "" || answer == "2" || answer == "3"
    case MovieQuestion => answer == "yes" || answer == "y" || answer == "no" || answer == "n" || answer == ""
  }

  /** Position of the first answer the prompt accepts, if any. */
  function FirstAccepted(q: Question, answers: seq<string>): (k: Option<nat>)
    ensures k.Some? ==> k.value < |answers| && Accepts(q, answers[k.value]) &&
                        forall i :: 0 <= i < k.value ==> !Accepts(q, answers[i])
    ensures k.None? ==> forall i :: 0 <= i < |answers| ==> !Accepts(q, answers[i])
  {
    if answers == [] then None
    else if Accepts(q, answers[0]) then Some(0)
    else
      match FirstAccepted(q, answers[1..])
      case None => None
      case Some(k) => Some(k + 1)
  }

  /** One `while True` prompt loop: reads answers until one is accepted. Returns that
      answer and the number of answers read, or nothing when the input runs out. */
  method Ask(q: Question, answers: seq<string>) returns (answer: Option<string>, consumed: nat)
    ensures consumed <= |answers|
    ensures answer.None? ==> consumed == |answers| && forall i :: 0 <= i < |answers| ==> !Accepts(q, answers[i])
    ensures answer.Some? ==> 1 <= consumed && answer.value == answers[consumed - 1] && Accepts(q, answer.value)
    ensures answer.Some? ==> forall i :: 0 <= i < consumed - 1 ==> !Accepts(q, answers[i])
    ensures answer.None? <==> FirstAccepted(q, answers).None?
    ensures answer.Some? ==> FirstAccepted(q, answers) == Some(consumed - 1)
  {
    consumed := 0;
    while consumed < |answers|
      invariant consumed <= |answers|
      invariant forall i :: 0 <= i < consumed ==> !Accepts(q, answers[i])
    {
      var a := answers[consumed];
      consumed := consumed + 1;
      if Accepts(q, a) {
        return Some(a), consumed;
      }
    }
    return None, consumed;
  }

  datatype Selection = Selection(background: string, style: string, movie: string)

  /** The selection the three prompts settle on: the first accepted background
      answer, then the first accepted style answer after it, then the first accepted
      movie answer after that; nothing when the input ends before. */
  function Selected(answers: seq<string>): Option<Selection>
  {
    match FirstAccepted(BackgroundQuestion, answers)
    case None => None
    case Some(i) => SelectedAfterBackground(answers[i], answers[i + 1..])
  }

  /** The rest of the selection once the background answer is settled. */
  function SelectedAfterBackground(background: string, rest: seq<string>): Option<Selection>
  {
    match FirstAccepted(StyleQuestion, rest)
    case None => None
    case Some(j) => SelectedAfterStyle(background, rest[j], rest[j + 1..])
  }

  /** The rest of the selection once the style answer is settled. */
  function SelectedAfterStyle(background: string, style: string, rest: seq<string>): Option<Selection>
  {
    match FirstAccepted(MovieQuestion, rest)
    case None => None
    case Some(k) => Some(Selection(background, style, rest[k]))
  }

  /** `user_choices`: the background, style and movie prompts in turn, each reading
      on from where the previous one stopped. */
  method UserChoices(answers: seq<string>) returns (r: Option<Selection>)
    ensures r == Selected(answers)
  {
    var background, used1 := Ask(BackgroundQuestion, answers);
    if background.None? {
      return None;
    }
    var rest1 := answers[used1..];
    var style, used2 := Ask(StyleQuestion, rest1);
    if style.None? {
      return None;
    }
    var rest2 := rest1[used2..];
    var movie, used3 := Ask(MovieQuestion, rest2);
    if movie.None? {
      return None;
    }
    return Some(Selection(background.value, style.value, movie.value));
  }

  /** A selection holds an accepted answer for each prompt, each typed at the
      terminal, in the order background, style, movie; without an accepted
      background answer there is none. */
  lemma SelectedAnswers(answers: seq<string>)
    ensures Selected(answers).Some? ==> exists i, j, k ::
      0 <= i < j < k < |answers| &&
      answers[i] == Selected(answers).value.background && Accepts(BackgroundQuestion, answers[i]) &&
      answers[j] == Selected(answers).value.style && Accepts(StyleQuestion, answers[j]) &&
      answers[k] == Selected(answers).value.movie && Accepts(MovieQuestion, answers[k])
    ensures (forall i :: 0 <= i < |answers| ==> !Accepts(BackgroundQuestion, answers[i])) ==>
      Selected(answers).None?
  {
    if Selected(answers).Some? {
      var i := FirstAccepted(BackgroundQuestion, answers).value;
      var rest1 := answers[i + 1..];
      var j := FirstAccepted(StyleQuestion, rest1).value;
      var rest2 := rest1[j + 1..];
      var k := FirstAccepted(MovieQuestion, rest2).value;
      assert Selected(answers).value == Selection(answers[i], rest1[j], rest2[k]);
      assert rest1[j] == answers[i + 1 + j];
      assert rest2[k] == answers[i + 1 + j + 1 + k];
    }
  }

  /** The background answers the prompt accepts are exactly the codes for which the
      script gets a background line. */
  lemma AcceptedBackgroundHasLine(code: string)
    ensures Accepts(BackgroundQuestion, code) <==> BackgroundColorFor(code).Some?
  {
  }

  /** The style answers the prompt accepts are exactly the codes for which the
      script gets a style line. */
  lemma AcceptedStyleHasLine(code: string)
    ensures Accepts(StyleQuestion, code) <==> StyleFor(code).Some?
  {
  }

  /** An accepted selection yields the base block, one background line, one style
      line and, only for 'yes' or 'y', the movie commands. */
  lemma SelectionScript(animationScript: string, moleculeFile: string, orbitalFile: string, s: Selection)
    requires Accepts(BackgroundQuestion, s.background) && Accepts(StyleQuestion, s.style) &&
             Accepts(MovieQuestion, s.movie)
    ensures var frags := ScriptFragments(animationScript, moleculeFile, orbitalFile, s.background, s.style, s.movie);
      |frags| == (if MakesMovie(s.movie) then 4 else 3) &&
      frags[1].BackgroundColor? && frags[2].MoleculeStyle?
  {
  }
}

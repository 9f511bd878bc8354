/**
 * The "read the full hour" quiz (`GameClock`): question generation, answer
 * handling with feedback gating, streaks and the completion threshold.
 *
 * `Math.random()` becomes a `roll` parameter in [0, 1) or a nondeterministic
 * choice; the two `setTimeout` callbacks become explicit events. Progress
 * updates are returned as a list of calls to the progress provider.
 */
module Quiz {
  import opened Basics
  import opened Decimal

  /** Level id recorded in the progress when the quiz is completed. */
  const LevelId: string := "clock_full_hours"
  /** Correct answers needed to complete the level. */
  const RequiredCorrect: int := 5
  /** Number of answer options offered (the default of `generateAnswerOptions`). */
  const OptionCount: int := 4

  const SuccessMessages: seq<string> := [
    "Super gemacht! \U{1F389}",
    "Richtig! Toll! \U{1F31F}",
    "Genau! Weiter so! \U{1F4AA}",
    "Prima! Das war richtig! \U{1F44F}",
    "Fantastisch! \U{1F38A}"]

  const ErrorMessage: string := "Hmm, das stimmt nicht ganz. Versuche es nochmal! \U{1F914}"

  /** `generateRandomHour`: `floor(roll * 12) + 1` for a roll in [0, 1). */
  function RandomHour(roll: real): (h: int)
    requires 0.0 <= roll < 1.0
    ensures 1 <= h <= 12
    ensures (h - 1) as real <= roll * 12.0 < h as real
  {
    (roll * 12.0).Floor + 1
  }

  /** `successMessages[floor(roll * 5)]` */
  function PickMessage(roll: real): (m: string)
    requires 0.0 <= roll < 1.0
    ensures m in SuccessMessages
  {
    var i := (roll * 5.0).Floor;
    assert 0 <= i < 5;
    SuccessMessages[i]
  }

  /** A set of answer options as the quiz uses them: distinct hours 1..12, including the right one. */
  predicate ValidQuestion(hour: int, options: seq<int>)
  {
    && 1 <= hour <= 12
    && hour in options
    && Distinct(options)
    && (forall i :: 0 <= i < |options| ==> 1 <= options[i] <= 12)
  }

  /**
   * `generateAnswerOptions(correctHour, count)`: a set seeded with the correct
   * hour grows by random hours until it has `count` elements, then is
   * shuffled. A random hour already in the set leaves it unchanged, so only
   * the draws that add a new hour are modelled, by nondeterministic choice.
   * The loop only ends when `count` distinct hours exist, hence `count <= 12`.
   */
  method GenerateAnswerOptions(correctHour: int, count: int) returns (options: seq<int>)
    requires 1 <= correctHour <= 12
    requires count <= 12
    ensures ValidQuestion(correctHour, options)
    ensures |options| == if count < 1 then 1 else count
  {
    var collected := [correctHour];
    while |collected| < count
      invariant 1 <= |collected| <= (if count < 1 then 1 else count)
      invariant ValidQuestion(correctHour, collected)
      decreases count - |collected|
    {
      MissingHourExists(collected);
      var h :| 1 <= h <= 12 && h !in collected;
      AppendFresh(collected, h);
      collected := collected + [h];
    }
    options := Shuffle(collected);
    PermutationDistinct(collected, options);
    forall i | 0 <= i < |options|
      ensures 1 <= options[i] <= 12
    {
      assert options[i] in multiset(collected);
    }
    assert correctHour in multiset(options);
    assert |options| == |multiset(options)| == |multiset(collected)| == |collected|;
  }

  /** Fewer than 12 distinct hours leave an hour out. */
  lemma MissingHourExists(s: seq<int>)
    requires Distinct(s) && |s| < 12
    ensures exists h :: 1 <= h <= 12 && h !in s
  {
    var hours := Range(1, 13);
    ElementsCardinality(s);
    DifferenceCardinality(hours, Elements(s));
    var h :| h in hours - Elements(s);
    assert h !in s;
  }

  /** `sort(() => Math.random() - 0.5)`: some permutation, chosen nondeterministically. */
  method Shuffle(s: seq<int>) returns (r: seq<int>)
    ensures multiset(r) == multiset(s)
  {
    var rest := s;
    r := [];
    while |rest| > 0
      invariant multiset(r) + multiset(rest) == multiset(s)
      decreases |rest|
    {
      var i :| 0 <= i < |rest|;
      assert rest == rest[..i] + [rest[i]] + rest[i + 1..];
      r := r + [rest[i]];
      rest := rest[..i] + rest[i + 1..];
    }
  }

  /** `formatTime`: the hour padded to two digits with zeros, then ":00". */
  function FormatTime(hour: int): string
  {
    PadStart(IntToString(hour), 2, '0') + ":00"
  }

  /** A clock text "hh:00" whose two digits read as the hour. */
  predicate ShowsHour(t: string, hour: int)
  {
    && |t| == 5
    && IsDigit(t[0]) && IsDigit(t[1])
    && DigitValue(t[0]) * 10 + DigitValue(t[1]) == hour
    && t[2..] == ":00"
  }

  /** Every hour below 100 is shown as two digits, zero-padded, followed by ":00". */
  lemma FormatTimeShowsHour(hour: int)
    requires 0 <= hour < 100
    ensures ShowsHour(FormatTime(hour), hour)
  {
    var d := NatToString(hour);
    if hour < 10 {
      var p := PadStart(d, 2, '0');
      assert |d| == 1 && |p| == 2 && p[1..] == d && p[0] == '0';
      assert p == ['0', DigitChar(hour)];
      assert FormatTime(hour) == p + ":00";
    } else {
      var q := NatToString(hour / 10);
      assert |q| == 1;
      assert q == [DigitChar(hour / 10)];
      assert d == [DigitChar(hour / 10), DigitChar(hour % 10)];
      assert PadStart(d, 2, '0') == d;
      assert FormatTime(hour) == d + ":00";
    }
  }

  lemma FormatTimeExamples()
    ensures FormatTime(9) == "09:00"
    ensures FormatTime(12) == "12:00"
  {
    var nine := NatToString(9);
    assert nine == "9";
    var p := PadStart(nine, 2, '0');
    assert |p| == 2 && p[1..] == "9" && p[0] == '0';
    assert p == "09";
    var twelve := NatToString(12);
    assert twelve == NatToString(1) + [DigitChar(2)];
    assert twelve == "12";
    assert PadStart(twelve, 2, '0') == "12";
  }

  datatype Feedback = NoFeedback | Success(message: string) | Error(message: string)

  /** The quiz screen's state. */
  datatype Game = Game(
    currentHour: int,
    options: seq<int>,
    feedback: Feedback,
    correctCount: int,
    isComplete: bool,
    streak: int)

  /** A call into the progress provider. */
  datatype ProgressCall = IncrementCorrectAnswers | MarkLevelCompleted(levelId: string)

  datatype Outcome = Outcome(game: Game, calls: seq<ProgressCall>)

  /** The screen as first shown, for a generated question. */
  function NewGame(hour: int, options: seq<int>): (g: Game)
    ensures g.feedback == NoFeedback && g.correctCount == 0 && g.streak == 0 && !g.isComplete
  {
    Game(hour, options, NoFeedback, 0, false, 0)
  }

  /**
   * `handleAnswer(selectedHour)`. `alreadyCompleted` is whether the progress
   * held the level as completed when the screen was rendered, `roll` the
   * random number picking the praise.
   */
  function HandleAnswer(g: Game, selected: int, alreadyCompleted: bool, roll: real): (o: Outcome)
    requires 0.0 <= roll < 1.0
    // An answer while feedback is showing changes nothing.
    ensures !g.feedback.NoFeedback? ==> o == Outcome(g, [])
    // Whatever the answer, the question stays.
    ensures o.game.currentHour == g.currentHour && o.game.options == g.options
    // A correct answer counts once, extends the streak and reports exactly one increment, first.
    ensures g.feedback.NoFeedback? && selected == g.currentHour ==>
      && o.game.correctCount == g.correctCount + 1
      && o.game.streak == g.streak + 1
      && o.game.feedback.Success?
      && |o.calls| >= 1 && o.calls[0] == IncrementCorrectAnswers
      && IncrementCorrectAnswers !in o.calls[1..]
      && (MarkLevelCompleted(LevelId) in o.calls <==> g.correctCount + 1 >= RequiredCorrect && !alreadyCompleted)
      && (o.game.isComplete <==> g.isComplete || (g.correctCount + 1 >= RequiredCorrect && !alreadyCompleted))
    // A wrong answer breaks the streak and keeps the count.
    ensures g.feedback.NoFeedback? && selected != g.currentHour ==>
      && o.game == g.(streak := 0, feedback := Error(ErrorMessage))
      && o.calls == []
  {
    if !g.feedback.NoFeedback? then Outcome(g, [])
    else if selected == g.currentHour then
      var newCount := g.correctCount + 1;
      var completes := newCount >= RequiredCorrect && !alreadyCompleted;
      Outcome(
        g.(correctCount := newCount, streak := g.streak + 1, feedback := Success(PickMessage(roll)),
           isComplete := g.isComplete || completes),
        [IncrementCorrectAnswers] + (if completes then [MarkLevelCompleted(LevelId)] else []))
    else
      Outcome(g.(streak := 0, feedback := Error(ErrorMessage)), [])
  }

  /** `generateNewQuestion`: a new question and no feedback; counters stay. */
  function NewQuestion(g: Game, hour: int, options: seq<int>): (g': Game)
    ensures g'.currentHour == hour && g'.options == options && g'.feedback == NoFeedback
    ensures g'.correctCount == g.correctCount && g'.streak == g.streak && g'.isComplete == g.isComplete
  {
    g.(currentHour := hour, options := options, feedback := NoFeedback)
  }

  /** `handlePlayAgain`: counters and completion reset, then a new question. */
  function PlayAgain(g: Game, hour: int, options: seq<int>): (g': Game)
    ensures g' == NewGame(hour, options)
  {
    NewQuestion(g.(correctCount := 0, streak := 0, isComplete := false), hour, options)
  }

  datatype Event =
    | Answer(selected: int, roll: real)                   // an option button
    | FeedbackTimeout                                     // 2 s after a wrong answer
    | QuestionTimeout(hour: int, options: seq<int>)       // 1.5 s after a right answer
    | PlayAgainPressed(hour: int, options: seq<int>)

  /** Events the environment can produce: rolls in [0, 1) and generated questions. */
  predicate ValidEvent(e: Event)
  {
    match e
    case Answer(_, roll) => 0.0 <= roll < 1.0
    case FeedbackTimeout => true
    case QuestionTimeout(h, opts) => ValidQuestion(h, opts) && |opts| == OptionCount
    case PlayAgainPressed(h, opts) => ValidQuestion(h, opts) && |opts| == OptionCount
  }

  function Next(g: Game, e: Event, alreadyCompleted: bool): Outcome
    requires ValidEvent(e)
  {
    match e
    case Answer(selected, roll) => HandleAnswer(g, selected, alreadyCompleted, roll)
    case FeedbackTimeout => Outcome(g.(feedback := NoFeedback), [])
    case QuestionTimeout(h, opts) => Outcome(NewQuestion(g, h, opts), [])
    case PlayAgainPressed(h, opts) => Outcome(PlayAgain(g, h, opts), [])
  }

  /**
   * What every reachable screen satisfies: a well-formed question of four
   * options, a streak no longer than the correct count, and completion only
   * after the required number of correct answers.
   */
  predicate GameInvariant(g: Game)
  {
    && ValidQuestion(g.currentHour, g.options)
    && |g.options| == OptionCount
    && 0 <= g.streak <= g.correctCount
    && (g.isComplete ==> g.correctCount >= RequiredCorrect)
  }

  lemma NewGameInvariant(hour: int, options: seq<int>)
    requires ValidQuestion(hour, options) && |options| == OptionCount
    ensures GameInvariant(NewGame(hour, options))
  {
  }

  lemma NextPreservesInvariant(g: Game, e: Event, alreadyCompleted: bool)
    requires GameInvariant(g) && ValidEvent(e)
    ensures GameInvariant(Next(g, e, alreadyCompleted).game)
  {
  }

  /** Runs of events, with the calls they make, for a fixed `alreadyCompleted`. */
  function Run(g: Game, events: seq<Event>, alreadyCompleted: bool): Outcome
    requires forall i :: 0 <= i < |events| ==> ValidEvent(events[i])
    decreases |events|
  {
    if |events| == 0 then Outcome(g, [])
    else
      var first := Next(g, events[0], alreadyCompleted);
      var rest := Run(first.game, events[1..], alreadyCompleted);
      Outcome(rest.game, first.calls + rest.calls)
  }

  function CountOf(calls: seq<ProgressCall>, c: ProgressCall): nat
  {
    if |calls| == 0 then 0 else (if calls[0] == c then 1 else 0) + CountOf(calls[1..], c)
  }

  lemma {:induction false} CountOfAppend(a: seq<ProgressCall>, b: seq<ProgressCall>, c: ProgressCall)
    ensures CountOf(a + b, c) == CountOf(a, c) + CountOf(b, c)
    decreases |a|
  {
    if |a| > 0 {
      assert (a + b)[0] == a[0];
      assert (a + b)[1..] == a[1..] + b;
      CountOfAppend(a[1..], b, c);
    } else {
      assert a + b == b;
    }
  }

  /**
   * Over any run without play-again, the correct count grows by exactly the
   * number of increments reported to the progress provider, and the invariant holds throughout.
   */
  lemma {:induction false} RunCountsMatchIncrements(g: Game, events: seq<Event>, alreadyCompleted: bool)
    requires GameInvariant(g)
    requires forall i :: 0 <= i < |events| ==> ValidEvent(events[i]) && !events[i].PlayAgainPressed?
    ensures GameInvariant(Run(g, events, alreadyCompleted).game)
    ensures Run(g, events, alreadyCompleted).game.correctCount
         == g.correctCount + CountOf(Run(g, events, alreadyCompleted).calls, IncrementCorrectAnswers)
    decreases |events|
  {
    if |events| > 0 {
      var first := Next(g, events[0], alreadyCompleted);
      NextPreservesInvariant(g, events[0], alreadyCompleted);
      RunCountsMatchIncrements(first.game, events[1..], alreadyCompleted);
      CountOfAppend(first.calls, Run(first.game, events[1..], alreadyCompleted).calls, IncrementCorrectAnswers);
      var e := events[0];
      if e.Answer? && g.feedback.NoFeedback? && e.selected == g.currentHour {
        var completes := g.correctCount + 1 >= RequiredCorrect && !alreadyCompleted;
        assert first.calls == [IncrementCorrectAnswers] + (if completes then [MarkLevelCompleted(LevelId)] else []);
        assert CountOf(first.calls, IncrementCorrectAnswers) == 1;
      } else {
        assert first.calls == [];
      }
    }
  }
}

/** One action's learning progress and the scoring rules of both store versions. */
module Progress {
  import opened Common

  /** Correct answers, counted as a leaky streak, after which an action is learned. */
  const CorrectAnswersToLearn: int := 3

  /** A progress record as the results file holds it: every field may be absent,
      and an absent field behaves differently from a zero one. */
  datatype Record = Record(
    success: Option<bool>,
    guesses: Option<int>,
    correctGuesses: Option<int>,
    errorGuesses: Option<int>)

  /** The record that reconciliation creates for a catalog key (`{}`). */
  const EmptyRecord: Record := Record(None, None, None, None)

  /** `action_success`: the `success` field is present and truthy; an absent
      or false field means not learned. */
  function ActionSuccess(r: Record): (b: bool)
    ensures b ==> r.success.Some?
    ensures r.success == None || r.success == Some(false) ==> !b
  {
    r.success == Some(true)
  }

  /** `action_learning_in_process`: guessed at least once and not learned yet.
      A learned action or one never guessed is not in process. */
  function LearningInProcess(r: Record): (b: bool)
    ensures b ==> !ActionSuccess(r) && r.guesses.Some?
    ensures ActionSuccess(r) || r.guesses == None || r.guesses == Some(0) ==> !b
  {
    r.guesses.Some? && r.guesses.value > 0 && !ActionSuccess(r)
  }

  /** The current store's `set_action_guess_correctness` on one record. */
  function Score(r: Record, correct: bool): (s: Record)
    // `guesses` is created as 1 or raised by exactly 1
    ensures s.guesses == Some(r.guesses.GetOr(0) + 1)
    // the first scored guess only creates the streak, without a threshold check
    ensures r.correctGuesses.None? ==>
      s.correctGuesses == Some(if correct then 1 else 0) && s.success == r.success
    // later correct guesses raise the streak, and learn once it is at least 3
    ensures r.correctGuesses.Some? && correct ==>
      && s.correctGuesses == Some(r.correctGuesses.value + 1)
      && (ActionSuccess(s) <==> ActionSuccess(r) || r.correctGuesses.value + 1 >= CorrectAnswersToLearn)
    // a wrong guess lowers a positive streak by one and leaves any other as it is
    ensures r.correctGuesses.Some? && !correct ==>
      s.correctGuesses == Some(if r.correctGuesses.value > 0 then r.correctGuesses.value - 1
                               else r.correctGuesses.value)
    // a wrong guess counts one more error and never changes `success`
    ensures !correct ==> s.errorGuesses == Some(r.errorGuesses.GetOr(0) + 1) && s.success == r.success
    // a correct guess creates the error count as 0 and never changes it otherwise
    ensures correct ==> s.errorGuesses == Some(r.errorGuesses.GetOr(0))
    // `success` is only ever set, never cleared
    ensures s.success == r.success || s.success == Some(true)
  {
    ErrorCounted(Streaked(Counted(r), correct), correct)
  }

  /** The first step of scoring: `guesses` is created as 1 or raised by 1. */
  function Counted(r: Record): Record {
    r.(guesses := Some(if r.guesses.None? then 1 else r.guesses.value + 1))
  }

  /** The second step: the leaky streak, and learning at the threshold. */
  function Streaked(r: Record, correct: bool): Record {
    if r.correctGuesses.None? then
      r.(correctGuesses := Some(if correct then 1 else 0))
    else if correct then
      var raised := r.(correctGuesses := Some(r.correctGuesses.value + 1));
      if raised.correctGuesses.value >= CorrectAnswersToLearn then raised.(success := Some(true)) else raised
    else if r.correctGuesses.value > 0 then
      r.(correctGuesses := Some(r.correctGuesses.value - 1))
    else
      r
  }

  /** The last step: the error count. */
  function ErrorCounted(r: Record, correct: bool): Record {
    if r.errorGuesses.None? then
      r.(errorGuesses := Some(if correct then 0 else 1))
    else if !correct then
      r.(errorGuesses := Some(r.errorGuesses.value + 1))
    else
      r
  }

  /** The older store's `set_action_guess_correctness` on one record: the streak
      must hit the threshold exactly, and no error count is kept. */
  function ScoreOld(r: Record, correct: bool): (s: Record)
    ensures s.guesses == Some(r.guesses.GetOr(0) + 1)
    ensures r.correctGuesses.None? ==>
      s.correctGuesses == Some(if correct then 1 else 0) && s.success == r.success
    ensures r.correctGuesses.Some? && correct ==>
      && s.correctGuesses == Some(r.correctGuesses.value + 1)
      && (ActionSuccess(s) <==> ActionSuccess(r) || r.correctGuesses.value + 1 == CorrectAnswersToLearn)
    ensures r.correctGuesses.Some? && !correct ==>
      s.correctGuesses == Some(if r.correctGuesses.value > 0 then r.correctGuesses.value - 1
                               else r.correctGuesses.value)
    ensures !correct ==> s.success == r.success
    ensures s.errorGuesses == r.errorGuesses
    ensures s.success == r.success || s.success == Some(true)
  {
    var counted := r.(guesses := Some(if r.guesses.None? then 1 else r.guesses.value + 1));
    if counted.correctGuesses.None? then
      counted.(correctGuesses := Some(if correct then 1 else 0))
    else if correct then
      var raised := counted.(correctGuesses := Some(counted.correctGuesses.value + 1));
      if raised.correctGuesses.value == CorrectAnswersToLearn then raised.(success := Some(true)) else raised
    else if counted.correctGuesses.value > 0 then
      counted.(correctGuesses := Some(counted.correctGuesses.value - 1))
    else
      counted
  }

  /** A run of scored answers, oldest first, with the current rules. */
  function ScoreAll(r: Record, answers: seq<bool>): Record
    decreases |answers|
  {
    if answers == [] then r else ScoreAll(Score(r, answers[0]), answers[1..])
  }

  /** A run of scored answers with the older rules. */
  function ScoreAllOld(r: Record, answers: seq<bool>): Record
    decreases |answers|
  {
    if answers == [] then r else ScoreAllOld(ScoreOld(r, answers[0]), answers[1..])
  }

  /** The number of wrong answers in a run. */
  function Wrong(answers: seq<bool>): nat {
    if answers == [] then 0 else (if answers[0] then 0 else 1) + Wrong(answers[1..])
  }

  /** Once learned, an action stays learned whatever answers follow. */
  lemma {:induction false} LearnedIsPermanent(r: Record, answers: seq<bool>)
    requires ActionSuccess(r)
    ensures ActionSuccess(ScoreAll(r, answers))
    decreases |answers|
  {
    if answers != [] {
      LearnedIsPermanent(Score(r, answers[0]), answers[1..]);
    }
  }

  /** Every scored answer counts exactly one guess, and every wrong one exactly
      one error, whatever the record held before. */
  lemma {:induction false} CountsAfterAnswers(r: Record, answers: seq<bool>)
    ensures ScoreAll(r, answers).guesses.GetOr(0) == r.guesses.GetOr(0) + |answers|
    ensures ScoreAll(r, answers).errorGuesses.GetOr(0) == r.errorGuesses.GetOr(0) + Wrong(answers)
    decreases |answers|
  {
    if answers != [] {
      CountsAfterAnswers(Score(r, answers[0]), answers[1..]);
    }
  }

  /** The streak of a record is absent or non-negative. */
  predicate SoundStreak(r: Record) {
    r.correctGuesses.None? || r.correctGuesses.value >= 0
  }

  /** The leaky streak never drops below zero. */
  lemma {:induction false} StreakStaysNonNegative(r: Record, answers: seq<bool>)
    requires SoundStreak(r)
    ensures SoundStreak(ScoreAll(r, answers))
    decreases |answers|
  {
    if answers != [] {
      StreakStaysNonNegative(Score(r, answers[0]), answers[1..]);
    }
  }

  /** A scored record with a non-negative guess count is in process exactly
      when it is not learned: scoring always leaves at least one guess. */
  lemma ScoredIsInProcessUnlessLearned(r: Record, correct: bool)
    requires r.guesses.GetOr(0) >= 0
    ensures LearningInProcess(Score(r, correct)) <==> !ActionSuccess(Score(r, correct))
    ensures ActionSuccess(r) ==> !LearningInProcess(Score(r, correct))
  {
  }

  /** Three correct answers in a row learn any action whose streak is sound,
      a fresh record included (its first answer only starts the streak at 1). */
  lemma ThreeCorrectAnswersLearn(r: Record)
    requires SoundStreak(r)
    ensures ActionSuccess(ScoreAll(r, [true, true, true]))
  {
    var a := Score(r, true);
    var b := Score(a, true);
    var c := Score(b, true);
    assert ScoreAll(r, [true, true, true]) == ScoreAll(a, [true, true]);
    assert ScoreAll(a, [true, true]) == ScoreAll(b, [true]);
    assert ScoreAll(b, [true]) == c;
  }

  /** The leaky streak on a fresh record: a wrong answer costs one step, not the
      whole streak, so two more correct answers still learn the action. */
  lemma LeakyStreakExample()
    ensures !ActionSuccess(ScoreAll(EmptyRecord, [true, true]))
    ensures !ActionSuccess(ScoreAll(EmptyRecord, [true, true, false, true]))
    ensures ScoreAll(EmptyRecord, [true, true, false, true]).correctGuesses == Some(2)
    ensures ActionSuccess(ScoreAll(EmptyRecord, [true, true, false, true, true]))
  {
    var r1 := Score(EmptyRecord, true);
    var r2 := Score(r1, true);
    var r3 := Score(r2, false);
    var r4 := Score(r3, true);
    var r5 := Score(r4, true);
    assert ScoreAll(EmptyRecord, [true, true]) == ScoreAll(r1, [true]) == r2;
    assert ScoreAll(EmptyRecord, [true, true, false, true]) == ScoreAll(r1, [true, false, true]);
    assert ScoreAll(r1, [true, false, true]) == ScoreAll(r2, [false, true]);
    assert ScoreAll(r2, [false, true]) == ScoreAll(r3, [true]) == r4;
    assert ScoreAll(EmptyRecord, [true, true, false, true, true]) == ScoreAll(r1, [true, false, true, true]);
    assert ScoreAll(r1, [true, false, true, true]) == ScoreAll(r2, [false, true, true]);
    assert ScoreAll(r2, [false, true, true]) == ScoreAll(r3, [true, true]);
    assert ScoreAll(r3, [true, true]) == ScoreAll(r4, [true]) == r5;
  }

  /** What two records scored by the two rule sets share: the same streak, the
      same learned flag, a non-negative streak, and a streak of 3 or more only
      on a learned action. */
  predicate Agree(current: Record, older: Record) {
    && current.correctGuesses == older.correctGuesses
    && (ActionSuccess(current) <==> ActionSuccess(older))
    && SoundStreak(current)
    && (current.correctGuesses.Some? && current.correctGuesses.value >= CorrectAnswersToLearn
        ==> ActionSuccess(current))
  }

  lemma {:induction false} VersionsAgree(current: Record, older: Record, answers: seq<bool>)
    requires Agree(current, older)
    ensures Agree(ScoreAll(current, answers), ScoreAllOld(older, answers))
    decreases |answers|
  {
    if answers != [] {
      VersionsAgree(Score(current, answers[0]), ScoreOld(older, answers[0]), answers[1..]);
    }
  }

  /** On records grown from a fresh one, the `>=` and `==` thresholds learn an
      action after exactly the same answers: the streak moves by one at a time,
      so it cannot pass 3 without hitting it. */
  lemma VersionsAgreeFromFresh(answers: seq<bool>)
    ensures ActionSuccess(ScoreAll(EmptyRecord, answers)) <==> ActionSuccess(ScoreAllOld(EmptyRecord, answers))
  {
    VersionsAgree(EmptyRecord, EmptyRecord, answers);
  }

  /** A hand-edited record with a streak already at 3 but not learned shows the
      difference: the current rules learn it on the next correct answer, the
      older rules never do. */
  lemma VersionsDivergeOnEditedRecord()
    ensures ActionSuccess(Score(Record(None, Some(5), Some(3), None), true))
    ensures !ActionSuccess(ScoreOld(Record(None, Some(5), Some(3), None), true))
  {
  }
}

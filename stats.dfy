/** The aggregate counters that both store versions inherit: each walks the
    store's keys in order and adds up one figure per record. */
module Stats {
  import opened Common
  import opened Progress
  import opened LearningStore

  /** What one record adds to a sum. */
  function LearnedWeight(r: Record): int {
    if ActionSuccess(r) then 1 else 0
  }

  function InProcessWeight(r: Record): int {
    if LearningInProcess(r) then 1 else 0
  }

  /** An absent count (`None`) adds nothing. */
  function GuessesWeight(r: Record): int {
    r.guesses.GetOr(0)
  }

  function ErrorGuessesWeight(r: Record): int {
    r.errorGuesses.GetOr(0)
  }

  /** Every key of the walk has a record. */
  predicate Covers(keys: seq<string>, records: map<string, Record>) {
    forall k | k in keys :: k in records
  }

  /** The `count += ...` loop over `keys`, as a sum taken from the front. */
  function SumOver(keys: seq<string>, records: map<string, Record>, weight: Record -> int): int
    requires Covers(keys, records)
  {
    if keys == [] then 0
    else SumOver(keys[..|keys| - 1], records, weight) + weight(records[keys[|keys| - 1]])
  }

  /** A sum of weights between 0 and 1 lies between 0 and the number of keys. */
  lemma {:induction false} SumOfIndicatorsBounded(keys: seq<string>, records: map<string, Record>, weight: Record -> int)
    requires Covers(keys, records)
    requires forall r :: 0 <= weight(r) <= 1
    ensures 0 <= SumOver(keys, records, weight) <= |keys|
  {
    if keys != [] {
      SumOfIndicatorsBounded(keys[..|keys| - 1], records, weight);
    }
  }

  /** A distinct key order has as many keys as members. */
  lemma {:induction false} DistinctKeysCount(order: seq<string>)
    requires Distinct(order)
    ensures |set k | k in order| == |order|
  {
    if order != [] {
      var n := |order| - 1;
      DistinctKeysCount(order[..n]);
      assert (set k | k in order) == (set k | k in order[..n]) + {order[n]};
      assert order[n] !in order[..n];
    }
  }

  /** `actions_count`: one action per stored record. */
  function ActionsCount(s: Store): (n: nat)
    ensures Indexed(s) ==> n == |s.records|
  {
    if Indexed(s) then
      DistinctKeysCount(s.order);
      assert s.records.Keys == set k | k in s.order;
      |s.order|
    else |s.order|
  }

  /** `actions_learned_count`: the keys whose record is learned. */
  function LearnedCount(s: Store): (n: int)
    requires Indexed(s)
    ensures 0 <= n <= ActionsCount(s)
  {
    SumOfIndicatorsBounded(s.order, s.records, LearnedWeight);
    SumOver(s.order, s.records, LearnedWeight)
  }

  /** `actions_to_learn_count`: never negative. */
  function ToLearnCount(s: Store): (n: int)
    requires Indexed(s)
    ensures 0 <= n <= ActionsCount(s)
    ensures n + LearnedCount(s) == ActionsCount(s)
  {
    ActionsCount(s) - LearnedCount(s)
  }

  /** `actions_learning_in_process_count`. */
  function InProcessCount(s: Store): (n: int)
    requires Indexed(s)
    ensures 0 <= n <= ActionsCount(s)
  {
    SumOfIndicatorsBounded(s.order, s.records, InProcessWeight);
    SumOver(s.order, s.records, InProcessWeight)
  }

  /** A sum of non-negative weights is non-negative. */
  lemma {:induction false} SumOfNonNegative(keys: seq<string>, records: map<string, Record>, weight: Record -> int)
    requires Covers(keys, records)
    requires forall k | k in keys :: weight(records[k]) >= 0
    ensures SumOver(keys, records, weight) >= 0
  {
    if keys != [] {
      SumOfNonNegative(keys[..|keys| - 1], records, weight);
    }
  }

  /** `actions_guesses_count`: absent counts add nothing, so with no negative
      count stored the total is not negative, and an empty store has none. */
  function GuessesCount(s: Store): (n: int)
    requires Indexed(s)
    ensures (forall k | k in s.records :: s.records[k].guesses.GetOr(0) >= 0) ==> n >= 0
    ensures s.order == [] ==> n == 0
  {
    if forall k | k in s.records :: s.records[k].guesses.GetOr(0) >= 0 then
      SumOfNonNegative(s.order, s.records, GuessesWeight);
      SumOver(s.order, s.records, GuessesWeight)
    else SumOver(s.order, s.records, GuessesWeight)
  }

  /** `actions_error_guesses_count`, likewise for the error counts. */
  function ErrorGuessesCount(s: Store): (n: int)
    requires Indexed(s)
    ensures (forall k | k in s.records :: s.records[k].errorGuesses.GetOr(0) >= 0) ==> n >= 0
    ensures s.order == [] ==> n == 0
  {
    if forall k | k in s.records :: s.records[k].errorGuesses.GetOr(0) >= 0 then
      SumOfNonNegative(s.order, s.records, ErrorGuessesWeight);
      SumOver(s.order, s.records, ErrorGuessesWeight)
    else SumOver(s.order, s.records, ErrorGuessesWeight)
  }

  /** A learned action is never in process, so the two counts together never
      exceed the number of actions. */
  lemma {:induction false} LearnedAndInProcessDisjoint(keys: seq<string>, records: map<string, Record>)
    requires Covers(keys, records)
    ensures SumOver(keys, records, LearnedWeight) + SumOver(keys, records, InProcessWeight) <= |keys|
  {
    if keys != [] {
      LearnedAndInProcessDisjoint(keys[..|keys| - 1], records);
    }
  }

  lemma LearnedPlusInProcessBounded(s: Store)
    requires Indexed(s)
    ensures LearnedCount(s) + InProcessCount(s) <= ActionsCount(s)
  {
    LearnedAndInProcessDisjoint(s.order, s.records);
  }

  /** Keys outside the walk do not affect the sum. */
  lemma {:induction false} SumIgnoresOthers(keys: seq<string>, records: map<string, Record>, k: string, r: Record, weight: Record -> int)
    requires Covers(keys, records)
    requires k !in keys
    ensures SumOver(keys, records[k := r], weight) == SumOver(keys, records, weight)
  {
    if keys != [] {
      SumIgnoresOthers(keys[..|keys| - 1], records, k, r, weight);
    }
  }

  /** Replacing the record of a key that the walk visits once moves the sum by
      the difference of the two weights. */
  lemma {:induction false} SumAfterUpdate(keys: seq<string>, records: map<string, Record>, k: string, r: Record, weight: Record -> int)
    requires Covers(keys, records)
    requires Distinct(keys) && k in keys
    ensures SumOver(keys, records[k := r], weight) == SumOver(keys, records, weight) - weight(records[k]) + weight(r)
  {
    var n := |keys| - 1;
    if keys[n] == k {
      assert k !in keys[..n] by {
        forall i | 0 <= i < n ensures keys[..n][i] != k {
          assert keys[i] != keys[n];
        }
      }
      SumIgnoresOthers(keys[..n], records, k, r, weight);
    } else {
      assert k in keys[..n] by {
        var i :| 0 <= i < |keys| && keys[i] == k;
        assert keys[..n][i] == k;
      }
      SumAfterUpdate(keys[..n], records, k, r, weight);
    }
  }

  /** The change of a sum when a guess is scored: the key's record is replaced,
      and a key the store did not have is first appended. */
  lemma SumAfterScoring(s: Store, key: string, t: Store, weight: Record -> int)
    requires Indexed(s) && Indexed(t)
    requires key in t.records
    requires forall k | k in s.records :: k in t.records
    requires forall k | k in t.records && k != key :: k in s.records && t.records[k] == s.records[k]
    requires t.order == if key in s.records then s.order else s.order + [key]
    ensures key in s.records ==>
      SumOver(t.order, t.records, weight) == SumOver(s.order, s.records, weight) - weight(s.records[key]) + weight(t.records[key])
    ensures key !in s.records ==>
      SumOver(t.order, t.records, weight) == SumOver(s.order, s.records, weight) + weight(t.records[key])
  {
    assert t.records == s.records[key := t.records[key]];
    if key in s.records {
      SumAfterUpdate(s.order, s.records, key, t.records[key], weight);
    } else {
      assert t.order[..|t.order| - 1] == s.order;
      SumIgnoresOthers(s.order, s.records, key, t.records[key], weight);
    }
  }

  /** Scoring a guess adds exactly one to the total guesses and, exactly when
      the guess is wrong, one to the total errors; a key the store lacked
      becomes one more action. */
  lemma ScoringMovesTotals(s: Store, key: string, correct: bool)
    requires Indexed(s)
    ensures GuessesCount(Scored(s, key, correct)) == GuessesCount(s) + 1
    ensures ErrorGuessesCount(Scored(s, key, correct)) == ErrorGuessesCount(s) + (if correct then 0 else 1)
    ensures ActionsCount(Scored(s, key, correct)) == ActionsCount(s) + (if key in s.records then 0 else 1)
  {
    var t := Scored(s, key, correct);
    SumAfterScoring(s, key, t, GuessesWeight);
    SumAfterScoring(s, key, t, ErrorGuessesWeight);
  }

  /** Scoring never lowers the learned count. */
  lemma ScoringKeepsLearned(s: Store, key: string, correct: bool)
    requires Indexed(s)
    ensures LearnedCount(Scored(s, key, correct)) >= LearnedCount(s)
  {
    var t := Scored(s, key, correct);
    SumAfterScoring(s, key, t, LearnedWeight);
  }

  /** Marking an action learned on a store that has its record raises the
      learned count by one if it was not learned, and leaves it otherwise. */
  lemma MarkingLearnedCounts(s: Store, key: string)
    requires Indexed(s)
    requires key in s.records
    ensures LearnedCount(Learned(s, key)) == LearnedCount(s) + (if ActionSuccess(s.records[key]) then 0 else 1)
    ensures ToLearnCount(Learned(s, key)) == ToLearnCount(s) - (if ActionSuccess(s.records[key]) then 0 else 1)
  {
    var t := Learned(s, key);
    SumAfterScoring(s, key, t, LearnedWeight);
  }
}

/** The older progress store (`FileLearningResultsStorage` of the first module
    of the program): the same mapping with a stricter learning threshold, no
    error count, no skipping of stale keys, and a single draw per selection. */
module CoreStorage {
  import opened Common
  import opened Progress
  import opened LearningStore

  class LearningResultsStorage {
    /** The `actions` mapping of the results file. */
    var data: Store
    /** The catalog's keys. */
    const catalogKeys: seq<string>

    predicate Valid()
      reads this
    {
      Indexed(data)
    }

    /** Loads the stored mapping (`None` for a missing file or falsy content)
        and gives every catalog key without a record an empty one. */
    constructor (stored: Option<Store>, catalogKeys: seq<string>)
      requires stored.Some? ==> Indexed(stored.value)
      ensures Valid()
      ensures data == Reconcile(if stored.Some? then stored.value else EmptyStore, catalogKeys)
      ensures this.catalogKeys == catalogKeys
    {
      var d := ReconcileLoop(if stored.Some? then stored.value else EmptyStore, catalogKeys);
      data := d;
      this.catalogKeys := catalogKeys;
    }

    /** `set_action_learned_successfully`. */
    method SetActionLearnedSuccessfully(key: string)
      requires Valid()
      modifies this
      ensures Valid()
      ensures data == Learned(old(data), key)
    {
      if key !in data.records {
        data := Store(data.order + [key], data.records[key := EmptyRecord]);
      }
      data := Put(data, key, data.records[key].(success := Some(true)));
    }

    /** `set_action_guess_correctness` with the `==` threshold and without an
        error count. */
    method SetActionGuessCorrectness(key: string, correctness: bool)
      requires Valid()
      modifies this
      ensures Valid()
      ensures data == ScoredOld(old(data), key, correctness)
    {
      if key !in data.records {
        data := Store(data.order + [key], data.records[key := EmptyRecord]);
      }
      ghost var base := data;
      assert base == Insert(old(data), key);
      var r := data.records[key];
      if r.guesses.None? {
        r := r.(guesses := Some(1));
      } else {
        r := r.(guesses := Some(r.guesses.value + 1));
      }
      if r.correctGuesses.None? {
        r := r.(correctGuesses := Some(if correctness then 1 else 0));
      } else if correctness {
        r := r.(correctGuesses := Some(r.correctGuesses.value + 1));
        if r.correctGuesses.value == CorrectAnswersToLearn {
          data := Put(data, key, r);
          SetActionLearnedSuccessfully(key);
          r := data.records[key];
        }
      } else if r.correctGuesses.value > 0 {
        r := r.(correctGuesses := Some(r.correctGuesses.value - 1));
      }
      assert r == ScoreOld(base.records[key], correctness);
      UpdateTwice(base.records, key, data.records[key], r);
      data := Put(data, key, r);
      assert data == Put(base, key, r);
    }

    /** `set_action_guess_correct`. */
    method SetActionGuessCorrect(key: string)
      requires Valid()
      modifies this
      ensures Valid()
      ensures data == ScoredOld(old(data), key, true)
    {
      SetActionGuessCorrectness(key, true);
    }

    /** `set_action_guess_wrong`. */
    method SetActionGuessWrong(key: string)
      requires Valid()
      modifies this
      ensures Valid()
      ensures data == ScoredOld(old(data), key, false)
    {
      SetActionGuessCorrectness(key, false);
    }

    /** `all_actions_learned_successfully`: every record counts, stale or not. */
    method AllActionsLearnedSuccessfully() returns (allSuccess: bool)
      requires Valid()
      ensures allSuccess <==> AllLearnedOld(data)
    {
      allSuccess := true;
      if data.records == map[] {
        return false;
      }
      var i := 0;
      while i < |data.order|
        invariant 0 <= i <= |data.order|
        invariant allSuccess <==> forall j | 0 <= j < i :: ActionSuccess(data.records[data.order[j]])
      {
        if !ActionSuccess(data.records[data.order[i]]) {
          allSuccess := false;
        }
        i := i + 1;
      }
      if !allSuccess {
        var j :| 0 <= j < |data.order| && !ActionSuccess(data.records[data.order[j]]);
        assert data.order[j] in data.records;
      } else {
        forall k | k in data.records
          ensures ActionSuccess(data.records[k])
        {
          var j :| 0 <= j < |data.order| && data.order[j] == k;
        }
      }
    }

    /** `random_nonlearned_action_key`: one draw; `random.randint(0, -1)`
        raises `ValueError` on an empty store, and a learned key gives `None`. */
    function RandomNonlearnedActionKey(draw: nat): (r: Result<Option<string>, string>)
      reads this
      requires Valid()
      ensures r.Err? <==> data.order == []
      ensures r.Ok? ==> (r.value.None? <==> ActionSuccess(data.records[KeyAt(data, draw)]))
      ensures r.Ok? && r.value.Some? ==>
        r.value.value == KeyAt(data, draw) && r.value.value in data.records
        && !ActionSuccess(data.records[r.value.value])
    {
      if data.order == [] then Err("ValueError")
      else
        var key := data.order[draw % |data.order|];
        if ActionSuccess(data.records[key]) then Ok(None) else Ok(Some(key))
    }
  }

  /** `None` from the older selection does not mean that all is learned: the
      draw may simply have hit a learned key. */
  lemma NoneDoesNotMeanAllLearned(c: LearningResultsStorage)
    requires c.data == Store(["a", "b"], map["a" := EmptyRecord.(success := Some(true)), "b" := EmptyRecord])
    ensures c.Valid()
    ensures c.RandomNonlearnedActionKey(0) == Ok(None)
    ensures !AllLearnedOld(c.data)
  {
    assert "b" in c.data.records && !ActionSuccess(c.data.records["b"]);
  }
}

/** The current progress store (`FileLearningResultsStorage` of the file-backed
    storage): the `actions` mapping it updates in place, the key it returned
    last, and the catalog keys it was reconciled against. */
module FileStorage {
  import opened Common
  import opened Progress
  import opened LearningStore

  class LearningResultsStorage {
    /** The `actions` mapping of the results file. */
    var data: Store
    /** `_prev_action_key`: the key the last selection returned. */
    var prev: Option<string>
    /** `hk_storage.actions_keys`: the catalog's keys. */
    const catalogKeys: seq<string>

    predicate Valid()
      reads this
    {
      Indexed(data)
    }

    /** Loads the stored mapping (`None` when the file is missing or its
        content is empty or falsy, which starts an empty mapping) and gives
        every catalog key without a record an empty one. */
    constructor (stored: Option<Store>, catalogKeys: seq<string>)
      requires stored.Some? ==> Indexed(stored.value)
      ensures Valid()
      ensures data == Reconcile(if stored.Some? then stored.value else EmptyStore, catalogKeys)
      ensures prev == None
      ensures this.catalogKeys == catalogKeys
    {
      var d := ReconcileLoop(if stored.Some? then stored.value else EmptyStore, catalogKeys);
      data := d;
      prev := None;
      this.catalogKeys := catalogKeys;
    }

    /** `remove_results_for_action`: `del` of the key's record; a missing key
        raises `KeyError`. */
    method RemoveResultsForAction(key: string) returns (r: Result<(), string>)
      requires Valid()
      modifies this
      ensures Valid()
      ensures r.Ok? <==> key in old(data.records)
      ensures r.Err? ==> r.error == key && data == old(data)
      ensures r.Ok? ==> data == Removed(old(data), key)
      ensures prev == old(prev)
    {
      if key !in data.records {
        return Err(key);
      }
      data := Removed(data, key);
      return Ok(());
    }

    /** `action_success`: whether the record's `success` is present and
        true; a missing key raises `KeyError`. */
    method Success(key: string) returns (r: Result<bool, string>)
      requires Valid()
      ensures r.Ok? <==> key in data.records
      ensures r.Err? ==> r.error == key
      ensures r.Ok? ==> (r.value <==> data.records[key].success == Some(true))
    {
      if key !in data.records {
        return Err(key);
      }
      var record := data.records[key];
      return Ok(record.success.Some? && record.success.value);
    }

    /** `action_guesses`: the `guesses` field, `None` when it is absent. */
    method Guesses(key: string) returns (r: Result<Option<int>, string>)
      requires Valid()
      ensures r.Ok? <==> key in data.records
      ensures r.Err? ==> r.error == key
      ensures r.Ok? ==> r.value == data.records[key].guesses
    {
      if key !in data.records {
        return Err(key);
      }
      return Ok(data.records[key].guesses);
    }

    /** `action_error_guesses`: the `error_guesses` field, `None` when it is
        absent. */
    method ErrorGuesses(key: string) returns (r: Result<Option<int>, string>)
      requires Valid()
      ensures r.Ok? <==> key in data.records
      ensures r.Err? ==> r.error == key
      ensures r.Ok? ==> r.value == data.records[key].errorGuesses
    {
      if key !in data.records {
        return Err(key);
      }
      return Ok(data.records[key].errorGuesses);
    }

    /** `action_learning_in_process`: guessed more than zero times and
        `success` absent or false. */
    method InProcess(key: string) returns (r: Result<bool, string>)
      requires Valid()
      ensures r.Ok? <==> key in data.records
      ensures r.Err? ==> r.error == key
      ensures r.Ok? ==> (r.value <==>
        data.records[key].guesses.Some? && data.records[key].guesses.value > 0 && data.records[key].success != Some(true))
    {
      if key !in data.records {
        return Err(key);
      }
      var record := data.records[key];
      return Ok(record.guesses.Some? && record.guesses.value > 0 && (record.success.None? || !record.success.value));
    }

    /** `set_action_learned_successfully`. */
    method SetActionLearnedSuccessfully(key: string)
      requires Valid()
      modifies this
      ensures Valid()
      ensures data == Learned(old(data), key)
      ensures prev == old(prev)
    {
      if key !in data.records {
        data := Store(data.order + [key], data.records[key := EmptyRecord]);
      }
      data := Put(data, key, data.records[key].(success := Some(true)));
    }

    /** `set_action_guess_correctness`, field by field, marking the action
        learned through `set_action_learned_successfully` once the streak
        reaches the threshold. */
    method SetActionGuessCorrectness(key: string, correctness: bool)
      requires Valid()
      modifies this
      ensures Valid()
      ensures data == Scored(old(data), key, correctness)
      ensures prev == old(prev)
    {
      if key !in data.records {
        data := Store(data.order + [key], data.records[key := EmptyRecord]);
      }
      ghost var base := data;
      assert base == Insert(old(data), key);
      var r := data.records[key];
      ghost var r0 := r;
      if r.guesses.None? {
        r := r.(guesses := Some(1));
      } else {
        r := r.(guesses := Some(r.guesses.value + 1));
      }
      assert r == Counted(r0);
      if r.correctGuesses.None? {
        r := r.(correctGuesses := Some(if correctness then 1 else 0));
      } else if correctness {
        r := r.(correctGuesses := Some(r.correctGuesses.value + 1));
        if r.correctGuesses.value >= CorrectAnswersToLearn {
          data := Put(data, key, r);
          SetActionLearnedSuccessfully(key);
          r := data.records[key];
        }
      } else if r.correctGuesses.value > 0 {
        r := r.(correctGuesses := Some(r.correctGuesses.value - 1));
      }
      assert r == Streaked(Counted(r0), correctness);
      assert data.order == base.order && data.records == base.records[key := data.records[key]];
      if r.errorGuesses.None? {
        r := r.(errorGuesses := Some(if correctness then 0 else 1));
      } else if !correctness {
        r := r.(errorGuesses := Some(r.errorGuesses.value + 1));
      }
      assert r == Score(base.records[key], correctness);
      UpdateTwice(base.records, key, data.records[key], r);
      data := Put(data, key, r);
      assert data == Put(base, key, r);
    }

    /** `set_action_guess_correct`. */
    method SetActionGuessCorrect(key: string)
      requires Valid()
      modifies this
      ensures Valid()
      ensures data == Scored(old(data), key, true)
      ensures prev == old(prev)
    {
      SetActionGuessCorrectness(key, true);
    }

    /** `set_action_guess_wrong`. */
    method SetActionGuessWrong(key: string)
      requires Valid()
      modifies this
      ensures Valid()
      ensures data == Scored(old(data), key, false)
      ensures prev == old(prev)
    {
      SetActionGuessCorrectness(key, false);
    }

    /** `all_actions_learned_successfully`: the `all_success` flag loop over
        the records, skipping keys the catalog no longer has. */
    method AllActionsLearnedSuccessfully() returns (allSuccess: bool)
      requires Valid()
      ensures allSuccess <==> AllLearned(data, catalogKeys)
    {
      allSuccess := true;
      if data.records == map[] {
        return false;
      }
      var i := 0;
      while i < |data.order|
        invariant 0 <= i <= |data.order|
        invariant allSuccess <==>
          forall j | 0 <= j < i :: data.order[j] in catalogKeys ==> ActionSuccess(data.records[data.order[j]])
      {
        var key := data.order[i];
        if key in catalogKeys && !ActionSuccess(data.records[key]) {
          allSuccess := false;
        }
        i := i + 1;
      }
      if !allSuccess {
        var j :| 0 <= j < |data.order| && data.order[j] in catalogKeys && !ActionSuccess(data.records[data.order[j]]);
        assert data.order[j] in data.records;
      } else {
        forall k | k in data.records && k in catalogKeys
          ensures ActionSuccess(data.records[k])
        {
          var j :| 0 <= j < |data.order| && data.order[j] == k;
        }
      }
    }

    /** `random_nonlearned_action_key`: the draw-and-check loop, over the
        given draws, which records the returned key as the previous one. */
    method RandomNonlearnedActionKey(draws: seq<nat>) returns (selection: Selection, used: nat)
      requires Valid()
      modifies this`prev
      ensures Valid()
      ensures selection == Select(data, catalogKeys, old(prev), draws, 0).selection
      ensures used == Select(data, catalogKeys, old(prev), draws, 0).used
      ensures prev == if selection.Picked? then Some(selection.key) else old(prev)
    {
      ghost var s := data;
      ghost var whole := Select(s, catalogKeys, prev, draws, 0);
      var repeats := 0;
      used := 0;
      while true
        invariant used <= |draws| && repeats <= RepeatsLimit
        invariant prev == old(prev) && data == s
        invariant whole == After(Select(s, catalogKeys, prev, draws[used..], repeats), used)
        decreases |draws| - used
      {
        var allLearned := AllActionsLearnedSuccessfully();
        if allLearned {
          return NoneAllLearned, used;
        }
        if |data.order| == 0 {
          return EmptyStoreError, used;
        }
        if used == |draws| {
          return DrawsExhausted, used;
        }
        SelectStep(s, catalogKeys, prev, draws[used..], repeats);
        assert draws[used..][0] == draws[used] && draws[used..][1..] == draws[used + 1..];
        var key := data.order[draws[used] % |data.order|];
        used := used + 1;
        if ActionSuccess(data.records[key]) {
          continue;
        }
        if Some(key) == prev && repeats < RepeatsLimit {
          repeats := repeats + 1;
          continue;
        }
        prev := Some(key);
        return Picked(key), used;
      }
    }
  }
}

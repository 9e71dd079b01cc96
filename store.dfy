/** The progress store as a value: the `actions` mapping from action key to
    progress record, in the insertion order a Python dict keeps, and the pure
    rules that both store classes share or are specified by. */
module LearningStore {
  import opened Common
  import opened Progress

  /** The `actions` mapping: its keys in insertion order, and the records. */
  datatype Store = Store(order: seq<string>, records: map<string, Record>)

  /** The order lists every key of the mapping exactly once. */
  predicate Indexed(s: Store) {
    && Distinct(s.order)
    && (forall k | k in s.records :: k in s.order)
    && (forall k | k in s.order :: k in s.records)
  }

  /** The store that a missing, empty or blank results file loads as. */
  const EmptyStore: Store := Store([], map[])

  /** The record of a key, or the empty record a missing key would be created with. */
  function RecordOf(s: Store, key: string): Record {
    if key in s.records then s.records[key] else EmptyRecord
  }

  /** `if key not in actions: actions[key] = {}`. */
  function Insert(s: Store, key: string): (t: Store)
    requires Indexed(s)
    ensures Indexed(t)
    ensures key in t.records && t.records[key] == RecordOf(s, key)
    ensures forall k | k in s.records :: k in t.records && t.records[k] == s.records[k]
    ensures forall k | k in t.records && k != key :: k in s.records
    ensures t.order == if key in s.records then s.order else s.order + [key]
  {
    if key in s.records then s else Store(s.order + [key], s.records[key := EmptyRecord])
  }

  /** Writing the record of a key the store already has. */
  function Put(s: Store, key: string, r: Record): (t: Store)
    requires Indexed(s) && key in s.records
    ensures Indexed(t)
    ensures t.order == s.order && t.records == s.records[key := r]
  {
    Store(s.order, s.records[key := r])
  }

  /** Scoring one guess for a key of the current store (creating its record if needed). */
  function Scored(s: Store, key: string, correct: bool): (t: Store)
    requires Indexed(s)
    ensures Indexed(t)
    ensures key in t.records && t.records[key] == Score(RecordOf(s, key), correct)
    ensures forall k | k in t.records && k != key :: k in s.records && t.records[k] == s.records[k]
    ensures forall k | k in s.records :: k in t.records
    ensures t.order == if key in s.records then s.order else s.order + [key]
  {
    var t := Insert(s, key);
    Put(t, key, Score(t.records[key], correct))
  }

  /** Scoring one guess for a key of the older store. */
  function ScoredOld(s: Store, key: string, correct: bool): (t: Store)
    requires Indexed(s)
    ensures Indexed(t)
    ensures key in t.records && t.records[key] == ScoreOld(RecordOf(s, key), correct)
    ensures forall k | k in t.records && k != key :: k in s.records && t.records[k] == s.records[k]
    ensures forall k | k in s.records :: k in t.records
    ensures t.order == if key in s.records then s.order else s.order + [key]
  {
    var t := Insert(s, key);
    Put(t, key, ScoreOld(t.records[key], correct))
  }

  /** `set_action_learned_successfully` on the store. */
  function Learned(s: Store, key: string): (t: Store)
    requires Indexed(s)
    ensures Indexed(t)
    ensures key in t.records && t.records[key] == RecordOf(s, key).(success := Some(true))
    ensures forall k | k in t.records && k != key :: k in s.records && t.records[k] == s.records[k]
    ensures forall k | k in s.records :: k in t.records
    ensures t.order == if key in s.records then s.order else s.order + [key]
  {
    var t := Insert(s, key);
    Put(t, key, t.records[key].(success := Some(true)))
  }

  /** The key order with one key taken out. */
  function Without(order: seq<string>, key: string): (r: seq<string>)
    ensures forall x :: x in r <==> x in order && x != key
    ensures Distinct(order) ==> Distinct(r)
    ensures |r| <= |order|
  {
    if order == [] then []
    else
      var rest := Without(order[1..], key);
      assert Distinct(order) ==> order[0] !in order[1..];
      (if order[0] == key then [] else [order[0]]) + rest
  }

  /** Taking out a key the order lacks changes nothing. */
  lemma {:induction false} WithoutAbsent(order: seq<string>, key: string)
    requires key !in order
    ensures Without(order, key) == order
  {
    if order != [] {
      WithoutAbsent(order[1..], key);
    }
  }

  /** Taking out the key at position `i` of a distinct order cuts it out at
      its place and keeps the other keys in their order. */
  lemma {:induction false} WithoutAt(order: seq<string>, i: nat)
    requires Distinct(order) && i < |order|
    ensures Without(order, order[i]) == order[..i] + order[i + 1..]
  {
    var key := order[i];
    if i == 0 {
      assert order[0] !in order[1..];
      WithoutAbsent(order[1..], key);
    } else {
      assert order[1..][i - 1] == key;
      WithoutAt(order[1..], i - 1);
      assert order[..i] == [order[0]] + order[1..][..i - 1];
      assert order[1..][i..] == order[i + 1..];
    }
  }

  /** `del actions[key]` on a key that is present. */
  function Removed(s: Store, key: string): (t: Store)
    requires Indexed(s)
    ensures Indexed(t)
    ensures t.records == s.records - {key}
  {
    Store(Without(s.order, key), s.records - {key})
  }

  /** The members of a non-empty sequence are those of its prefix and its last element. */
  lemma PrefixMembers(ks: seq<string>)
    requires ks != []
    ensures forall k :: k in ks <==> k in ks[..|ks| - 1] || k == ks[|ks| - 1]
  {
    assert ks == ks[..|ks| - 1] + [ks[|ks| - 1]];
  }

  /** Reconciliation: an empty record for every catalog key that has none, in
      catalog order. */
  function Reconcile(s: Store, catalogKeys: seq<string>): (r: Store)
    requires Indexed(s)
    ensures Indexed(r)
  {
    if catalogKeys == [] then s
    else Insert(Reconcile(s, catalogKeys[..|catalogKeys| - 1]), catalogKeys[|catalogKeys| - 1])
  }

  /** After reconciliation every catalog key has a record; every record that
      was there, stale ones included, is kept unchanged and in its place in
      the order; every new record is empty. */
  lemma {:induction false} ReconcileMeaning(s: Store, catalogKeys: seq<string>)
    requires Indexed(s)
    ensures var r := Reconcile(s, catalogKeys);
      && (forall k | k in catalogKeys :: k in r.records)
      && (forall k | k in s.records :: k in r.records && r.records[k] == s.records[k])
      && (forall k | k in r.records :: k in s.records || k in catalogKeys)
      && (forall k | k in r.records && k !in s.records :: r.records[k] == EmptyRecord)
      && |s.order| <= |r.order| && r.order[..|s.order|] == s.order
  {
    if catalogKeys != [] {
      var n := |catalogKeys| - 1;
      ReconcileMeaning(s, catalogKeys[..n]);
      PrefixMembers(catalogKeys);
      var t := Reconcile(s, catalogKeys[..n]);
      assert Reconcile(s, catalogKeys).order[..|s.order|] == t.order[..|s.order|];
    }
  }

  /** The reconciliation loop of both stores' constructors: one catalog key
      after the other, an empty record for each key that has none. */
  method ReconcileLoop(stored: Store, catalogKeys: seq<string>) returns (d: Store)
    requires Indexed(stored)
    ensures d == Reconcile(stored, catalogKeys)
  {
    d := stored;
    var i := 0;
    while i < |catalogKeys|
      invariant 0 <= i <= |catalogKeys|
      invariant d == Reconcile(stored, catalogKeys[..i])
    {
      assert catalogKeys[..i + 1][..i] == catalogKeys[..i];
      var key := catalogKeys[i];
      if key !in d.records {
        d := Store(d.order + [key], d.records[key := EmptyRecord]);
      }
      i := i + 1;
    }
    assert catalogKeys[..i] == catalogKeys;
  }

  /** A store that already has a record for every catalog key is left alone. */
  lemma {:induction false} ReconcileCovered(s: Store, catalogKeys: seq<string>)
    requires Indexed(s)
    requires forall k | k in catalogKeys :: k in s.records
    ensures Reconcile(s, catalogKeys) == s
  {
    if catalogKeys != [] {
      var n := |catalogKeys| - 1;
      PrefixMembers(catalogKeys);
      ReconcileCovered(s, catalogKeys[..n]);
      assert catalogKeys[n] in s.records;
      assert Reconcile(s, catalogKeys) == Insert(Reconcile(s, catalogKeys[..n]), catalogKeys[n]);
    }
  }

  /** Reconciling twice against the same catalog is the same as reconciling once. */
  lemma ReconcileIdempotent(s: Store, catalogKeys: seq<string>)
    requires Indexed(s)
    ensures Reconcile(Reconcile(s, catalogKeys), catalogKeys) == Reconcile(s, catalogKeys)
  {
    ReconcileMeaning(s, catalogKeys);
    ReconcileCovered(Reconcile(s, catalogKeys), catalogKeys);
  }

  /** The current store's `all_actions_learned_successfully`: false on an empty
      mapping; otherwise every record whose key is still in the catalog is
      learned, and records of keys the catalog no longer has are skipped. */
  function AllLearned(s: Store, catalogKeys: seq<string>): (b: bool)
    ensures b ==> forall k | k in s.records && k in catalogKeys :: !LearningInProcess(s.records[k])
    ensures s.records == map[] ==> !b
  {
    && s.records != map[]
    && forall k | k in s.records && k in catalogKeys :: ActionSuccess(s.records[k])
  }

  /** The older store's `all_actions_learned_successfully`: stale keys count
      too, so it is the current test taken over every stored key. */
  function AllLearnedOld(s: Store): (b: bool)
    ensures Indexed(s) ==> (b <==> AllLearned(s, s.order))
  {
    && s.records != map[]
    && forall k | k in s.records :: ActionSuccess(s.records[k])
  }

  /** Whatever the older predicate accepts the current one accepts too. */
  lemma AllLearnedOldIsStricter(s: Store, catalogKeys: seq<string>)
    ensures AllLearnedOld(s) ==> AllLearned(s, catalogKeys)
  {
  }

  /** A store holding only records of keys the catalog no longer has counts as
      fully learned for the current store, and not for the older one. */
  lemma OnlyStaleKeysCountAsLearned(s: Store, catalogKeys: seq<string>)
    requires s.records != map[]
    requires forall k | k in s.records :: k !in catalogKeys && !ActionSuccess(s.records[k])
    ensures AllLearned(s, catalogKeys)
    ensures !AllLearnedOld(s)
  {
    var k :| k in s.records;
    assert !ActionSuccess(s.records[k]);
  }

  /** How many times the previous key may be drawn and rejected in a row. */
  const RepeatsLimit: nat := 5

  /** The key at a drawn position; `random.randint(0, n - 1)` is any index, here
      any draw taken modulo the number of keys. */
  function KeyAt(s: Store, draw: nat): string
    requires s.order != []
  {
    s.order[draw % |s.order|]
  }

  /** What a selection of the next key to quiz ends with. */
  datatype Selection =
    | Picked(key: string)
    | NoneAllLearned   // returns `None`
    | EmptyStoreError  // `random.randint(0, -1)` raises `ValueError`
    | DrawsExhausted   // the given draws ran out before the loop returned

  /** A selection, how many draws it used, and how many times it rejected the
      previous key. */
  datatype Pick = Pick(selection: Selection, used: nat, repeats: nat)

  /** A pick that used `n` more draws before it. */
  function After(p: Pick, n: nat): Pick {
    p.(used := p.used + n)
  }

  /** The current store's `random_nonlearned_action_key` loop over a given
      sequence of draws, starting with `repeats` rejections already made. */
  function Select(s: Store, catalogKeys: seq<string>, prev: Option<string>, draws: seq<nat>, repeats: nat): (p: Pick)
    requires Indexed(s)
    ensures p.used <= |draws|
    decreases |draws|
  {
    if AllLearned(s, catalogKeys) then Pick(NoneAllLearned, 0, repeats)
    else if s.order == [] then Pick(EmptyStoreError, 0, repeats)
    else if draws == [] then Pick(DrawsExhausted, 0, repeats)
    else
      var key := KeyAt(s, draws[0]);
      if ActionSuccess(s.records[key]) then
        After(Select(s, catalogKeys, prev, draws[1..], repeats), 1)
      else if Some(key) == prev && repeats < RepeatsLimit then
        After(Select(s, catalogKeys, prev, draws[1..], repeats + 1), 1)
      else
        Pick(Picked(key), 1, repeats)
  }

  /** What a selection promises: `None` exactly when all is learned, an
      error exactly on an empty store, and otherwise a key of the store that
      is not learned, taken from the last draw used, and equal to the
      previous key only once the repeat limit is spent. */
  lemma {:induction false} SelectMeaning(s: Store, catalogKeys: seq<string>, prev: Option<string>, draws: seq<nat>, repeats: nat)
    requires Indexed(s)
    requires repeats <= RepeatsLimit
    ensures
      var p := Select(s, catalogKeys, prev, draws, repeats);
      && p.used <= |draws|
      && repeats <= p.repeats <= RepeatsLimit
      && (p.selection == NoneAllLearned <==> AllLearned(s, catalogKeys))
      && (p.selection == EmptyStoreError <==> s.order == [])
      && (p.selection.Picked? ==> p.selection.key in s.records && !ActionSuccess(s.records[p.selection.key]))
      && (p.selection.Picked? ==> 1 <= p.used && s.order != [] && KeyAt(s, draws[p.used - 1]) == p.selection.key)
      && (p.selection.Picked? && prev == Some(p.selection.key) ==> p.repeats == RepeatsLimit)
    decreases |draws|
  {
    if !AllLearned(s, catalogKeys) && s.order != [] && draws != [] {
      var key := KeyAt(s, draws[0]);
      if ActionSuccess(s.records[key]) {
        SelectMeaning(s, catalogKeys, prev, draws[1..], repeats);
      } else if Some(key) == prev && repeats < RepeatsLimit {
        SelectMeaning(s, catalogKeys, prev, draws[1..], repeats + 1);
      }
    }
  }

  /** One turn of the selection loop: the next draw is skipped, rejected as a
      repeat, or returned. */
  lemma SelectStep(s: Store, catalogKeys: seq<string>, prev: Option<string>, draws: seq<nat>, repeats: nat)
    requires Indexed(s)
    requires !AllLearned(s, catalogKeys) && s.order != [] && draws != []
    ensures
      var key := KeyAt(s, draws[0]);
      Select(s, catalogKeys, prev, draws, repeats) ==
        if ActionSuccess(s.records[key]) then After(Select(s, catalogKeys, prev, draws[1..], repeats), 1)
        else if Some(key) == prev && repeats < RepeatsLimit then After(Select(s, catalogKeys, prev, draws[1..], repeats + 1), 1)
        else Pick(Picked(key), 1, repeats)
  {
  }

  /** Two actions, one learned: every selection that ends returns the other. */
  lemma LearnedActionIsNeverPicked(draws: seq<nat>, prev: Option<string>)
    ensures
      var r := map["a" := EmptyRecord.(success := Some(true)), "b" := EmptyRecord];
      var p := Select(Store(["a", "b"], r), ["a", "b"], prev, draws, 0);
      p.selection == Picked("b") || p.selection == DrawsExhausted
  {
    var r := map["a" := EmptyRecord.(success := Some(true)), "b" := EmptyRecord];
    var s := Store(["a", "b"], r);
    assert !AllLearned(s, ["a", "b"]) by {
      assert "b" in s.records && "b" in ["a", "b"];
    }
    SelectMeaning(s, ["a", "b"], prev, draws, 0);
  }

  /** The previous key, drawn again and again, is rejected five times and
      returned on the sixth draw. */
  lemma RepeatLimitExample()
    ensures
      var s := Store(["a", "b"], map["a" := EmptyRecord, "b" := EmptyRecord]);
      Select(s, ["a", "b"], Some("b"), [1, 1, 1, 1, 1, 1, 0], 0) == Pick(Picked("b"), 6, 5)
  {
    var s := Store(["a", "b"], map["a" := EmptyRecord, "b" := EmptyRecord]);
    assert !AllLearned(s, ["a", "b"]) by {
      assert "a" in s.records && "a" in ["a", "b"];
    }
    var d := [1, 1, 1, 1, 1, 1, 0];
    assert Select(s, ["a", "b"], Some("b"), d[6..], 5) == Pick(Picked("a"), 1, 5);
    assert Select(s, ["a", "b"], Some("b"), d[5..], 5) == Pick(Picked("b"), 1, 5);
    assert Select(s, ["a", "b"], Some("b"), d[4..], 4) == Pick(Picked("b"), 2, 5);
    assert Select(s, ["a", "b"], Some("b"), d[3..], 3) == Pick(Picked("b"), 3, 5);
    assert Select(s, ["a", "b"], Some("b"), d[2..], 2) == Pick(Picked("b"), 4, 5);
    assert Select(s, ["a", "b"], Some("b"), d[1..], 1) == Pick(Picked("b"), 5, 5);
  }
}

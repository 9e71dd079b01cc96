/** The action catalog: the read-only definition file of named actions, each with
    a description, an optional answer type and its accepted hotkeys. */
module Catalog {
  import opened Common

  /** One entry of an action's `hotkeys` list as the definition file holds it:
      a string, a list of strings (keys typed one after another), or some other
      scalar (a number or a boolean written without quotes). */
  datatype Hotkey = Combo(combo: string) | Steps(steps: seq<string>) | Unsupported

  /** An action's `type`: a string, a list of strings, or anything else. */
  datatype Kind = KindName(name: string) | KindNames(names: seq<string>) | KindUnsupported

  datatype Action = Action(description: string, kind: Option<Kind>, hotkeys: seq<Hotkey>)

  /** The `actions` mapping of the definition file, with its keys in file order. */
  datatype Catalog = Catalog(keys: seq<string>, actions: map<string, Action>) {
    predicate WellFormed() {
      && Distinct(keys)
      && (forall k | k in actions :: k in keys)
      && (forall k | k in keys :: k in actions)
    }
  }

  /** The answer type of an action; on loading, a missing `type` becomes `"hotkey"`.
      A key absent from the catalog raises `KeyError` (the key is returned as the error). */
  function KeyCombinationType(c: Catalog, key: string): (r: Result<Kind, string>)
    ensures r.Ok? <==> key in c.actions
    ensures r.Err? ==> r.error == key
    ensures key in c.actions && c.actions[key].kind.None? ==> r == Ok(KindName("hotkey"))
    ensures key in c.actions && c.actions[key].kind.Some? ==> r == Ok(c.actions[key].kind.value)
  {
    if key in c.actions then Ok(c.actions[key].kind.GetOr(KindName("hotkey"))) else Err(key)
  }

  /** `F` followed by a digit starts at position `i` (the regular expression `F\d+`). */
  predicate FunctionKeyAt(s: string, i: int)
    requires 0 <= i < |s| - 1
  {
    s[i] == 'F' && IsDigit(s[i + 1])
  }

  predicate HasFunctionKey(s: string) {
    exists i | 0 <= i < |s| - 1 :: FunctionKeyAt(s, i)
  }

  /** A string hotkey names one key combination, to be kept whole, rather than
      a run of plain keys. Every one-character key is kept whole, and the empty
      string is not. */
  function KeptWhole(s: string): (b: bool)
    ensures |s| == 1 ==> b
    ensures b ==> |s| >= 1
  {
    || |s| == 1
    || Contains(s, ":")
    || Contains(s, "Ctrl")
    || Contains(s, "Shift")
    || Contains(s, "Alt")
    || Contains(s, "Space")
    || Contains(s, "Home")
    || Contains(s, "End")
    || Contains(s, "Esc")
    || Contains(s, "PgUp")
    || Contains(s, "PgDn")
    || HasFunctionKey(s)
  }

  /** The normalised form of one hotkey entry: a list stays as it is, a string
      stays whole exactly when it names one combination, and a string that is
      split becomes keys which, joined again, give the string back. */
  function NormaliseOne(h: Hotkey): (r: Hotkey)
    ensures r.Unsupported? <==> h.Unsupported?
    ensures h.Steps? ==> r == h
    ensures h.Combo? ==> (r == h <==> KeptWhole(h.combo))
    ensures h.Combo? && r.Steps? ==> |r.steps| == |h.combo| && Concat(r.steps) == h.combo
  {
    match h
    case Steps(t) => Steps(t)
    case Combo(s) =>
      if KeptWhole(s) then Combo(s)
      else
        ConcatChars(s);
        Steps(Chars(s))
    case Unsupported => Unsupported
  }

  /** What normalisation contributes for one entry: entries that are neither
      strings nor lists are skipped. */
  function Normalised(h: Hotkey): seq<Hotkey> {
    if h.Unsupported? then [] else [NormaliseOne(h)]
  }

  /** No entry of the list is of an unsupported kind. */
  predicate AllSupported(hs: seq<Hotkey>) {
    forall i | 0 <= i < |hs| :: !hs[i].Unsupported?
  }

  /** The normalised hotkey list, built entry by entry from the front. It
      holds only strings and lists (other entries are dropped), so it is
      never longer than the entries it comes from. */
  function Normalise(hs: seq<Hotkey>): (r: seq<Hotkey>)
    ensures AllSupported(r)
    ensures |r| <= |hs|
  {
    if hs == [] then [] else Normalise(hs[..|hs| - 1]) + Normalised(hs[|hs| - 1])
  }

  /** The current catalog's hotkey lookup (`action_hotkeys_by_key`): each string
      is kept whole or split into its characters, lists pass through, and other
      entries are dropped. A missing key raises `KeyError`. */
  method ActionHotkeysByKey(c: Catalog, key: string) returns (r: Result<seq<Hotkey>, string>)
    ensures r.Ok? <==> key in c.actions
    ensures r.Err? ==> r.error == key
    ensures r.Ok? ==> r.value == Normalise(c.actions[key].hotkeys)
  {
    if key !in c.actions {
      return Err(key);
    }
    var hotkeys := c.actions[key].hotkeys;
    var hotkeysMod: seq<Hotkey> := [];
    var i := 0;
    while i < |hotkeys|
      invariant 0 <= i <= |hotkeys|
      invariant hotkeysMod == Normalise(hotkeys[..i])
    {
      var hotkey := hotkeys[i];
      assert hotkeys[..i + 1][..i] == hotkeys[..i];
      match hotkey {
        case Steps(t) =>
          hotkeysMod := hotkeysMod + [hotkey];
        case Combo(s) =>
          if KeptWhole(s) {
            hotkeysMod := hotkeysMod + [hotkey];
          } else {
            hotkeysMod := hotkeysMod + [Steps(Chars(s))];
          }
        case Unsupported =>
      }
      i := i + 1;
    }
    assert hotkeys[..i] == hotkeys;
    return Ok(hotkeysMod);
  }

  /** When every entry is a string or a list, normalisation keeps the count and
      the order of the hotkeys and changes each entry independently. */
  lemma {:induction false} NormalisePreservesOrder(hs: seq<Hotkey>)
    requires AllSupported(hs)
    ensures |Normalise(hs)| == |hs|
    ensures forall i | 0 <= i < |hs| :: Normalise(hs)[i] == NormaliseOne(hs[i])
  {
    if hs != [] {
      var n := |hs| - 1;
      NormalisePreservesOrder(hs[..n]);
    }
  }

  /** A split string becomes keys of one character each which, joined, give the
      string back; each such key would be kept whole on its own. */
  lemma SplitHotkeyRoundTrip(s: string)
    requires !KeptWhole(s)
    ensures NormaliseOne(Combo(s)) == Steps(Chars(s))
    ensures Concat(Chars(s)) == s
    ensures forall i | 0 <= i < |s| :: KeptWhole(Chars(s)[i])
  {
    ConcatChars(s);
  }

  lemma {:induction false} NormaliseAppend(a: seq<Hotkey>, b: seq<Hotkey>)
    ensures Normalise(a + b) == Normalise(a) + Normalise(b)
    decreases |b|
  {
    if b == [] {
      assert a + b == a;
    } else {
      var n := |b| - 1;
      assert (a + b)[..|a + b| - 1] == a + b[..n];
      NormaliseAppend(a, b[..n]);
    }
  }

  /** Normalising an already normalised list changes nothing. */
  lemma {:induction false} NormaliseIdempotent(hs: seq<Hotkey>)
    ensures Normalise(Normalise(hs)) == Normalise(hs)
  {
    if hs != [] {
      var n := |hs| - 1;
      NormaliseIdempotent(hs[..n]);
      NormaliseAppend(Normalise(hs[..n]), Normalised(hs[n]));
      var h := hs[n];
      if h.Combo? && KeptWhole(h.combo) {
        assert Normalise(Normalised(h)) == Normalise([] + [h]);
      } else if !h.Unsupported? {
        var h' := NormaliseOne(h);
        assert Normalise([h']) == Normalise([h'][..0]) + Normalised(h');
      }
    }
  }

  /** The older catalog's hotkey lookup returns the stored list untouched. */
  function ActionHotkeysByKeyOld(c: Catalog, key: string): (r: Result<seq<Hotkey>, string>)
    ensures r.Ok? <==> key in c.actions
    ensures r.Ok? ==> r.value == c.actions[key].hotkeys
  {
    if key in c.actions then Ok(c.actions[key].hotkeys) else Err(key)
  }

  /** A run of two or more lower-case letters (such as `dd` or `gg`) is typed
      key by key, so it is split into its characters. */
  lemma LowercaseRunIsSplit(s: string)
    requires |s| > 1
    requires forall i | 0 <= i < |s| :: 'a' <= s[i] <= 'z'
    ensures NormaliseOne(Combo(s)) == Steps(Chars(s))
  {
    AbsentSomeChar(s, ":", 0);
    AbsentSomeChar(s, "Ctrl", 0);
    AbsentSomeChar(s, "Shift", 0);
    AbsentSomeChar(s, "Alt", 0);
    AbsentSomeChar(s, "Space", 0);
    AbsentSomeChar(s, "Home", 0);
    AbsentSomeChar(s, "End", 0);
    AbsentSomeChar(s, "Esc", 0);
    AbsentSomeChar(s, "PgUp", 0);
    AbsentSomeChar(s, "PgDn", 0);
    assert !HasFunctionKey(s) by {
      forall i | 0 <= i < |s| - 1
        ensures !FunctionKeyAt(s, i)
      {
      }
    }
  }

  /** Concrete entries: a one-letter key, a Ctrl chord, a function key and a command. */
  lemma NormaliseExamples()
    ensures NormaliseOne(Combo("x")) == Combo("x")
    ensures NormaliseOne(Combo("Ctrl+w")) == Combo("Ctrl+w")
    ensures NormaliseOne(Combo("F12")) == Combo("F12")
    ensures NormaliseOne(Combo(":wq")) == Combo(":wq")
  {
    assert OccursAt("Ctrl+w", "Ctrl", 0);
    assert FunctionKeyAt("F12", 0);
    assert OccursAt(":wq", ":", 0);
  }
}

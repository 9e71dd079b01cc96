/** The front-end-independent part of the tutor (`BasicTutor`): the rule
    that judges an answer, the question with its notes, the help text, and
    the question preparation loop that drops progress of actions the catalog
    no longer has. */
module Tutor {
  import opened Common
  import opened Catalog
  import opened Progress
  import opened LearningStore
  import opened FileStorage

  /** How a front end classifies what the user typed. */
  datatype AnswerType = Help | Exit | RegularAnswer

  /** The rule in `tutor`: more than one block must equal a list hotkey,
      exactly one block must equal a string hotkey. Nothing is correct for an
      empty answer or when no hotkey is accepted. */
  function IsCorrectAnswer(blocks: seq<string>, accepted: seq<Hotkey>): (b: bool)
    ensures blocks == [] ==> !b
    ensures accepted == [] ==> !b
    ensures b ==> exists i | 0 <= i < |accepted| :: accepted[i].Combo? || accepted[i].Steps?
  {
    || (|blocks| > 1 && Steps(blocks) in accepted)
    || (|blocks| == 1 && Combo(blocks[0]) in accepted)
  }

  /** When one accepted hotkey is answered by the blocks: a string by the one
      block that equals it, a list of two or more keys by the same keys. */
  predicate Answers(h: Hotkey, blocks: seq<string>) {
    match h
    case Combo(s) => blocks == [s]
    case Steps(t) => |t| > 1 && t == blocks
    case Unsupported => false
  }

  /** An answer is correct exactly when it answers one of the accepted hotkeys. */
  lemma CorrectIffSomeHotkeyAnswers(blocks: seq<string>, accepted: seq<Hotkey>)
    ensures IsCorrectAnswer(blocks, accepted) <==> exists i | 0 <= i < |accepted| :: Answers(accepted[i], blocks)
  {
    if IsCorrectAnswer(blocks, accepted) {
      if |blocks| > 1 {
        var i :| 0 <= i < |accepted| && accepted[i] == Steps(blocks);
        assert Answers(accepted[i], blocks);
      } else {
        var i :| 0 <= i < |accepted| && accepted[i] == Combo(blocks[0]);
        assert blocks == [blocks[0]];
        assert Answers(accepted[i], blocks);
      }
    }
    if exists i | 0 <= i < |accepted| :: Answers(accepted[i], blocks) {
      var i :| 0 <= i < |accepted| && Answers(accepted[i], blocks);
      if accepted[i].Steps? {
        assert |blocks| > 1 && accepted[i] == Steps(blocks);
      } else {
        assert |blocks| == 1 && accepted[i] == Combo(blocks[0]);
      }
    }
  }

  /** An empty answer is never correct, and neither is any answer to a list
      hotkey of a single key: one block is only ever compared with strings. */
  lemma UnanswerableCases(accepted: seq<Hotkey>, key: string)
    ensures !IsCorrectAnswer([], accepted)
    ensures forall blocks: seq<string> :: !Answers(Steps([key]), blocks)
  {
  }

  /** `Ctrl+w` typed as one block answers the hotkey `Ctrl+w`; typed as the
      blocks `Ctrl` and `w` it does not. */
  lemma CtrlComboExample()
    ensures IsCorrectAnswer(["Ctrl+w"], [Combo("Ctrl+w")])
    ensures !IsCorrectAnswer(["Ctrl", "w"], [Combo("Ctrl+w")])
  {
    assert [Combo("Ctrl+w")][0] == Combo("Ctrl+w");
  }

  /** Judging a regular answer for an action of the catalog scores it in the
      store as correct or wrong. */
  method JudgeAnswer(store: LearningResultsStorage, c: Catalog, key: string, blocks: seq<string>) returns (correct: bool)
    requires store.Valid()
    requires key in c.actions
    modifies store
    ensures store.Valid()
    ensures correct <==> IsCorrectAnswer(blocks, Normalise(c.actions[key].hotkeys))
    ensures store.data == Scored(old(store.data), key, correct)
    ensures store.prev == old(store.prev)
  {
    var hotkeys := ActionHotkeysByKey(c, key);
    if IsCorrectAnswer(blocks, hotkeys.value) {
      store.SetActionGuessCorrect(key);
      correct := true;
    } else {
      store.SetActionGuessWrong(key);
      correct := false;
    }
  }

  /** The answer type as the question names it: a string as it is, a list
      joined with ` or `; anything else is the `ValueError` of a bad type. */
  function KindText(kind: Kind): (r: Result<string, Kind>)
    ensures r.Err? <==> kind.KindUnsupported?
    ensures kind.KindName? ==> r == Ok(kind.name)
    ensures kind.KindNames? ==> r == Ok(Join(" or ", kind.names))
  {
    match kind
    case KindName(n) => Ok(n)
    case KindNames(ns) => Ok(Join(" or ", ns))
    case KindUnsupported => Err(kind)
  }

  /** `'command' in key_combination_type`: a substring test on a string, a
      membership test on a list. */
  function NamesCommand(kind: Kind): (b: bool)
    ensures kind == KindName("command") ==> b
    ensures kind.KindUnsupported? ==> !b
  {
    assert OccursAt("command", "command", 0);
    match kind
    case KindName(n) => Contains(n, "command")
    case KindNames(ns) => "command" in ns
    case KindUnsupported => false
  }

  const ColonNote: string := "Commands should be prepended with \":\""

  /** `notes_for_asked_action` of the base tutor. A type of another kind never
      reaches the notes, since the question raises on it first. */
  function BaseNotes(kind: Kind): (notes: seq<string>)
    ensures |notes| <= 1
    ensures notes == [ColonNote] <==> NamesCommand(kind)
    ensures notes == [] <==> !NamesCommand(kind)
  {
    if NamesCommand(kind) then [ColonNote] else []
  }

  /** The colon note for a command, for a list of types that names one, and
      for no plain hotkey. */
  lemma ColonNoteExamples()
    ensures BaseNotes(KindName("command")) == [ColonNote]
    ensures BaseNotes(KindNames(["hotkey", "command"])) == [ColonNote]
    ensures BaseNotes(KindName("hotkey")) == []
  {
    assert OccursAt("command", "command", 0);
    assert ["hotkey", "command"][1] == "command";
    AbsentSomeChar("hotkey", "command", 0);
  }

  /** The numbered note lines `\n1. ...`, `\n2. ...`, built one after another. */
  function Numbered(notes: seq<string>): string {
    if notes == [] then ""
    else Numbered(notes[..|notes| - 1]) + "\n" + NatToString(|notes|) + ". " + notes[|notes| - 1]
  }

  /** What follows the question line: nothing, one `NOTE:`, or numbered `NOTES:`. */
  function NotesBlock(notes: seq<string>): (b: string)
    ensures b == "" <==> notes == []
    ensures |notes| == 1 ==> b == "\nNOTE: " + notes[0]
    ensures |notes| > 1 ==> |b| >= 7 && b[..7] == "\nNOTES:"
  {
    if |notes| == 0 then ""
    else if |notes| == 1 then "\nNOTE: " + notes[0]
    else "\nNOTES:" + Numbered(notes)
  }

  /** The question line before upper-casing. */
  function QuestionLine(kindText: string, description: string): string {
    "What is " + kindText + " for \"" + description + "\"?"
  }

  /** The whole question: the upper-cased line, the notes and the prompt. */
  function QuestionText(kindText: string, description: string, notes: seq<string>): (q: string)
    ensures |q| >= |QuestionLine(kindText, description)| + 3 && q[|q| - 3..] == "\n> "
    ensures q[..|QuestionLine(kindText, description)|] == Upper(QuestionLine(kindText, description))
    ensures forall i | 0 <= i < |QuestionLine(kindText, description)| :: !('a' <= q[i] <= 'z')
  {
    var line := Upper(QuestionLine(kindText, description));
    var q := line + NotesBlock(notes) + "\n> ";
    assert q[..|line|] == line;
    q
  }

  /** Adding one more note adds one numbered line. */
  lemma NumberedGrows(notes: seq<string>, note: string)
    ensures Numbered(notes + [note]) == Numbered(notes) + "\n" + NatToString(|notes| + 1) + ". " + note
  {
    assert (notes + [note])[..|notes|] == notes;
  }

  /** One note is shown after `NOTE:`, unnumbered. */
  lemma OneNoteBlock(a: string)
    ensures NotesBlock([a]) == "\nNOTE: " + a
  {
  }

  /** Several notes are numbered from 1, in order. */
  lemma TwoNotesBlock(a: string, b: string)
    ensures NotesBlock([a, b]) == "\nNOTES:\n1. " + a + "\n2. " + b
  {
    assert [a, b][..1] == [a] && [a][..0] == [];
    assert NatToString(1) == "1" && NatToString(2) == "2";
    var one := "\n1. " + a;
    assert Numbered([a]) == "" + "\n" + "1" + ". " + a;
    assert Numbered([a]) == one;
    assert Numbered([a, b]) == one + "\n" + "2" + ". " + b;
  }

  /** The quoted help entry of one hotkey; an entry of another kind raises
      `NotImplementedError`. */
  function HelpEntry(h: Hotkey): (r: Result<string, string>)
    ensures r.Ok? <==> !h.Unsupported?
    ensures r.Err? ==> r.error == "NotImplementedError"
    ensures r.Ok? ==> |r.value| >= 2 && r.value[0] == '"' && r.value[|r.value| - 1] == '"'
    ensures h.Combo? ==> r.value[1..|r.value| - 1] == h.combo
    ensures h.Steps? ==> r.value[1..|r.value| - 1] == Join(",", h.steps)
  {
    match h
    case Steps(t) => Ok("\"" + Join(",", t) + "\"")
    case Combo(s) => Ok("\"" + s + "\"")
    case Unsupported => Err("NotImplementedError")
  }

  /** The help entries of a list of hotkeys, in order. */
  function HelpEntries(hs: seq<Hotkey>): (r: Result<seq<string>, string>)
    ensures r.Ok? <==> AllSupported(hs)
    ensures r.Ok? ==> |r.value| == |hs| && forall i | 0 <= i < |hs| :: HelpEntry(hs[i]) == Ok(r.value[i])
  {
    if hs == [] then Ok([])
    else
      match HelpEntries(hs[..|hs| - 1])
      case Err(e) => Err(e)
      case Ok(entries) =>
        match HelpEntry(hs[|hs| - 1])
        case Err(e) => Err(e)
        case Ok(entry) => Ok(entries + [entry])
  }

  /** The message of `show_help_for_action`. */
  function HelpMessage(description: string, entries: seq<string>): (m: string)
    ensures var head := "\nKey combination(s) for \"" + description + "\": ";
      |m| >= |head| && m[..|head|] == head && m[|head|..] == Join(" or ", entries)
  {
    var head := "\nKey combination(s) for \"" + description + "\": ";
    assert (head + Join(" or ", entries))[..|head|] == head;
    head + Join(" or ", entries)
  }

  /** `show_help_for_action`: one quoted entry per accepted hotkey, collected
      in a loop and joined with ` or `. */
  method ShowHelpForAction(c: Catalog, key: string) returns (r: Result<string, string>)
    requires key in c.actions
    ensures var hs := Normalise(c.actions[key].hotkeys);
      && AllSupported(hs)
      && r == Ok(HelpMessage(c.actions[key].description, HelpEntries(hs).value))
  {
    var hotkeys := ActionHotkeysByKey(c, key);
    var hs := hotkeys.value;
    var helps: seq<string> := [];
    var i := 0;
    while i < |hs|
      invariant 0 <= i <= |hs|
      invariant HelpEntries(hs[..i]) == Ok(helps)
    {
      assert hs[..i + 1][..i] == hs[..i];
      match hs[i] {
        case Steps(t) =>
          helps := helps + ["\"" + Join(",", t) + "\""];
        case Combo(s) =>
          helps := helps + ["\"" + s + "\""];
      }
      i := i + 1;
    }
    assert hs[..i] == hs;
    r := Ok(HelpMessage(c.actions[key].description, helps));
  }

  /** Why a question could not be prepared. */
  datatype QuestionError =
    | NoKeyToAsk              // `raise Exception('random_action_key is None')`
    | SelectionError(e: Selection) // an empty store, or the draws ran out
    | BadType(kind: Kind)     // `ValueError`: a type that is neither a string nor a list

  /** The first half of `prepare_question`: draws keys until one resolves in
      the catalog, removing the progress of every drawn key the catalog does
      not have (its `KeyError` names the key). */
  method DrawAskableKey(store: LearningResultsStorage, c: Catalog, draws: seq<nat>) returns (r: Result<string, QuestionError>)
    requires store.Valid()
    modifies store
    ensures store.Valid()
    ensures r.Ok? ==> r.value in c.actions && store.prev == Some(r.value)
    ensures r.Ok? ==> r.value in store.data.records && !ActionSuccess(store.data.records[r.value])
    ensures r == Err(NoKeyToAsk) ==> AllLearned(store.data, store.catalogKeys)
    ensures AllLearned(old(store.data), store.catalogKeys) ==> r == Err(NoKeyToAsk) && store.data == old(store.data)
    ensures r.Err? ==> r.error.NoKeyToAsk? || r.error.SelectionError?
    ensures r.Err? && r.error.SelectionError? ==>
      (r.error.e == EmptyStoreError && store.data.records == map[]) || r.error.e == DrawsExhausted
    // only records of keys the catalog lacks are removed, and nothing else changes
    ensures forall k | k in store.data.records :: k in old(store.data.records) && store.data.records[k] == old(store.data.records)[k]
    ensures forall k | k in old(store.data.records) && k !in store.data.records :: k !in c.actions
  {
    var pos := 0;
    while true
      invariant store.Valid()
      invariant 0 <= pos <= |draws|
      invariant forall k | k in store.data.records :: k in old(store.data.records) && store.data.records[k] == old(store.data.records)[k]
      invariant forall k | k in old(store.data.records) && k !in store.data.records :: k !in c.actions
      invariant AllLearned(old(store.data), store.catalogKeys) ==> store.data == old(store.data)
      decreases |store.data.records|
    {
      SelectMeaning(store.data, store.catalogKeys, store.prev, draws[pos..], 0);
      var selection, used := store.RandomNonlearnedActionKey(draws[pos..]);
      pos := pos + used;
      match selection {
        case NoneAllLearned =>
          return Err(NoKeyToAsk);
        case EmptyStoreError =>
          return Err(SelectionError(selection));
        case DrawsExhausted =>
          return Err(SelectionError(selection));
        case Picked(key) =>
          if key in c.actions {
            return Ok(key);
          }
          var _ := store.RemoveResultsForAction(key);
      }
    }
  }

  /** The notes part of `prepare_question`: one `NOTE:`, or `NOTES:` and the
      notes numbered from 1 in a loop. */
  method NotesText(notes: seq<string>) returns (block: string)
    ensures block == NotesBlock(notes)
  {
    block := "";
    if |notes| == 1 {
      block := "\nNOTE: " + notes[0];
    } else if |notes| > 1 {
      var i := 0;
      var numbered := "";
      while i < |notes|
        invariant 0 <= i <= |notes|
        invariant numbered == Numbered(notes[..i])
      {
        assert notes[..i + 1][..i] == notes[..i];
        numbered := numbered + "\n" + NatToString(i + 1) + ". " + notes[i];
        i := i + 1;
      }
      assert notes[..i] == notes;
      block := "\nNOTES:" + numbered;
    }
  }

  /** `prepare_question`: a key to ask and its question. `notesFor` is the
      front end's `notes_for_asked_action`, given the action's type and
      hotkeys. */
  method PrepareQuestion(store: LearningResultsStorage, c: Catalog, notesFor: (Kind, seq<Hotkey>) -> seq<string>, draws: seq<nat>)
    returns (r: Result<(string, string), QuestionError>)
    requires store.Valid()
    modifies store
    ensures store.Valid()
    ensures r.Ok? ==> r.value.0 in c.actions && store.prev == Some(r.value.0)
    ensures r.Ok? ==> r.value.0 in store.data.records && !ActionSuccess(store.data.records[r.value.0])
    ensures r.Ok? ==>
      var a := c.actions[r.value.0];
      var kind := a.kind.GetOr(KindName("hotkey"));
      KindText(kind).Ok?
      && r.value.1 == QuestionText(KindText(kind).value, a.description, notesFor(kind, Normalise(a.hotkeys)))
    ensures r.Err? && r.error.BadType? ==> r.error.kind.KindUnsupported?
    ensures r == Err(NoKeyToAsk) ==> AllLearned(store.data, store.catalogKeys)
    ensures AllLearned(old(store.data), store.catalogKeys) ==> r == Err(NoKeyToAsk) && store.data == old(store.data)
    ensures forall k | k in store.data.records :: k in old(store.data.records) && store.data.records[k] == old(store.data.records)[k]
    ensures forall k | k in old(store.data.records) && k !in store.data.records :: k !in c.actions
  {
    var drawn := DrawAskableKey(store, c, draws);
    if drawn.Err? {
      return Err(drawn.error);
    }
    var key := drawn.value;
    var kind := KeyCombinationType(c, key).value;
    var kindText := KindText(kind);
    if kindText.Err? {
      return Err(BadType(kind));
    }
    var hotkeys := ActionHotkeysByKey(c, key);
    var notes := notesFor(kind, hotkeys.value);
    var block := NotesText(notes);
    var question := Upper(QuestionLine(kindText.value, c.actions[key].description)) + block + "\n> ";
    return Ok((key, question));
  }
}

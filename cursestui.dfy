/** The curses screen front end (`CursesTuiTutor`): a loop over key codes
    that moves between interface states, collects the typed tokens of an
    answer in the input block, judges them and scores the asked action.

    The transition of one loop pass is the pure function `Transition`; the
    whole session is `Run`, and the class's loop is proved to compute it. */
module CursesTui {
  import opened Common
  import opened Catalog
  import opened Progress
  import opened LearningStore
  import opened FileStorage
  import opened Tutor
  import CursesText

  // ---------------------------------------------------------------------
  // The input block
  // ---------------------------------------------------------------------

  const Prompt: string := "> "

  /** What the input block shows for the tokens typed so far: the prompt,
      then the tokens run together when the first one is `:` (a command),
      and separated by `, ` otherwise. */
  function InputText(tokens: seq<string>): (t: string)
    ensures |t| >= |Prompt| && t[..|Prompt|] == Prompt
    ensures |tokens| > 0 && tokens[0] == ":" ==> t[|Prompt|..] == Concat(tokens)
    ensures !(|tokens| > 0 && tokens[0] == ":") ==> t[|Prompt|..] == Join(", ", tokens)
  {
    Prompt + (if |tokens| > 0 && tokens[0] == ":" then Concat(tokens) else Join(", ", tokens))
  }

  /** `InputAnswerDisplayBlock`: the last block of the answer screen, whose
      token list the loop edits in place. */
  class InputAnswerDisplayBlock {
    var inputKeyCombinations: seq<string>

    constructor ()
      ensures inputKeyCombinations == []
      ensures Text() == Prompt
    {
      inputKeyCombinations := [];
    }

    /** The `text` property. */
    function Text(): (t: string)
      reads this
      ensures t == InputText(inputKeyCombinations)
    {
      InputText(inputKeyCombinations)
    }

    /** Assigning `text` is refused with `NotImplementedError`. */
    method SetText(value: string) returns (r: Result<(), string>)
      ensures r == Err("NotImplementedError")
    {
      return Err("NotImplementedError");
    }
  }

  // ---------------------------------------------------------------------
  // Key codes and tokens
  // ---------------------------------------------------------------------

  const CtrlE := 5
  const CtrlH := 8
  const Enter := 10
  const KeyBackspace := 263
  /** `chr` refuses codes from here on (and negative ones) with `ValueError`. */
  const MaxChr := 0x11_0000

  /** `chr(k)` is in `string.ascii_lowercase`, `ascii_uppercase`, `digits`
      or `punctuation` (`!` to `/`, `:` to `@`, `[` to the backquote, and `{`
      to `~`). Together they are exactly the visible ASCII characters. */
  function Typable(k: int): (b: bool)
    ensures b <==> 33 <= k <= 126
  {
    || ('a' as int <= k <= 'z' as int)
    || ('A' as int <= k <= 'Z' as int)
    || ('0' as int <= k <= '9' as int)
    || ('!' as int <= k <= '/' as int)
    || (':' as int <= k <= '@' as int)
    || ('[' as int <= k <= '`' as int)
    || ('{' as int <= k <= '~' as int)
  }

  /** The token a key code adds to the answer as the code is written: a
      typable character as itself, codes 1 to 32 as `Ctrl+` and the letter
      at position code - 1 of the 26 lowercase letters, which raises
      `IndexError` for 27 to 32, and nothing for any other code. */
  function TokenAsWritten(k: int): (r: Result<Option<string>, string>)
    requires 0 <= k < MaxChr
    ensures r.Err? ==> r.error == "IndexError" && 1 <= k <= 32
    ensures r.Ok? ==> r.value == Token(k)
  {
    if Typable(k) then Ok(Some([k as char]))
    else if 1 <= k <= 32 then
      (if k <= |CursesText.AsciiLowercase| then Ok(Some(CursesText.CtrlName(k))) else Err("IndexError"))
    else Ok(None)
  }

  /** The token a key code adds, with the evident intent of the Ctrl
      mapping: control codes 27 to 32 have no letter and are ignored. */
  function Token(k: int): (t: Option<string>)
    requires 0 <= k < MaxChr
    ensures 33 <= k <= 126 ==> t == Some([k as char])
    ensures 1 <= k <= 26 ==> t == Some("Ctrl+" + [CursesText.AsciiLowercase[k - 1]])
    ensures k == 0 || 27 <= k <= 32 || k >= 127 ==> t == None
  {
    if Typable(k) then Some([k as char])
    else if 1 <= k <= 26 then Some(CursesText.CtrlName(k))
    else None
  }

  /** The as-written mapping fails exactly on codes 27 to 32 (Esc, the three
      separators, `US` and space) and otherwise agrees with `Token`. */
  lemma TokenAsWrittenFails(k: int)
    requires 0 <= k < MaxChr
    ensures TokenAsWritten(k).Err? <==> 27 <= k <= 32
    ensures TokenAsWritten(k).Ok? ==> TokenAsWritten(k).value == Token(k)
    ensures TokenAsWritten(32) == Err("IndexError") && TokenAsWritten(27) == Err("IndexError")
  {
  }

  // ---------------------------------------------------------------------
  // Judging an answer
  // ---------------------------------------------------------------------

  /** The CHECKING_ANSWER condition on the tokens and the action's accepted
      hotkeys. Without a `:` token the screen judges as the line-based front
      ends do; with one, the tokens count as the single typed command they
      spell. */
  function TuiCorrect(tokens: seq<string>, accepted: seq<Hotkey>): (b: bool)
    ensures ":" !in tokens ==> (b <==> IsCorrectAnswer(tokens, accepted))
    ensures ":" in tokens && |tokens| >= 1 ==> (b <==> IsCorrectAnswer([Concat(tokens)], accepted))
    ensures b ==> |tokens| >= 1
  {
    assert |tokens| == 1 ==> tokens[..0] == [] && Concat(tokens) == tokens[0];
    || (|tokens| > 1 && Steps(tokens) in accepted && ":" !in tokens)
    || (|tokens| > 1 && ":" in tokens && Combo(Concat(tokens)) in accepted)
    || (|tokens| == 1 && Combo(tokens[0]) in accepted)
  }

  /** A command answer is judged by the text the input block shows after
      the prompt. */
  lemma JudgedAsDisplayed(tokens: seq<string>, accepted: seq<Hotkey>)
    requires |tokens| > 1 && tokens[0] == ":"
    ensures TuiCorrect(tokens, accepted) <==> Combo(InputText(tokens)[|Prompt|..]) in accepted
  {
    assert tokens[0] in tokens;
  }

  /** `hk_storage.action_hotkeys_by_key(self._action_key)`: the normalised
      hotkeys, or `KeyError` naming the key (`None` when no key was asked). */
  function Accepted(c: Catalog, actionKey: Option<string>): (r: Result<seq<Hotkey>, string>)
    ensures r.Ok? <==> actionKey.Some? && actionKey.value in c.actions
    ensures r.Ok? ==> AllSupported(r.value)
  {
    match actionKey
    case None => Err("None")
    case Some(key) =>
      if key in c.actions then
        Ok(Normalise(c.actions[key].hotkeys))
      else Err(key)
  }

  // ---------------------------------------------------------------------
  // One pass of the loop
  // ---------------------------------------------------------------------

  datatype InterfaceState =
    | AskingQuestion
    | AnswerInput
    | CheckingAnswer
    | CorrectAnswer
    | IncorrectAnswer
    | CheckingIfHelpIsNeeded
    | ShowingHelp
    | AllSuccess
    | PendingEnter
    | Quit

  /** The loop's state: the interface state, the state PENDING_ENTER leads
      to, the asked action and the tokens of the current input block. */
  datatype Machine = Machine(
    state: InterfaceState,
    next: Option<InterfaceState>,
    actionKey: Option<string>,
    tokens: seq<string>)

  /** Why the loop ended. `Crashed` is an exception, which `tutor` swallows. */
  datatype StopReason = CtrlEPressed | QuitReached | Crashed(error: string) | NoQuestion | KeysExhausted

  /** After a pass: read the next key, run the loop again on the same key
      (a `continue`), or leave the loop. */
  datatype Continue = ReadKey | SameKey | Stop(reason: StopReason)

  /** What the pass does to the progress store, or the question it asks. */
  datatype Effect = NoEffect | Ask(key: string) | ScoreCorrect(action: string) | ScoreWrong(action: string)

  datatype Step = Step(m: Machine, effect: Effect, cont: Continue)

  /** States in which an action has been asked. */
  predicate HasAction(s: InterfaceState) {
    s.AnswerInput? || s.CheckingAnswer? || s.CorrectAnswer? || s.IncorrectAnswer?
    || s.CheckingIfHelpIsNeeded? || s.ShowingHelp?
  }

  /** What the loop keeps true: PENDING_ENTER knows where to go, and that
      is to a question or to the end; an answer is always for an action. */
  predicate Inv(m: Machine) {
    && (m.state.PendingEnter? ==> m.next.Some?)
    && (m.next.Some? ==> m.next.value.AskingQuestion? || m.next.value.Quit?)
    && (HasAction(m.state) ==> m.actionKey.Some?)
  }

  /** How many same-key passes a state can still take before a key is read
      or the loop ends. */
  function Rank(s: InterfaceState): nat {
    match s
    case Quit => 0
    case AskingQuestion => 1
    case AllSuccess => 1
    case ShowingHelp => 1
    case CorrectAnswer => 1
    case IncorrectAnswer => 1
    case PendingEnter => 2
    case CheckingAnswer => 2
    case CheckingIfHelpIsNeeded => 2
    case AnswerInput => 3
  }

  /** The per-state branch of a pass, once the Ctrl+e test and the
      all-learned override are done. `accepted` is the lookup CHECKING_ANSWER
      makes and `asked` the key `prepare_question` returns, if any. */
  function Dispatch(m: Machine, k: int, accepted: Result<seq<Hotkey>, string>, asked: Option<string>): (s: Step)
    requires Inv(m)
    ensures Inv(s.m)
    ensures s.cont == SameKey ==> Rank(s.m.state) < Rank(m.state)
  {
    match m.state
    case AllSuccess => Step(m.(state := PendingEnter, next := Some(Quit)), NoEffect, ReadKey)
    case AskingQuestion =>
      (match asked
       case None => Step(m, NoEffect, Stop(NoQuestion))
       case Some(key) => Step(m.(state := AnswerInput, actionKey := Some(key), tokens := []), Ask(key), ReadKey))
    case AnswerInput =>
      if k < 0 || k >= MaxChr then Step(m, NoEffect, Stop(Crashed("ValueError")))
      else if k == KeyBackspace then
        Step(m.(tokens := if |m.tokens| > 0 then m.tokens[..|m.tokens| - 1] else m.tokens), NoEffect, ReadKey)
      else if k == CtrlH then Step(m.(state := ShowingHelp), NoEffect, SameKey)
      else if k == Enter then Step(m.(state := CheckingAnswer), NoEffect, SameKey)
      else
        (match Token(k)
         case Some(t) => Step(m.(tokens := m.tokens + [t]), NoEffect, ReadKey)
         case None => Step(m, NoEffect, ReadKey))
    case CheckingAnswer =>
      if |m.tokens| == 0 then Step(m.(state := IncorrectAnswer), NoEffect, SameKey)
      else
        (match accepted
         case Err(e) => Step(m, NoEffect, Stop(Crashed("KeyError")))
         case Ok(hs) =>
           Step(m.(state := if TuiCorrect(m.tokens, hs) then CorrectAnswer else IncorrectAnswer), NoEffect, SameKey))
    case CorrectAnswer =>
      Step(m.(state := PendingEnter, next := Some(AskingQuestion)), ScoreCorrect(m.actionKey.value), ReadKey)
    case IncorrectAnswer =>
      Step(m.(state := CheckingIfHelpIsNeeded), ScoreWrong(m.actionKey.value), ReadKey)
    case CheckingIfHelpIsNeeded =>
      if k < 0 || k >= MaxChr then Step(m, NoEffect, Stop(Crashed("ValueError")))
      else if k == 'y' as int then Step(m.(state := ShowingHelp), NoEffect, SameKey)
      else if k == 'n' as int then Step(m.(state := AskingQuestion), NoEffect, SameKey)
      else Step(m, NoEffect, ReadKey)
    case ShowingHelp => Step(m.(state := PendingEnter, next := Some(AskingQuestion)), NoEffect, ReadKey)
    case PendingEnter =>
      if k == Enter then Step(m.(state := m.next.value, next := None), NoEffect, SameKey)
      else Step(m, NoEffect, ReadKey)
    case Quit => Step(m, NoEffect, Stop(QuitReached))
  }

  /** The state the all-learned test leaves: ALL_SUCCESS unless the loop is
      waiting for Enter or quitting. */
  function Overridden(m: Machine, allLearned: bool): Machine {
    if allLearned && !m.state.PendingEnter? && !m.state.Quit? then m.(state := AllSuccess) else m
  }

  /** One pass of `_tutor_internal` on key code `k`. */
  function Transition(m: Machine, k: int, allLearned: bool, accepted: Result<seq<Hotkey>, string>, asked: Option<string>): (s: Step)
    requires Inv(m)
    ensures Inv(s.m)
    ensures s.cont == SameKey ==> Rank(s.m.state) < Rank(m.state)
  {
    if k == CtrlE then Step(m, NoEffect, Stop(CtrlEPressed))
    else Dispatch(Overridden(m, allLearned), k, accepted, asked)
  }

  /** The store after a pass's effect. */
  function Applied(data: Store, e: Effect): (t: Store)
    requires Indexed(data)
    ensures Indexed(t)
  {
    match e
    case ScoreCorrect(key) => Scored(data, key, true)
    case ScoreWrong(key) => Scored(data, key, false)
    case _ => data
  }

  /** The end of a session: the loop's state, the store and the reason. */
  datatype Session = Session(m: Machine, data: Store, reason: StopReason)

  /** The whole loop from key `k` on, with the keys still to be read and
      the keys the coming questions will ask. */
  function Run(m: Machine, data: Store, k: int, keys: seq<int>, asked: seq<string>, c: Catalog, catalogKeys: seq<string>): (r: Session)
    requires Inv(m) && Indexed(data)
    ensures Inv(r.m) && Indexed(r.data)
    decreases |keys|, Rank(m.state)
  {
    var s := Transition(m, k, AllLearned(data, catalogKeys), Accepted(c, m.actionKey), if asked == [] then None else Some(asked[0]));
    var data' := Applied(data, s.effect);
    var asked' := if s.effect.Ask? && asked != [] then asked[1..] else asked;
    match s.cont
    case Stop(reason) => Session(s.m, data', reason)
    case SameKey => Run(s.m, data', k, keys, asked', c, catalogKeys)
    case ReadKey => if keys == [] then Session(s.m, data', KeysExhausted) else Run(s.m, data', keys[0], keys[1..], asked', c, catalogKeys)
  }

  // ---------------------------------------------------------------------
  // Properties of a pass
  // ---------------------------------------------------------------------

  /** Key 5 (Ctrl+e) ends the loop in every state, changing nothing. */
  lemma CtrlEEnds(m: Machine, allLearned: bool, accepted: Result<seq<Hotkey>, string>, asked: Option<string>)
    requires Inv(m)
    ensures Transition(m, CtrlE, allLearned, accepted, asked) == Step(m, NoEffect, Stop(CtrlEPressed))
  {
  }

  /** Once every action is learned, any state but PENDING_ENTER and QUIT
      becomes ALL_SUCCESS, which waits for Enter and then quits. */
  lemma AllSuccessTakesOver(m: Machine, k: int, accepted: Result<seq<Hotkey>, string>, asked: Option<string>)
    requires Inv(m) && k != CtrlE && !m.state.PendingEnter? && !m.state.Quit?
    ensures Transition(m, k, true, accepted, asked)
         == Step(m.(state := PendingEnter, next := Some(Quit)), NoEffect, ReadKey)
  {
  }

  /** Leaving the loop happens only on Ctrl+e, in QUIT, when no question
      can be asked, or on an exception. */
  lemma StopsOnlyThere(m: Machine, k: int, allLearned: bool, accepted: Result<seq<Hotkey>, string>, asked: Option<string>)
    requires Inv(m)
    ensures var s := Transition(m, k, allLearned, accepted, asked);
      s.cont.Stop? ==>
        || (k == CtrlE && s.cont.reason == CtrlEPressed)
        || (m.state.Quit? && s.cont.reason == QuitReached)
        || (asked.None? && Overridden(m, allLearned).state.AskingQuestion? && s.cont.reason == NoQuestion)
        || s.cont.reason.Crashed?
    ensures Transition(m, k, allLearned, accepted, asked).cont != Stop(KeysExhausted)
  {
  }

  /** The keys of the answer screen, for every code `chr` accepts. */
  lemma AnswerInputKeys(m: Machine, k: int, accepted: Result<seq<Hotkey>, string>, asked: Option<string>)
    requires Inv(m) && m.state.AnswerInput? && k != CtrlE && 0 <= k < MaxChr
    ensures var s := Transition(m, k, false, accepted, asked);
      && s.effect == NoEffect
      && (k == KeyBackspace ==> s == Step(m.(tokens := if |m.tokens| > 0 then m.tokens[..|m.tokens| - 1] else []), NoEffect, ReadKey))
      && (k == CtrlH ==> s == Step(m.(state := ShowingHelp), NoEffect, SameKey))
      && (k == Enter ==> s == Step(m.(state := CheckingAnswer), NoEffect, SameKey))
      && (33 <= k <= 126 ==> s == Step(m.(tokens := m.tokens + [[k as char]]), NoEffect, ReadKey))
      && (1 <= k <= 26 && k != CtrlH && k != Enter ==>
            s == Step(m.(tokens := m.tokens + ["Ctrl+" + [CursesText.AsciiLowercase[k - 1]]]), NoEffect, ReadKey))
      && ((k == 0 || 27 <= k <= 32 || 127 <= k < KeyBackspace || k > KeyBackspace) ==> s == Step(m, NoEffect, ReadKey))
  {
  }

  /** CHECKING_ANSWER goes to CORRECT_ANSWER exactly when the tokens match
      an accepted hotkey, and an empty answer is wrong without a lookup. */
  lemma CheckingJudges(m: Machine, hs: seq<Hotkey>, asked: Option<string>)
    requires Inv(m) && m.state.CheckingAnswer?
    ensures var s := Transition(m, 0, false, Ok(hs), asked);
      && s.cont == SameKey && s.effect == NoEffect
      && (s.m.state.CorrectAnswer? <==> TuiCorrect(m.tokens, hs))
      && (!s.m.state.CorrectAnswer? ==> s.m.state.IncorrectAnswer?)
      && s.m == m.(state := s.m.state)
    ensures |m.tokens| == 0 ==>
      forall e: string :: Transition(m, 0, false, Err(e), asked).m.state.IncorrectAnswer?
  {
  }

  /** Only CORRECT_ANSWER scores a correct guess and only INCORRECT_ANSWER
      a wrong one, both for the asked action. */
  lemma ScoringStates(m: Machine, k: int, accepted: Result<seq<Hotkey>, string>, asked: Option<string>)
    requires Inv(m) && k != CtrlE
    ensures var s := Transition(m, k, false, accepted, asked);
      && (s.effect.ScoreCorrect? <==> m.state.CorrectAnswer?)
      && (s.effect.ScoreWrong? <==> m.state.IncorrectAnswer?)
      && (s.effect.ScoreCorrect? ==>
            s.effect.action == m.actionKey.value && s.m.state.PendingEnter? && s.m.next == Some(AskingQuestion))
      && (s.effect.ScoreWrong? ==> s.effect.action == m.actionKey.value && s.m.state.CheckingIfHelpIsNeeded?)
  {
  }

  /** `y` asks for help, `n` for the next question, other keys wait; help
      then waits for Enter before the next question. */
  lemma HelpQuestion(m: Machine, k: int, accepted: Result<seq<Hotkey>, string>, asked: Option<string>)
    requires Inv(m) && k != CtrlE && 0 <= k < MaxChr
    ensures m.state.CheckingIfHelpIsNeeded? ==>
      var s := Transition(m, k, false, accepted, asked);
      && (k == 'y' as int ==> s == Step(m.(state := ShowingHelp), NoEffect, SameKey))
      && (k == 'n' as int ==> s == Step(m.(state := AskingQuestion), NoEffect, SameKey))
      && (k != 'y' as int && k != 'n' as int ==> s == Step(m, NoEffect, ReadKey))
    ensures m.state.ShowingHelp? ==>
      Transition(m, k, false, accepted, asked) == Step(m.(state := PendingEnter, next := Some(AskingQuestion)), NoEffect, ReadKey)
  {
  }

  /** PENDING_ENTER ignores every key but Enter, even once all is learned,
      and Enter moves to the stored state and clears it. */
  lemma PendingWaitsForEnter(m: Machine, k: int, allLearned: bool, accepted: Result<seq<Hotkey>, string>, asked: Option<string>)
    requires Inv(m) && m.state.PendingEnter? && k != CtrlE
    ensures k != Enter ==> Transition(m, k, allLearned, accepted, asked) == Step(m, NoEffect, ReadKey)
    ensures k == Enter ==>
      Transition(m, k, allLearned, accepted, asked) == Step(m.(state := m.next.value, next := None), NoEffect, SameKey)
  {
  }

  /** A question starts an empty answer for the asked key. */
  lemma AskingStartsAnswer(m: Machine, k: int, accepted: Result<seq<Hotkey>, string>, key: string)
    requires Inv(m) && m.state.AskingQuestion? && k != CtrlE
    ensures Transition(m, k, false, accepted, Some(key))
         == Step(Machine(AnswerInput, m.next, Some(key), []), Ask(key), ReadKey)
  {
  }

  // ---------------------------------------------------------------------
  // Sessions
  // ---------------------------------------------------------------------

  /** Typing the one accepted key of an action and Enter scores the action
      correct and waits for Enter before the next question. */
  lemma {:induction false} TypedAnswerScores(data: Store, c: Catalog, catalogKeys: seq<string>, key: string, k: int)
    requires Indexed(data) && !AllLearned(data, catalogKeys)
    requires key in c.actions && 33 <= k <= 126 && Combo([k as char]) in Normalise(c.actions[key].hotkeys)
    ensures Run(Machine(AnswerInput, None, Some(key), []), data, k, [Enter], [], c, catalogKeys)
         == Session(Machine(PendingEnter, Some(AskingQuestion), Some(key), [[k as char]]), Scored(data, key, true), KeysExhausted)
  {
    var m0 := Machine(AnswerInput, None, Some(key), []);
    var m1 := m0.(tokens := [[k as char]]);
    var m2 := m1.(state := CheckingAnswer);
    var m3 := m1.(state := CorrectAnswer);
    var acc := Accepted(c, Some(key));
    assert Transition(m0, k, false, acc, None) == Step(m1, NoEffect, ReadKey);
    assert [Enter][1..] == [];
    assert Transition(m1, Enter, false, acc, None) == Step(m2, NoEffect, SameKey);
    assert TuiCorrect(m2.tokens, acc.value);
    assert Transition(m2, Enter, false, acc, None) == Step(m3, NoEffect, SameKey);
    var m4 := m3.(state := PendingEnter, next := Some(AskingQuestion));
    assert Transition(m3, Enter, false, acc, None) == Step(m4, ScoreCorrect(key), ReadKey);
    calc {
      Run(m0, data, k, [Enter], [], c, catalogKeys);
      Run(m1, data, Enter, [], [], c, catalogKeys);
      Run(m2, data, Enter, [], [], c, catalogKeys);
      Run(m3, data, Enter, [], [], c, catalogKeys);
      Session(m4, Scored(data, key, true), KeysExhausted);
    }
  }

  /** Once all is learned, a question-time session shows the success screen
      and the next Enter quits. */
  lemma {:induction false} AllLearnedQuits(m: Machine, data: Store, c: Catalog, catalogKeys: seq<string>, asked: seq<string>)
    requires Inv(m) && Indexed(data) && AllLearned(data, catalogKeys) && m.state.AskingQuestion?
    ensures Run(m, data, 0, [Enter], asked, c, catalogKeys) == Session(Machine(Quit, None, m.actionKey, m.tokens), data, QuitReached)
  {
    var m1 := m.(state := PendingEnter, next := Some(Quit));
    var m2 := m1.(state := Quit, next := None);
    var question := if asked == [] then None else Some(asked[0]);
    var acc := Accepted(c, m.actionKey);
    assert [Enter][1..] == [];
    assert Transition(m, 0, true, acc, question) == Step(m1, NoEffect, ReadKey);
    assert Transition(m1, Enter, true, acc, question) == Step(m2, NoEffect, SameKey);
    assert Transition(m2, Enter, true, acc, question) == Step(m2, NoEffect, Stop(QuitReached));
    calc {
      Run(m, data, 0, [Enter], asked, c, catalogKeys);
      Run(m1, data, Enter, [], asked, c, catalogKeys);
      Run(m2, data, Enter, [], asked, c, catalogKeys);
    }
  }

  // ---------------------------------------------------------------------
  // The tutor object
  // ---------------------------------------------------------------------

  /** `CursesTuiTutor`: the progress store it scores, the catalog it looks
      answers up in, and the loop's state. */
  class CursesTuiTutor {
    const store: LearningResultsStorage
    const catalog: Catalog
    var interfaceState: InterfaceState
    var nextInterfaceState: Option<InterfaceState>
    var actionKey: Option<string>
    /** The input block of the current question. */
    var input: InputAnswerDisplayBlock

    constructor (store: LearningResultsStorage, catalog: Catalog)
      ensures this.store == store && this.catalog == catalog
      ensures MachineOf() == Machine(AskingQuestion, None, None, [])
      ensures fresh(input)
    {
      this.store := store;
      this.catalog := catalog;
      interfaceState := AskingQuestion;
      nextInterfaceState := None;
      actionKey := None;
      input := new InputAnswerDisplayBlock();
    }

    function MachineOf(): Machine
      reads this, input
    {
      Machine(interfaceState, nextInterfaceState, actionKey, input.inputKeyCombinations)
    }

    /** One pass of the loop body after the Ctrl+e test and the all-learned
        override, on the key code `k` and the key the next question asks. */
    method Branch(k: int, asked: Option<string>) returns (cont: Continue, effect: Effect)
      requires store.Valid() && Inv(MachineOf())
      modifies this, store, input
      ensures store.Valid()
      ensures input == old(input) || fresh(input)
      ensures var s := Dispatch(old(MachineOf()), k, Accepted(catalog, old(actionKey)), asked);
        MachineOf() == s.m && cont == s.cont && effect == s.effect
        && store.data == Applied(old(store.data), s.effect)
    {
      cont, effect := ReadKey, NoEffect;
      if interfaceState == AllSuccess {
        interfaceState, nextInterfaceState := PendingEnter, Some(Quit);
      } else if interfaceState == AskingQuestion {
        if asked.None? {
          return Stop(NoQuestion), NoEffect;
        }
        actionKey := asked;
        input := new InputAnswerDisplayBlock();
        interfaceState := AnswerInput;
        effect := Ask(asked.value);
      } else if interfaceState == AnswerInput {
        cont := AnswerKey(k);
      } else if interfaceState == CheckingAnswer {
        cont := CheckAnswer();
      } else if interfaceState == CorrectAnswer || interfaceState == IncorrectAnswer {
        effect := ScoreAnswer();
      } else if interfaceState == CheckingIfHelpIsNeeded {
        if k < 0 || k >= MaxChr {
          return Stop(Crashed("ValueError")), NoEffect;
        }
        if k == 'y' as int {
          interfaceState := ShowingHelp;
          cont := SameKey;
        } else if k == 'n' as int {
          interfaceState := AskingQuestion;
          cont := SameKey;
        }
      } else if interfaceState == ShowingHelp {
        interfaceState, nextInterfaceState := PendingEnter, Some(AskingQuestion);
      } else if interfaceState == PendingEnter {
        if k == Enter {
          interfaceState, nextInterfaceState := nextInterfaceState.value, None;
          cont := SameKey;
        }
      } else {
        cont := Stop(QuitReached);
      }
    }

    /** ANSWER_INPUT: edits the input block's tokens for key code `k`. */
    method AnswerKey(k: int) returns (cont: Continue)
      requires Inv(MachineOf()) && interfaceState == AnswerInput
      modifies this, input
      ensures input == old(input)
      ensures var s := Dispatch(old(MachineOf()), k, Err(""), None);
        MachineOf() == s.m && cont == s.cont
    {
      if k < 0 || k >= MaxChr {
        return Stop(Crashed("ValueError"));
      }
      cont := ReadKey;
      if k == KeyBackspace {
        if |input.inputKeyCombinations| > 0 {
          input.inputKeyCombinations := input.inputKeyCombinations[..|input.inputKeyCombinations| - 1];
        }
      } else if k == CtrlH {
        interfaceState := ShowingHelp;
        cont := SameKey;
      } else if k == Enter {
        interfaceState := CheckingAnswer;
        cont := SameKey;
      } else {
        var keyModified: Option<string> := None;
        if Typable(k) {
          keyModified := Some([k as char]);
        } else if 1 <= k <= 26 {
          keyModified := Some(CursesText.CtrlName(k));
        }
        if keyModified.Some? {
          input.inputKeyCombinations := input.inputKeyCombinations + [keyModified.value];
        }
      }
    }

    /** CHECKING_ANSWER: judges the tokens, looking the hotkeys up only for
      a non-empty answer. */
    method CheckAnswer() returns (cont: Continue)
      requires Inv(MachineOf()) && interfaceState == CheckingAnswer
      modifies this
      ensures input == old(input)
      ensures var s := Dispatch(old(MachineOf()), 0, Accepted(catalog, old(actionKey)), None);
        MachineOf() == s.m && cont == s.cont
    {
      var tokens := input.inputKeyCombinations;
      if |tokens| == 0 {
        interfaceState := IncorrectAnswer;
        return SameKey;
      }
      var accepted := ActionHotkeysByKey(catalog, actionKey.value);
      if accepted.Err? {
        return Stop(Crashed("KeyError"));
      }
      if || (|tokens| > 1 && Steps(tokens) in accepted.value && ":" !in tokens)
         || (|tokens| > 1 && ":" in tokens && Combo(Concat(tokens)) in accepted.value)
         || (|tokens| == 1 && Combo(tokens[0]) in accepted.value) {
        interfaceState := CorrectAnswer;
      } else {
        interfaceState := IncorrectAnswer;
      }
      return SameKey;
    }

    /** CORRECT_ANSWER and INCORRECT_ANSWER: score the asked action (the
        results file is saved after each score). */
    method ScoreAnswer() returns (effect: Effect)
      requires store.Valid() && Inv(MachineOf())
      requires interfaceState == CorrectAnswer || interfaceState == IncorrectAnswer
      modifies this, store
      ensures store.Valid()
      ensures input == old(input)
      ensures var s := Dispatch(old(MachineOf()), 0, Err(""), None);
        MachineOf() == s.m && effect == s.effect && store.data == Applied(old(store.data), s.effect)
    {
      if interfaceState == CorrectAnswer {
        store.SetActionGuessCorrect(actionKey.value);
        effect := ScoreCorrect(actionKey.value);
        interfaceState, nextInterfaceState := PendingEnter, Some(AskingQuestion);
      } else {
        store.SetActionGuessWrong(actionKey.value);
        effect := ScoreWrong(actionKey.value);
        interfaceState := CheckingIfHelpIsNeeded;
      }
    }

    /** One pass of the loop on key code `k`. */
    method Iterate(k: int, asked: Option<string>) returns (cont: Continue, effect: Effect)
      requires store.Valid() && Inv(MachineOf())
      modifies this, store, input
      ensures store.Valid()
      ensures input == old(input) || fresh(input)
      ensures var s := Transition(old(MachineOf()), k, AllLearned(old(store.data), store.catalogKeys),
                                  Accepted(catalog, old(actionKey)), asked);
        MachineOf() == s.m && cont == s.cont && effect == s.effect
        && store.data == Applied(old(store.data), s.effect)
    {
      if k == CtrlE {
        return Stop(CtrlEPressed), NoEffect;
      }
      var allSuccess := store.AllActionsLearnedSuccessfully();
      if allSuccess && interfaceState != PendingEnter && interfaceState != Quit {
        interfaceState := AllSuccess;
      }
      cont, effect := Branch(k, asked);
    }

    /** `_tutor_internal`: the loop from key code 0, reading `keys` one by
      one; `asked` lists the keys the successive questions are for. */
    method TutorInternal(keys: seq<int>, asked: seq<string>) returns (reason: StopReason)
      requires store.Valid() && Inv(MachineOf())
      modifies this, store, input
      ensures store.Valid()
      ensures Session(MachineOf(), store.data, reason)
           == Run(old(MachineOf()), old(store.data), 0, keys, asked, catalog, store.catalogKeys)
    {
      var k := 0;
      var pos := 0;
      var q := 0;
      while true
        invariant store.Valid() && Inv(MachineOf())
        invariant pos <= |keys| && q <= |asked|
        invariant input == old(input) || fresh(input)
        invariant Run(old(MachineOf()), old(store.data), 0, keys, asked, catalog, store.catalogKeys)
               == Run(MachineOf(), store.data, k, keys[pos..], asked[q..], catalog, store.catalogKeys)
        decreases |keys| - pos, Rank(interfaceState)
      {
        ghost var m := MachineOf();
        ghost var data := store.data;
        var question := if q < |asked| then Some(asked[q]) else None;
        assert (asked[q..] == []) == (q == |asked|);
        assert q < |asked| ==> asked[q..][0] == asked[q] && asked[q..][1..] == asked[q + 1..];
        var cont, effect := Iterate(k, question);
        if effect.Ask? && q < |asked| {
          q := q + 1;
        }
        match cont
        case Stop(r) =>
          return r;
        case SameKey =>
        case ReadKey =>
          if pos == |keys| {
            return KeysExhausted;
          }
          assert keys[pos..][0] == keys[pos] && keys[pos..][1..] == keys[pos + 1..];
          k := keys[pos];
          pos := pos + 1;
      }
    }
  }
}

/** The console front end (`SimpleTextTutor`): a typed line is either one of
    the two commands `\h` and `\e` or an answer whose blocks are separated by
    commas, and the notes explain that syntax for the hotkeys being asked. */
module SimpleText {
  import opened Common
  import opened Catalog
  import opened Tutor

  const HelpCommand: string := "\\h"
  const ExitCommand: string := "\\e"

  /** `answer_for_question` on the typed line: the type by equality with the
      two commands, the blocks by `split(',')`, always at least one. */
  function AnswerForQuestion(answer: string): (r: (AnswerType, seq<string>))
    ensures r.0 == Help <==> answer == HelpCommand
    ensures r.0 == Exit <==> answer == ExitCommand
    ensures |r.1| >= 1
    // the blocks are the line cut at its commas: joined back they give the line
    ensures Join(",", r.1) == answer
  {
    JoinSplit(answer, ',');
    var kind := if answer == HelpCommand then Help else if answer == ExitCommand then Exit else RegularAnswer;
    (kind, Split(answer, ','))
  }

  /** Even a command comes with its (single) block. */
  lemma CommandsKeepTheirBlock()
    ensures AnswerForQuestion(HelpCommand) == (Help, [HelpCommand])
    ensures AnswerForQuestion(ExitCommand) == (Exit, [ExitCommand])
  {
    SplitPlain(HelpCommand, ',');
    SplitPlain(ExitCommand, ',');
  }

  /** What the user types for a hotkey as the help text spells it inside the
      quotes: the keys of a sequence joined with commas, a string as it is. */
  function Typed(h: Hotkey): string {
    match h
    case Steps(t) => Join(",", t)
    case Combo(s) => s
    case Unsupported => ""
  }

  /** A hotkey that can be typed back: no key holds a comma, and a sequence has
      the two or more keys the answer rule compares as a list. */
  predicate Typable(h: Hotkey) {
    match h
    case Steps(t) => |t| > 1 && forall j | 0 <= j < |t| :: ',' !in t[j]
    case Combo(s) => ',' !in s
    case Unsupported => false
  }

  /** Typing an accepted hotkey as the help text shows it is judged correct:
      the help entry is the typed text in quotes, and splitting that text at
      its commas gives blocks that the answer rule accepts. */
  lemma TypingTheHelpTextAnswers(accepted: seq<Hotkey>, i: nat)
    requires i < |accepted| && Typable(accepted[i])
    requires Typed(accepted[i]) != HelpCommand && Typed(accepted[i]) != ExitCommand
    ensures HelpEntry(accepted[i]) == Ok("\"" + Typed(accepted[i]) + "\"")
    ensures AnswerForQuestion(Typed(accepted[i])).0 == RegularAnswer
    ensures IsCorrectAnswer(AnswerForQuestion(Typed(accepted[i])).1, accepted)
  {
    var h := accepted[i];
    match h {
      case Steps(t) =>
        SplitJoin(t, ',');
        assert Split(Typed(h), ',') == t;
        assert Answers(h, t);
      case Combo(s) =>
        SplitPlain(s, ',');
        assert Answers(h, [s]);
    }
    CorrectIffSomeHotkeyAnswers(AnswerForQuestion(Typed(h)).1, accepted);
  }

  const SeveralKeysNote: string :=
    "If you need to type several keys combinations one by one, type them with comma separator like \"a,b\""
  const CtrlNote: string :=
    "If you need to use Ctrl or other special key in answer, type it's name plus regular key like \"Ctrl+w\""
  const InstructionNote: string :=
    "Type keys combination or \"\\h\" for help or \"\\e\" to exit and press ENTER"

  /** The two flags of the notes loop and the notes it has added so far. */
  datatype Scan = Scan(listFound: bool, ctrlFound: bool, added: seq<string>)

  /** One turn of the notes loop. A list only gets to its `Ctrl` test once an
      earlier list has been seen, and that test compares whole keys with
      `Ctrl`; a string is searched for the substring `Ctrl`. */
  function ScanStep(sc: Scan, h: Hotkey): (r: Scan)
    ensures sc.listFound ==> r.listFound
    ensures sc.ctrlFound ==> r.ctrlFound
    ensures |sc.added| <= |r.added| <= |sc.added| + 1
  {
    match h
    case Steps(t) =>
      if !sc.listFound then sc.(listFound := true, added := sc.added + [SeveralKeysNote])
      else if "Ctrl" in t && !sc.ctrlFound then sc.(ctrlFound := true, added := sc.added + [CtrlNote])
      else sc
    case Combo(s) =>
      if Contains(s, "Ctrl") && !sc.ctrlFound then sc.(ctrlFound := true, added := sc.added + [CtrlNote])
      else sc
    case Unsupported => sc
  }

  /** The notes loop over the accepted hotkeys, in order. Each flag, once set,
      has added its note, so at most two notes are added. */
  function ScanAll(hs: seq<Hotkey>): (r: Scan)
    ensures |r.added| == (if r.listFound then 1 else 0) + (if r.ctrlFound then 1 else 0)
    ensures |r.added| <= |hs|
  {
    if hs == [] then Scan(false, false, [])
    else ScanStep(ScanAll(hs[..|hs| - 1]), hs[|hs| - 1])
  }

  /** `notes_for_asked_action` of this front end, as a value. */
  function SimpleNotes(kind: Kind, hs: seq<Hotkey>): (notes: seq<string>)
    ensures |BaseNotes(kind)| < |notes| <= 4
    ensures notes[..|BaseNotes(kind)|] == BaseNotes(kind)
    ensures notes[|notes| - 1] == InstructionNote
  {
    BaseNotes(kind) + ScanAll(hs).added + [InstructionNote]
  }

  /** `notes_for_asked_action`: the base notes, the loop with its two flags,
      and the closing instruction. */
  method NotesForAskedAction(c: Catalog, key: string) returns (notes: seq<string>)
    requires key in c.actions
    ensures notes == SimpleNotes(KeyCombinationType(c, key).value, Normalise(c.actions[key].hotkeys))
  {
    notes := BaseNotes(KeyCombinationType(c, key).value);
    var hotkeys := ActionHotkeysByKey(c, key);
    var added := ScanNotes(hotkeys.value);
    notes := notes + added + [InstructionNote];
  }

  /** The loop of `notes_for_asked_action` over the accepted hotkeys, with
      its two flags: the notes it appends. */
  method ScanNotes(correctAnswers: seq<Hotkey>) returns (added: seq<string>)
    ensures added == ScanAll(correctAnswers).added
  {
    var listFound := false;
    var ctrlFound := false;
    added := [];
    var i := 0;
    while i < |correctAnswers|
      invariant 0 <= i <= |correctAnswers|
      invariant ScanAll(correctAnswers[..i]) == Scan(listFound, ctrlFound, added)
    {
      assert correctAnswers[..i + 1][..i] == correctAnswers[..i];
      var note;
      listFound, ctrlFound, note := NoteFor(listFound, ctrlFound, correctAnswers[i], added);
      added := added + note;
      i := i + 1;
    }
    assert correctAnswers[..i] == correctAnswers;
  }

  /** One turn of the notes loop: the updated flags and the note it adds,
      if any. */
  method NoteFor(listFound: bool, ctrlFound: bool, h: Hotkey, ghost added: seq<string>)
    returns (listFound': bool, ctrlFound': bool, note: seq<string>)
    ensures ScanStep(Scan(listFound, ctrlFound, added), h) == Scan(listFound', ctrlFound', added + note)
  {
    listFound', ctrlFound', note := listFound, ctrlFound, [];
    match h {
      case Steps(t) =>
        if !listFound {
          note := [SeveralKeysNote];
          listFound' := true;
        } else if "Ctrl" in t && !ctrlFound {
          note := [CtrlNote];
          ctrlFound' := true;
        }
      case Combo(s) =>
        if Contains(s, "Ctrl") && !ctrlFound {
          note := [CtrlNote];
          ctrlFound' := true;
        }
      case Unsupported =>
    }
    assert added + [] == added;
  }

  /** The hotkey at `i` brings the Ctrl note when the loop reaches it with the
      flag still clear. */
  predicate CtrlTrigger(hs: seq<Hotkey>, i: int)
    requires 0 <= i < |hs|
  {
    match hs[i]
    case Combo(s) => Contains(s, "Ctrl")
    case Steps(t) => "Ctrl" in t && exists j | 0 <= j < i :: hs[j].Steps?
    case Unsupported => false
  }

  /** The several-keys flag is set iff some accepted hotkey is a list. */
  lemma {:induction false} ScanListFound(hs: seq<Hotkey>)
    ensures ScanAll(hs).listFound <==> exists i | 0 <= i < |hs| :: hs[i].Steps?
  {
    if hs != [] {
      var n := |hs| - 1;
      ScanListFound(hs[..n]);
      if ScanAll(hs[..n]).listFound {
        var j :| 0 <= j < n && hs[..n][j].Steps?;
        assert hs[j].Steps?;
      } else if !hs[n].Steps? {
        forall i | 0 <= i < |hs|
          ensures !hs[i].Steps?
        {
          if i < n {
            assert hs[i] == hs[..n][i];
          }
        }
      }
    }
  }

  /** Dropping the last hotkey leaves the earlier triggers as they were. */
  lemma TriggerInFront(hs: seq<Hotkey>, i: int)
    requires 0 <= i < |hs| - 1
    ensures CtrlTrigger(hs[..|hs| - 1], i) <==> CtrlTrigger(hs, i)
  {
    var front := hs[..|hs| - 1];
    assert front[i] == hs[i];
    if hs[i].Steps? && "Ctrl" in hs[i].steps {
      if exists j | 0 <= j < i :: hs[j].Steps? {
        var j :| 0 <= j < i && hs[j].Steps?;
        assert front[j].Steps?;
      }
      if exists j | 0 <= j < i :: front[j].Steps? {
        var j :| 0 <= j < i && front[j].Steps?;
        assert hs[j].Steps?;
      }
    }
  }

  /** The Ctrl flag is set iff some hotkey triggers it. */
  lemma {:induction false} ScanCtrlFound(hs: seq<Hotkey>)
    ensures ScanAll(hs).ctrlFound <==> exists i | 0 <= i < |hs| :: CtrlTrigger(hs, i)
  {
    if hs != [] {
      var n := |hs| - 1;
      var front := hs[..n];
      ScanCtrlFound(front);
      ScanListFound(front);
      var sc := ScanAll(front);
      assert ScanAll(hs) == ScanStep(sc, hs[n]);
      assert sc.listFound <==> exists j | 0 <= j < n :: hs[j].Steps? by {
        assert forall j | 0 <= j < n :: front[j] == hs[j];
      }
      assert CtrlTrigger(hs, n) <==>
        (hs[n].Combo? && Contains(hs[n].combo, "Ctrl")) || (hs[n].Steps? && "Ctrl" in hs[n].steps && sc.listFound);
      forall i | 0 <= i < n
        ensures CtrlTrigger(front, i) <==> CtrlTrigger(hs, i)
      {
        TriggerInFront(hs, i);
      }
      if sc.ctrlFound {
        var j :| 0 <= j < n && CtrlTrigger(front, j);
        assert CtrlTrigger(hs, j);
      }
    }
  }

  /** One turn of the loop only sets flags, and adds a note exactly when it
      sets one. */
  lemma ScanStepAdded(sc: Scan, h: Hotkey)
    ensures var t := ScanStep(sc, h);
      && (sc.listFound ==> t.listFound) && (sc.ctrlFound ==> t.ctrlFound)
      && multiset(t.added) == multiset(sc.added)
        + (if t.listFound && !sc.listFound then multiset{SeveralKeysNote} else multiset{})
        + (if t.ctrlFound && !sc.ctrlFound then multiset{CtrlNote} else multiset{})
  {
  }

  /** Each note is added exactly once when its flag is set, and never otherwise. */
  lemma {:induction false} ScanAdded(hs: seq<Hotkey>)
    ensures multiset(ScanAll(hs).added) ==
      (if ScanAll(hs).listFound then multiset{SeveralKeysNote} else multiset{})
      + (if ScanAll(hs).ctrlFound then multiset{CtrlNote} else multiset{})
  {
    if hs != [] {
      var n := |hs| - 1;
      ScanAdded(hs[..n]);
      ScanStepAdded(ScanAll(hs[..n]), hs[n]);
    }
  }

  /** The notes of this front end: the base notes first, the instruction last,
      and between them the several-keys note iff some accepted hotkey is a
      list and the Ctrl note iff some hotkey triggers it, each at most once. */
  lemma SimpleNotesMeaning(kind: Kind, hs: seq<Hotkey>)
    ensures var notes := SimpleNotes(kind, hs);
      && notes[..|BaseNotes(kind)|] == BaseNotes(kind)
      && notes[|notes| - 1] == InstructionNote
      && |notes| == |BaseNotes(kind)| + |ScanAll(hs).added| + 1
    ensures SeveralKeysNote in ScanAll(hs).added <==> exists i | 0 <= i < |hs| :: hs[i].Steps?
    ensures CtrlNote in ScanAll(hs).added <==> exists i | 0 <= i < |hs| :: CtrlTrigger(hs, i)
    ensures multiset(ScanAll(hs).added)[SeveralKeysNote] <= 1 && multiset(ScanAll(hs).added)[CtrlNote] <= 1
  {
    ScanListFound(hs);
    ScanCtrlFound(hs);
    ScanAdded(hs);
    var notes := SimpleNotes(kind, hs);
    assert notes[..|BaseNotes(kind)|] == BaseNotes(kind);
    assert SeveralKeysNote != CtrlNote by {
      assert |SeveralKeysNote| == 99 && |CtrlNote| == 101;
    }
    assert SeveralKeysNote in ScanAll(hs).added <==> SeveralKeysNote in multiset(ScanAll(hs).added);
    assert CtrlNote in ScanAll(hs).added <==> CtrlNote in multiset(ScanAll(hs).added);
  }

  /** Only the second list with a key spelled exactly `Ctrl` brings the Ctrl
      note: two sequences made of Ctrl chords bring the several-keys note
      alone, while a single Ctrl chord string brings the Ctrl note. */
  lemma CtrlNoteExamples()
    ensures ScanAll([Steps(["Ctrl+w", "v"]), Steps(["Ctrl+w", "s"])]).added == [SeveralKeysNote]
    ensures ScanAll([Combo("Ctrl+w")]).added == [CtrlNote]
  {
    var a := [Steps(["Ctrl+w", "v"]), Steps(["Ctrl+w", "s"])];
    assert a[..1] == [a[0]] && [a[0]][..0] == [];
    assert "Ctrl" !in ["Ctrl+w", "s"];
    var b := [Combo("Ctrl+w")];
    assert b[..0] == [];
    assert OccursAt("Ctrl+w", "Ctrl", 0);
  }
}

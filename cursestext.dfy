/** The line-oriented curses front end (`CursesTextTutor`): the answer is read
    key by key into blocks, a control character becomes a `Ctrl+<letter>`
    block, and Enter, `Ctrl+h` or `Ctrl+e` ends the reading. Keys are the
    strings `window.getkey()` returns: one character, or a key name such as
    `KEY_BACKSPACE`. */
module CursesText {
  import opened Common
  import opened Catalog
  import opened Tutor

  const AsciiLowercase: string := "abcdefghijklmnopqrstuvwxyz"
  /** `os.linesep` on a POSIX system. */
  const LineSeparator: string := "\n"
  const Backspace: string := "KEY_BACKSPACE"
  const Arrows: seq<string> := ["KEY_UP", "KEY_DOWN", "KEY_LEFT", "KEY_RIGHT"]

  /** What one key does to the blocks read so far. */
  datatype KeyEffect = Append(block: string) | DeleteLast | Ignore

  /** The block of a control character: code 1 is `Ctrl+a`, code 26 `Ctrl+z`. */
  function CtrlName(code: int): string
    requires 1 <= code <= |AsciiLowercase|
  {
    "Ctrl+" + [AsciiLowercase[code - 1]]
  }

  /** Python's `key in string.ascii_lowercase` (with `first` being `a`) or
      `key in string.ascii_uppercase` (with `A`): a substring test, true for
      the empty string and for every run of consecutive letters such as `b`
      or `xyz`. */
  predicate LetterRun(key: string, first: char) {
    && (forall i | 0 <= i < |key| :: first as int <= key[i] as int <= first as int + 25)
    && (forall i | 0 <= i < |key| - 1 :: key[i + 1] as int == key[i] as int + 1)
  }

  /** The first test of the key loop: the key is found in either letter string. */
  predicate IsLetterKey(key: string) {
    LetterRun(key, 'a') || LetterRun(key, 'A')
  }

  /** A control character: one character with a code from 1 to 32. */
  predicate ControlKey(key: string) {
    |key| == 1 && 1 <= key[0] as int <= 32
  }

  /** The key handling as written: every control character indexes the 26
      lowercase letters by its code, so codes 27 to 32 (Esc, the four other
      control codes and the space bar) raise `IndexError`. */
  function KeyEffectAsWritten(key: string): (r: Result<KeyEffect, string>)
    ensures r.Err? ==> r.error == "IndexError" && ControlKey(key)
    ensures r.Ok? ==> r.value == KeyEffectOf(key)
  {
    if IsLetterKey(key) then Ok(Append(key))
    else if ControlKey(key) then
      if key[0] as int <= |AsciiLowercase| then Ok(Append(CtrlName(key[0] as int))) else Err("IndexError")
    else if key == Backspace then Ok(DeleteLast)
    else if key in Arrows then Ok(Ignore)
    else Ok(Append(key))
  }

  /** The key handling as intended: only the codes 1 to 26 name a letter,
      and the other control characters are taken as typed. */
  function KeyEffectOf(key: string): KeyEffect {
    if IsLetterKey(key) then Append(key)
    else if ControlKey(key) && key[0] as int <= |AsciiLowercase| then Append(CtrlName(key[0] as int))
    else if key == Backspace then DeleteLast
    else if key in Arrows then Ignore
    else Append(key)
  }

  /** What each key does: a control character up to code 26 is its Ctrl
      block (so Enter is `Ctrl+j`), the backspace key deletes, an arrow key is
      ignored, and every other key is a block of its own. */
  lemma KeyEffectMeaning(key: string)
    ensures ControlKey(key) && key[0] as int <= 26 ==> KeyEffectOf(key) == Append(CtrlName(key[0] as int))
    ensures key == Backspace ==> KeyEffectOf(key) == DeleteLast
    ensures key in Arrows ==> KeyEffectOf(key) == Ignore
    ensures !(ControlKey(key) && key[0] as int <= 26) && key != Backspace && key !in Arrows ==>
      KeyEffectOf(key) == Append(key)
  {
    if key == Backspace || key in Arrows {
      assert key[3] == '_';
    }
  }

  lemma EnterIsCtrlJ()
    ensures KeyEffectOf(LineSeparator) == Append("Ctrl+j")
  {
    KeyEffectMeaning(LineSeparator);
    assert AsciiLowercase[9] == 'j';
  }

  /** The as-written handling fails on exactly the control characters 27 to
      32 and agrees with the intended one on every other key. */
  lemma KeyEffectAsWrittenFails(key: string)
    ensures KeyEffectAsWritten(key).Err? <==> ControlKey(key) && key[0] as int > 26
    ensures KeyEffectAsWritten(key).Ok? ==> KeyEffectAsWritten(key).value == KeyEffectOf(key)
  {
  }

  /** Pressing the space bar or Esc while answering raises `IndexError`. */
  lemma SpaceAndEscapeFailAsWritten()
    ensures KeyEffectAsWritten(" ") == Err("IndexError")
    ensures KeyEffectAsWritten([27 as char]) == Err("IndexError")
    ensures KeyEffectOf(" ") == Append(" ")
  {
    KeyEffectAsWrittenFails(" ");
    KeyEffectAsWrittenFails([27 as char]);
    KeyEffectMeaning(" ");
  }

  /** A letter is kept as its own block and does not end the reading. */
  lemma LetterKey(c: char)
    requires 'a' <= c <= 'z'
    ensures KeyEffectOf([c]) == Append([c]) && !Stops([c], Append([c]))
  {
  }

  /** The blocks after one key. */
  function Apply(blocks: seq<string>, effect: KeyEffect): seq<string> {
    match effect
    case Append(b) => blocks + [b]
    case DeleteLast => if |blocks| > 0 then blocks[..|blocks| - 1] else blocks
    case Ignore => blocks
  }

  /** The key ends the reading: the line separator, or a `Ctrl+h` or `Ctrl+e` block. */
  predicate Stops(key: string, effect: KeyEffect) {
    key == LineSeparator || effect == Append("Ctrl+h") || effect == Append("Ctrl+e")
  }

  /** The terminator blocks: Enter's `Ctrl+j`, `Ctrl+h` and `Ctrl+e`. */
  predicate IsTerminator(b: string) {
    b == "Ctrl+j" || b == "Ctrl+h" || b == "Ctrl+e"
  }

  /** The reading loop from `blocks` on over `keys`: the blocks at the
      terminating key, terminator included, or `None` while no key has ended
      the reading. */
  function Collect(blocks: seq<string>, keys: seq<string>): (r: Option<seq<string>>)
    ensures r.Some? ==> |r.value| >= 1 && IsTerminator(r.value[|r.value| - 1])
    decreases |keys|
  {
    if keys == [] then None
    else
      var effect := KeyEffectOf(keys[0]);
      var next := Apply(blocks, effect);
      if Stops(keys[0], effect) then
        EnterIsCtrlJ();
        Some(next)
      else Collect(next, keys[1..])
  }

  /** The reading loop with the as-written key handling: where it does not
      raise it reads what the intended loop reads, and it raises only on a
      control character of code 27 to 32. */
  function CollectAsWritten(blocks: seq<string>, keys: seq<string>): (r: Result<Option<seq<string>>, string>)
    ensures r.Ok? ==> r.value == Collect(blocks, keys)
    ensures r.Err? ==> r.error == "IndexError" && exists i | 0 <= i < |keys| :: ControlKey(keys[i]) && keys[i][0] as int > 26
    decreases |keys|
  {
    if keys == [] then Ok(None)
    else
      match KeyEffectAsWritten(keys[0])
      case Err(e) => Err(e)
      case Ok(effect) =>
        var next := Apply(blocks, effect);
        if Stops(keys[0], effect) then Ok(Some(next))
        else
          var rest := CollectAsWritten(next, keys[1..]);
          assert rest.Err? ==> exists i | 0 <= i < |keys| :: ControlKey(keys[i]) && keys[i][0] as int > 26 by {
            if rest.Err? {
              var i :| 0 <= i < |keys[1..]| && ControlKey(keys[1..][i]) && keys[1..][i][0] as int > 26;
              assert keys[i + 1] == keys[1..][i];
            }
          }
          rest
  }

  /** One key that does not end the reading. */
  lemma CollectStep(blocks: seq<string>, keys: seq<string>, block: string)
    requires keys != [] && KeyEffectOf(keys[0]) == Append(block) && !Stops(keys[0], Append(block))
    ensures Collect(blocks, keys) == Collect(blocks + [block], keys[1..])
  {
  }

  /** The key that ends the reading. */
  lemma CollectStop(blocks: seq<string>, keys: seq<string>, block: string)
    requires keys != [] && KeyEffectOf(keys[0]) == Append(block) && Stops(keys[0], Append(block))
    ensures Collect(blocks, keys) == Some(blocks + [block])
  {
  }

  /** Typing `a`, then a space, then Enter fails as written; the intended
      handling reads the blocks `a` and ` `. */
  lemma SpaceInAnswerFailsAsWritten()
    ensures CollectAsWritten([], ["a", " ", LineSeparator]) == Err("IndexError")
    ensures Collect([], ["a", " ", LineSeparator]) == Some(["a", " ", "Ctrl+j"])
  {
    SpaceAndEscapeFailAsWritten();
    EnterIsCtrlJ();
    LetterKey('a');
    var keys := ["a", " ", LineSeparator];
    assert keys[1..] == [" ", LineSeparator] && keys[1..][1..] == [LineSeparator];
    CollectStep([], keys, "a");
    assert [] + ["a"] == ["a"] && ["a"] + [" "] == ["a", " "] && ["a", " "] + ["Ctrl+j"] == ["a", " ", "Ctrl+j"];
    CollectStep(["a"], keys[1..], " ");
    CollectStop(["a", " "], keys[1..][1..], "Ctrl+j");
  }

  /** Several blocks starting with `:` are one command, as the characters
      concatenated. Merging never changes the typed text, keeps a non-command
      as it is, and leaves one block for a command. */
  function Merged(blocks: seq<string>): (m: seq<string>)
    ensures Concat(m) == Concat(blocks)
    ensures !(|blocks| > 1 && blocks[0] == ":") ==> m == blocks
    ensures |blocks| > 1 && blocks[0] == ":" ==> |m| == 1
  {
    if |blocks| > 1 && blocks[0] == ":" then
      assert [Concat(blocks)][..0] == [];
      [Concat(blocks)]
    else blocks
  }

  /** The answer type, decided on the blocks as collected: help and exit only
      for a lone `Ctrl+h` or `Ctrl+e`. */
  function Classify(collected: seq<string>): (t: AnswerType)
    ensures t == Help <==> collected == ["Ctrl+h"]
    ensures t == Exit <==> collected == ["Ctrl+e"]
  {
    if collected == ["Ctrl+h"] then Help
    else if collected == ["Ctrl+e"] then Exit
    else RegularAnswer
  }

  /** The outcome of reading an answer from a run of keys. */
  datatype Reading = Answered(kind: AnswerType, blocks: seq<string>) | AwaitingInput

  /** `answer_for_question` as a value: collect, classify, drop the
      terminating block, merge a command. */
  function ReadAnswer(keys: seq<string>): (r: Reading)
    ensures r.AwaitingInput? <==> Collect([], keys).None?
    ensures r.Answered? ==> var c := Collect([], keys).value;
      Concat(r.blocks) == Concat(c[..|c| - 1]) && (r.kind != RegularAnswer ==> r.blocks == [])
  {
    match Collect([], keys)
    case None => AwaitingInput
    case Some(collected) => Answered(Classify(collected), Merged(collected[..|collected| - 1]))
  }

  /** The key loop of `answer_for_question`: each key appends a block,
      deletes the last one or is ignored, until a key ends the reading. */
  method ReadBlocks(keys: seq<string>) returns (collected: Option<seq<string>>)
    ensures collected == Collect([], keys)
  {
    var answerBlocks: seq<string> := [];
    var pos := 0;
    while true
      invariant 0 <= pos <= |keys|
      invariant Collect([], keys) == Collect(answerBlocks, keys[pos..])
      decreases |keys| - pos
    {
      if pos == |keys| {
        return None;
      }
      var key := keys[pos];
      assert keys[pos..][0] == key && keys[pos..][1..] == keys[pos + 1..];
      pos := pos + 1;
      ghost var before := answerBlocks;
      var keyModified: string;
      var ignoreFlag := false;
      if IsLetterKey(key) {
        keyModified := key;
      } else if |key| == 1 && 1 <= key[0] as int <= 26 {
        keyModified := CtrlName(key[0] as int);
      } else if key == Backspace {
        if |answerBlocks| > 0 {
          answerBlocks := answerBlocks[..|answerBlocks| - 1];
        }
        keyModified := "";
        ignoreFlag := true;
      } else if key in Arrows {
        keyModified := "";
        ignoreFlag := true;
      } else {
        keyModified := key;
      }
      if !ignoreFlag {
        answerBlocks := answerBlocks + [keyModified];
      }
      assert answerBlocks == Apply(before, KeyEffectOf(key));
      if key == LineSeparator || keyModified == "Ctrl+h" || keyModified == "Ctrl+e" {
        return Some(answerBlocks);
      }
    }
  }

  /** The `s += c` loop that joins the blocks of a command. */
  method ConcatBlocks(blocks: seq<string>) returns (s: string)
    ensures s == Concat(blocks)
  {
    s := "";
    var i := 0;
    while i < |blocks|
      invariant 0 <= i <= |blocks|
      invariant s == Concat(blocks[..i])
    {
      assert blocks[..i + 1][..i] == blocks[..i];
      s := s + blocks[i];
      i := i + 1;
    }
    assert blocks[..i] == blocks;
  }

  /** `answer_for_question`: read the blocks, classify them, drop the
      terminator and merge a command. */
  method AnswerForQuestion(keys: seq<string>) returns (r: Reading)
    ensures r == ReadAnswer(keys)
  {
    var collected := ReadBlocks(keys);
    if collected.None? {
      return AwaitingInput;
    }
    var answerBlocks := collected.value;
    var answerType := Classify(answerBlocks);
    var blocks := answerBlocks[..|answerBlocks| - 1];
    if |blocks| > 1 && blocks[0] == ":" {
      var s := ConcatBlocks(blocks);
      blocks := [s];
    }
    r := Answered(answerType, blocks);
  }

  /** Once a line separator arrives the reading has ended. */
  lemma {:induction false} EnterEndsReading(blocks: seq<string>, keys: seq<string>)
    requires LineSeparator in keys
    ensures Collect(blocks, keys).Some?
    decreases |keys|
  {
    if keys[0] != LineSeparator {
      assert LineSeparator in keys[1..];
      var effect := KeyEffectOf(keys[0]);
      if !Stops(keys[0], effect) {
        EnterEndsReading(Apply(blocks, effect), keys[1..]);
      }
    }
  }

  /** The backspace key and the arrow keys never end up among the blocks. */
  lemma {:induction false} EditingKeysAreNeverBlocks(blocks: seq<string>, keys: seq<string>)
    requires forall b | b in blocks :: b != Backspace && b !in Arrows
    ensures Collect(blocks, keys).Some? ==>
      forall b | b in Collect(blocks, keys).value :: b != Backspace && b !in Arrows
    decreases |keys|
  {
    if keys != [] {
      var effect := KeyEffectOf(keys[0]);
      KeyEffectMeaning(keys[0]);
      assert effect.Append? ==> effect.block != Backspace && effect.block !in Arrows by {
        if ControlKey(keys[0]) && keys[0][0] as int <= 26 {
          assert CtrlName(keys[0][0] as int)[0] == 'C' && Backspace[0] == 'K';
        }
      }
      if !Stops(keys[0], effect) {
        EditingKeysAreNeverBlocks(Apply(blocks, effect), keys[1..]);
      }
    }
  }

  /** A key typed by mistake and deleted with backspace leaves no trace. */
  lemma BackspaceUndoes(blocks: seq<string>, key: string, rest: seq<string>)
    requires KeyEffectOf(key).Append? && !Stops(key, KeyEffectOf(key))
    ensures Collect(blocks, [key, Backspace] + rest) == Collect(blocks, rest)
  {
    KeyEffectMeaning(Backspace);
    var keys := [key, Backspace] + rest;
    assert keys[1..] == [Backspace] + rest && keys[1..][1..] == rest;
    assert (blocks + [KeyEffectOf(key).block])[..|blocks|] == blocks;
  }

  /** `Ctrl+h` alone asks for help with no blocks, while `a` then `Ctrl+h`
      is a regular answer `a`: the type is decided before the terminator is
      dropped. */
  lemma HelpOnlyWhenAlone()
    ensures ReadAnswer([[8 as char]]) == Answered(Help, [])
    ensures ReadAnswer(["a", [8 as char]]) == Answered(RegularAnswer, ["a"])
  {
    var ctrlH := [8 as char];
    KeyEffectMeaning(ctrlH);
    assert AsciiLowercase[7] == 'h';
    LetterKey('a');
    var keys := ["a", ctrlH];
    assert keys[1..] == [ctrlH];
    CollectStep([], keys, "a");
    assert [] + ["a"] == ["a"] && ["a"] + ["Ctrl+h"] == ["a", "Ctrl+h"];
    assert CtrlName(8) == "Ctrl+h";
    CollectStop(["a"], keys[1..], "Ctrl+h");
    assert Collect([], keys) == Some(["a", "Ctrl+h"]);
    assert ["a", "Ctrl+h"][..1] == ["a"];
  }

  lemma CommandKeysCollect()
    ensures Collect([], [":", "w", "q", LineSeparator]) == Some([":", "w", "q", "Ctrl+j"])
  {
    EnterIsCtrlJ();
    KeyEffectMeaning(":");
    var cmd := [":", "w", "q", LineSeparator];
    assert cmd[1..] == ["w", "q", LineSeparator] && cmd[1..][1..] == ["q", LineSeparator]
      && cmd[1..][1..][1..] == [LineSeparator];
    LetterKey('w');
    LetterKey('q');
    assert [] + [":"] == [":"] && [":"] + ["w"] == [":", "w"] && [":", "w"] + ["q"] == [":", "w", "q"]
      && [":", "w", "q"] + ["Ctrl+j"] == [":", "w", "q", "Ctrl+j"];
    CollectStep([], cmd, ":");
    CollectStep([":"], cmd[1..], "w");
    CollectStep([":", "w"], cmd[1..][1..], "q");
    CollectStop([":", "w", "q"], cmd[1..][1..][1..], "Ctrl+j");
  }

  /** `:`, `w`, `q` and Enter is the one command `:wq`. */
  lemma CommandIsMerged()
    ensures ReadAnswer([":", "w", "q", LineSeparator]) == Answered(RegularAnswer, [":wq"])
  {
    CommandKeysCollect();
    assert [":", "w", "q", "Ctrl+j"][..3] == [":", "w", "q"];
    assert Concat([":", "w", "q"]) == ":wq" by {
      assert [":", "w", "q"][..2] == [":", "w"] && [":", "w"][..1] == [":"] && [":"][..0] == [];
    }
  }

  lemma SequenceKeysCollect()
    ensures Collect([], ["d", "d", LineSeparator]) == Some(["d", "d", "Ctrl+j"])
  {
    EnterIsCtrlJ();
    var dd := ["d", "d", LineSeparator];
    assert dd[1..] == ["d", LineSeparator] && dd[1..][1..] == [LineSeparator];
    LetterKey('d');
    assert [] + ["d"] == ["d"] && ["d"] + ["d"] == ["d", "d"] && ["d", "d"] + ["Ctrl+j"] == ["d", "d", "Ctrl+j"];
    CollectStep([], dd, "d");
    CollectStep(["d"], dd[1..], "d");
    CollectStop(["d", "d"], dd[1..][1..], "Ctrl+j");
  }

  /** `d`, `d` and Enter reads the blocks `d`, `d`, which answer the hotkey
      `dd` of the catalog. */
  lemma SequenceAnswersSplitHotkey()
    ensures ReadAnswer(["d", "d", LineSeparator]) == Answered(RegularAnswer, ["d", "d"])
    ensures IsCorrectAnswer(["d", "d"], Normalise([Combo("dd")]))
  {
    SequenceKeysCollect();
    assert ["d", "d", "Ctrl+j"][..2] == ["d", "d"];
    LowercaseRunIsSplit("dd");
    assert Chars("dd") == ["d", "d"];
    assert Normalise([Combo("dd")]) == [Steps(["d", "d"])] by {
      assert [Combo("dd")][..0] == [];
    }
  }

  const CursesInstruction: string := "Type keys combination or \"Ctrl+h\" for help or \"Ctrl+e\" to quit"

  /** `notes_for_asked_action`: the base notes and then the one instruction. */
  function NotesForAskedAction(kind: Kind, hotkeys: seq<Hotkey>): (notes: seq<string>)
    ensures |notes| == |BaseNotes(kind)| + 1 && notes[|notes| - 1] == CursesInstruction
    ensures notes[..|notes| - 1] == BaseNotes(kind)
  {
    BaseNotes(kind) + [CursesInstruction]
  }
}

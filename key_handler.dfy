/** The key-down handler of the application component (`handleKeyDown`) as a
    transition on `EngineState`, plus the practice-key selection and the
    word filter it draws words with. One key press is modelled as one step:
    the component's setters are applied together, and where the handler reads
    a value captured before the press (the start time and keystroke count used
    at session end) the step reads the old state. At session end the handler
    awaits the session save between setting the speeds and the reset; the
    step applies both halves at once. */
module KeyHandler {
  import opened Common
  import opened TypingState

  // ---------------------------------------------------------------------------
  // Sequence helpers for `typedLetters`
  // ---------------------------------------------------------------------------

  /** `copy[i] = x` on a copy without holes: overwrite slot i, or append when i
      is the length. */
  function Put(xs: seq<Letter>, i: nat, x: Letter): (r: seq<Letter>)
    requires i <= |xs|
    ensures |r| == if i < |xs| then |xs| else |xs| + 1
    ensures r[i] == x
    ensures forall j :: 0 <= j < |xs| && j != i ==> r[j] == xs[j]
  {
    if i < |xs| then xs[i := x] else xs + [x]
  }

  /** `filter((_, index) => index !== i)`: drop slot i, later slots shift down. */
  function RemoveAt(xs: seq<Letter>, i: nat): (r: seq<Letter>)
    requires i < |xs|
    ensures |r| == |xs| - 1
    ensures forall j :: 0 <= j < i ==> r[j] == xs[j]
    ensures forall j :: i <= j < |r| ==> r[j] == xs[j + 1]
  {
    xs[..i] + xs[i + 1..]
  }

  // ---------------------------------------------------------------------------
  // Key classes
  // ---------------------------------------------------------------------------

  /** Shift, Control and Alt, in any letter case, are ignored. */
  predicate IsModifier(key: string) {
    ToLower(key) in ["shift", "control", "alt"]
  }

  predicate IsBackspace(key: string) {
    ToLower(key) == "backspace"
  }

  /** The key equals the letter under the cursor; at a word's end there is no
      letter (JavaScript's `undefined`), so nothing matches. */
  predicate Matches(s: EngineState, key: string)
    requires Valid(s)
  {
    var word := s.words[s.wordIndex];
    s.letterIndex < |word| && key == [word[s.letterIndex]]
  }

  /** The wrong characters a new record at slot g inherits: the old record's
      history followed by its character, when the old record was incorrect. */
  function PriorAttempts(typed: seq<Letter>, g: nat): (h: seq<string>)
    ensures g < |typed| && !typed[g].correct ==> h == typed[g].previousAttempts + [typed[g].ch]
    ensures g >= |typed| || typed[g].correct ==> h == []
  {
    if g < |typed| && !typed[g].correct then typed[g].previousAttempts + [typed[g].ch] else []
  }

  /** Space with the cursor at the end of the last word: the session ends. */
  predicate Completes(s: EngineState, key: string)
    requires Valid(s)
  {
    key == " " && s.letterIndex == |s.words[s.wordIndex]| && s.wordIndex == |s.words| - 1
  }

  // ---------------------------------------------------------------------------
  // The transition
  // ---------------------------------------------------------------------------

  /** The first key press of a session starts the clock, modifiers included. */
  function StartClock(s: EngineState, now: int): (r: EngineState)
    ensures r.startTime.Some?
    ensures r.words == s.words && r.wordIndex == s.wordIndex && r.letterIndex == s.letterIndex && r.typed == s.typed
    ensures r.keystrokes == s.keystrokes && r.errors == s.errors && r.dailyGoal == s.dailyGoal
    ensures r.endTime == s.endTime && r.lastSpeed == s.lastSpeed && r.topSpeed == s.topSpeed
    ensures s.startTime.Some? ==> r == s
    ensures s.startTime.None? ==> r == s.(startTime := Some(now))
  {
    if s.startTime.None? then s.(startTime := Some(now)) else s
  }

  /** One key-down event at time `now`. `nextWords` is what the word source
      draws if this press ends the session. */
  function Step(s: EngineState, key: string, now: int, nextWords: seq<string>): (r: EngineState)
    requires Valid(s) && |nextWords| > 0
    ensures Valid(r)
    ensures IsModifier(key) ==> r == StartClock(s, now)
    ensures !IsModifier(key) && !Completes(s, key) ==> r.keystrokes == s.keystrokes + 1
    ensures !IsModifier(key) && Completes(s, key) ==> r.keystrokes == 0
    ensures r.dailyGoal == s.dailyGoal
  {
    var clocked := StartClock(s, now);
    if IsModifier(key) then clocked
    else
      var t := clocked.(keystrokes := s.keystrokes + 1);
      if key == " " then SpaceKey(s, t, now, nextWords)
      else if IsBackspace(key) then BackspaceKey(t)
      else PrintableKey(t, key)
  }

  /** A key that is not a modifier is dispatched on the clocked state with the
      keystroke counted. */
  lemma StepByKeyClass(s: EngineState, key: string, now: int, nextWords: seq<string>)
    requires Valid(s) && |nextWords| > 0 && !IsModifier(key)
    ensures var t := StartClock(s, now).(keystrokes := s.keystrokes + 1);
      Step(s, key, now, nextWords) ==
        if key == " " then SpaceKey(s, t, now, nextWords)
        else if IsBackspace(key) then BackspaceKey(t)
        else PrintableKey(t, key)
  {
  }

  /** Space. `s` is the state before the press (what the handler's closure
      sees), `t` the state with the clock started and the keystroke counted. */
  function SpaceKey(s: EngineState, t: EngineState, now: int, nextWords: seq<string>): (r: EngineState)
    requires Valid(s) && |nextWords| > 0
    requires t == StartClock(s, now).(keystrokes := s.keystrokes + 1)
    ensures Valid(r)
    // in the middle of a word only the keystroke count moves
    ensures s.letterIndex < |s.words[s.wordIndex]| ==> r == t
    // at the end of a word that is not the last: one separator record, next word
    ensures s.letterIndex == |s.words[s.wordIndex]| && s.wordIndex < |s.words| - 1 ==>
      && r == t.(typed := t.typed + [Separator], wordIndex := s.wordIndex + 1, letterIndex := 0)
      && CursorSlot(r) == CursorSlot(s) + 1
    // at the end of the last word: the session is over and everything restarts
    ensures Completes(s, " ") ==>
      && r.words == nextWords && r.wordIndex == 0 && r.letterIndex == 0 && r.typed == []
      && r.startTime == None && r.endTime == None && r.keystrokes == 0 && r.errors == 0
      && r.dailyGoal == s.dailyGoal
  {
    var word := s.words[s.wordIndex];
    if s.letterIndex != |word| then t
    else if s.wordIndex == |s.words| - 1 then Complete(s, t, now, nextWords)
    else
      SeparatorSlot(s.words, s.wordIndex);
      t.(typed := t.typed + [Separator], wordIndex := s.wordIndex + 1, letterIndex := 0)
  }

  /** A space at the end of the last word completes the session. */
  lemma SpaceKeyCompletes(s: EngineState, t: EngineState, now: int, nextWords: seq<string>)
    requires Valid(s) && |nextWords| > 0
    requires t == StartClock(s, now).(keystrokes := s.keystrokes + 1)
    requires s.letterIndex == |s.words[s.wordIndex]| && s.wordIndex == |s.words| - 1
    ensures SpaceKey(s, t, now, nextWords) == Complete(s, t, now, nextWords)
  {
  }

  /** Words per minute at session end, (keystrokes / 5) / (ms / 60000), rounded. */
  function FinalWpm(keystrokes: nat, ms: int): (wpm: int)
    requires ms > 0
    ensures wpm >= 0
    ensures 2 * ms * wpm <= 24000 * keystrokes + ms < 2 * ms * wpm + 2 * ms
  {
    Round(12000 * keystrokes, ms)
  }

  /** Session end: the last speed and the top speed are updated when time has
      passed (with the keystroke count from before the final space, and a
      missing start time read as 0), then the session state is reset and the
      next words are installed. */
  function Complete(s: EngineState, t: EngineState, now: int, nextWords: seq<string>): (r: EngineState)
    requires |nextWords| > 0 && s.dailyGoal.current <= s.dailyGoal.total
    requires t.dailyGoal == s.dailyGoal
    ensures Valid(r)
    ensures r.words == nextWords && r.wordIndex == 0 && r.letterIndex == 0 && r.typed == []
    ensures r.startTime == None && r.endTime == None && r.keystrokes == 0 && r.errors == 0
    ensures r.dailyGoal == s.dailyGoal
    ensures var ms := now - (if s.startTime.Some? then s.startTime.value else 0);
      if ms > 0 then
        && r.lastSpeed == FinalWpm(s.keystrokes, ms)
        && r.topSpeed >= s.topSpeed && r.topSpeed >= r.lastSpeed
        && (r.topSpeed == s.topSpeed || r.topSpeed == r.lastSpeed)
      else r.lastSpeed == s.lastSpeed && r.topSpeed == s.topSpeed
  {
    var ms := now - (if s.startTime.Some? then s.startTime.value else 0);
    var last := if ms > 0 then FinalWpm(s.keystrokes, ms) else s.lastSpeed;
    var top := if ms > 0 && last > s.topSpeed then last else s.topSpeed;
    t.(words := nextWords, wordIndex := 0, letterIndex := 0, typed := [],
       startTime := None, endTime := None, keystrokes := 0, errors := 0,
       lastSpeed := last, topSpeed := top)
  }

  /** The record `Complete` builds, given the speeds it settles on. */
  lemma CompleteRecord(s: EngineState, t: EngineState, now: int, nextWords: seq<string>, last: int, top: int)
    requires |nextWords| > 0 && s.dailyGoal.current <= s.dailyGoal.total
    requires t.dailyGoal == s.dailyGoal
    requires var ms := now - (if s.startTime.Some? then s.startTime.value else 0);
      last == (if ms > 0 then FinalWpm(s.keystrokes, ms) else s.lastSpeed)
      && top == (if ms > 0 && last > s.topSpeed then last else s.topSpeed)
    ensures Complete(s, t, now, nextWords) == t.(words := nextWords, wordIndex := 0, letterIndex := 0, typed := [],
      startTime := None, endTime := None, keystrokes := 0, errors := 0, lastSpeed := last, topSpeed := top)
  {
  }

  /** Backspace. Inside a word it steps back one letter and drops the record at
      the slot before the cursor; at the start of a word it steps back onto the
      end of the previous word and drops the record of the separator slot if
      that record is a separator; at the very start nothing moves. */
  function BackspaceKey(t: EngineState): (r: EngineState)
    requires Valid(t)
    ensures Valid(r)
    ensures r.keystrokes == t.keystrokes && r.errors == t.errors && r.words == t.words
    ensures r.startTime == t.startTime && r.endTime == t.endTime && r.dailyGoal == t.dailyGoal
    ensures r.lastSpeed == t.lastSpeed && r.topSpeed == t.topSpeed
    ensures t.letterIndex > 0 ==>
      && CursorSlot(t) > 0
      && r.wordIndex == t.wordIndex && r.letterIndex == t.letterIndex - 1
      && r.typed == RemoveAt(t.typed, CursorSlot(t) - 1)
      && CursorSlot(r) == CursorSlot(t) - 1
    ensures t.letterIndex == 0 && t.wordIndex > 0 ==>
      && CursorSlot(t) > 0
      && r.wordIndex == t.wordIndex - 1 && r.letterIndex == |t.words[t.wordIndex - 1]|
      && CursorSlot(r) == CursorSlot(t) - 1
      && r.typed == (if t.typed[CursorSlot(t) - 1].isSpace then RemoveAt(t.typed, CursorSlot(t) - 1) else t.typed)
    ensures t.letterIndex == 0 && t.wordIndex == 0 ==> r == t
  {
    if t.letterIndex > 0 then
      var g := GlobalIndex(t.words, t.wordIndex, t.letterIndex);
      t.(letterIndex := t.letterIndex - 1,
         typed := if g - 1 < |t.typed| then RemoveAt(t.typed, g - 1) else t.typed)
    else if t.wordIndex > 0 then
      var pw := t.wordIndex - 1;
      var pl := |t.words[pw]|;
      var si := GlobalIndex(t.words, pw, pl);
      SeparatorSlot(t.words, pw);
      t.(wordIndex := pw, letterIndex := pl,
         typed := if si < |t.typed| && t.typed[si].isSpace then RemoveAt(t.typed, si) else t.typed)
    else t
  }

  /** `BackspaceKey` inside a word, as a record update. */
  lemma BackspaceKeyInWord(t: EngineState)
    requires Valid(t) && t.letterIndex > 0
    ensures var g := GlobalIndex(t.words, t.wordIndex, t.letterIndex);
      BackspaceKey(t) == t.(letterIndex := t.letterIndex - 1,
        typed := if g - 1 < |t.typed| then RemoveAt(t.typed, g - 1) else t.typed)
  {
  }

  /** `BackspaceKey` at the start of a word other than the first, as a record
      update. */
  lemma BackspaceKeyAtWordStart(t: EngineState)
    requires Valid(t) && t.letterIndex == 0 && t.wordIndex > 0
    ensures var pw := t.wordIndex - 1;
      var si := GlobalIndex(t.words, pw, |t.words[pw]|);
      BackspaceKey(t) == t.(wordIndex := pw, letterIndex := |t.words[pw]|,
        typed := if si < |t.typed| && t.typed[si].isSpace then RemoveAt(t.typed, si) else t.typed)
  {
  }

  /** Any other key. A match stores a correct record holding the expected
      letter and advances; a mismatch stores an incorrect record holding the
      typed key, stays, and counts an error. Either way the slot's earlier
      wrong characters are carried over when its old record was incorrect. */
  function PrintableKey(t: EngineState, key: string): (r: EngineState)
    requires Valid(t) && t.errors < t.keystrokes
    ensures Valid(r)
    ensures r.keystrokes == t.keystrokes && r.words == t.words && r.wordIndex == t.wordIndex
    ensures r.startTime == t.startTime && r.endTime == t.endTime && r.dailyGoal == t.dailyGoal
    ensures r.lastSpeed == t.lastSpeed && r.topSpeed == t.topSpeed
    ensures |r.typed| == if CursorSlot(t) < |t.typed| then |t.typed| else |t.typed| + 1
    ensures forall j :: 0 <= j < |t.typed| && j != CursorSlot(t) ==> r.typed[j] == t.typed[j]
    ensures Matches(t, key) ==>
      && r.letterIndex == t.letterIndex + 1 && r.errors == t.errors
      && r.typed[CursorSlot(t)] == Letter(key, true, PriorAttempts(t.typed, CursorSlot(t)), false)
    ensures !Matches(t, key) ==>
      && r.letterIndex == t.letterIndex && r.errors == t.errors + 1
      && r.typed[CursorSlot(t)] == Letter(key, false, PriorAttempts(t.typed, CursorSlot(t)), false)
  {
    var word := t.words[t.wordIndex];
    var g := GlobalIndex(t.words, t.wordIndex, t.letterIndex);
    var history := PriorAttempts(t.typed, g);
    if t.letterIndex < |word| && key == [word[t.letterIndex]] then
      t.(typed := Put(t.typed, g, Letter([word[t.letterIndex]], true, history, false)),
         letterIndex := t.letterIndex + 1)
    else
      t.(typed := Put(t.typed, g, Letter(key, false, history, false)),
         errors := t.errors + 1)
  }

  /** The literal keys used below fall in the classes one expects. */
  lemma LiteralKeyClasses()
    ensures !IsModifier(" ") && !IsBackspace(" ")
    ensures !IsModifier("Backspace") && IsBackspace("Backspace")
  {
    assert |ToLower(" ")| == 1;
    var lower := ToLower("Backspace");
    assert lower == "backspace" by {
      assert "Backspace"[0] == 'B';
      forall i | 0 <= i < 9 ensures lower[i] == "backspace"[i] {
      }
    }
  }

  /** A one-character key other than the space is a printable key. */
  lemma SingleCharacterIsPrintable(key: string)
    requires |key| == 1 && key != " "
    ensures !IsModifier(key) && !IsBackspace(key)
  {
    assert |ToLower(key)| == 1;
  }

  // ---------------------------------------------------------------------------
  // Properties relating several key presses
  // ---------------------------------------------------------------------------

  /** Typing the expected letter and then Backspace, from a state with no
      record at or after the cursor, restores the cursor and the records. */
  lemma BackspaceUndoesMatch(s: EngineState, key: string, n1: int, n2: int, nextWords: seq<string>)
    requires Valid(s) && |nextWords| > 0
    requires |s.typed| == CursorSlot(s) && Matches(s, key) && key != " "
    ensures var r := Step(Step(s, key, n1, nextWords), "Backspace", n2, nextWords);
      r.wordIndex == s.wordIndex && r.letterIndex == s.letterIndex && r.typed == s.typed
  {
    TypeExpected(s, key, n1, nextWords);
    var a := Step(s, key, n1, nextWords);
    assert CursorSlot(a) == CursorSlot(s) + 1;
    BackspaceInWord(a, n2, nextWords);
    assert a.typed[..|a.typed| - 1] == s.typed;
  }

  /** A space at a word boundary followed by Backspace, with no record at or
      after the cursor, restores the cursor and the records. */
  lemma SpaceThenBackspaceRestores(s: EngineState, n1: int, n2: int, nextWords: seq<string>)
    requires Valid(s) && |nextWords| > 0
    requires s.letterIndex == |s.words[s.wordIndex]| && s.wordIndex < |s.words| - 1
    requires |s.typed| == CursorSlot(s)
    ensures var r := Step(Step(s, " ", n1, nextWords), "Backspace", n2, nextWords);
      r.wordIndex == s.wordIndex && r.letterIndex == s.letterIndex && r.typed == s.typed
  {
    SpaceAtWordEnd(s, n1, nextWords);
    var a := Step(s, " ", n1, nextWords);
    SeparatorSlot(s.words, s.wordIndex);
    BackspaceOverSeparator(a, n2, nextWords);
    assert a.typed[..|a.typed| - 1] == s.typed;
  }

  /** The state after a space at the end of a word that is not the last, when
      the word's end slot already holds a record: the separator record goes
      to the end, one slot past the word's separator slot. */
  lemma SeparatorPastRecordAtWordEnd(s: EngineState, n1: int)
    requires Valid(s)
    requires s.letterIndex == |s.words[s.wordIndex]| && s.wordIndex < |s.words| - 1
    requires CursorSlot(s) < |s.typed|
    ensures var a := StartClock(s, n1).(keystrokes := s.keystrokes + 1, wordIndex := s.wordIndex + 1,
        letterIndex := 0, typed := s.typed + [Separator]);
      && Valid(a) && a.letterIndex == 0 && a.wordIndex > 0
      && CursorSlot(a) == CursorSlot(s) + 1
      && GlobalIndex(a.words, a.wordIndex - 1, |a.words[a.wordIndex - 1]|) == CursorSlot(s)
      && a.typed[CursorSlot(s)] == s.typed[CursorSlot(s)]
      && a.typed[|a.typed| - 1] == Separator
  {
    SeparatorSlot(s.words, s.wordIndex);
  }

  /** `BackspaceKey` on the clocked state at the start of a word whose
      separator slot holds a record other than a separator: the cursor moves
      to the end of the previous word and no record is removed. */
  lemma BackspaceKeyWithoutSeparatorRecord(a: EngineState, now: int)
    requires Valid(a) && a.letterIndex == 0 && a.wordIndex > 0
    requires var si := GlobalIndex(a.words, a.wordIndex - 1, |a.words[a.wordIndex - 1]|);
      si < |a.typed| && !a.typed[si].isSpace
    ensures var r := BackspaceKey(StartClock(a, now).(keystrokes := a.keystrokes + 1));
      r.wordIndex == a.wordIndex - 1 && r.letterIndex == |a.words[a.wordIndex - 1]| && r.typed == a.typed
  {
    BackspaceKeyAtWordStart(StartClock(a, now).(keystrokes := a.keystrokes + 1));
  }

  /** The separator is appended to the end of `typedLetters`, not written at the
      separator slot. When a wrong key was typed at a word's end, the slot holds
      that wrong record, the separator lands one slot further, and a following
      Backspace moves the cursor back without removing the separator. */
  lemma StraySeparatorAfterWrongKeyAtWordEnd(s: EngineState, n1: int, n2: int, nextWords: seq<string>)
    requires Valid(s) && |nextWords| > 0
    requires s.letterIndex == |s.words[s.wordIndex]| && s.wordIndex < |s.words| - 1
    requires CursorSlot(s) < |s.typed| && !s.typed[CursorSlot(s)].isSpace
    ensures var a := Step(s, " ", n1, nextWords);
      && !a.typed[CursorSlot(a) - 1].isSpace
      && a.typed[|a.typed| - 1] == Separator
    ensures var r := Step(Step(s, " ", n1, nextWords), "Backspace", n2, nextWords);
      && r.wordIndex == s.wordIndex && r.letterIndex == s.letterIndex
      && r.typed == s.typed + [Separator]
  {
    SpaceAtWordEnd(s, n1, nextWords);
    SeparatorPastRecordAtWordEnd(s, n1);
    var a := Step(s, " ", n1, nextWords);
    BackspaceKeyWithoutSeparatorRecord(a, n2);
    StepBackspace(a, n2, nextWords);
  }

  /** The handler's keystroke counter only grows during a session: every
      press that does not end the session adds one or, for a modifier, nothing. */
  lemma KeystrokesNeverDecreaseWithinSession(s: EngineState, key: string, now: int, nextWords: seq<string>)
    requires Valid(s) && |nextWords| > 0 && !Completes(s, key)
    ensures Step(s, key, now, nextWords).keystrokes >= s.keystrokes
    ensures Step(s, key, now, nextWords).keystrokes <= s.keystrokes + 1
  {
  }

  // ---------------------------------------------------------------------------
  // Single presses at the end of the records
  // ---------------------------------------------------------------------------

  /** The space key is handled by `SpaceKey` on the clocked state. */
  lemma StepSpace(s: EngineState, now: int, nextWords: seq<string>)
    requires Valid(s) && |nextWords| > 0
    ensures Step(s, " ", now, nextWords) == SpaceKey(s, StartClock(s, now).(keystrokes := s.keystrokes + 1), now, nextWords)
  {
    LiteralKeyClasses();
  }

  /** The Backspace key is handled by `BackspaceKey` on the clocked state. */
  lemma StepBackspace(s: EngineState, now: int, nextWords: seq<string>)
    requires Valid(s) && |nextWords| > 0
    ensures Step(s, "Backspace", now, nextWords) == BackspaceKey(StartClock(s, now).(keystrokes := s.keystrokes + 1))
  {
    LiteralKeyClasses();
  }

  /** A one-character key other than the space is handled by `PrintableKey`
      on the clocked state. */
  lemma StepPrintable(s: EngineState, key: string, now: int, nextWords: seq<string>)
    requires Valid(s) && |nextWords| > 0 && |key| == 1 && key != " "
    ensures Step(s, key, now, nextWords) == PrintableKey(StartClock(s, now).(keystrokes := s.keystrokes + 1), key)
  {
    SingleCharacterIsPrintable(key);
  }

  /** `PrintableKey` as a record update: the record at the cursor's slot is
      written, then the cursor advances on a match or an error is counted. */
  lemma PrintableKeyAtCursor(t: EngineState, key: string)
    requires Valid(t) && t.errors < t.keystrokes
    ensures var g := CursorSlot(t);
      var h := PriorAttempts(t.typed, g);
      PrintableKey(t, key) ==
        if Matches(t, key) then t.(typed := Put(t.typed, g, Letter(key, true, h, false)), letterIndex := t.letterIndex + 1)
        else t.(typed := Put(t.typed, g, Letter(key, false, h, false)), errors := t.errors + 1)
  {
  }

  /** The expected letter, with no record at or after the cursor: a correct
      record with no earlier attempts is appended and the cursor advances. */
  lemma TypeExpected(s: EngineState, key: string, now: int, nextWords: seq<string>)
    requires Valid(s) && |nextWords| > 0 && |key| == 1 && key != " "
    requires Matches(s, key) && CursorSlot(s) == |s.typed|
    ensures Step(s, key, now, nextWords) == StartClock(s, now).(
      keystrokes := s.keystrokes + 1, letterIndex := s.letterIndex + 1,
      typed := s.typed + [Letter(key, true, [], false)])
  {
    StepPrintable(s, key, now, nextWords);
    var t := StartClock(s, now).(keystrokes := s.keystrokes + 1);
    assert CursorSlot(t) == |t.typed| && Matches(t, key);
    PrintableKeyAtCursor(t, key);
    assert Put(t.typed, |t.typed|, Letter(key, true, [], false)) == t.typed + [Letter(key, true, [], false)];
  }

  /** A wrong letter, with no record at or after the cursor: an incorrect
      record is appended, the cursor stays and an error is counted. */
  lemma TypeWrong(s: EngineState, key: string, now: int, nextWords: seq<string>)
    requires Valid(s) && |nextWords| > 0 && |key| == 1 && key != " "
    requires !Matches(s, key) && CursorSlot(s) == |s.typed|
    ensures Step(s, key, now, nextWords) == StartClock(s, now).(
      keystrokes := s.keystrokes + 1, errors := s.errors + 1,
      typed := s.typed + [Letter(key, false, [], false)])
  {
    StepPrintable(s, key, now, nextWords);
    var t := StartClock(s, now).(keystrokes := s.keystrokes + 1);
    assert CursorSlot(t) == |t.typed| && !Matches(t, key);
    PrintableKeyAtCursor(t, key);
    assert Put(t.typed, |t.typed|, Letter(key, false, [], false)) == t.typed + [Letter(key, false, [], false)];
  }

  /** The expected letter over the last record, an incorrect one: the record
      is replaced by a correct one that keeps the wrong character as an
      earlier attempt, and the cursor advances. */
  lemma RetypeExpected(s: EngineState, key: string, now: int, nextWords: seq<string>)
    requires Valid(s) && |nextWords| > 0 && |key| == 1 && key != " "
    requires Matches(s, key) && CursorSlot(s) + 1 == |s.typed| && !s.typed[CursorSlot(s)].correct
    ensures var prev := s.typed[CursorSlot(s)];
      Step(s, key, now, nextWords) == StartClock(s, now).(
        keystrokes := s.keystrokes + 1, letterIndex := s.letterIndex + 1,
        typed := s.typed[CursorSlot(s) := Letter(key, true, prev.previousAttempts + [prev.ch], false)])
  {
    StepPrintable(s, key, now, nextWords);
    var t := StartClock(s, now).(keystrokes := s.keystrokes + 1);
    assert CursorSlot(t) == CursorSlot(s) && Matches(t, key);
    PrintableKeyAtCursor(t, key);
  }

  /** A space at the end of a word that is not the last: the separator is
      appended and the cursor moves to the start of the next word. */
  lemma SpaceAtWordEnd(s: EngineState, now: int, nextWords: seq<string>)
    requires Valid(s) && |nextWords| > 0
    requires s.letterIndex == |s.words[s.wordIndex]| && s.wordIndex < |s.words| - 1
    ensures Step(s, " ", now, nextWords) == StartClock(s, now).(
      keystrokes := s.keystrokes + 1, wordIndex := s.wordIndex + 1, letterIndex := 0,
      typed := s.typed + [Separator])
  {
    StepSpace(s, now, nextWords);
  }

  /** Backspace inside a word, with no record after the one before the
      cursor: that record is dropped and the cursor steps back. */
  lemma BackspaceInWord(s: EngineState, now: int, nextWords: seq<string>)
    requires Valid(s) && |nextWords| > 0
    requires s.letterIndex > 0 && CursorSlot(s) == |s.typed|
    ensures Step(s, "Backspace", now, nextWords) == StartClock(s, now).(
      keystrokes := s.keystrokes + 1, letterIndex := s.letterIndex - 1,
      typed := s.typed[..|s.typed| - 1])
  {
    StepBackspace(s, now, nextWords);
    var t := StartClock(s, now).(keystrokes := s.keystrokes + 1);
    assert CursorSlot(t) == |t.typed|;
    BackspaceKeyInWord(t);
    assert RemoveAt(t.typed, |t.typed| - 1) == t.typed[..|t.typed| - 1];
  }

  /** `BackspaceKey` on the clocked state at the start of a word whose
      separator record is the last record. */
  lemma BackspaceKeyOverSeparator(s: EngineState, now: int)
    requires Valid(s) && s.letterIndex == 0 && s.wordIndex > 0 && CursorSlot(s) == |s.typed|
    requires s.typed[|s.typed| - 1].isSpace
    ensures BackspaceKey(StartClock(s, now).(keystrokes := s.keystrokes + 1)) == StartClock(s, now).(
      keystrokes := s.keystrokes + 1, wordIndex := s.wordIndex - 1,
      letterIndex := |s.words[s.wordIndex - 1]|, typed := s.typed[..|s.typed| - 1])
  {
    var t := StartClock(s, now).(keystrokes := s.keystrokes + 1);
    SeparatorSlot(t.words, t.wordIndex - 1);
    var si := GlobalIndex(t.words, t.wordIndex - 1, |t.words[t.wordIndex - 1]|);
    assert si == |t.typed| - 1 && t.typed[si].isSpace;
    BackspaceKeyAtWordStart(t);
    assert RemoveAt(t.typed, si) == s.typed[..|s.typed| - 1];
  }

  /** Backspace at the start of a word, with the separator as the last record
      and no record after it: the separator is dropped and the cursor moves to
      the end of the previous word. */
  lemma BackspaceOverSeparator(s: EngineState, now: int, nextWords: seq<string>)
    requires Valid(s) && |nextWords| > 0
    requires s.letterIndex == 0 && s.wordIndex > 0 && CursorSlot(s) == |s.typed|
    requires s.typed[|s.typed| - 1].isSpace
    ensures Step(s, "Backspace", now, nextWords) == StartClock(s, now).(
      keystrokes := s.keystrokes + 1, wordIndex := s.wordIndex - 1,
      letterIndex := |s.words[s.wordIndex - 1]|, typed := s.typed[..|s.typed| - 1])
  {
    StepBackspace(s, now, nextWords);
    BackspaceKeyOverSeparator(s, now);
  }

  /** Typing "c", "x" and "a" over the word "cat": the wrong "x" is kept as an
      earlier attempt of the slot that finally holds the correct "a". */
  lemma RetypeKeepsEarlierAttempt(nextWords: seq<string>)
    requires |nextWords| > 0
    ensures var s0 := Initial(["cat"], 0);
      var s3 := Step(Step(Step(s0, "c", 1, nextWords), "x", 2, nextWords), "a", 3, nextWords);
      && s3.wordIndex == 0 && s3.letterIndex == 2
      && s3.typed == [Letter("c", true, [], false), Letter("a", true, ["x"], false)]
      && s3.keystrokes == 3 && s3.errors == 1
  {
    var c := Letter("c", true, [], false);
    var s0 := Initial(["cat"], 0);
    var s1 := s0.(startTime := Some(1), keystrokes := 1, letterIndex := 1, typed := [c]);
    var s2 := s1.(keystrokes := 2, errors := 1, typed := [c, Letter("x", false, [], false)]);
    TypeExpected(s0, "c", 1, nextWords);
    assert Step(s0, "c", 1, nextWords) == s1;
    TypeWrong(s1, "x", 2, nextWords);
    assert Step(s1, "x", 2, nextWords) == s2;
    assert CursorSlot(s2) == 1;
    RetypeExpected(s2, "a", 3, nextWords);
    assert [] + ["x"] == ["x"];
  }

  /** Typing "c", "a", "t", space, "d" and Backspace over the words "cat" and
      "dog": the Backspace removes the "d" record and leaves the cursor at the
      start of "dog", after the kept separator. */
  lemma CatDogBackspace(nextWords: seq<string>)
    requires |nextWords| > 0
    ensures var s0 := Initial(["cat", "dog"], 0);
      var s1 := Step(s0, "c", 1, nextWords);
      var s2 := Step(s1, "a", 2, nextWords);
      var s3 := Step(s2, "t", 3, nextWords);
      var s4 := Step(s3, " ", 4, nextWords);
      var s5 := Step(s4, "d", 5, nextWords);
      var s6 := Step(s5, "Backspace", 6, nextWords);
      && s6.wordIndex == 1 && s6.letterIndex == 0
      && s6.typed == [Letter("c", true, [], false), Letter("a", true, [], false), Letter("t", true, [], false), Separator]
      && s6.keystrokes == 6 && s6.errors == 0
  {
    var c, a, t, d := Letter("c", true, [], false), Letter("a", true, [], false), Letter("t", true, [], false), Letter("d", true, [], false);
    var s0 := Initial(["cat", "dog"], 0);
    var s1 := s0.(startTime := Some(1), keystrokes := 1, letterIndex := 1, typed := [c]);
    var s2 := s1.(keystrokes := 2, letterIndex := 2, typed := [c, a]);
    var s3 := s2.(keystrokes := 3, letterIndex := 3, typed := [c, a, t]);
    var s4 := s3.(keystrokes := 4, wordIndex := 1, letterIndex := 0, typed := [c, a, t, Separator]);
    var s5 := s4.(keystrokes := 5, letterIndex := 1, typed := [c, a, t, Separator, d]);
    TypeExpected(s0, "c", 1, nextWords);
    assert Step(s0, "c", 1, nextWords) == s1;
    TypeExpected(s1, "a", 2, nextWords);
    assert Step(s1, "a", 2, nextWords) == s2;
    TypeExpected(s2, "t", 3, nextWords);
    assert Step(s2, "t", 3, nextWords) == s3;
    SpaceAtWordEnd(s3, 4, nextWords);
    assert Step(s3, " ", 4, nextWords) == s4;
    assert CursorSlot(s4) == 4;
    TypeExpected(s4, "d", 5, nextWords);
    assert Step(s4, "d", 5, nextWords) == s5;
    BackspaceInWord(s5, 6, nextWords);
    assert s5.typed[..4] == [c, a, t, Separator];
  }

  // ---------------------------------------------------------------------------
  // Practice-key selection and the word filter
  // ---------------------------------------------------------------------------

  /** 'abcdefghijklmnopqrstuvwxyz'.split(''). */
  const Alphabet: seq<char> := "abcdefghijklmnopqrstuvwxyz"
  const DefaultKeys: seq<char> := "eniarl"

  /** `selectedKeys.filter(k => k !== key)`. */
  function Without(sel: seq<char>, key: char): (r: seq<char>)
    ensures key !in r
    ensures forall c :: c != key ==> (c in r <==> c in sel)
    ensures |r| == |sel| - CountOf(sel, key)
  {
    if sel == [] then []
    else
      var pre := Without(sel[..|sel| - 1], key);
      if sel[|sel| - 1] == key then pre else pre + [sel[|sel| - 1]]
  }

  /** Clicking a key on the keyboard: an unselected key is appended, a selected
      one is removed unless it is the only one. */
  function ToggleKey(sel: seq<char>, key: char): (r: seq<char>)
    ensures key !in sel ==> r == sel + [key]
    ensures key in sel && |sel| > 1 ==> r == Without(sel, key)
    ensures key in sel && |sel| <= 1 ==> r == sel
  {
    if key in sel then
      if |sel| > 1 then Without(sel, key) else sel
    else sel + [key]
  }

  /** A selection without duplicates stays without duplicates and is never
      emptied by clicking a key: removing a present key from two or more
      distinct keys leaves the others. */
  lemma ToggleKeyKeepsSelection(sel: seq<char>, key: char)
    requires Distinct(sel) && |sel| > 0
    ensures Distinct(ToggleKey(sel, key)) && |ToggleKey(sel, key)| > 0
    ensures key in sel && |sel| > 1 ==>
      key !in ToggleKey(sel, key) && |ToggleKey(sel, key)| == |sel| - 1
  {
    if key in sel && |sel| > 1 {
      DistinctCountOne(sel, key);
      WithoutKeepsDistinct(sel, key);
    }
  }

  lemma {:induction false} WithoutKeepsDistinct(sel: seq<char>, key: char)
    requires Distinct(sel)
    ensures Distinct(Without(sel, key))
  {
    if sel != [] {
      var pre := sel[..|sel| - 1];
      assert Distinct(pre);
      WithoutKeepsDistinct(pre, key);
      assert sel[|sel| - 1] !in pre;
    }
  }

  lemma DistinctCountOne(sel: seq<char>, key: char)
    requires Distinct(sel) && key in sel
    ensures CountOf(sel, key) == 1
    decreases |sel|
  {
    var pre := sel[..|sel| - 1];
    assert Distinct(pre);
    if sel[|sel| - 1] == key {
      assert key !in pre;
    } else {
      assert key in pre;
      DistinctCountOne(pre, key);
    }
  }

  /** The "all keys" button: back to the default keys when all 26 are
      selected, otherwise every letter. Either result is a non-empty selection
      without duplicates. */
  function ToggleAllKeys(sel: seq<char>): (r: seq<char>)
    ensures |sel| == |Alphabet| ==> r == DefaultKeys
    ensures |sel| != |Alphabet| ==> r == Alphabet
    ensures Distinct(r) && |r| > 0
  {
    AlphabetCodes();
    if |Alphabet| == |sel| then DefaultKeys else Alphabet
  }

  /** The i-th letter of the alphabet has code 'a' + i. */
  lemma AlphabetCodes()
    ensures |Alphabet| == 26
    ensures forall i :: 0 <= i < |Alphabet| ==> Alphabet[i] as int == 'a' as int + i
  {
  }

  predicate UsesOnly(word: string, sel: seq<char>) {
    forall i :: 0 <= i < |word| ==> word[i] in sel
  }

  /** The practice words: those whose every letter is a selected key, in their
      dictionary order, each as often as it occurs there. */
  function FilterWords(words: seq<string>, sel: seq<char>): (r: seq<string>)
    ensures forall i :: 0 <= i < |r| ==> UsesOnly(r[i], sel)
    ensures forall x :: CountOf(r, x) == if UsesOnly(x, sel) then CountOf(words, x) else 0
  {
    if words == [] then []
    else
      var pre := FilterWords(words[..|words| - 1], sel);
      var x := words[|words| - 1];
      if UsesOnly(x, sel) then
        assert (pre + [x])[..|pre + [x]| - 1] == pre;
        pre + [x]
      else pre
  }
}

/** The application component's session state as a mutable object: the key-down
    handler and the typing area's refresh button update its fields in place,
    and each is proved to perform exactly the transition that `KeyHandler.Step`
    and `TypingArea.RefreshState` specify. */
module SessionEngine {
  import opened Common
  import opened TypingState
  import opened KeyHandler
  import opened TypingArea

  class TypingSession {
    var words: seq<string>
    var wordIndex: nat
    var letterIndex: nat
    var typed: seq<Letter>
    var startTime: Option<int>
    var endTime: Option<int>
    var keystrokes: nat
    var errors: nat
    var lastSpeed: int
    var topSpeed: int
    var dailyGoal: GoalProgress

    /** The fields, read as one state value. */
    function State(): EngineState
      reads this
    {
      EngineState(words, wordIndex, letterIndex, typed, startTime, endTime,
                  keystrokes, errors, lastSpeed, topSpeed, dailyGoal)
    }

    constructor (firstWords: seq<string>, storedTopSpeed: int)
      requires |firstWords| > 0
      ensures State() == Initial(firstWords, storedTopSpeed)
      ensures Valid(State())
    {
      words := firstWords;
      wordIndex := 0;
      letterIndex := 0;
      typed := [];
      startTime := None;
      endTime := None;
      keystrokes := 0;
      errors := 0;
      lastSpeed := 0;
      topSpeed := storedTopSpeed;
      dailyGoal := GoalProgress(0, 30);
    }

    /** `handleKeyDown`: one key press at time `now`; `nextWords` is what the
        word source draws if the press ends the session. */
    method KeyDown(key: string, now: int, nextWords: seq<string>)
      requires Valid(State()) && |nextWords| > 0
      modifies this
      ensures State() == Step(old(State()), key, now, nextWords)
      ensures Valid(State())
    {
      ghost var s := State();
      var sessionStart := startTime;
      var pressesBefore := keystrokes;
      if startTime.None? {
        startTime := Some(now);
      }
      if IsModifier(key) {
        return;
      }
      keystrokes := keystrokes + 1;
      StepByKeyClass(s, key, now, nextWords);
      assert State() == StartClock(s, now).(keystrokes := s.keystrokes + 1);
      if key == " " {
        SpaceDown(s, now, nextWords, sessionStart, pressesBefore);
      } else if IsBackspace(key) {
        BackspaceDown();
      } else {
        PrintableDown(key);
      }
    }

    /** The space branch of the handler. `s` is the state before the press,
        whose start time and keystroke count the handler's closure still sees. */
    method SpaceDown(ghost s: EngineState, now: int, nextWords: seq<string>, sessionStart: Option<int>, pressesBefore: nat)
      requires Valid(s) && |nextWords| > 0
      requires State() == StartClock(s, now).(keystrokes := s.keystrokes + 1)
      requires sessionStart == s.startTime && pressesBefore == s.keystrokes
      modifies this
      ensures State() == SpaceKey(s, old(State()), now, nextWords)
    {
      ghost var t := State();
      if letterIndex == |words[wordIndex]| {
        if wordIndex == |words| - 1 {
          FinishSession(s, now, nextWords, sessionStart, pressesBefore);
          SpaceKeyCompletes(s, t, now, nextWords);
        } else {
          typed := typed + [Separator];
          wordIndex := wordIndex + 1;
          letterIndex := 0;
        }
      }
    }

    /** The end of the session: the speeds are settled from the keystrokes
        and the start time the handler's closure saw, then everything restarts
        on `nextWords`. */
    method FinishSession(ghost s: EngineState, now: int, nextWords: seq<string>, sessionStart: Option<int>, pressesBefore: nat)
      requires |nextWords| > 0 && s.dailyGoal.current <= s.dailyGoal.total
      requires dailyGoal == s.dailyGoal && lastSpeed == s.lastSpeed && topSpeed == s.topSpeed
      requires sessionStart == s.startTime && pressesBefore == s.keystrokes
      modifies this
      ensures State() == Complete(s, old(State()), now, nextWords)
    {
      ghost var t := State();
      var elapsed := now - (if sessionStart.Some? then sessionStart.value else 0);
      if elapsed > 0 {
        var finalWpm := FinalWpm(pressesBefore, elapsed);
        lastSpeed := finalWpm;
        if finalWpm > topSpeed {
          topSpeed := finalWpm;
        }
      }
      CompleteRecord(s, t, now, nextWords, lastSpeed, topSpeed);
      wordIndex := 0;
      letterIndex := 0;
      typed := [];
      startTime := None;
      endTime := None;
      keystrokes := 0;
      errors := 0;
      words := nextWords;
    }

    /** The Backspace branch of the handler. */
    method BackspaceDown()
      requires Valid(State())
      modifies this
      ensures State() == BackspaceKey(old(State()))
    {
      if letterIndex > 0 {
        BackspaceInWord();
      } else if wordIndex > 0 {
        BackspaceAtWordStart();
      }
    }

    /** Backspace inside a word: step back and drop the record before the cursor. */
    method BackspaceInWord()
      requires Valid(State()) && letterIndex > 0
      modifies this
      ensures State() == BackspaceKey(old(State()))
    {
      ghost var t := State();
      var currentGlobalIndex := CalculateGlobalLetterIndex(words, wordIndex, letterIndex);
      letterIndex := letterIndex - 1;
      if currentGlobalIndex - 1 < |typed| {
        typed := RemoveAt(typed, currentGlobalIndex - 1);
      }
      BackspaceKeyInWord(t);
    }

    /** Backspace at the start of a word: step back onto the end of the previous
        word, dropping the separator record if there is one. */
    method BackspaceAtWordStart()
      requires Valid(State()) && letterIndex == 0 && wordIndex > 0
      modifies this
      ensures State() == BackspaceKey(old(State()))
    {
      ghost var t := State();
      var prevWordIndex := wordIndex - 1;
      var prevWordLength := |words[prevWordIndex]|;
      var spaceIndex := CalculateGlobalLetterIndex(words, prevWordIndex, prevWordLength);
      if spaceIndex < |typed| && typed[spaceIndex].isSpace {
        typed := RemoveAt(typed, spaceIndex);
      }
      wordIndex := prevWordIndex;
      letterIndex := prevWordLength;
      BackspaceKeyAtWordStart(t);
    }

    /** The branch for every other key: the slot under the cursor is
        overwritten (or appended) on a copy of the records. */
    method PrintableDown(key: string)
      requires Valid(State()) && errors < keystrokes
      modifies this
      ensures State() == PrintableKey(old(State()), key)
    {
      var currentWord := words[wordIndex];
      var currentGlobalIndex := CalculateGlobalLetterIndex(words, wordIndex, letterIndex);
      var history := PriorAttempts(typed, currentGlobalIndex);
      if letterIndex < |currentWord| && key == [currentWord[letterIndex]] {
        typed := Put(typed, currentGlobalIndex, Letter([currentWord[letterIndex]], true, history, false));
        letterIndex := letterIndex + 1;
      } else {
        typed := Put(typed, currentGlobalIndex, Letter(key, false, history, false));
        errors := errors + 1;
      }
    }

    /** The typing area's refresh button at time `now`, installing `nextWords`. */
    method Refresh(now: int, nextWords: seq<string>)
      requires Valid(State()) && |nextWords| > 0
      modifies this
      ensures State() == RefreshState(old(State()), now, nextWords)
      ensures Valid(State())
    {
      ghost var s := State();
      var sessionStart := startTime;
      wordIndex := 0;
      letterIndex := 0;
      typed := [];
      startTime := None;
      endTime := None;
      keystrokes := 0;
      errors := 0;
      if sessionStart.Some? {
        var minutesSpent := MinutesSpent(now - sessionStart.value);
        dailyGoal := CapGoal(dailyGoal, minutesSpent);
      }
      words := nextWords;
      assert State() == s.(words := nextWords, wordIndex := 0, letterIndex := 0, typed := [],
        startTime := None, endTime := None, keystrokes := 0, errors := 0, dailyGoal := dailyGoal);
    }
  }
}

/** The state of a practice session as the application component keeps it:
    the target words, the cursor, the per-slot attempt records, the counters,
    and the global letter index that flattens a cursor into a slot number. */
module TypingState {
  import opened Common

  /** One entry of `typedLetters`: the character finally held by the slot,
      whether it was correct, the wrong characters typed there before it
      (an absent `previousAttempts` is the empty sequence) and whether the
      entry is a word separator. Characters are key names, so they are
      strings: an unexpected "Enter" is recorded as "Enter". */
  datatype Letter = Letter(ch: string, correct: bool, previousAttempts: seq<string>, isSpace: bool)

  /** The record a space appends when the cursor moves to the next word. */
  const Separator: Letter := Letter(" ", true, [], true)

  /** The practice page's daily-goal widget: minutes done and minutes wanted. */
  datatype GoalProgress = GoalProgress(current: int, total: int)

  /** The component state touched by a key press or a refresh. Times are
      milliseconds; `None` is JavaScript's `null`. */
  datatype EngineState = EngineState(
    words: seq<string>,
    wordIndex: nat,
    letterIndex: nat,
    typed: seq<Letter>,
    startTime: Option<int>,
    endTime: Option<int>,
    keystrokes: nat,
    errors: nat,
    lastSpeed: int,
    topSpeed: int,
    dailyGoal: GoalProgress)

  /** The state right after the first word list is drawn; `topSpeed` comes
      from the browser's storage. */
  function Initial(words: seq<string>, storedTopSpeed: int): (s: EngineState)
    requires |words| > 0
    ensures Valid(s)
    ensures GlobalIndex(s.words, s.wordIndex, s.letterIndex) == 0
  {
    EngineState(words, 0, 0, [], None, None, 0, 0, 0, storedTopSpeed, GoalProgress(0, 30))
  }

  /** Number of slots taken by the words before word w, each followed by its
      separator slot. */
  function SlotsBefore(words: seq<string>, w: nat): nat
    requires w <= |words|
  {
    if w == 0 then 0 else SlotsBefore(words, w - 1) + |words[w - 1]| + 1
  }

  /** The slot of letter l of word w: the sum over i < w of (len(words[i]) + 1), plus l. */
  function GlobalIndex(words: seq<string>, w: nat, l: nat): nat
    requires w < |words|
  {
    SlotsBefore(words, w) + l
  }

  /** The loop of `calculateGlobalLetterIndex`: it adds a separator only
      between words, which for every word before w < |words| is always. */
  method CalculateGlobalLetterIndex(words: seq<string>, w: nat, l: nat) returns (globalIndex: nat)
    requires w < |words|
    ensures globalIndex == GlobalIndex(words, w, l)
  {
    globalIndex := 0;
    for i := 0 to w
      invariant globalIndex == SlotsBefore(words, i)
    {
      globalIndex := globalIndex + |words[i]| + (if i < |words| - 1 then 1 else 0);
    }
    globalIndex := globalIndex + l;
  }

  /** Word a and its separator lie wholly before word b. */
  lemma {:induction false} SlotsBeforeGrows(words: seq<string>, a: nat, b: nat)
    requires a < b <= |words|
    ensures SlotsBefore(words, a) + |words[a]| + 1 <= SlotsBefore(words, b)
  {
    if b > a + 1 {
      SlotsBeforeGrows(words, a, b - 1);
    }
  }

  /** The global index follows reading order: positions earlier in the text
      (an earlier word, or the same word further left) get smaller slots. Hence
      distinct positions never share a slot. */
  lemma GlobalIndexOrder(words: seq<string>, w1: nat, l1: nat, w2: nat, l2: nat)
    requires w1 < |words| && w2 < |words| && l1 <= |words[w1]|
    requires w1 < w2 || (w1 == w2 && l1 < l2)
    ensures GlobalIndex(words, w1, l1) < GlobalIndex(words, w2, l2)
  {
    if w1 < w2 {
      SlotsBeforeGrows(words, w1, w2);
    }
  }

  /** The slot after the end of word w is its separator, and the slot after
      that is the first letter of word w + 1. */
  lemma SeparatorSlot(words: seq<string>, w: nat)
    requires w + 1 < |words|
    ensures GlobalIndex(words, w + 1, 0) == GlobalIndex(words, w, |words[w]|) + 1
  {
  }

  /** What every reachable state satisfies: a non-empty text, a cursor inside
      it, no slot at or before the cursor left without a record (so writing at
      the cursor's slot never leaves a hole in `typedLetters`), no more errors
      than keystrokes, and a daily goal not over its total. */
  predicate Valid(s: EngineState) {
    && |s.words| > 0
    && s.wordIndex < |s.words|
    && s.letterIndex <= |s.words[s.wordIndex]|
    && GlobalIndex(s.words, s.wordIndex, s.letterIndex) <= |s.typed|
    && s.errors <= s.keystrokes
    && s.dailyGoal.current <= s.dailyGoal.total
  }

  /** The cursor's slot. */
  function CursorSlot(s: EngineState): (g: nat)
    requires Valid(s)
    ensures g <= |s.typed|
  {
    GlobalIndex(s.words, s.wordIndex, s.letterIndex)
  }
}

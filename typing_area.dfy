/** The typing-area component: its refresh button (reset plus the capped
    daily-goal increment), the end-of-session aggregation it hands to the
    record store, and the colour it gives each letter of the text. */
module TypingArea {
  import opened Common
  import opened TypingState

  // ---------------------------------------------------------------------------
  // Refresh
  // ---------------------------------------------------------------------------

  /** Minutes spent, Math.round(ms / 60000). */
  function MinutesSpent(ms: int): (m: int)
    ensures ms >= 0 ==> m >= 0
  {
    Round(ms, 60000)
  }

  /** `current: Math.min(prev.current + minutesSpent, prev.total)`. */
  function CapGoal(goal: GoalProgress, minutes: int): (r: GoalProgress)
    ensures r.total == goal.total
    ensures r.current <= r.total
    ensures r.current == goal.current + minutes || r.current == goal.total
    ensures goal.current + minutes <= goal.total ==> r.current == goal.current + minutes
    ensures minutes >= 0 && goal.current <= goal.total ==> goal.current <= r.current
  {
    GoalProgress(if goal.current + minutes < goal.total then goal.current + minutes else goal.total, goal.total)
  }

  /** The refresh button: back to the first slot of a fresh text with empty
      records, no clock and zero counters; when a session was running, its
      minutes go to the daily goal, capped at the goal's total. */
  function RefreshState(s: EngineState, now: int, nextWords: seq<string>): (r: EngineState)
    requires Valid(s) && |nextWords| > 0
    ensures Valid(r)
    ensures r.words == nextWords && r.wordIndex == 0 && r.letterIndex == 0 && r.typed == []
    ensures r.startTime == None && r.endTime == None && r.keystrokes == 0 && r.errors == 0
    ensures r.lastSpeed == s.lastSpeed && r.topSpeed == s.topSpeed
    ensures s.startTime.None? ==> r.dailyGoal == s.dailyGoal
    ensures s.startTime.Some? ==> r.dailyGoal == CapGoal(s.dailyGoal, MinutesSpent(now - s.startTime.value))
    ensures r.dailyGoal.total == s.dailyGoal.total && r.dailyGoal.current <= r.dailyGoal.total
  {
    var goal := if s.startTime.Some? then CapGoal(s.dailyGoal, MinutesSpent(now - s.startTime.value)) else s.dailyGoal;
    s.(words := nextWords, wordIndex := 0, letterIndex := 0, typed := [],
       startTime := None, endTime := None, keystrokes := 0, errors := 0, dailyGoal := goal)
  }

  // ---------------------------------------------------------------------------
  // End-of-session aggregation
  // ---------------------------------------------------------------------------

  /** The final character of every record, in slot order. */
  function Chars(typed: seq<Letter>): (cs: seq<string>)
    ensures |cs| == |typed|
    ensures forall i :: 0 <= i < |typed| ==> cs[i] == typed[i].ch
  {
    if typed == [] then [] else Chars(typed[..|typed| - 1]) + [typed[|typed| - 1].ch]
  }

  /** Records that hold c as their final character and are correct. */
  function CountCorrect(typed: seq<Letter>, c: string): nat {
    if typed == [] then 0
    else CountCorrect(typed[..|typed| - 1], c) + (if typed[|typed| - 1].ch == c && typed[|typed| - 1].correct then 1 else 0)
  }

  /** Records that hold c as their final character and are incorrect. */
  function CountIncorrect(typed: seq<Letter>, c: string): nat {
    if typed == [] then 0
    else CountIncorrect(typed[..|typed| - 1], c) + (if typed[|typed| - 1].ch == c && !typed[|typed| - 1].correct then 1 else 0)
  }

  /** `typedLetters.filter(l => !l.correct).length`. */
  function Errors(typed: seq<Letter>): (n: nat)
    ensures n <= |typed|
  {
    if typed == [] then 0 else Errors(typed[..|typed| - 1]) + (if typed[|typed| - 1].correct then 0 else 1)
  }

  /** Per-key counts of `keyPerformanceData`. */
  datatype Tally = Tally(correct: nat, incorrect: nat)

  /** The tally of the records: one entry per final character. */
  ghost predicate IsTallyOf(tally: map<string, Tally>, typed: seq<Letter>) {
    && (forall c :: c in tally <==> c in Chars(typed))
    && (forall c :: c in tally ==> tally[c] == Tally(CountCorrect(typed, c), CountIncorrect(typed, c)))
  }

  /** The tally after one more record: its character's entry is created if
      missing, then its correct or its incorrect count goes up by one. */
  function AddRecord(tally: map<string, Tally>, x: Letter): map<string, Tally> {
    var entry := if x.ch in tally then tally[x.ch] else Tally(0, 0);
    tally[x.ch := if x.correct then entry.(correct := entry.correct + 1) else entry.(incorrect := entry.incorrect + 1)]
  }

  lemma AddRecordTallies(tally: map<string, Tally>, pre: seq<Letter>, x: Letter)
    requires IsTallyOf(tally, pre)
    ensures IsTallyOf(AddRecord(tally, x), pre + [x])
  {
    AddRecordKeys(tally, pre, x);
    AddRecordCounts(tally, pre, x);
  }

  /** The record's character becomes a key, and no other key appears. */
  lemma AddRecordKeys(tally: map<string, Tally>, pre: seq<Letter>, x: Letter)
    requires forall c :: c in tally <==> c in Chars(pre)
    ensures forall c :: c in AddRecord(tally, x) <==> c in Chars(pre + [x])
  {
    assert (pre + [x])[..|pre|] == pre;
    assert Chars(pre + [x]) == Chars(pre) + [x.ch];
  }

  /** Only the record's character's entry moves, by one in the column of the
      record's correctness. */
  lemma AddRecordCounts(tally: map<string, Tally>, pre: seq<Letter>, x: Letter)
    requires IsTallyOf(tally, pre)
    ensures forall c :: c in AddRecord(tally, x) ==>
      AddRecord(tally, x)[c] == Tally(CountCorrect(pre + [x], c), CountIncorrect(pre + [x], c))
  {
    var typed := pre + [x];
    assert typed[..|typed| - 1] == pre;
    if x.ch !in tally {
      assert x.ch !in Chars(pre);
      TallyCountsRecords(pre, x.ch);
    }
  }

  /** The object `keyPerformanceData` once the records have been walked. */
  function TallyOf(typed: seq<Letter>): map<string, Tally> {
    if typed == [] then map[] else AddRecord(TallyOf(typed[..|typed| - 1]), typed[|typed| - 1])
  }

  /** The walk yields the tally: one entry per final character, holding its
      correct and incorrect counts. */
  lemma {:induction false} TallyOfIsTally(typed: seq<Letter>)
    ensures IsTallyOf(TallyOf(typed), typed)
  {
    if typed != [] {
      var pre := typed[..|typed| - 1];
      TallyOfIsTally(pre);
      AddRecordTallies(TallyOf(pre), pre, typed[|typed| - 1]);
      assert pre + [typed[|typed| - 1]] == typed;
    }
  }

  /** The `forEach` that fills `keyPerformanceData`, one record at a time.
      `order` is the key order of the resulting object. */
  method TallyKeys(typed: seq<Letter>) returns (tally: map<string, Tally>, order: seq<string>)
    ensures tally == TallyOf(typed)
    ensures order == FirstOccurrences(Chars(typed))
  {
    tally := map[];
    order := [];
    for i := 0 to |typed|
      invariant tally == TallyOf(typed[..i])
      invariant order == FirstOccurrences(Chars(typed[..i]))
    {
      var letter := typed[i];
      TallyStep(typed, i, order);
      tally := AddRecord(tally, letter);
      if letter.ch !in order {
        order := order + [letter.ch];
      }
    }
    assert typed[..|typed|] == typed;
  }

  /** One step of the `forEach`: the record at i is added to the tally, and
      its character is listed if it is new. */
  lemma TallyStep(typed: seq<Letter>, i: nat, order: seq<string>)
    requires i < |typed| && order == FirstOccurrences(Chars(typed[..i]))
    ensures TallyOf(typed[..i + 1]) == AddRecord(TallyOf(typed[..i]), typed[i])
    ensures FirstOccurrences(Chars(typed[..i + 1])) ==
      if typed[i].ch in order then order else order + [typed[i].ch]
  {
    assert typed[..i + 1][..i] == typed[..i];
    assert Chars(typed[..i + 1]) == Chars(typed[..i]) + [typed[i].ch];
    FirstOccurrencesSnoc(Chars(typed[..i]), typed[i].ch);
  }

  /** A character's correct and incorrect counts add up to the number of records
      that finally hold it. */
  lemma {:induction false} TallyCountsRecords(typed: seq<Letter>, c: string)
    ensures CountCorrect(typed, c) + CountIncorrect(typed, c) == CountOf(Chars(typed), c)
  {
    if typed != [] {
      var pre := typed[..|typed| - 1];
      TallyCountsRecords(pre, c);
      assert Chars(typed)[..|typed| - 1] == Chars(pre);
    }
  }

  /** The wrong characters kept in `previousAttempts` are never counted: two
      record sequences that agree on every final character and correctness
      have the same tally. */
  lemma {:induction false} TallyIgnoresPreviousAttempts(a: seq<Letter>, b: seq<Letter>, c: string)
    requires |a| == |b|
    requires forall i :: 0 <= i < |a| ==> a[i].ch == b[i].ch && a[i].correct == b[i].correct
    ensures CountCorrect(a, c) == CountCorrect(b, c) && CountIncorrect(a, c) == CountIncorrect(b, c)
  {
    if a != [] {
      TallyIgnoresPreviousAttempts(a[..|a| - 1], b[..|b| - 1], c);
    }
  }

  /** Sum of correct + incorrect over the listed keys of a tally. */
  function TallyTotal(tally: map<string, Tally>, keys: seq<string>): nat
    requires forall k :: k in keys ==> k in tally
  {
    if keys == [] then 0
    else tally[keys[0]].correct + tally[keys[0]].incorrect + TallyTotal(tally, keys[1..])
  }

  lemma {:induction false} TallyTotalIsSumCounts(typed: seq<Letter>, tally: map<string, Tally>, keys: seq<string>)
    requires IsTallyOf(tally, typed)
    requires forall k :: k in keys ==> k in tally
    ensures TallyTotal(tally, keys) == SumCounts(Chars(typed), keys)
  {
    if keys != [] {
      TallyCountsRecords(typed, keys[0]);
      TallyTotalIsSumCounts(typed, tally, keys[1..]);
    }
  }

  /** Every record is counted exactly once: the per-key totals add up to the
      number of records. */
  lemma TallyAccountsForEveryRecord(typed: seq<Letter>, tally: map<string, Tally>, order: seq<string>)
    requires IsTallyOf(tally, typed) && order == FirstOccurrences(Chars(typed))
    ensures forall k :: k in order ==> k in tally
    ensures TallyTotal(tally, order) == |typed|
  {
    FirstOccurrencesFacts(Chars(typed));
    TallyTotalIsSumCounts(typed, tally, order);
    SumCountsFirstOccurrences(Chars(typed));
  }

  /** The record `saveTypingSession` receives. `None` stands for a value that
      is not a finite number (a division by zero). */
  datatype SessionSummary = SessionSummary(
    duration: int, wpm: Option<int>, accuracy: Option<int>, score: Option<int>,
    keystrokes: nat, errors: nat, selectedKeys: string)

  /** `selectedKeys.join(', ')`. */
  function JoinKeys(keys: seq<char>): (s: string)
    ensures |keys| > 0 ==> |s| == 3 * |keys| - 2
    ensures keys == [] ==> s == ""
  {
    if keys == [] then ""
    else if |keys| == 1 then [keys[0]]
    else [keys[0]] + ", " + JoinKeys(keys[1..])
  }

  /** The joined string holds the i-th key at position 3i, and for every key
      after the first, ", " just before it. */
  lemma {:induction false} JoinKeysAt(keys: seq<char>, i: nat)
    requires i < |keys|
    ensures var s := JoinKeys(keys);
      && s[3 * i] == keys[i]
      && (i > 0 ==> s[3 * i - 2] == ',' && s[3 * i - 1] == ' ')
  {
    if i > 0 {
      JoinKeysAt(keys[1..], i - 1);
    }
  }

  /** Session accuracy, Math.round((n - errors) / n * 100); NaN when nothing was typed. */
  function SessionAccuracy(n: nat, errors: nat): (acc: Option<int>)
    requires errors <= n
    ensures n == 0 <==> acc.None?
    ensures acc.Some? ==> 0 <= acc.value <= 100
    ensures acc.Some? && errors == 0 ==> acc.value == 100
    ensures acc.Some? && errors == n ==> acc.value == 0
  {
    if n == 0 then None
    else
      RoundWithin(100 * (n - errors), n, 0, 100);
      if errors == 0 then
        assert Round(100 * n, n) == 100 by { RoundExact(100, n); }
        Some(Round(100 * (n - errors), n))
      else
        Some(Round(100 * (n - errors), n))
  }

  lemma RoundExact(v: int, n: int)
    requires n > 0
    ensures Round(v * n, n) == v
  {
    RoundWithin(v * n, n, v, v);
  }

  /** Score, Math.round(wpm * accuracy / 100): never more than the speed, and
      not negative, for a non-negative speed and an accuracy in [0, 100]. */
  function Score(wpm: int, acc: int): (score: int)
    ensures 0 <= wpm && 0 <= acc <= 100 ==> 0 <= score <= wpm
  {
    if 0 <= wpm && 0 <= acc <= 100 then
      assert wpm * acc <= 100 * wpm by { MulBound(wpm, acc, 100); }
      RoundWithin(wpm * acc, 100, 0, wpm);
      Round(wpm * acc, 100)
    else Round(wpm * acc, 100)
  }

  lemma MulBound(a: int, b: int, c: int)
    requires 0 <= a && 0 <= b <= c
    ensures 0 <= a * b <= c * a
  {
    assert c * a - a * b == a * (c - b);
  }

  /** Words per minute, Math.round(wordCount / (ms / 60000)); not a finite
      number when no time has passed. */
  function SessionWpm(wordCount: nat, elapsedMs: int): (wpm: Option<int>)
    ensures wpm.Some? <==> elapsedMs != 0
    ensures elapsedMs > 0 ==> wpm == Some(Round(60000 * wordCount, elapsedMs)) && wpm.value >= 0
  {
    if elapsedMs == 0 then None
    else if elapsedMs > 0 then
      RoundNonNegative(60000 * wordCount, elapsedMs);
      Some(RoundQuotient(60000 * wordCount, elapsedMs))
    else Some(RoundQuotient(60000 * wordCount, elapsedMs))
  }

  /** Score of a session; defined only when speed and accuracy are. */
  function SessionScore(wpm: Option<int>, acc: Option<int>): (score: Option<int>)
    ensures score.Some? <==> wpm.Some? && acc.Some?
    ensures score.Some? && wpm.value >= 0 && 0 <= acc.value <= 100 ==> 0 <= score.value <= wpm.value
  {
    if wpm.Some? && acc.Some? then Some(Score(wpm.value, acc.value)) else None
  }

  /** The summary of a finished session. Keystrokes are the records, errors the
      incorrect records, and the duration Math.round(ms / 1000) seconds. */
  function FinishSummary(wordCount: nat, elapsedMs: int, typed: seq<Letter>, selected: seq<char>): (r: SessionSummary)
    ensures r.keystrokes == |typed| && r.errors == Errors(typed) && r.errors <= r.keystrokes
    ensures r.duration == Round(elapsedMs, 1000)
    ensures r.wpm == SessionWpm(wordCount, elapsedMs)
    ensures r.accuracy == SessionAccuracy(|typed|, Errors(typed))
    ensures r.score == SessionScore(r.wpm, r.accuracy)
    ensures elapsedMs > 0 && r.score.Some? ==> 0 <= r.score.value <= r.wpm.value
    ensures r.selectedKeys == JoinKeys(selected)
  {
    var wpm := SessionWpm(wordCount, elapsedMs);
    var acc := SessionAccuracy(|typed|, Errors(typed));
    SessionSummary(Round(elapsedMs, 1000), wpm, acc, SessionScore(wpm, acc), |typed|, Errors(typed), JoinKeys(selected))
  }

  /** One `updateKeyPerformance` call made at session end. */
  datatype KeyDelta = KeyDelta(key: string, accuracy: int, speed: Option<int>, errorCount: nat)

  /** Per-key accuracy, Math.round(correct / (correct + incorrect) * 100). */
  function KeyAccuracy(t: Tally): (acc: int)
    requires t.correct + t.incorrect > 0
    ensures 0 <= acc <= 100
    ensures t.incorrect == 0 ==> acc == 100
    ensures t.correct == 0 ==> acc == 0
  {
    var n := t.correct + t.incorrect;
    RoundWithin(100 * t.correct, n, 0, 100);
    RoundExact(100, n);
    Round(100 * t.correct, n)
  }

  /** The `for (const key in keyPerformanceData)` loop: one delta per key, in
      key order, all with the session's speed. */
  method KeyDeltas(tally: map<string, Tally>, order: seq<string>, wpm: Option<int>) returns (deltas: seq<KeyDelta>)
    requires forall k :: k in order ==> k in tally && tally[k].correct + tally[k].incorrect > 0
    ensures |deltas| == |order|
    ensures forall i :: 0 <= i < |order| ==>
      && deltas[i].key == order[i]
      && deltas[i].accuracy == KeyAccuracy(tally[order[i]])
      && 0 <= deltas[i].accuracy <= 100
      && deltas[i].speed == wpm
      && deltas[i].errorCount == tally[order[i]].incorrect
  {
    deltas := [];
    for i := 0 to |order|
      invariant |deltas| == i
      invariant forall j :: 0 <= j < i ==>
        deltas[j] == KeyDelta(order[j], KeyAccuracy(tally[order[j]]), wpm, tally[order[j]].incorrect)
    {
      var t := tally[order[i]];
      deltas := deltas + [KeyDelta(order[i], KeyAccuracy(t), wpm, t.incorrect)];
    }
  }

  /** Every key of the tally, in key order, holds that character's correct
      and incorrect records, which together are its records, at least one. */
  lemma TallyEntries(typed: seq<Letter>)
    ensures forall k :: k in FirstOccurrences(Chars(typed)) ==>
      && k in TallyOf(typed)
      && TallyOf(typed)[k] == Tally(CountCorrect(typed, k), CountIncorrect(typed, k))
      && CountCorrect(typed, k) + CountIncorrect(typed, k) == CountOf(Chars(typed), k) > 0
  {
    TallyOfIsTally(typed);
    FirstOccurrencesFacts(Chars(typed));
    forall k | k in FirstOccurrences(Chars(typed))
      ensures CountCorrect(typed, k) + CountIncorrect(typed, k) == CountOf(Chars(typed), k)
    {
      TallyCountsRecords(typed, k);
    }
  }

  /** `handleSessionFinish` without its I/O: the session record to save and the
      per-key updates to send, in order. */
  method HandleSessionFinish(wordCount: nat, elapsedMs: int, typed: seq<Letter>, selected: seq<char>)
    returns (summary: SessionSummary, deltas: seq<KeyDelta>)
    ensures summary == FinishSummary(wordCount, elapsedMs, typed, selected)
    ensures |deltas| == |FirstOccurrences(Chars(typed))|
    ensures forall i :: 0 <= i < |deltas| ==>
      && deltas[i].key == FirstOccurrences(Chars(typed))[i]
      && deltas[i].speed == summary.wpm
      && CountCorrect(typed, deltas[i].key) + CountIncorrect(typed, deltas[i].key) > 0
      && deltas[i].accuracy == KeyAccuracy(Tally(CountCorrect(typed, deltas[i].key), CountIncorrect(typed, deltas[i].key)))
      && 0 <= deltas[i].accuracy <= 100
      && deltas[i].errorCount == CountIncorrect(typed, deltas[i].key)
      && deltas[i].errorCount + CountCorrect(typed, deltas[i].key) == CountOf(Chars(typed), deltas[i].key)
  {
    summary := FinishSummary(wordCount, elapsedMs, typed, selected);
    var tally, order := TallyKeys(typed);
    TallyEntries(typed);
    deltas := KeyDeltas(tally, order, summary.wpm);
  }

  // ---------------------------------------------------------------------------
  // Letter colours
  // ---------------------------------------------------------------------------

  datatype Display = Highlighted | Red | Green | Gray

  /** The colour of letter li of word wi: the cursor's letter is highlighted;
      a typed letter is red if it was ever wrong, green if right at once; an
      untyped letter is gray. */
  function LetterDisplay(s: EngineState, wi: nat, li: nat): (d: Display)
    requires Valid(s) && wi < |s.words| && li < |s.words[wi]|
    ensures d == Highlighted <==> wi == s.wordIndex && li == s.letterIndex
    ensures d == Gray <==> d != Highlighted && GlobalIndex(s.words, wi, li) >= |s.typed|
    ensures d == Green ==> s.typed[GlobalIndex(s.words, wi, li)].correct
    ensures d == Green ==> s.typed[GlobalIndex(s.words, wi, li)].previousAttempts == []
    ensures d == Red ==> var rec := s.typed[GlobalIndex(s.words, wi, li)];
      !rec.correct || rec.previousAttempts != []
  {
    var g := GlobalIndex(s.words, wi, li);
    if wi == s.wordIndex && li == s.letterIndex then Highlighted
    else if g < |s.typed| then
      var rec := s.typed[g];
      if rec.correct && |rec.previousAttempts| > 0 then Red
      else if rec.correct then Green else Red
    else Gray
  }

  /** Every letter before the cursor has a record and is shown green or red. */
  lemma TypedLettersAreColoured(s: EngineState, wi: nat, li: nat)
    requires Valid(s) && wi < |s.words| && li < |s.words[wi]|
    requires wi < s.wordIndex || (wi == s.wordIndex && li < s.letterIndex)
    ensures LetterDisplay(s, wi, li) == Green || LetterDisplay(s, wi, li) == Red
  {
    GlobalIndexOrder(s.words, wi, li, s.wordIndex, s.letterIndex);
  }

  datatype SeparatorDot = HighlightedDot | GreenDot | PlainDot

  /** The dot after word wi (every word but the last): highlighted when the
      cursor waits at the end of that word, green when its separator slot holds
      a record. */
  function SeparatorDisplay(s: EngineState, wi: nat): (d: SeparatorDot)
    requires Valid(s) && wi < |s.words| - 1
    ensures d == HighlightedDot <==> wi == s.wordIndex && s.letterIndex == |s.words[wi]|
    ensures d == GreenDot <==> d != HighlightedDot && GlobalIndex(s.words, wi, |s.words[wi]|) < |s.typed|
  {
    if wi == s.wordIndex && s.letterIndex == |s.words[s.wordIndex]| then HighlightedDot
    else if GlobalIndex(s.words, wi, |s.words[wi]|) < |s.typed| then GreenDot
    else PlainDot
  }

  /** The dot after every word the cursor has passed is green. */
  lemma PassedSeparatorsAreGreen(s: EngineState, wi: nat)
    requires Valid(s) && wi < s.wordIndex
    ensures SeparatorDisplay(s, wi) == GreenDot
  {
    GlobalIndexOrder(s.words, wi, |s.words[wi]|, s.wordIndex, s.letterIndex);
  }
}

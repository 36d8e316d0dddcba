/** The typing-session service: storing a finished session for the signed-in
    user, the average of the latest sessions, and the per-day progress that
    groups sessions by date. The record store is an object holding the
    collection; the server's filtering, sorting and paging are given as the
    listing it answers with. */
module TypingSessions {
  import opened Common

  /** The fields a caller passes to `saveTypingSession`. */
  datatype SessionData = SessionData(
    duration: int, wpm: int, accuracy: int, score: int,
    keystrokes: nat, errors: nat, selectedKeys: string)

  /** A stored session: the caller's fields plus the owner and the day. */
  datatype SessionRecord = SessionRecord(data: SessionData, user: UserId, date: Day)

  /** The sessions of one user, in stored order. */
  function UserSessions(records: seq<SessionRecord>, user: UserId): (r: seq<SessionRecord>)
    ensures forall i :: 0 <= i < |r| ==> r[i].user == user
    ensures |r| <= |records|
  {
    if records == [] then []
    else
      var pre := UserSessions(records[..|records| - 1], user);
      if records[|records| - 1].user == user then pre + [records[|records| - 1]] else pre
  }

  class SessionStore {
    /** The `TypingSessions` collection. */
    var records: seq<SessionRecord>

    constructor ()
      ensures records == []
    {
      records := [];
    }

    /** `saveTypingSession`: refused without a signed-in user; otherwise the
        record (the data plus the user and today's date) is created and returned. */
    method SaveTypingSession(auth: Option<UserId>, data: SessionData, today: Day) returns (r: Outcome<SessionRecord>)
      modifies this
      ensures auth.None? ==> r == Failure(NotAuthenticated) && records == old(records)
      ensures auth.Some? ==>
        && r == Success(SessionRecord(data, auth.value, today))
        && records == old(records) + [r.data]
    {
      if auth.None? {
        return Failure(NotAuthenticated);
      }
      var rec := SessionRecord(data, auth.value, today);
      records := records + [rec];
      r := Success(rec);
    }
  }

  /** A saved session shows up at the end of its owner's sessions and nowhere
      else. */
  lemma SavedSessionIsListed(records: seq<SessionRecord>, rec: SessionRecord, user: UserId)
    ensures rec.user == user ==> UserSessions(records + [rec], user) == UserSessions(records, user) + [rec]
    ensures rec.user != user ==> UserSessions(records + [rec], user) == UserSessions(records, user)
  {
    assert (records + [rec])[..|records|] == records;
  }

  // ---------------------------------------------------------------------------
  // Sums and bounds
  // ---------------------------------------------------------------------------

  function SumOf(items: seq<SessionRecord>, f: SessionRecord -> int): int {
    if items == [] then 0 else SumOf(items[..|items| - 1], f) + f(items[|items| - 1])
  }

  /** A sum of n values in [lo, hi] lies in [n * lo, n * hi]. */
  lemma {:induction false} SumOfBounds(items: seq<SessionRecord>, f: SessionRecord -> int, lo: int, hi: int)
    requires forall i :: 0 <= i < |items| ==> lo <= f(items[i]) <= hi
    ensures |items| * lo <= SumOf(items, f) <= |items| * hi
  {
    if items != [] {
      SumOfBounds(items[..|items| - 1], f, lo, hi);
      assert |items| * lo == (|items| - 1) * lo + lo;
      assert |items| * hi == (|items| - 1) * hi + hi;
    }
  }

  /** The rounded mean of values in [lo, hi] lies in [lo, hi]. */
  lemma MeanWithin(items: seq<SessionRecord>, f: SessionRecord -> int, lo: int, hi: int)
    requires |items| > 0
    requires forall i :: 0 <= i < |items| ==> lo <= f(items[i]) <= hi
    ensures lo <= Round(SumOf(items, f), |items|) <= hi
  {
    SumOfBounds(items, f, lo, hi);
    RoundWithin(SumOf(items, f), |items|, lo, hi);
  }

  function Wpm(r: SessionRecord): int { r.data.wpm }
  function Accuracy(r: SessionRecord): int { r.data.accuracy }
  function Score(r: SessionRecord): int { r.data.score }

  // ---------------------------------------------------------------------------
  // Average of the latest sessions
  // ---------------------------------------------------------------------------

  /** `getList(1, 10, …)`: the first page holds at most ten sessions. */
  const AveragePageSize: nat := 10

  datatype Averages = Averages(avgWpm: int, avgAccuracy: int, avgScore: int, totalSessions: Option<nat>)

  /** The page of the listing a query with page size n returns. */
  function FirstPage(listing: seq<SessionRecord>, n: nat): (page: seq<SessionRecord>)
    ensures |page| <= n && |page| <= |listing|
    ensures |listing| >= n ==> |page| == n
    ensures |listing| < n ==> page == listing
    ensures forall i :: 0 <= i < |page| ==> page[i] == listing[i]
  {
    if |listing| <= n then listing else listing[..n]
  }

  /** `getUserAverageMetrics`. `latest` is the user's sessions newest first,
      as the server lists them; the rounded means are taken over the first
      page, and the total counts the whole listing. No sessions give zeros. */
  function AverageMetrics(auth: Option<UserId>, latest: seq<SessionRecord>): (r: Outcome<Averages>)
    ensures auth.None? ==> r == Failure(NotAuthenticated)
    ensures auth.Some? && latest == [] ==> r == Success(Averages(0, 0, 0, None))
    ensures auth.Some? && latest != [] ==>
      var page := FirstPage(latest, AveragePageSize);
      r == Success(Averages(Round(SumOf(page, Wpm), |page|), Round(SumOf(page, Accuracy), |page|),
                            Round(SumOf(page, Score), |page|), Some(|latest|)))
  {
    if auth.None? then Failure(NotAuthenticated)
    else
      var page := FirstPage(latest, AveragePageSize);
      if |page| == 0 then Success(Averages(0, 0, 0, None))
      else
        var n := |page|;
        Success(Averages(Round(SumOf(page, Wpm), n), Round(SumOf(page, Accuracy), n),
                         Round(SumOf(page, Score), n), Some(|latest|)))
  }

  /** Each average lies between the smallest and the largest value it
      averages: bounds that hold for all of the ten latest sessions hold for
      their average. */
  lemma AverageWithinRange(auth: UserId, latest: seq<SessionRecord>, lo: int, hi: int)
    requires latest != []
    requires forall i :: 0 <= i < |latest| && i < AveragePageSize ==>
      lo <= latest[i].data.wpm <= hi && lo <= latest[i].data.accuracy <= hi && lo <= latest[i].data.score <= hi
    ensures var r := AverageMetrics(Some(auth), latest);
      && r.Success?
      && lo <= r.data.avgWpm <= hi && lo <= r.data.avgAccuracy <= hi && lo <= r.data.avgScore <= hi
  {
    var page := FirstPage(latest, AveragePageSize);
    MeanWithin(page, Wpm, lo, hi);
    MeanWithin(page, Accuracy, lo, hi);
    MeanWithin(page, Score, lo, hi);
  }

  // ---------------------------------------------------------------------------
  // Progress by day
  // ---------------------------------------------------------------------------

  /** `getList(1, 100, …)`. */
  const ProgressPageSize: nat := 100

  /** One entry of `progressByDate`. */
  datatype DayTotals = DayTotals(sessions: nat, totalWpm: int, totalAccuracy: int)

  /** One element of the returned progress list. */
  datatype DayProgress = DayProgress(date: Day, avgWpm: int, avgAccuracy: int, sessions: nat)

  function Dates(items: seq<SessionRecord>): (ds: seq<Day>)
    ensures |ds| == |items|
    ensures forall i :: 0 <= i < |items| ==> ds[i] == items[i].date
  {
    if items == [] then [] else Dates(items[..|items| - 1]) + [items[|items| - 1].date]
  }

  /** The sessions of one day, in listing order. */
  function OnDate(items: seq<SessionRecord>, d: Day): (r: seq<SessionRecord>)
    ensures forall i :: 0 <= i < |r| ==> r[i].date == d
  {
    if items == [] then []
    else
      var pre := OnDate(items[..|items| - 1], d);
      if items[|items| - 1].date == d then pre + [items[|items| - 1]] else pre
  }

  lemma {:induction false} OnDateCount(items: seq<SessionRecord>, d: Day)
    ensures |OnDate(items, d)| == CountOf(Dates(items), d)
  {
    if items != [] {
      OnDateCount(items[..|items| - 1], d);
      assert Dates(items)[..|items| - 1] == Dates(items[..|items| - 1]);
    }
  }

  /** The entry of `progressByDate` after one more session. */
  function AddSession(acc: map<Day, DayTotals>, r: SessionRecord): map<Day, DayTotals> {
    var t := if r.date in acc then acc[r.date] else DayTotals(0, 0, 0);
    acc[r.date := DayTotals(t.sessions + 1, t.totalWpm + r.data.wpm, t.totalAccuracy + r.data.accuracy)]
  }

  /** `progressByDate` once the sessions have been walked. */
  function TotalsOf(items: seq<SessionRecord>): map<Day, DayTotals> {
    if items == [] then map[] else AddSession(TotalsOf(items[..|items| - 1]), items[|items| - 1])
  }

  /** The walk gives, for every date of the listing and no other, the number
      of that day's sessions and the sums of their speeds and accuracies. */
  lemma {:induction false} TotalsOfDays(items: seq<SessionRecord>, d: Day)
    ensures d in TotalsOf(items) <==> d in Dates(items)
    ensures d in TotalsOf(items) ==>
      TotalsOf(items)[d] == DayTotals(|OnDate(items, d)|, SumOf(OnDate(items, d), Wpm), SumOf(OnDate(items, d), Accuracy))
  {
    if items != [] {
      var pre, x := items[..|items| - 1], items[|items| - 1];
      TotalsOfDays(pre, d);
      assert Dates(items) == Dates(pre) + [x.date];
      if x.date == d {
        assert OnDate(items, d)[..|OnDate(items, d)| - 1] == OnDate(pre, d);
        if d !in TotalsOf(pre) {
          OnDateCount(pre, d);
        }
      }
    }
  }

  lemma TotalsOfKeys(items: seq<SessionRecord>, d: Day)
    ensures d in TotalsOf(items) <==> d in Dates(items)
  {
    TotalsOfDays(items, d);
  }

  /** A day's entry of the result. */
  function DayEntry(d: Day, t: DayTotals): DayProgress
    requires t.sessions > 0
  {
    DayProgress(d, Round(t.totalWpm, t.sessions), Round(t.totalAccuracy, t.sessions), t.sessions)
  }

  /** A day's entry: its date, its rounded mean speed and accuracy, and its
      number of sessions. */
  function DayOf(items: seq<SessionRecord>, d: Day): (p: DayProgress)
    requires d in Dates(items)
    ensures p.date == d && p.sessions == |OnDate(items, d)| == CountOf(Dates(items), d) > 0
    ensures p.avgWpm == Round(SumOf(OnDate(items, d), Wpm), p.sessions)
    ensures p.avgAccuracy == Round(SumOf(OnDate(items, d), Accuracy), p.sessions)
  {
    OnDateCount(items, d);
    var day := OnDate(items, d);
    DayProgress(d, Round(SumOf(day, Wpm), |day|), Round(SumOf(day, Accuracy), |day|), |day|)
  }

  /** The entries for the dates ds, each a date of the listing. */
  function ProgressOver(items: seq<SessionRecord>, ds: seq<Day>): (r: seq<DayProgress>)
    requires forall i :: 0 <= i < |ds| ==> ds[i] in Dates(items)
    ensures |r| == |ds|
    ensures forall j :: 0 <= j < |ds| ==> r[j] == DayOf(items, ds[j])
  {
    seq(|ds|, j requires 0 <= j < |ds| => DayOf(items, ds[j]))
  }

  /** The result of `getUserProgress` for a listing: one entry per date, in
      order of first appearance. */
  function Progress(items: seq<SessionRecord>): (r: seq<DayProgress>)
    ensures |r| == |FirstOccurrences(Dates(items))|
    ensures forall j :: 0 <= j < |r| ==>
      FirstOccurrences(Dates(items))[j] in Dates(items) && r[j] == DayOf(items, FirstOccurrences(Dates(items))[j])
  {
    FirstOccurrencesFacts(Dates(items));
    ProgressOver(items, FirstOccurrences(Dates(items)))
  }

  /** `getUserProgress`. `listing` is the user's sessions of the period in
      date order, as the server lists them; the first page is grouped by date
      in a dictionary, then each date's averages are taken. */
  method GetUserProgress(auth: Option<UserId>, listing: seq<SessionRecord>) returns (r: Outcome<seq<DayProgress>>)
    ensures auth.None? ==> r == Failure(NotAuthenticated)
    ensures auth.Some? ==> r == Success(Progress(FirstPage(listing, ProgressPageSize)))
  {
    if auth.None? {
      return Failure(NotAuthenticated);
    }
    var items := FirstPage(listing, ProgressPageSize);
    var progressByDate, dates := GroupByDate(items);
    EntriesAreProgress(items);
    var progressData := DailyAverages(progressByDate, dates);
    r := Success(progressData);
  }

  /** The `forEach` that fills `progressByDate`; `dates` is the key order of
      the resulting object. */
  method GroupByDate(items: seq<SessionRecord>) returns (progressByDate: map<Day, DayTotals>, dates: seq<Day>)
    ensures progressByDate == TotalsOf(items)
    ensures dates == FirstOccurrences(Dates(items))
  {
    progressByDate := map[];
    dates := [];
    for i := 0 to |items|
      invariant progressByDate == TotalsOf(items[..i])
      invariant dates == FirstOccurrences(Dates(items[..i]))
    {
      var session := items[i];
      TotalsOfStep(items, i, dates);
      progressByDate := AddSession(progressByDate, session);
      if session.date !in dates {
        dates := dates + [session.date];
      }
    }
    assert items[..|items|] == items;
  }

  /** One step of the walk: the session at i updates its date's entry, and
      its date is listed if it is new. */
  lemma TotalsOfStep(items: seq<SessionRecord>, i: nat, dates: seq<Day>)
    requires i < |items| && dates == FirstOccurrences(Dates(items[..i]))
    ensures TotalsOf(items[..i + 1]) == AddSession(TotalsOf(items[..i]), items[i])
    ensures FirstOccurrences(Dates(items[..i + 1])) ==
      if items[i].date in dates then dates else dates + [items[i].date]
  {
    assert items[..i + 1][..i] == items[..i];
    assert Dates(items[..i + 1]) == Dates(items[..i]) + [items[i].date];
    FirstOccurrencesSnoc(Dates(items[..i]), items[i].date);
  }

  /** The entries the mapping over the dates ds builds from the totals m. */
  function Entries(m: map<Day, DayTotals>, ds: seq<Day>): seq<DayProgress>
    requires forall i :: 0 <= i < |ds| ==> ds[i] in m && m[ds[i]].sessions > 0
  {
    if ds == [] then []
    else Entries(m, ds[..|ds| - 1]) + [DayEntry(ds[|ds| - 1], m[ds[|ds| - 1]])]
  }

  lemma {:induction false} EntriesIndex(m: map<Day, DayTotals>, ds: seq<Day>)
    requires forall i :: 0 <= i < |ds| ==> ds[i] in m && m[ds[i]].sessions > 0
    ensures |Entries(m, ds)| == |ds|
    ensures forall i :: 0 <= i < |ds| ==> Entries(m, ds)[i] == DayEntry(ds[i], m[ds[i]])
  {
    if ds != [] {
      EntriesIndex(m, ds[..|ds| - 1]);
    }
  }

  /** `Object.keys(progressByDate).map(...)`: each date's rounded means. */
  method DailyAverages(progressByDate: map<Day, DayTotals>, dates: seq<Day>) returns (progressData: seq<DayProgress>)
    requires forall i :: 0 <= i < |dates| ==> dates[i] in progressByDate && progressByDate[dates[i]].sessions > 0
    ensures |progressData| == |dates|
    ensures progressData == Entries(progressByDate, dates)
  {
    progressData := [];
    for j := 0 to |dates|
      invariant progressData == Entries(progressByDate, dates[..j])
    {
      var date := dates[j];
      var data := progressByDate[date];
      assert dates[..j + 1][..j] == dates[..j];
      progressData := progressData + [DayEntry(date, data)];
    }
    assert dates[..|dates|] == dates;
    EntriesIndex(progressByDate, dates);
  }

  /** Each date's totals give that date's entry of the progress, so the
      mapping over the key order of the totals is the progress. */
  lemma EntriesAreProgress(items: seq<SessionRecord>)
    ensures forall j :: 0 <= j < |FirstOccurrences(Dates(items))| ==>
      var d := FirstOccurrences(Dates(items))[j];
      d in TotalsOf(items) && TotalsOf(items)[d].sessions > 0
    ensures Entries(TotalsOf(items), FirstOccurrences(Dates(items))) == Progress(items)
  {
    FirstOccurrencesFacts(Dates(items));
    forall j | 0 <= j < |FirstOccurrences(Dates(items))|
      ensures var d := FirstOccurrences(Dates(items))[j];
        && d in TotalsOf(items) && TotalsOf(items)[d].sessions > 0
        && DayEntry(d, TotalsOf(items)[d]) == Progress(items)[j]
    {
      var d := FirstOccurrences(Dates(items))[j];
      assert d in FirstOccurrences(Dates(items));
      TotalsOfDays(items, d);
      OnDateCount(items, d);
    }
    EntriesIndex(TotalsOf(items), FirstOccurrences(Dates(items)));
  }

  /** Each date of the listing appears exactly once in the progress. */
  lemma ProgressDatesOnce(items: seq<SessionRecord>, d: Day)
    requires d in Dates(items)
    ensures exists j :: 0 <= j < |Progress(items)| && Progress(items)[j].date == d
    ensures forall j, k :: 0 <= j < k < |Progress(items)| ==> Progress(items)[j].date != Progress(items)[k].date
  {
    var ks := Dates(items);
    var i :| 0 <= i < |ks| && ks[i] == d;
    var ds := FirstOccurrences(ks);
    FirstOccurrencesFacts(ks);
    var j :| 0 <= j < |ds| && ds[j] == d;
    assert Progress(items)[j].date == d;
  }

  /** Every listed session is counted under exactly one date: the session
      counts add up to the length of the listing. */
  lemma ProgressCountsEverySession(items: seq<SessionRecord>)
    ensures SessionTotal(Progress(items)) == |items|
  {
    var ds := FirstOccurrences(Dates(items));
    FirstOccurrencesFacts(Dates(items));
    SessionTotalIsSumCounts(items, ds);
    SumCountsFirstOccurrences(Dates(items));
  }

  function SessionTotal(ps: seq<DayProgress>): nat {
    if ps == [] then 0 else ps[0].sessions + SessionTotal(ps[1..])
  }

  lemma {:induction false} SessionTotalIsSumCounts(items: seq<SessionRecord>, ds: seq<Day>)
    requires forall i :: 0 <= i < |ds| ==> ds[i] in Dates(items)
    ensures SessionTotal(ProgressOver(items, ds)) == SumCounts(Dates(items), ds)
  {
    if ds != [] {
      OnDateCount(items, ds[0]);
      SessionTotalIsSumCounts(items, ds[1..]);
      assert ProgressOver(items, ds)[1..] == ProgressOver(items, ds[1..]);
    }
  }

  /** A day's averages lie within the range of that day's speeds and
      accuracies. */
  lemma DayAveragesWithinRange(items: seq<SessionRecord>, j: nat, lo: int, hi: int)
    requires j < |Progress(items)|
    requires forall r :: r in items && r.date == Progress(items)[j].date ==>
      lo <= r.data.wpm <= hi && lo <= r.data.accuracy <= hi
    ensures lo <= Progress(items)[j].avgWpm <= hi && lo <= Progress(items)[j].avgAccuracy <= hi
  {
    var d := Progress(items)[j].date;
    var day := OnDate(items, d);
    OnDateMembers(items, d);
    MeanWithin(day, Wpm, lo, hi);
    MeanWithin(day, Accuracy, lo, hi);
  }

  /** Every session of a day's group comes from the listing. */
  lemma {:induction false} OnDateMembers(items: seq<SessionRecord>, d: Day)
    ensures forall r :: r in OnDate(items, d) ==> r in items
  {
    if items != [] {
      var pre := items[..|items| - 1];
      OnDateMembers(pre, d);
      assert items == pre + [items[|items| - 1]];
    }
  }

  predicate DatesAscending(items: seq<SessionRecord>) {
    forall i, j :: 0 <= i < j < |items| ==> items[i].date <= items[j].date
  }

  /** With the listing in date order (the query's `sort: 'date'`), the
      progress comes out in strictly increasing date order. */
  lemma ProgressAscending(items: seq<SessionRecord>)
    requires DatesAscending(items)
    ensures forall j, k :: 0 <= j < k < |FirstOccurrences(Dates(items))| ==>
      FirstOccurrences(Dates(items))[j] < FirstOccurrences(Dates(items))[k]
  {
    var ds := Dates(items);
    forall i, j | 0 <= i < j < |ds| ensures ds[i] <= ds[j] {
      assert ds[i] == items[i].date && ds[j] == items[j].date;
    }
    FirstOccurrencesAscending(ds);
  }
}

/** The key-performance service: per user and key, one record of running
    accuracy, speed and error count, merged with each session's figures; and
    the query that fetches the records of a set of keys. */
module KeyPerformance {
  import opened Common

  /** A row of the `KeyPerformance` collection. */
  datatype KeyRecord = KeyRecord(user: UserId, key: string, accuracy: int, speed: int, lastPracticed: Day, errorCount: int)

  /** The figures of one session for one key. */
  datatype KeyData = KeyData(key: string, accuracy: int, speed: int, errorCount: int)

  /** Whether a record belongs to the user and the key. */
  predicate IsFor(r: KeyRecord, user: UserId, key: string) {
    r.user == user && r.key == key
  }

  /** The first record of the user and the key, as a one-item query returns it. */
  function FirstMatch(records: seq<KeyRecord>, user: UserId, key: string): (m: Option<nat>)
    ensures m.None? <==> forall i :: 0 <= i < |records| ==> !IsFor(records[i], user, key)
    ensures m.Some? ==> m.value < |records| && IsFor(records[m.value], user, key)
    ensures m.Some? ==> forall i :: 0 <= i < m.value ==> !IsFor(records[i], user, key)
  {
    if records == [] then None
    else if IsFor(records[0], user, key) then Some(0)
    else
      match FirstMatch(records[1..], user, key)
      case None => None
      case Some(i) => Some(i + 1)
  }

  /** `Math.round((a + b) / 2)`: the rounded mean of the old and the new value. */
  function Mean2(a: int, b: int): (m: int)
    ensures a <= b ==> a <= m <= b
    ensures b <= a ==> b <= m <= a
    ensures a == b ==> m == a
  {
    if a <= b then RoundWithin(a + b, 2, a, b); Round(a + b, 2)
    else RoundWithin(a + b, 2, b, a); Round(a + b, 2)
  }

  /** The update of an existing record: accuracy and speed move to the rounded
      mean of old and new (so between the two), the error count adds up (so
      never decreases for a non-negative count), and the day is today's. */
  function Merge(old_: KeyRecord, data: KeyData, today: Day): (r: KeyRecord)
    ensures r.user == old_.user && r.key == old_.key && r.lastPracticed == today
    ensures r.accuracy == Mean2(old_.accuracy, data.accuracy)
    ensures r.speed == Mean2(old_.speed, data.speed)
    ensures r.errorCount == old_.errorCount + data.errorCount
    ensures data.errorCount >= 0 ==> r.errorCount >= old_.errorCount
  {
    old_.(accuracy := Mean2(old_.accuracy, data.accuracy), speed := Mean2(old_.speed, data.speed),
          lastPracticed := today, errorCount := old_.errorCount + data.errorCount)
  }

  /** No user has two records for the same key. */
  ghost predicate OneRecordPerKey(records: seq<KeyRecord>) {
    forall i, j :: 0 <= i < j < |records| ==> !(records[i].user == records[j].user && records[i].key == records[j].key)
  }

  /** The collection after an update for the user: the first record of the
      key merged, or a new record appended when there is none. */
  function Upserted(records: seq<KeyRecord>, user: UserId, data: KeyData, today: Day): (r: seq<KeyRecord>)
    ensures FirstMatch(records, user, data.key).Some? ==> |r| == |records|
    ensures FirstMatch(records, user, data.key).Some? ==>
      var i := FirstMatch(records, user, data.key).value;
      && r[i] == Merge(records[i], data, today)
      && forall j :: 0 <= j < |records| && j != i ==> r[j] == records[j]
    ensures FirstMatch(records, user, data.key).None? ==> |r| == |records| + 1
  {
    match FirstMatch(records, user, data.key)
    case Some(i) => records[i := Merge(records[i], data, today)]
    case None => records + [KeyRecord(user, data.key, data.accuracy, data.speed, today, data.errorCount)]
  }

  /** After an update the user has exactly one record for the key, when the
      collection had at most one before, and every other record is unchanged. */
  lemma UpsertKeepsOneRecordPerKey(records: seq<KeyRecord>, user: UserId, data: KeyData, today: Day)
    requires OneRecordPerKey(records)
    ensures OneRecordPerKey(Upserted(records, user, data, today))
    ensures exists i :: 0 <= i < |Upserted(records, user, data, today)| && IsFor(Upserted(records, user, data, today)[i], user, data.key)
    ensures forall i :: 0 <= i < |records| && !IsFor(records[i], user, data.key) ==> Upserted(records, user, data, today)[i] == records[i]
  {
    var r := Upserted(records, user, data, today);
    match FirstMatch(records, user, data.key)
    case Some(k) =>
      assert IsFor(r[k], user, data.key);
    case None =>
      assert IsFor(r[|records|], user, data.key);
  }

  /** A new record takes the session's figures as they are. */
  lemma CreatedRecordTakesInput(records: seq<KeyRecord>, user: UserId, data: KeyData, today: Day)
    requires forall i :: 0 <= i < |records| ==> !IsFor(records[i], user, data.key)
    ensures var r := Upserted(records, user, data, today);
      && r[..|records|] == records
      && r[|records|] == KeyRecord(user, data.key, data.accuracy, data.speed, today, data.errorCount)
  {
  }

  /** An existing record keeps its user and key, moves its accuracy and speed
      to between the old and the session's value, adds the session's errors
      and is stamped with today; no other record changes. */
  lemma MergedRecordTakesMeans(records: seq<KeyRecord>, user: UserId, data: KeyData, today: Day, i: nat)
    requires i < |records| && IsFor(records[i], user, data.key)
    requires forall j :: 0 <= j < i ==> !IsFor(records[j], user, data.key)
    ensures var r := Upserted(records, user, data, today);
      && |r| == |records|
      && IsFor(r[i], user, data.key) && r[i].lastPracticed == today
      && Between(r[i].accuracy, records[i].accuracy, data.accuracy)
      && Between(r[i].speed, records[i].speed, data.speed)
      && r[i].errorCount == records[i].errorCount + data.errorCount
      && forall j :: 0 <= j < |records| && j != i ==> r[j] == records[j]
  {
    FirstMatchIsFirst(records, user, data.key, i);
  }

  /** `m` lies between `a` and `b`, in either order. */
  predicate Between(m: int, a: int, b: int) {
    (a <= m <= b) || (b <= m <= a)
  }

  /** The first record of the user and key is the one `FirstMatch` finds. */
  lemma {:induction false} FirstMatchIsFirst(records: seq<KeyRecord>, user: UserId, key: string, i: nat)
    requires i < |records| && IsFor(records[i], user, key)
    requires forall j :: 0 <= j < i ==> !IsFor(records[j], user, key)
    ensures FirstMatch(records, user, key) == Some(i)
  {
    if i > 0 {
      FirstMatchIsFirst(records[1..], user, key, i - 1);
    }
  }

  class KeyPerformanceStore {
    /** The `KeyPerformance` collection. */
    var records: seq<KeyRecord>

    constructor ()
      ensures records == []
    {
      records := [];
    }

    /** `updateKeyPerformance`: refused without a signed-in user; otherwise the
        user's record for the key (as the one-item query finds it) is merged
        with the data, or created from it when there is none, and returned. */
    method UpdateKeyPerformance(auth: Option<UserId>, data: KeyData, today: Day) returns (r: Outcome<KeyRecord>)
      modifies this
      ensures auth.None? ==> r == Failure(NotAuthenticated) && records == old(records)
      ensures auth.Some? ==> records == Upserted(old(records), auth.value, data, today)
      ensures auth.Some? ==> r.Success? && IsFor(r.data, auth.value, data.key) && r.data in records
      // the record returned is the one just merged or created
      ensures auth.Some? ==>
        var m := FirstMatch(old(records), auth.value, data.key);
        r.data == (if m.Some? then Merge(old(records)[m.value], data, today)
                   else KeyRecord(auth.value, data.key, data.accuracy, data.speed, today, data.errorCount))
    {
      if auth.None? {
        return Failure(NotAuthenticated);
      }
      var userId := auth.value;
      var existing := FirstMatch(records, userId, data.key);
      if existing.Some? {
        var updated := Merge(records[existing.value], data, today);
        records := records[existing.value := updated];
        assert records[existing.value] == updated;
        r := Success(updated);
      } else {
        var created := KeyRecord(userId, data.key, data.accuracy, data.speed, today, data.errorCount);
        records := records + [created];
        r := Success(created);
      }
    }
  }

  // ---------------------------------------------------------------------------
  // Query for a set of keys
  // ---------------------------------------------------------------------------

  /** `key="k"`. */
  function KeyClause(k: string): (c: string)
    ensures |c| == |k| + 6
    ensures c[..5] == "key=\"" && c[5..|c| - 1] == k && c[|c| - 1] == '"'
  {
    "key=\"" + k + "\""
  }

  /** The total length of the keys. */
  function SumLengths(keys: seq<string>): nat {
    if keys == [] then 0 else |keys[0]| + SumLengths(keys[1..])
  }

  /** The clauses joined by `" || "`. */
  function KeyFilters(keys: seq<string>): (s: string)
    ensures keys == [] <==> s == []
    ensures |keys| > 0 ==> |s| == SumLengths(keys) + 10 * |keys| - 4
  {
    if keys == [] then ""
    else if |keys| == 1 then KeyClause(keys[0])
    else KeyClause(keys[0]) + " || " + KeyFilters(keys[1..])
  }

  /** The number of characters before the first double quote (all of them
      when there is none). */
  function UntilQuote(s: string): (n: nat)
    ensures n <= |s|
    ensures forall i :: 0 <= i < n ==> s[i] != '"'
    ensures n < |s| ==> s[n] == '"'
  {
    if s == [] || s[0] == '"' then 0 else 1 + UntilQuote(s[1..])
  }

  /** Reads the keys back out of a joined clause list: each clause's key runs
      from after `key="` up to the next double quote, and the next clause
      starts after that quote and `" || "`. */
  function ParseKeyFilters(s: string): seq<string>
    decreases |s|
  {
    if |s| < 6 then []
    else
      var n := UntilQuote(s[5..]);
      var next := n + 10;
      if next >= |s| then [s[5..][..n]]
      else [s[5..][..n]] + ParseKeyFilters(s[next..])
  }

  /** A key free of double quotes ends where its closing quote is. */
  lemma {:induction false} UntilQuoteOfKey(k: string, tail: string)
    requires '"' !in k
    ensures UntilQuote(k + "\"" + tail) == |k|
  {
    if k != [] {
      assert (k + "\"" + tail)[1..] == k[1..] + "\"" + tail;
      UntilQuoteOfKey(k[1..], tail);
    }
  }

  /** The parser reads a last clause back as its key. */
  lemma ParseLastClause(k: string)
    requires '"' !in k
    ensures ParseKeyFilters(KeyClause(k)) == [k]
  {
    var s := KeyClause(k);
    assert s[5..] == k + "\"" + [];
    UntilQuoteOfKey(k, []);
    assert s[5..][..|k|] == k;
  }

  /** The parser reads a clause followed by more clauses as its key, then
      goes on after the separator. */
  lemma ParseClauseThen(k: string, more: string)
    requires '"' !in k && more != []
    ensures ParseKeyFilters(KeyClause(k) + " || " + more) == [k] + ParseKeyFilters(more)
  {
    var s := KeyClause(k) + " || " + more;
    assert s[5..] == k + "\"" + (" || " + more);
    UntilQuoteOfKey(k, " || " + more);
    assert s[5..][..|k|] == k;
    assert s[|k| + 10..] == more;
  }

  /** For keys free of double quotes, the clause list names exactly the
      requested keys, in order. */
  lemma {:induction false} KeyFiltersRoundTrip(keys: seq<string>)
    requires forall k :: k in keys ==> '"' !in k
    ensures ParseKeyFilters(KeyFilters(keys)) == keys
  {
    if |keys| == 1 {
      ParseLastClause(keys[0]);
    } else if |keys| > 1 {
      ParseClauseThen(keys[0], KeyFilters(keys[1..]));
      KeyFiltersRoundTrip(keys[1..]);
    }
  }

  /** The query `getKeysPerformance` sends. */
  datatype KeysQuery = KeysQuery(filter: string, pageSize: nat, sort: string)

  /** `getKeysPerformance`: refused without a signed-in user; otherwise one
      page as large as the key list, of the user's records whose key is one of
      the keys, sorted by key. */
  function KeysPerformanceQuery(auth: Option<UserId>, keys: seq<string>): (r: Outcome<KeysQuery>)
    ensures auth.None? ==> r == Failure(NotAuthenticated)
    ensures auth.Some? ==> r.Success? && r.data.pageSize == |keys| && r.data.sort == "key"
    ensures auth.Some? ==>
      var prefix := "user=\"" + auth.value + "\" && (";
      && |r.data.filter| == |prefix| + |KeyFilters(keys)| + 1
      && r.data.filter[..|prefix|] == prefix
      && r.data.filter[|prefix|..|r.data.filter| - 1] == KeyFilters(keys)
      && r.data.filter[|r.data.filter| - 1] == ')'
    // the parenthesised clauses name exactly the keys, when no key holds a quote
    ensures auth.Some? && (forall k :: k in keys ==> '"' !in k) ==>
      var prefix := "user=\"" + auth.value + "\" && (";
      ParseKeyFilters(r.data.filter[|prefix|..|r.data.filter| - 1]) == keys
  {
    if auth.None? then Failure(NotAuthenticated)
    else
      var prefix := "user=\"" + auth.value + "\" && (";
      var filter := prefix + KeyFilters(keys) + ")";
      assert filter[|prefix|..|filter| - 1] == KeyFilters(keys);
      assert (forall k :: k in keys ==> '"' !in k) ==> ParseKeyFilters(KeyFilters(keys)) == keys by {
        if forall k :: k in keys ==> '"' !in k {
          KeyFiltersRoundTrip(keys);
        }
      }
      Success(KeysQuery(filter, |keys|, "key"))
  }
}

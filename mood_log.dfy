/** The mood log: the `moods` table of main.js as an append-only sequence
    of rows, in insertion order. Inserting assigns the next autoincrement
    id and the insert-time clock reading; the history query keeps the rows
    newer than a cutoff, most recent first. */
module MoodLog {
  import opened Wrappers

  /** One row of the `moods` table. `mood` is NOT NULL; `energy` and `note`
      may be null. */
  datatype MoodEntry = MoodEntry(
    id: int,
    mood: string,
    energy: Option<int>,
    note: Option<string>,
    timestamp: int)

  const MS_PER_DAY: int := 24 * 60 * 60 * 1000

  /** The history window used when the caller gives no day count. */
  const DEFAULT_DAYS: int := 30

  /** The autoincrement key grows along the table, so it is a key: no two
      rows share an id. */
  predicate ValidLog(log: seq<MoodEntry>)
    ensures ValidLog(log) ==>
      forall i, j :: 0 <= i < |log| && 0 <= j < |log| && log[i].id == log[j].id ==> i == j
  {
    forall i, j :: 0 <= i < j < |log| ==> log[i].id < log[j].id
  }

  /** The id the store gives the next row: one more than the last one, 1
      for an empty table. */
  function NextId(log: seq<MoodEntry>): (id: int)
    requires ValidLog(log)
    ensures forall i :: 0 <= i < |log| ==> log[i].id < id
    ensures log == [] ==> id == 1
  {
    if log == [] then 1 else log[|log| - 1].id + 1
  }

  /** `note || null`: an absent or empty note is stored as null. */
  function NoteOrNull(note: Option<string>): (stored: Option<string>)
    ensures stored.Some? <==> note.Some? && note.value != ""
    ensures stored.Some? ==> stored == note
  {
    match note
    case Some(s) => if s == "" then None else note
    case None => None
  }

  /** The table after a successful insert at clock reading `now`. */
  function Inserted(log: seq<MoodEntry>, mood: string, energy: Option<int>,
                    note: Option<string>, now: int): (log': seq<MoodEntry>)
    requires ValidLog(log)
    ensures ValidLog(log')
    ensures |log'| == |log| + 1 && log'[..|log|] == log
    ensures var e := log'[|log|];
      e.mood == mood && e.energy == energy && e.note == NoteOrNull(note) &&
      e.timestamp == now && e.id == NextId(log)
    ensures forall i :: 0 <= i < |log| ==> log[i].id < log'[|log|].id
  {
    log + [MoodEntry(NextId(log), mood, energy, NoteOrNull(note), now)]
  }

  /** The `since` bound of the history query: `days` days before `now`,
      thirty when no day count is given. */
  function Cutoff(now: int, days: Option<int>): (since: int)
    ensures days.None? ==> since == now - 2592000000
    ensures days.Some? ==> since == now - days.value * 86400000
  {
    now - days.GetOr(DEFAULT_DAYS) * MS_PER_DAY
  }

  /** `WHERE timestamp > since`: the rows strictly newer than `since`, each
      as often as it occurs in the table. */
  function Since(log: seq<MoodEntry>, since: int): (rows: seq<MoodEntry>)
    ensures forall e :: multiset(rows)[e] == if e.timestamp > since then multiset(log)[e] else 0
  {
    if log == [] then []
    else
      assert log == [log[0]] + log[1..];
      (if log[0].timestamp > since then [log[0]] else []) + Since(log[1..], since)
  }

  /** `ORDER BY timestamp DESC`: most recent first. */
  predicate SortedDesc(s: seq<MoodEntry>) {
    forall i, j :: 0 <= i < j < |s| ==> s[i].timestamp >= s[j].timestamp
  }

  /** In a list sorted most recent first, the first row is the newest. */
  lemma SortedDescHeadIsNewest(s: seq<MoodEntry>)
    requires SortedDesc(s) && s != []
    ensures forall e :: e in s ==> e.timestamp <= s[0].timestamp
  {
  }

  /** A row that is at least as new as every row of a sorted list can be
      put in front of it. */
  lemma {:induction false} ConsSorted(h: MoodEntry, rest: seq<MoodEntry>)
    requires SortedDesc(rest)
    requires forall x :: x in multiset(rest) ==> x.timestamp <= h.timestamp
    ensures SortedDesc([h] + rest)
  {
    forall k | 0 <= k < |rest| ensures rest[k].timestamp <= h.timestamp {
      assert rest[k] in multiset(rest);
    }
  }

  /** In a sorted list no later row is newer than the first. */
  lemma {:induction false} TailNoNewer(s: seq<MoodEntry>)
    requires SortedDesc(s) && s != []
    ensures forall x :: x in multiset(s[1..]) ==> x.timestamp <= s[0].timestamp
  {
    forall x | x in multiset(s[1..]) ensures x.timestamp <= s[0].timestamp {
      var k :| 1 <= k < |s| && s[k] == x;
    }
  }

  /** Inserts `e` into a list sorted most recent first. */
  function InsertByTime(e: MoodEntry, s: seq<MoodEntry>): (r: seq<MoodEntry>)
    requires SortedDesc(s)
    ensures SortedDesc(r)
    ensures multiset(r) == multiset(s) + multiset{e}
  {
    if s == [] || e.timestamp >= s[0].timestamp then [e] + s
    else
      assert s == [s[0]] + s[1..];
      var rest := InsertByTime(e, s[1..]);
      TailNoNewer(s);
      ConsSorted(s[0], rest);
      [s[0]] + rest
  }

  /** Orders rows most recent first; rows with equal timestamps may come
      in either order, as the query leaves their order open. */
  function SortDesc(s: seq<MoodEntry>): (r: seq<MoodEntry>)
    ensures SortedDesc(r)
    ensures multiset(r) == multiset(s)
  {
    if s == [] then []
    else
      assert s == [s[0]] + s[1..];
      InsertByTime(s[0], SortDesc(s[1..]))
  }

  /** The rows the history query returns. */
  function History(log: seq<MoodEntry>, now: int, days: Option<int>): (rows: seq<MoodEntry>)
    ensures SortedDesc(rows)
    ensures forall e :: e in rows <==> e in log && e.timestamp > Cutoff(now, days)
    ensures forall e :: multiset(rows)[e] == if e.timestamp > Cutoff(now, days) then multiset(log)[e] else 0
  {
    var rows := SortDesc(Since(log, Cutoff(now, days)));
    assert forall e :: e in rows <==> e in multiset(rows);
    rows
  }

  /** Three check-ins, a day, ten days and forty days old, queried with
      the default thirty-day window: the two recent ones come back, the
      newest first. */
  lemma {:induction false} DefaultWindowExample(now: int, e40: MoodEntry, e10: MoodEntry, e1: MoodEntry)
    requires e40.timestamp == now - 40 * MS_PER_DAY
    requires e10.timestamp == now - 10 * MS_PER_DAY
    requires e1.timestamp == now - MS_PER_DAY
    ensures History([e40, e10, e1], now, None) == [e1, e10]
  {
    var since := Cutoff(now, None);
    SinceExample(since, e40, e10, e1);
    SortExample(e10, e1);
  }

  lemma SinceExample(since: int, e40: MoodEntry, e10: MoodEntry, e1: MoodEntry)
    requires e40.timestamp <= since < e10.timestamp && since < e1.timestamp
    ensures Since([e40, e10, e1], since) == [e10, e1]
  {
    assert [e1][1..] == [];
    assert Since([e1], since) == [e1];
    assert [e10, e1][1..] == [e1];
    assert Since([e10, e1], since) == [e10, e1];
    assert [e40, e10, e1][1..] == [e10, e1];
  }

  lemma SortExample(older: MoodEntry, newer: MoodEntry)
    requires older.timestamp < newer.timestamp
    ensures SortDesc([older, newer]) == [newer, older]
  {
  }
}

/** The per-user sliding window of attempts (attemptHistory.ts). */
module AttemptHistory {
  import opened Ordered
  import opened Chain

  datatype AttemptStatus = Sent | Reverted | Included | Error | SkipNoPair | Pending | Failed

  datatype AttemptRecord = AttemptRecord(
    user: string,
    timestamp: nat,
    status: AttemptStatus,
    txHash: Option<Tx>,
    nonce: Option<nat>)

  const MAX_ENTRIES_PER_USER: nat := 10

  function HistoryOf(history: map<string, seq<AttemptRecord>>, user: string): seq<AttemptRecord> {
    if user in history then history[user] else []
  }

  function LastAttempt(entries: seq<AttemptRecord>): Option<AttemptRecord> {
    if entries == [] then None else Some(entries[|entries| - 1])
  }

  predicate PendingLast(entries: seq<AttemptRecord>) {
    LastAttempt(entries).Some? && LastAttempt(entries).value.status == Pending
  }

  /** The last ten entries. */
  function Window(entries: seq<AttemptRecord>): seq<AttemptRecord> {
    if |entries| > MAX_ENTRIES_PER_USER then entries[|entries| - MAX_ENTRIES_PER_USER..] else entries
  }

  function Recorded(history: map<string, seq<AttemptRecord>>, record: AttemptRecord): map<string, seq<AttemptRecord>> {
    history[record.user := Window(HistoryOf(history, record.user) + [record])]
  }

  class AttemptHistory {
    var history: map<string, seq<AttemptRecord>>

    constructor ()
      ensures history == map[]
    {
      history := map[];
    }

    method Record(record: AttemptRecord)
      requires |HistoryOf(history, record.user)| <= MAX_ENTRIES_PER_USER
      modifies this
      ensures history == Recorded(old(history), record)
      ensures |HistoryOf(history, record.user)| <= MAX_ENTRIES_PER_USER
    {
      var userHistory := HistoryOf(history, record.user);
      userHistory := userHistory + [record];
      if |userHistory| > MAX_ENTRIES_PER_USER {
        userHistory := userHistory[1..];
      }
      history := history[record.user := userHistory];
    }

    method GetLastAttempt(user: string) returns (last: Option<AttemptRecord>)
      ensures last == LastAttempt(HistoryOf(history, user))
    {
      var userHistory := HistoryOf(history, user);
      last := if |userHistory| > 0 then Some(userHistory[|userHistory| - 1]) else None;
    }

    method HasPending(user: string) returns (pending: bool)
      ensures pending == PendingLast(HistoryOf(history, user))
    {
      var lastAttempt := GetLastAttempt(user);
      pending := lastAttempt.Some? && lastAttempt.value.status == Pending;
    }
  }

  // ----- The window against the full log -----

  /** The history after recording `log`, oldest first. */
  ghost function Replay(log: seq<AttemptRecord>): map<string, seq<AttemptRecord>> {
    if log == [] then map[] else Recorded(Replay(log[..|log| - 1]), log[|log| - 1])
  }

  ghost function OfUser(log: seq<AttemptRecord>, user: string): seq<AttemptRecord> {
    if log == [] then []
    else OfUser(log[..|log| - 1], user) + if log[|log| - 1].user == user then [log[|log| - 1]] else []
  }

  /**
   What is kept for a user is the last ten of all that was ever recorded for that user, so the guard reads the
   true last attempt whatever was recorded in between for others.
   */
  lemma {:induction false} WindowIsTheLastTen(log: seq<AttemptRecord>, user: string)
    ensures HistoryOf(Replay(log), user) == Window(OfUser(log, user))
    ensures LastAttempt(HistoryOf(Replay(log), user)) == LastAttempt(OfUser(log, user))
    ensures PendingLast(HistoryOf(Replay(log), user)) == PendingLast(OfUser(log, user))
  {
    WindowKeepsLast(OfUser(log, user));
    if log == [] {
    } else {
      var init, last := log[..|log| - 1], log[|log| - 1];
      WindowIsTheLastTen(init, user);
      RecordedFor(Replay(init), last, user);
      WindowAbsorbs(OfUser(init, user), last);
    }
  }

  lemma WindowKeepsLast(entries: seq<AttemptRecord>)
    ensures LastAttempt(Window(entries)) == LastAttempt(entries)
  {
  }

  lemma RecordedFor(history: map<string, seq<AttemptRecord>>, record: AttemptRecord, user: string)
    ensures HistoryOf(Recorded(history, record), user)
         == if record.user == user then Window(HistoryOf(history, user) + [record]) else HistoryOf(history, user)
  {
  }

  lemma OfUserAppends(log: seq<AttemptRecord>, record: AttemptRecord, user: string)
    ensures OfUser(log + [record], user) == OfUser(log, user) + if record.user == user then [record] else []
  {
    assert (log + [record])[..|log|] == log;
  }

  lemma ReplayAppends(log: seq<AttemptRecord>, record: AttemptRecord)
    ensures Replay(log + [record]) == Recorded(Replay(log), record)
  {
    assert (log + [record])[..|log|] == log;
  }

  lemma WindowAbsorbs(entries: seq<AttemptRecord>, record: AttemptRecord)
    ensures Window(Window(entries) + [record]) == Window(entries + [record])
  {
  }
}

/** The channel log of the chat inbox: its records, and what the runtime reads off a list of them. */
module ChatRecords {
  import opened StableSort
  import opened Wrappers

  datatype Message = Message(userId: string, text: string, isBot: bool)

  /** A position in the Telegram update stream (`cursor` plus the message it stands at). */
  datatype Cursor = Cursor(cursor: Option<string>, messageId: Option<string>)

  datatype Record =
    | Inbound(recordId: nat, message: Message)
    | Outbound(recordId: nat, text: string)
    | Checkpoint(recordId: nat, at: Cursor)
    | JobQueued(recordId: nat, triggerRecordId: nat)
    | JobCompleted(recordId: nat, triggerRecordId: nat)
    | JobFailed(recordId: nat, triggerRecordId: nat)
    | ErrorNote(recordId: nat, text: string)

  type Log = seq<Record>

  /** Who may trigger a job: the conversation's access list and whether it is a direct message. */
  datatype Policy = Policy(dm: bool, ignoreBots: bool, allowedUserIds: seq<string>)

  predicate IsAllowed(policy: Policy, m: Message) {
    !(m.isBot && policy.ignoreBots) && (policy.allowedUserIds == [] || m.userId in policy.allowedUserIds)
  }

  predicate ShouldTrigger(policy: Policy, m: Message) {
    IsAllowed(policy, m) && policy.dm
  }

  predicate IsSettle(r: Record) { r.JobCompleted? || r.JobFailed? }

  ghost predicate Increasing(log: Log) {
    forall i, j :: 0 <= i < j < |log| ==> log[i].recordId < log[j].recordId
  }

  function Max(a: nat, b: nat): nat { if a < b then b else a }

  /** The largest record id, 0 for an empty log. */
  function MaxId(log: Log): nat {
    if log == [] then 0 else Max(MaxId(log[..|log| - 1]), log[|log| - 1].recordId)
  }

  /** The boundary below which messages have already been answered (completed or failed). */
  function LastSettled(log: Log): nat {
    if log == [] then 0
    else
      var before := LastSettled(log[..|log| - 1]);
      var r := log[|log| - 1];
      if IsSettle(r) then Max(before, r.triggerRecordId) else before
  }

  /** The triggers of the settlements in the log, in log order. */
  function SettledTriggers(log: Log): seq<nat> {
    if log == [] then []
    else
      var r := log[|log| - 1];
      SettledTriggers(log[..|log| - 1]) + if IsSettle(r) then [r.triggerRecordId] else []
  }

  function LastQueued(log: Log): nat {
    if log == [] then 0
    else
      var before := LastQueued(log[..|log| - 1]);
      var r := log[|log| - 1];
      if r.JobQueued? then Max(before, r.triggerRecordId) else before
  }

  function LastCheckpoint(log: Log): Option<Cursor> {
    if log == [] then None
    else if log[|log| - 1].Checkpoint? then Some(log[|log| - 1].at)
    else LastCheckpoint(log[..|log| - 1])
  }

  /** The inbound records with `lo < recordId <= hi`, in log order: what a prompt is made of. */
  function InboundBetween(log: Log, lo: nat, hi: nat): Log {
    if log == [] then []
    else
      var before := InboundBetween(log[..|log| - 1], lo, hi);
      var r := log[|log| - 1];
      if r.Inbound? && lo < r.recordId <= hi then before + [r] else before
  }

  predicate NotLater(a: Record, b: Record) { a.recordId <= b.recordId }

  /** Reading the log sorts its lines by record id, stably. */
  function SortById(log: Log): Log { Sort(NotLater, log) }

  lemma SortOfIncreasing(log: Log)
    requires Increasing(log)
    ensures SortById(log) == log
  {
    SortOfSorted(NotLater, log);
  }

  lemma {:induction false} MaxIdBounds(log: Log)
    ensures forall i :: 0 <= i < |log| ==> log[i].recordId <= MaxId(log)
    ensures log != [] ==> exists i :: 0 <= i < |log| && log[i].recordId == MaxId(log)
  {
    if log != [] {
      var init := log[..|log| - 1];
      MaxIdBounds(init);
      if MaxId(init) <= log[|log| - 1].recordId {
        assert log[|log| - 1].recordId == MaxId(log);
      } else {
        var i :| 0 <= i < |init| && init[i].recordId == MaxId(init);
        assert log[i].recordId == MaxId(log);
      }
    }
  }

  lemma Snoc(log: Log, r: Record)
    ensures (log + [r])[..|log + [r]| - 1] == log
    ensures MaxId(log + [r]) == Max(MaxId(log), r.recordId)
    ensures LastSettled(log + [r]) == if IsSettle(r) then Max(LastSettled(log), r.triggerRecordId) else LastSettled(log)
    ensures LastQueued(log + [r]) == if r.JobQueued? then Max(LastQueued(log), r.triggerRecordId) else LastQueued(log)
    ensures SettledTriggers(log + [r]) == SettledTriggers(log) + if IsSettle(r) then [r.triggerRecordId] else []
    ensures LastCheckpoint(log + [r]) == if r.Checkpoint? then Some(r.at) else LastCheckpoint(log)
    ensures forall lo: nat, hi: nat :: InboundBetween(log + [r], lo, hi) ==
                             InboundBetween(log, lo, hi) + if r.Inbound? && lo < r.recordId <= hi then [r] else []
  {
    assert (log + [r])[..|log + [r]| - 1] == log;
  }

  /** Appending a record whose id is above every id of an increasing log keeps it increasing. */
  lemma AppendAbove(log: Log, r: Record)
    requires Increasing(log) && MaxId(log) < r.recordId
    ensures Increasing(log + [r])
  {
    MaxIdBounds(log);
  }

  /** Every inbound record is in exactly the range its id says, and ranges meet without gap or overlap. */
  lemma {:induction false} InboundSplit(log: Log, lo: nat, mid: nat, hi: nat)
    requires Increasing(log) && lo <= mid <= hi
    ensures InboundBetween(log, lo, hi) == InboundBetween(log, lo, mid) + InboundBetween(log, mid, hi)
  {
    if log != [] {
      var init, r := log[..|log| - 1], log[|log| - 1];
      InboundSplit(init, lo, mid, hi);
      if r.recordId <= mid {
        InboundEmptyAbove(init, mid, hi, r.recordId);
      }
    }
  }

  lemma {:induction false} InboundEmptyAbove(log: Log, lo: nat, hi: nat, bound: nat)
    requires forall i :: 0 <= i < |log| ==> log[i].recordId <= bound
    requires bound <= lo
    ensures InboundBetween(log, lo, hi) == []
  {
    if log != [] { InboundEmptyAbove(log[..|log| - 1], lo, hi, bound); }
  }

  /** The range that ends at an inbound record ends with that very record. */
  lemma {:induction false} InboundEndsAt(log: Log, lo: nat, k: nat)
    requires Increasing(log) && k < |log| && log[k].Inbound? && lo < log[k].recordId
    ensures var p := InboundBetween(log, lo, log[k].recordId); p != [] && p[|p| - 1] == log[k]
  {
    if k < |log| - 1 {
      InboundEndsAt(log[..|log| - 1], lo, k);
    }
  }

  /** What a prompt holds: an element of the log is in the range exactly when it is inbound and its id is in range. */
  lemma {:induction false} InboundBetweenMembers(log: Log, lo: nat, hi: nat, r: Record)
    ensures r in InboundBetween(log, lo, hi) <==> r in log && r.Inbound? && lo < r.recordId <= hi
  {
    if log != [] {
      InboundBetweenMembers(log[..|log| - 1], lo, hi, r);
      assert log == log[..|log| - 1] + [log[|log| - 1]];
    }
  }

  /** Appending a record above `hi` leaves the range alone. */
  lemma InboundStable(log: Log, r: Record, lo: nat, hi: nat)
    requires hi < r.recordId
    ensures InboundBetween(log + [r], lo, hi) == InboundBetween(log, lo, hi)
  {
    Snoc(log, r);
  }
}

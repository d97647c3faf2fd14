/** The server's side: the bounded output journal whose descriptors the replay client consumes. */
module TerminalStore {
  import opened TerminalReplay
  import opened TerminalSafety
  import opened Wrappers

  datatype JournalEntry = JournalEntry(sequence: nat, bytes: Chunk)

  datatype AcceptError = CheckpointTooLarge | WatermarkRegressed | WatermarkAhead

  function TotalBytes(journal: seq<JournalEntry>): nat {
    if journal == [] then 0 else |journal[0].bytes| + TotalBytes(journal[1..])
  }

  lemma {:induction false} TotalSnoc(journal: seq<JournalEntry>, e: JournalEntry)
    ensures TotalBytes(journal + [e]) == TotalBytes(journal) + |e.bytes|
  {
    if journal == [] {
      assert (journal + [e])[1..] == [];
    } else {
      assert (journal + [e])[1..] == journal[1..] + [e];
      TotalSnoc(journal[1..], e);
    }
  }

  /** The journal is a run of consecutive sequences that ends at the newest one, with the bytes produced under them. */
  ghost predicate SuffixOf(journal: seq<JournalEntry>, produced: Log) {
    && |journal| <= |produced|
    && forall i :: 0 <= i < |journal| ==>
         journal[i].sequence == |produced| - |journal| + i + 1
         && journal[i].bytes == produced[|produced| - |journal| + i]
  }

  lemma {:induction false} SuffixSnoc(journal: seq<JournalEntry>, produced: Log, e: JournalEntry)
    requires SuffixOf(journal, produced) && e.sequence == |produced| + 1
    ensures SuffixOf(journal + [e], produced + [e.bytes])
  {
  }

  /**
    The rest is the journal without some entries at the front, and each of them had to go: with the last one
    dropped still there the bound did not hold.
   */
  ghost predicate CutBack(journal: seq<JournalEntry>, rest: seq<JournalEntry>, limit: nat) {
    exists n :: 0 <= n <= |journal| && rest == journal[n..] && (n > 0 ==> TotalBytes(journal[n - 1..]) > limit)
  }

  lemma {:induction false} CutBackNone(journal: seq<JournalEntry>, limit: nat)
    ensures CutBack(journal, journal, limit)
  {
    assert journal == journal[0..];
  }

  lemma {:induction false} CutBackOne(journal: seq<JournalEntry>, rest: seq<JournalEntry>, limit: nat)
    requires CutBack(journal, rest, limit) && rest != [] && TotalBytes(rest) > limit
    ensures CutBack(journal, rest[1..], limit)
  {
    var n :| 0 <= n <= |journal| && rest == journal[n..];
    var m := n + 1;
    assert rest[1..] == journal[m..] && journal[m - 1..] == rest;
  }

  class TerminalOutputStore {
    const checkpointLimit: nat
    const journalLimit: nat
    var nextSequence: nat
    var journal: seq<JournalEntry>
    var journalBytes: nat
    var checkpoint: Option<Snapshot>
    var checkpointWatermark: nat
    var historyGap: bool
    // Everything the shell ever produced, retained or not.
    ghost var produced: Log

    ghost predicate JournalIsSuffix()
      reads this
    {
      SuffixOf(journal, produced)
    }

    /** Nothing past the watermark has been dropped. */
    ghost predicate Retained()
      reads this
    {
      |produced| - |journal| <= checkpointWatermark
    }

    ghost predicate Valid()
      reads this
    {
      && nextSequence == |produced| + 1
      && JournalIsSuffix() && journalBytes == TotalBytes(journal)
      && checkpointWatermark <= |produced|
      && (!historyGap ==> Retained())
      && (checkpoint.None? ==> checkpointWatermark == 0)
    }

    /** The stored checkpoint is the screen at its watermark, as long as the clients that sent one were exact. */
    ghost predicate Faithful()
      reads this
    {
      checkpoint.Some? ==> checkpointWatermark <= |produced| && checkpoint.value.chunks == produced[..checkpointWatermark]
    }

    constructor (checkpointLimit: nat, journalLimit: nat)
      ensures Valid() && Faithful() && produced == []
      ensures this.checkpointLimit == checkpointLimit && this.journalLimit == journalLimit
    {
      this.checkpointLimit, this.journalLimit := checkpointLimit, journalLimit;
      nextSequence, journal, journalBytes := 1, [], 0;
      checkpoint, checkpointWatermark, historyGap := None, 0, false;
      produced := [];
    }

    method DropFront()
      requires Valid() && journal != []
      modifies this`journal, this`journalBytes, this`historyGap
      ensures journal == old(journal)[1..]
      ensures historyGap == (old(historyGap) || old(journal)[0].sequence > checkpointWatermark)
      ensures Valid()
    {
      var front := journal[0];
      journal := journal[1..];
      journalBytes := journalBytes - |front.bytes|;
      if front.sequence > checkpointWatermark { historyGap := true; }
    }

    /** Drops entries the checkpoint covers, from the front, as long as the bound is exceeded. */
    method ReclaimCovered()
      requires Valid()
      modifies this`journal, this`journalBytes, this`historyGap
      ensures Valid() && historyGap == old(historyGap) && CutBack(old(journal), journal, journalLimit)
      ensures journalBytes > journalLimit && journal != [] ==> journal[0].sequence > checkpointWatermark
    {
      CutBackNone(journal, journalLimit);
      while journalBytes > journalLimit && journal != [] && journal[0].sequence <= checkpointWatermark
        invariant Valid() && historyGap == old(historyGap) && CutBack(old(journal), journal, journalLimit)
        decreases |journal|
      {
        CutBackOne(old(journal), journal, journalLimit);
        DropFront();
      }
    }

    /** Drops from the front until the bound holds and no further; losing anything past the watermark raises the gap flag. */
    method EnforceJournalBound()
      requires Valid()
      modifies this`journal, this`journalBytes, this`historyGap
      ensures Valid() && journalBytes <= journalLimit && CutBack(old(journal), journal, journalLimit)
      ensures old(historyGap) ==> historyGap
      ensures historyGap && !old(historyGap) ==> !Retained()
    {
      ReclaimCovered();
      while journalBytes > journalLimit && journal != []
        invariant Valid() && (old(historyGap) ==> historyGap) && CutBack(old(journal), journal, journalLimit)
        invariant journalBytes > journalLimit && journal != [] ==> journal[0].sequence > checkpointWatermark
        invariant historyGap && !old(historyGap) ==> !Retained()
        decreases |journal|
      {
        CutBackOne(old(journal), journal, journalLimit);
        DropFront();
      }
    }

    /** Pushes the entry of the next sequence. */
    method PushEntry(e: JournalEntry)
      requires Valid() && e.sequence == nextSequence
      modifies this`nextSequence, this`journal, this`journalBytes, this`produced
      ensures Valid() && (old(Faithful()) ==> Faithful())
      ensures produced == old(produced) + [e.bytes] && journal == old(journal) + [e]
    {
      TotalSnoc(journal, e);
      SuffixSnoc(journal, produced, e);
      nextSequence := nextSequence + 1;
      journalBytes := journalBytes + |e.bytes|;
      journal := journal + [e];
      produced := produced + [e.bytes];
      assert produced[..checkpointWatermark] == old(produced[..checkpointWatermark]);
    }

    /** Appends one chunk under the next sequence; an empty chunk takes none. */
    method Append(bytes: Chunk) returns (sequence: nat)
      requires Valid()
      modifies this
      ensures Valid() && (old(Faithful()) ==> Faithful())
      ensures produced == if bytes == [] then old(produced) else old(produced) + [bytes]
      ensures sequence == old(nextSequence) && (old(historyGap) ==> historyGap)
      ensures checkpointWatermark == old(checkpointWatermark) && checkpoint == old(checkpoint)
      ensures bytes == [] ==> journal == old(journal)
      // What is dropped for it is dropped from the front, and no entry more than the bound asks for.
      ensures bytes != [] ==>
                journalBytes <= journalLimit && CutBack(old(journal) + [JournalEntry(sequence, bytes)], journal, journalLimit)
    {
      sequence := nextSequence;
      if bytes == [] { return; }
      PushEntry(JournalEntry(sequence, bytes));
      EnforceJournalBound();
    }

    method AcceptCheckpoint(watermark: nat, snapshot: Snapshot, size: nat) returns (error: Option<AcceptError>)
      requires Valid()
      modifies this
      ensures Valid() && produced == old(produced) && historyGap == old(historyGap)
      ensures error == if size > checkpointLimit then Some(CheckpointTooLarge)
                       else if watermark < old(checkpointWatermark) then Some(WatermarkRegressed)
                       else if watermark > |produced| then Some(WatermarkAhead)
                       else None
      ensures error.Some? ==> checkpoint == old(checkpoint) && checkpointWatermark == old(checkpointWatermark)
      ensures error.Some? ==> journal == old(journal)
      ensures error.None? ==> checkpoint == Some(snapshot) && checkpointWatermark == watermark
      ensures error.None? ==> forall e <- journal :: e.sequence > watermark
      ensures forall e <- old(journal) :: e.sequence > watermark ==> e in journal
      ensures error.None? && old(Retained()) ==> Retained()
      // A client whose screen is exact at the watermark keeps the store faithful.
      ensures error.None? && watermark <= |produced| && snapshot.chunks == produced[..watermark] ==> Faithful()
    {
      if size > checkpointLimit { return Some(CheckpointTooLarge); }
      if watermark < checkpointWatermark { return Some(WatermarkRegressed); }
      if watermark >= nextSequence { return Some(WatermarkAhead); }
      checkpointWatermark := watermark;
      checkpoint := Some(snapshot);
      while journal != [] && journal[0].sequence <= watermark
        invariant Valid() && historyGap == old(historyGap) && produced == old(produced)
        invariant checkpoint == Some(snapshot) && checkpointWatermark == watermark
        invariant old(Retained()) ==> Retained()
        invariant forall e <- old(journal) :: e.sequence > watermark ==> e in journal
        decreases |journal|
      {
        DropFront();
      }
      return None;
    }

    /** One merged batch of everything retained past a point. */
    method JournalFrom(afterSequence: nat) returns (batch: Option<Batch>)
      requires Valid()
      ensures batch.None? <==> journal == [] || |produced| <= afterSequence
      ensures batch.Some? ==>
                && ValidBatch(produced, batch.value) && batch.value.lastSequence == |produced|
                && batch.value.firstSequence == (if |produced| - |journal| <= afterSequence then afterSequence + 1
                                                 else |produced| - |journal| + 1)
    {
      var data: seq<Chunk> := [];
      var first: Option<nat> := None;
      var last := 0;
      ghost var start := |produced| - |journal|;
      ghost var from := if start <= afterSequence then afterSequence else start;
      for k := 0 to |journal|
        invariant first.None? <==> start + k <= from
        invariant first.None? ==> data == []
        invariant first.Some? ==> first.value == from + 1 && last == start + k && data == produced[from..start + k]
      {
        var entry := journal[k];
        if entry.sequence > afterSequence {
          if first.None? { first := Some(entry.sequence); }
          last := entry.sequence;
          data := data + [entry.bytes];
          assert produced[from..start + k + 1] == produced[from..start + k] + [produced[start + k]];
        }
      }
      if first.None? { return None; }
      return Some(Batch(first.value, last, data));
    }

    /** What the server lists for this terminal. */
    method Describe(terminalId: TerminalId, generation: nat) returns (d: Descriptor)
      requires Valid()
      ensures d.terminalId == terminalId && d.generation == generation && d.historyGap == historyGap
      ensures Faithful() ==> ValidDescriptor(produced, d)
      // As long as nothing past the watermark was dropped the client can catch up to the newest sequence.
      ensures Faithful() && Retained() ==> FullDescriptor(produced, d, |produced|)
      ensures checkpoint.None? && Retained() && journal != [] ==> d.journal.Some? && d.journal.value.firstSequence == 1
    {
      var batch := JournalFrom(checkpointWatermark);
      d := Descriptor(terminalId, generation, false, checkpoint, checkpointWatermark, historyGap, batch);
    }
  }
}

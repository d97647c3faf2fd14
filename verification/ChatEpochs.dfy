/** The epoch a claim carries: when it identifies a claim, and when it does not. */
module ChatEpochs {
  import opened ChatRecords
  import opened ChatInbox
  import opened Wrappers

  /** Claims and releases with the read and the rename as one step. */
  datatype LockEvent =
    | Acquire(ownerId: OwnerId, preempt: bool, holderDead: bool)
    | Release(ownerId: OwnerId)

  function Next(lock: Option<Claim>, e: LockEvent): Option<Claim> {
    match e
    case Acquire(o, preempt, dead) =>
      (match Decide(lock, o, preempt, dead)
       case Take(epoch) => Some(Claim(o, epoch))
       case Adopt => lock
       case Refuse => lock)
    case Release(o) => if Holds(lock, o) then None else lock
  }

  /** The event writes a new claim. */
  predicate Writes(lock: Option<Claim>, e: LockEvent) {
    e.Acquire? && Decide(lock, e.ownerId, e.preempt, e.holderDead).Take?
  }

  /** The claims a run writes, in order. */
  function Written(lock: Option<Claim>, es: seq<LockEvent>): seq<Claim>
    decreases |es|
  {
    if es == [] then []
    else
      var next := Next(lock, es[0]);
      (if Writes(lock, es[0]) then [next.value] else []) + Written(next, es[1..])
  }

  /** Some claim of the run finds the file of an earlier claim gone; `used` tells whether there was one yet. */
  ghost predicate FindsReleased(used: bool, lock: Option<Claim>, es: seq<LockEvent>)
    decreases |es|
  {
    es != [] &&
    ((lock.None? && used && Writes(lock, es[0]))
     || FindsReleased(used || Writes(lock, es[0]), Next(lock, es[0]), es[1..]))
  }

  /** Each claim's epoch is above the one before it, the first one's above `floor`. */
  ghost predicate Climbs(floor: nat, claims: seq<Claim>)
    decreases |claims|
  {
    claims == [] || (floor < claims[0].epoch && Climbs(claims[0].epoch, claims[1..]))
  }

  /**
    A takeover raises the epoch by exactly one, so epochs grow along a run exactly as long as no claim is
    written after a release; a released channel starts again at 1. A floor of 0 is a channel never claimed.
   */
  lemma {:induction false} EpochsGrowExactlyBetweenReleases(lock: Option<Claim>, floor: nat, es: seq<LockEvent>)
    requires lock.Some? ==> lock.value.epoch == floor && floor >= 1
    ensures Climbs(floor, Written(lock, es)) <==> !FindsReleased(floor > 0, lock, es)
    decreases |es|
  {
    if es != [] {
      var next := Next(lock, es[0]);
      var rest := Written(next, es[1..]);
      if Writes(lock, es[0]) {
        assert Written(lock, es) == [next.value] + rest && ([next.value] + rest)[1..] == rest;
        EpochsGrowExactlyBetweenReleases(next, next.value.epoch, es[1..]);
      } else {
        assert Written(lock, es) == rest;
        EpochsGrowExactlyBetweenReleases(next, floor, es[1..]);
      }
    }
  }

  lemma {:induction false} ClimbingEpochsDiffer(floor: nat, claims: seq<Claim>)
    requires Climbs(floor, claims)
    ensures forall i :: 0 <= i < |claims| ==> floor < claims[i].epoch
    ensures forall i, j :: 0 <= i < j < |claims| ==> claims[i].epoch < claims[j].epoch
    decreases |claims|
  {
    if claims != [] {
      ClimbingEpochsDiffer(claims[0].epoch, claims[1..]);
      assert forall i :: 1 <= i < |claims| ==> claims[i] == claims[1..][i - 1];
    }
  }

  /** Between two releases no (owner, epoch) pair recurs: a claim read again later is the same claim. */
  lemma ClaimsAreDistinctBetweenReleases(lock: Option<Claim>, es: seq<LockEvent>)
    requires (lock.Some? ==> lock.value.epoch >= 1) && !FindsReleased(lock.Some?, lock, es)
    ensures var claims := Written(lock, es);
            (lock.Some? ==> lock.value !in claims) && forall i, j :: 0 <= i < j < |claims| ==> claims[i] != claims[j]
  {
    var floor := if lock.Some? then lock.value.epoch else 0;
    EpochsGrowExactlyBetweenReleases(lock, floor, es);
    ClimbingEpochsDiffer(floor, Written(lock, es));
  }

  /** Across a release it does: a sleeper finds its own pair again although two others held the channel meanwhile. */
  lemma PairRecursAfterRelease(a: OwnerId, b: OwnerId)
    requires a != b
    ensures var es := [Acquire(b, true, false), Release(b), Acquire(a, false, false)];
            Written(Some(Claim(a, 1)), es) == [Claim(b, 2), Claim(a, 1)]
  {
    var es := [Acquire(b, true, false), Release(b), Acquire(a, false, false)];
    var l0 := Some(Claim(a, 1));
    var l1 := Next(l0, es[0]);
    var l2 := Next(l1, es[1]);
    assert es[1..] == [Release(b), Acquire(a, false, false)] && es[1..][1..] == [Acquire(a, false, false)];
    assert l1 == Some(Claim(b, 2)) && l2 == None;
    assert Written(l2, [Acquire(a, false, false)]) == [Claim(a, 1)];
    assert Written(l1, es[1..]) == [Claim(a, 1)];
  }

  /** Ownership passes from a holder to somebody else only on explicit intent or over a dead holder. */
  lemma OnlyExplicitOrDeadIsDisplaced(lock: Option<Claim>, e: LockEvent)
    requires lock.Some?
    ensures Next(lock, e) != lock <==>
            (e.Acquire? && e.ownerId != lock.value.ownerId && (e.preempt || e.holderDead))
            || (e.Release? && e.ownerId == lock.value.ownerId)
    ensures Next(lock, e).Some? && Next(lock, e) != lock ==> Next(lock, e).value == Claim(e.ownerId, lock.value.epoch + 1)
  {
  }

  /** With the read and the rename as separate steps, as they are, two racing takeovers write the same epoch. */
  lemma RacingClaimsShareAnEpoch(s: State, i: nat, j: nat)
    requires s.lock.Some? && i in s.instances && j in s.instances && i != j
    requires s.instances[i].phase.Starting? && s.instances[j].phase.Starting?
    requires s.instances[i].ownerId != s.instances[j].ownerId
    requires s.lock.value.ownerId != s.instances[i].ownerId && s.lock.value.ownerId != s.instances[j].ownerId
    ensures var es := [AcquireRead(i, true, false), AcquireRead(j, true, false), AcquireWrite(i)];
            && Possible(s, es) && Enabled(Run(s, es), AcquireWrite(j))
            && Run(s, es).lock == Some(Claim(s.instances[i].ownerId, s.lock.value.epoch + 1))
            && Apply(Run(s, es), AcquireWrite(j)).lock == Some(Claim(s.instances[j].ownerId, s.lock.value.epoch + 1))
  {
    var es := [AcquireRead(i, true, false), AcquireRead(j, true, false), AcquireWrite(i)];
    var t1 := Apply(s, es[0]);
    var t2 := Apply(t1, es[1]);
    var t3 := Apply(t2, es[2]);
    RunOfThree(s, es[0], es[1], es[2]);
  }

  /** Reading and then renaming with nobody in between is acquiring, and checking and unlinking is releasing. */
  lemma {:induction false} ClaimStepsAcquire(s: State, i: nat, preempt: bool, holderDead: bool)
    requires i in s.instances && s.instances[i].phase.Starting?
    ensures var o, read := s.instances[i].ownerId, Apply(s, AcquireRead(i, preempt, holderDead));
            var after := if Enabled(read, AcquireWrite(i)) then Apply(read, AcquireWrite(i)) else read;
            && after.lock == Next(s.lock, Acquire(o, preempt, holderDead)) && after.log == s.log
            && (after.instances[i].phase.Loading? <==> Holds(after.lock, o))
            && (after.instances[i].phase.Retired? <==> !Holds(after.lock, o))
            && (Holds(after.lock, o) <==> s.lock.None? || s.lock.value.ownerId == o || preempt || holderDead)
  {
  }

  lemma {:induction false} ClaimStepsRelease(s: State, i: nat)
    requires Enabled(s, ReleaseCheck(i))
    ensures var o, checked := s.instances[i].ownerId, Apply(s, ReleaseCheck(i));
            var after := if Enabled(checked, Unlink(i)) then Apply(checked, Unlink(i)) else checked;
            && after.lock == Next(s.lock, Release(o)) && after.log == s.log && after.instances[i].phase.Retired?
            && (after.lock.None? <==> s.lock.None? || s.lock.value.ownerId == o)
  {
  }

  /** No other step touches the claim. */
  lemma {:induction false} OnlyClaimStepsTouchTheClaim(s: State, e: Event)
    requires Enabled(s, e) && !e.AcquireWrite? && !e.Unlink?
    ensures Apply(s, e).lock == s.lock
  {
  }
}

/**
 Compensation for setups that ended with resources outside: one attempt looks at each resource,
 deletes the instances the Gateway provably owns, and records what remains.
 */
module SetupCleanup {
  import opened Common
  import opened Registry
  import opened ConnectionSetups

  /** What the connection manager answers to a delete. */
  datatype Deletion = Deleted | Absent | Refused(error: string)

  /** Only a confirmed Evolution instance under the setup's own runtime name may be deleted. */
  predicate OwnedInstance(s: Setup, r: Resource) {
    r.kind == "evolution_instance" && r.identifier != "" && r.identifier == s.runtimeName && r.ownershipConfirmed
  }

  /** None when the resource is gone, else why it remains. */
  function CleanOne(s: Setup, r: Resource, answer: Deletion): Option<string> {
    if !OwnedInstance(s, r) then Some("manual_verification_required")
    else if answer.Refused? then Some(answer.error)
    else None
  }

  /** `answers(k)` is the manager's word on the k-th resource. */
  function Outcomes(s: Setup, answers: nat -> Deletion): seq<Option<string>> {
    seq(|s.resources|, k requires 0 <= k < |s.resources| => CleanOne(s, s.resources[k], answers(k)))
  }

  function FirstError(outcomes: seq<Option<string>>): Option<string> {
    if outcomes == [] then None
    else if Text(outcomes[0]) != "" then outcomes[0]
    else FirstError(outcomes[1..])
  }

  predicate NeedsCleanup(s: Setup) {
    (s.state == Expired || s.state == CleanupPending) && s.resources != []
  }

  function Attempts(s: Setup): nat {
    if s.cleanup.Some? then s.cleanup.value.attempts else 0
  }

  function RetryDelay(attempt: nat): nat {
    Min(3600, 30 * Pow2(Min(attempt, 6)))
  }

  /** The hour's cap never binds: the exponent stops first, at thirty-two minutes. */
  lemma RetryDelayIsUncapped(attempt: nat)
    ensures RetryDelay(attempt) == 30 * Pow2(Min(attempt, 6))
    ensures RetryDelay(attempt) == (if attempt < 6 then 30 * Pow2(attempt) else 1920)
    ensures RetryDelay(attempt) <= RetryDelay(attempt + 1) <= 1920
  {
    var n := Min(attempt, 6);
    assert Pow2(0) == 1 && Pow2(1) == 2 && Pow2(2) == 4 && Pow2(3) == 8 && Pow2(4) == 16 && Pow2(5) == 32 &&
      Pow2(6) == 64;
    assert n == 0 || n == 1 || n == 2 || n == 3 || n == 4 || n == 5 || n == 6;
  }

  function FinalState(s: Setup): State {
    if s.cleanupFinalState.Some? then s.cleanupFinalState.value else Expired
  }

  predicate AllGone(outcomes: seq<Option<string>>) {
    forall k :: 0 <= k < |outcomes| ==> outcomes[k].None?
  }

  lemma OneOutcomeMore(outcomes: seq<Option<string>>, outcome: Option<string>)
    ensures AllGone(outcomes + [outcome]) <==> AllGone(outcomes) && outcome.None?
  {
    var all := outcomes + [outcome];
    assert all[|outcomes|] == outcome;
    assert forall k :: 0 <= k < |outcomes| ==> all[k] == outcomes[k];
  }

  /** The write that ends an attempt on the record it started from. */
  function CleanupPatch(s: Setup, answers: nat -> Deletion, now: int): Patch {
    var outcomes, attempt := Outcomes(s, answers), Attempts(s) + 1;
    var stored := if s.cleanup.Some? then s.cleanup.value else Cleanup(0, 0, None, None, None);
    if !AllGone(outcomes) then
      Move(CleanupPending, now).(cleanupRequired := Some(true),
        cleanup := Some(Cleanup(attempt, now, Some(now + RetryDelay(attempt)), stored.completedAt,
          FirstError(outcomes))))
    else
      Move(FinalState(s), now).(cleanupRequired := Some(false), resources := Some([]),
        cleanup := Some(Cleanup(attempt, now, stored.nextAttemptAt, Some(now), None)))
  }

  class ConnectionSetupCleanupService {
    const registry: ConnectionRegistry
    const setups: ConnectionSetupService

    constructor (setups: ConnectionSetupService)
      ensures this.setups == setups && registry == setups.registry
    {
      this.setups := setups;
      this.registry := setups.registry;
    }

    /** Try each resource in turn; `remaining` are the ones that are still there. */
    method CleanResources(s: Setup, answers: nat -> Deletion)
      returns (outcomes: seq<Option<string>>, remaining: seq<Resource>)
      ensures outcomes == Outcomes(s, answers)
      ensures remaining == [] <==> AllGone(outcomes)
    {
      outcomes, remaining := [], [];
      for k := 0 to |s.resources|
        invariant outcomes == Outcomes(s, answers)[..k]
        invariant remaining == [] <==> AllGone(outcomes)
      {
        var outcome := CleanOne(s, s.resources[k], answers(k));
        OneOutcomeMore(outcomes, outcome);
        outcomes := outcomes + [outcome];
        if outcome.Some? {
          remaining := remaining + [s.resources[k]];
        }
      }
    }

    /** One attempt with nothing in between; `later` is the clock once the manager has answered. */
    method Clean(id: string, answers: nat -> Deletion, now: int, later: int) returns (answer: Result<Setup, SetupError>)
      requires Filed(registry.State()) && registry == setups.registry
      modifies registry
      ensures var (st, looked) := Perform(old(registry.State()), id, Raw, now);
        if looked.Ok? && looked.value.state in {Expired, CleanupPending} && looked.value.resources != [] then
          && registry.State() == UpdateSetup(st, id, CleanupPatch(looked.value, answers, later))
          && id in registry.setups && answer == Ok(registry.setups[id])
        else registry.State() == st && answer == looked
    {
      var record :- setups.Record(id, now);
      if record.state !in {Expired, CleanupPending} || record.resources == [] {
        return Ok(record);
      }
      var attempt := Attempts(record) + 1;
      var outcomes, remaining := CleanResources(record, answers);
      var stored := if record.cleanup.Some? then record.cleanup.value else Cleanup(0, 0, None, None, None);
      var p: Patch;
      if remaining != [] {
        p := Move(CleanupPending, later).(cleanupRequired := Some(true),
          cleanup := Some(Cleanup(attempt, later, Some(later + RetryDelay(attempt)), stored.completedAt,
            FirstError(outcomes))));
      } else {
        p := Move(FinalState(record), later).(cleanupRequired := Some(false), resources := Some([]),
          cleanup := Some(Cleanup(attempt, later, stored.nextAttemptAt, Some(later), None)));
      }
      assert p == CleanupPatch(record, answers, later);
      var updated := registry.UpdateSetupRecord(id, p);
      return Ok(if updated.Some? then updated.value else record);
    }
  }

  /** An attempt drops the resources exactly when every one of them was an owned instance now gone. */
  lemma CleanupCompletesExactly(s: Setup, answers: nat -> Deletion, now: int)
    ensures CleanupPatch(s, answers, now).resources == Some([]) <==>
      forall k :: 0 <= k < |s.resources| ==> OwnedInstance(s, s.resources[k]) && !answers(k).Refused?
    ensures CleanupPatch(s, answers, now).resources != Some([]) ==>
      Patched(s, CleanupPatch(s, answers, now)).resources == s.resources &&
        CleanupPatch(s, answers, now).state == Some(CleanupPending)
  {
    var outcomes := Outcomes(s, answers);
    forall k | 0 <= k < |s.resources|
      ensures outcomes[k].None? <==> OwnedInstance(s, s.resources[k]) && !answers(k).Refused?
    {
      assert outcomes[k] == CleanOne(s, s.resources[k], answers(k));
    }
  }
}

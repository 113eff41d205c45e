/** The drain's circuit breaker, read off the history of batches instead of two fields. */
module Breaker {
  import opened Prelude

  const THRESHOLD: nat := 3
  const COOLDOWN: Time := 60 * SECOND

  /** One drained batch: rows it tried to publish, and how many of them failed. A batch that was rolled
      back leaves no mark on the breaker. */
  datatype Batch = Batch(started: Time, endedAt: Time, committed: bool, attempts: nat, failures: nat) {
    predicate Neutral() { !committed || attempts == 0 }
    predicate AllFailed() { committed && attempts > 0 && failures == attempts }
    predicate Succeeded() { committed && attempts > 0 && failures != attempts }
  }

  /** The trailing run of all-failed batches, batches without a committed attempt left out. */
  function Trailing(log: seq<Batch>): nat {
    if log == [] then 0
    else
      var last, before := log[|log| - 1], log[..|log| - 1];
      if last.Neutral() then Trailing(before) else if last.AllFailed() then Trailing(before) + 1 else 0
  }

  /** When the trailing run reached the threshold. */
  function OpenedAt(log: seq<Batch>): Option<Time> {
    if Trailing(log) < THRESHOLD then None
    else
      var last, before := log[|log| - 1], log[..|log| - 1];
      if Trailing(before) < THRESHOLD then Some(last.endedAt) else OpenedAt(before)
  }

  predicate Allows(log: seq<Batch>, now: Time) {
    Trailing(log) < THRESHOLD || (OpenedAt(log).Some? && now - OpenedAt(log).value >= COOLDOWN)
  }

  /** Every batch of the log was started with the breaker's leave. */
  ghost predicate Disciplined(log: seq<Batch>) {
    forall i :: 0 <= i < |log| ==> Allows(log[..i], log[i].started)
  }

  /** The i-th batch is the one that opens the breaker. */
  predicate Opens(log: seq<Batch>, i: nat)
    requires i < |log|
  {
    log[i].AllFailed() && Trailing(log[..i]) == 2
  }

  lemma {:induction false} OpenedAtIsTheThirdFailure(log: seq<Batch>, i: nat)
    requires i < |log| && Opens(log, i)
    requires forall j :: i < j < |log| ==> !log[j].Succeeded()
    ensures Trailing(log) >= 3 && OpenedAt(log) == Some(log[i].endedAt)
    decreases |log|
  {
    var before := log[..|log| - 1];
    if i < |log| - 1 {
      assert before[..i] == log[..i];
      OpenedAtIsTheThirdFailure(before, i);
    }
  }

  /** The i-th batch opened the breaker, and none since had a success. */
  ghost predicate OpenSince(log: seq<Batch>, i: nat) {
    i < |log| && Opens(log, i) && forall j :: i < j < |log| ==> !log[j].Succeeded()
  }

  lemma {:induction false} OpenerExists(log: seq<Batch>) returns (i: nat)
    requires Trailing(log) >= 3
    ensures OpenSince(log, i)
    decreases |log|
  {
    var before := log[..|log| - 1];
    if Trailing(before) >= 3 {
      i := OpenerExists(before);
      assert log[..i] == before[..i] && log[i] == before[i];
      assert forall j :: i < j < |log| - 1 ==> log[j] == before[j];
    } else {
      i := |log| - 1;
    }
  }

  /** A batch may start exactly when the breaker was not opened since the last success, or a minute has passed since the third
      failure in a row opened it. */
  lemma AllowsIff(log: seq<Batch>, now: Time)
    ensures Allows(log, now) <==> forall i: nat :: OpenSince(log, i) ==> now - log[i].endedAt >= 60_000_000
  {
    forall i: nat | OpenSince(log, i) ensures Trailing(log) >= 3 && OpenedAt(log) == Some(log[i].endedAt) {
      OpenedAtIsTheThirdFailure(log, i);
    }
    if Trailing(log) >= 3 {
      var i := OpenerExists(log);
    }
    hide OpenSince, Trailing, OpenedAt;
  }

  /** No batch starts within the cooldown of the third failure in a row, up to the next batch with a success. */
  lemma NoBatchDuringCooldown(log: seq<Batch>, i: nat, j: nat)
    requires Disciplined(log) && i < j < |log| && Opens(log, i)
    requires forall k :: i < k < j ==> !log[k].Succeeded()
    ensures log[j].started >= log[i].endedAt + 60_000_000
  {
    assert log[..j][..i] == log[..i];
    OpenedAtIsTheThirdFailure(log[..j], i);
  }

  /** The cooldown runs once. After it, a further failed batch does not close the gate again: from then on the
      breaker lets a batch through at any later time, until a batch with a success resets it. */
  lemma CooldownIsNotRearmed(log: seq<Batch>, b: Batch, now: Time, later: Time)
    requires Trailing(log) >= 3 && Allows(log, now) && later >= now
    requires !b.Succeeded()
    ensures Trailing(log + [b]) >= 3 && Allows(log + [b], later)
  {
    assert (log + [b])[..|log|] == log;
  }

  lemma TrailingStep(log: seq<Batch>, b: Batch)
    ensures Trailing(log + [b]) == if b.Neutral() then Trailing(log) else if b.AllFailed() then Trailing(log) + 1 else 0
    ensures Trailing(log) >= THRESHOLD && Trailing(log + [b]) >= THRESHOLD ==> OpenedAt(log + [b]) == OpenedAt(log)
    ensures Trailing(log) < THRESHOLD && Trailing(log + [b]) >= THRESHOLD ==> OpenedAt(log + [b]) == Some(b.endedAt)
    ensures Disciplined(log) && Allows(log, b.started) ==> Disciplined(log + [b])
  {
    assert (log + [b])[..|log|] == log;
    if Disciplined(log) && Allows(log, b.started) {
      forall i | 0 <= i < |log + [b]| ensures Allows((log + [b])[..i], (log + [b])[i].started) {
        if i < |log| { assert (log + [b])[..i] == log[..i]; }
      }
    }
  }

  /** The length of the trailing run: its last `Trailing(log)` batches with a committed attempt all failed, and
      the one before them, if any, had a success. */
  lemma {:induction false} TrailingMeansARun(log: seq<Batch>)
    ensures Trailing(log) <= |Tried(log)|
    ensures forall k :: |Tried(log)| - Trailing(log) <= k < |Tried(log)| ==> Tried(log)[k].failures == Tried(log)[k].attempts
    ensures Trailing(log) < |Tried(log)| ==>
      var b := Tried(log)[|Tried(log)| - Trailing(log) - 1];
      b.failures != b.attempts
    decreases |log|
  {
    if log != [] {
      TrailingMeansARun(log[..|log| - 1]);
    }
  }

  /** The batches the breaker counts. */
  function Tried(log: seq<Batch>): (tried: seq<Batch>)
    ensures forall b :: b in tried <==> b in log && b.committed && b.attempts > 0
  {
    if log == [] then []
    else
      var last, before := log[|log| - 1], log[..|log| - 1];
      if last.Neutral() then Tried(before) else Tried(before) + [last]
  }

  /** Only a batch with a success brings an open breaker back below the threshold. */
  lemma OnlySuccessCloses(log: seq<Batch>, i: nat)
    requires i < |log| && Trailing(log[..i]) >= 3 && Trailing(log[..i + 1]) < 3
    ensures log[i].Succeeded()
  {
    assert log[..i + 1][..i] == log[..i];
  }
}

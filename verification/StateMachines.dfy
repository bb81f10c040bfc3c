/** Invoice lifecycle: packages/payments/src/invoice-state-machine.ts. */
module InvoiceStateMachine {

  datatype Status =
    | Created | Pending | Detected | Confirming
    | Paid | Underpaid | Overpaid | Expired | Failed | Cancelled | Refunded

  function Transitions(from: Status): set<Status> {
    match from
    case Created => {Pending}
    case Pending => {Detected, Expired, Cancelled}
    case Detected => {Confirming, Failed}
    case Confirming => {Paid, Underpaid, Overpaid, Failed}
    case Underpaid => {Refunded}
    case Overpaid => {Refunded}
    case Paid => {Refunded}
    case Expired => {}
    case Failed => {}
    case Cancelled => {}
    case Refunded => {}
  }

  predicate CanTransition(from: Status, to: Status) {
    to in Transitions(from)
  }

  /** How far along its life an invoice is. */
  function Rank(s: Status): nat {
    match s
    case Created => 0
    case Pending => 1
    case Detected => 2
    case Confirming => 3
    case Refunded => 5
    case _ => 4
  }

  /** An outcome that the merchant is told about. */
  predicate Settled(s: Status) {
    s in {Paid, Underpaid, Overpaid, Expired}
  }

  /** The table read backwards: from where each status can be entered. */
  lemma Entries(from: Status)
    ensures !CanTransition(from, Created)
    ensures CanTransition(from, Pending) <==> from == Created
    ensures CanTransition(from, Detected) <==> from == Pending
    ensures CanTransition(from, Expired) <==> from == Pending
    ensures CanTransition(from, Cancelled) <==> from == Pending
    ensures CanTransition(from, Confirming) <==> from == Detected
    ensures CanTransition(from, Failed) <==> from == Detected || from == Confirming
    ensures CanTransition(from, Paid) <==> from == Confirming
    ensures CanTransition(from, Underpaid) <==> from == Confirming
    ensures CanTransition(from, Overpaid) <==> from == Confirming
    ensures CanTransition(from, Refunded) <==> from in {Paid, Underpaid, Overpaid}
  {
  }

  ghost predicate IsPath(path: seq<Status>) {
    forall i :: 0 <= i < |path| - 1 ==> CanTransition(path[i], path[i + 1])
  }

  /** Along any walk over the table the rank climbs at every step, so no status
      is ever revisited and a walk that starts at Pending has at most five nodes. */
  lemma {:induction false} PathsClimb(path: seq<Status>)
    requires IsPath(path) && |path| > 0
    ensures Rank(path[|path| - 1]) >= Rank(path[0]) + |path| - 1
    ensures |path| <= 6 - Rank(path[0])
  {
    if |path| > 1 {
      var init := path[..|path| - 1];
      assert forall i :: 0 <= i < |init| - 1 ==> CanTransition(init[i], init[i + 1]) by {
        forall i | 0 <= i < |init| - 1 ensures CanTransition(init[i], init[i + 1]) {
          assert CanTransition(path[i], path[i + 1]);
        }
      }
      PathsClimb(init);
      var n := |path| - 2;
      assert CanTransition(path[n], path[n + 1]);
    }
  }

  /** From Pending there is exactly one way to be Paid, Underpaid or Overpaid. */
  lemma {:induction false} OnlyWayToAnOutcome(path: seq<Status>)
    requires IsPath(path) && |path| > 0 && path[0] == Pending
    requires path[|path| - 1] in {Paid, Underpaid, Overpaid}
    ensures path == [Pending, Detected, Confirming, path[|path| - 1]]
  {
    PathsClimb(path);
    assert |path| > 1 && CanTransition(path[0], path[1]);
    assert CanTransition(path[|path| - 2], path[|path| - 1]);
    assert |path| > 2 && CanTransition(path[1], path[2]);
  }
}

/** Lifecycle of one payment: packages/payments/src/payment-state-machine.ts. */
module PaymentStateMachine {

  datatype Status =
    | Pending | Detected | Confirming | Confirmed
    | Underpaid | Overpaid | ReorgDetected | Failed

  function Transitions(from: Status): set<Status> {
    match from
    case Pending => {Detected, Failed}
    case Detected => {Confirming, Failed}
    case Confirming => {Confirmed, Underpaid, Overpaid, ReorgDetected, Failed}
    case ReorgDetected => {Confirming, Failed}
    case Confirmed => {}
    case Underpaid => {}
    case Overpaid => {}
    case Failed => {}
  }

  predicate CanTransition(from: Status, to: Status) {
    to in Transitions(from)
  }

  /** The table read backwards: from where each status can be entered. */
  lemma Entries(from: Status)
    ensures !CanTransition(from, Pending)
    ensures CanTransition(from, Detected) <==> from == Pending
    ensures CanTransition(from, Confirming) <==> from == Detected || from == ReorgDetected
    ensures CanTransition(from, ReorgDetected) <==> from == Confirming
    ensures CanTransition(from, Confirmed) <==> from == Confirming
    ensures CanTransition(from, Underpaid) <==> from == Confirming
    ensures CanTransition(from, Overpaid) <==> from == Confirming
    ensures CanTransition(from, Failed) <==> from in {Pending, Detected, Confirming, ReorgDetected}
  {
  }

  /** No payment that has an outcome ever changes again, and the only way back is from a
      suspected reorg to confirming. */
  lemma OutcomesAreFinal(from: Status, to: Status)
    requires CanTransition(from, to)
    ensures from !in {Confirmed, Underpaid, Overpaid, Failed}
    ensures CanTransition(to, from) <==> {from, to} == {Confirming, ReorgDetected}
  {
  }
}

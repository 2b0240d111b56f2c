/** Properties of the ticket ledger that relate several calls or several stores. */
module LedgerProperties {
  import opened Wrappers
  import opened Ledger

  // ---------------------------------------------------------------------
  // Validation and error wrapping

  /** A request that fails a gate is answered without looking at the store:
      the answer is the same on every store, it is `internal` with the gate's
      message, and (by the handlers' contracts) nothing is written. */
  lemma RejectedBeforeStoreAccess(users1: map<string, Account>, users2: map<string, Account>, req: Request, committed: bool)
    requires AddTicketsGate(req).Some?
    ensures AddTicketsResult(users1, req, committed) == AddTicketsResult(users2, req, committed)
    ensures AddTicketsResult(users1, req, committed) == Err(HttpsError(Internal, AddTicketsGate(req).value.message))
  {
  }

  /** Every error `addTickets` throws carries the code `internal`, including
      the `invalid-argument` and `aborted` ones raised inside its `try` block;
      the call succeeds exactly when both gates pass and the transaction commits. */
  lemma AddTicketsOutcomes(users: map<string, Account>, req: Request, committed: bool)
    ensures var r := AddTicketsResult(users, req, committed);
      && (r.Err? ==> r.error.code == Internal)
      && (r.Ok? <==> req.playerId.Str? && req.playerId.s != [] && req.amount.Number? && req.amount.n >= 0 && committed)
      && (r.Err? && AddTicketsGate(req).None? ==> r.error.message == TransactionFailedMessage)
  {
  }

  /** `sendTicketsToId` differs from `addTickets` only in rejecting a zero amount
      and in its fixed message. */
  lemma SendTicketsOutcomes(users: map<string, Account>, req: Request, committed: bool)
    ensures var r := SendTicketsResult(users, req, committed);
      && (r.Err? ==> r.error.code == Internal)
      && (r.Ok? <==> req.playerId.Str? && req.playerId.s != [] && req.amount.Number? && req.amount.n > 0 && committed)
      && (r.Ok? ==> r.envelope.message == TicketsSentMessage)
      && (r.Err? && SendTicketsGate(req).None? ==> r.error.message == TransactionFailedMessage)
  {
  }

  /** The `sendTicketsToId` counterpart of `RejectedBeforeStoreAccess`. */
  lemma SendRejectedBeforeStoreAccess(users1: map<string, Account>, users2: map<string, Account>, req: Request, committed: bool)
    requires SendTicketsGate(req).Some?
    ensures SendTicketsResult(users1, req, committed) == SendTicketsResult(users2, req, committed)
    ensures SendTicketsResult(users1, req, committed) == Err(HttpsError(Internal, SendTicketsGate(req).value.message))
  {
  }

  /** A zero amount: rejected by `sendTicketsToId`, accepted by `addTickets`,
      which then leaves the store and the record unchanged and reports no pass. */
  lemma ZeroAmount(users: map<string, Account>, playerId: string, committed: bool)
    requires playerId != [] && WellFormed(users) && playerId in users
    ensures SendTicketsResult(users, Request(Str(playerId), Number(0)), committed)
              == Err(HttpsError(Internal, PositiveAmountMessage))
    ensures committed ==>
              AddTicketsResult(users, Request(Str(playerId), Number(0)), committed)
                == Ok(Envelope(true, TicketsAddedMessage, users[playerId]))
    ensures Credit(users, playerId, 0) == users
  {
  }

  // ---------------------------------------------------------------------
  // The store invariant

  /** A credit of a non-negative amount keeps every record well formed; no
      other key changes. */
  lemma CreditPreservesWellFormed(users: map<string, Account>, playerId: string, amount: int)
    requires WellFormed(users) && amount >= 0
    ensures WellFormed(Credit(users, playerId, amount))
  {
    var r := Credit(users, playerId, amount);
    forall k | k in r
      ensures r[k].playerId == k && 0 <= r[k].tickets < TicketsPerPass && r[k].passes >= 0
    {
      if k == playerId {
        assert Base(Lookup(users, playerId), playerId).passes >= 0;
      }
    }
  }

  /** `initializeUser` keeps every record well formed. */
  lemma InitializePreservesWellFormed(users: map<string, Account>, playerId: string)
    requires WellFormed(users)
    ensures WellFormed(Initialize(users, playerId))
  {
  }

  /** A second `initializeUser` for the same id leaves the store as the first
      one did and returns the record the first one created or found. */
  lemma InitializeUserIdempotent(users: map<string, Account>, req: Request)
    requires InitializeUserResult(users, req).Ok?
    ensures Initialize(Initialize(users, req.playerId.s), req.playerId.s) == Initialize(users, req.playerId.s)
    ensures InitializeUserResult(Initialize(users, req.playerId.s), req).envelope.user
              == InitializeUserResult(users, req).envelope.user
  {
  }

  // ---------------------------------------------------------------------
  // A sequence of committed credits to one fresh account

  function Sum(amounts: seq<int>): int {
    if amounts == [] then 0 else Sum(amounts[..|amounts| - 1]) + amounts[|amounts| - 1]
  }

  /** The record left by committing `amounts` one after another, starting from
      an absent record. */
  function Replay(playerId: string, amounts: seq<int>): Account {
    if amounts == [] then Base(None, playerId)
    else Apply(Some(Replay(playerId, amounts[..|amounts| - 1])), playerId, amounts[|amounts| - 1])
  }

  /** No credit is lost: the record is worth exactly the sum of the amounts. */
  lemma {:induction false} ReplayWorth(playerId: string, amounts: seq<int>)
    ensures Worth(Replay(playerId, amounts)) == Sum(amounts)
    ensures Replay(playerId, amounts).playerId == playerId
  {
    if amounts != [] {
      ReplayWorth(playerId, amounts[..|amounts| - 1]);
    }
  }

  /** The rollover invariant: after non-negative credits the record holds the
      remainder of the total modulo 1000 and the quotient as passes. */
  lemma {:induction false} ReplayRollover(playerId: string, amounts: seq<int>)
    requires forall i :: 0 <= i < |amounts| ==> amounts[i] >= 0
    ensures 0 <= Replay(playerId, amounts).tickets < TicketsPerPass
    ensures Replay(playerId, amounts).tickets == Sum(amounts) % TicketsPerPass
    ensures Replay(playerId, amounts).passes == Sum(amounts) / TicketsPerPass
  {
    if amounts != [] {
      ReplayRollover(playerId, amounts[..|amounts| - 1]);
    }
    ReplayWorth(playerId, amounts);
    var a := Replay(playerId, amounts);
    DivModUnique(Sum(amounts), a.passes, a.tickets);
  }

  lemma DivModUnique(n: int, q: int, r: int)
    requires 0 <= r < TicketsPerPass && n == TicketsPerPass * q + r
    ensures q == n / TicketsPerPass && r == n % TicketsPerPass
  {
  }

  // ---------------------------------------------------------------------
  // The pass-earned message

  /** Whether a credit really converted tickets into a pass. */
  predicate PassGained(before: Account, amount: int) {
    Apply(Some(before), before.playerId, amount).passes > before.passes
  }

  /** Whether `addTickets` tells the player that a pass was earned. */
  predicate ReportsPass(before: Account, amount: int) {
    AddTicketsMessage(amount, Apply(Some(before), before.playerId, amount)) == PassEarnedMessage
  }

  /** A zero credit never reports a pass. */
  lemma ZeroAmountReportsNoPass(committed: Account)
    ensures AddTicketsMessage(0, committed) == TicketsAddedMessage
  {
  }

  /** The message is computed from the remainder left after the roll-over, so
      it can miss a pass that was gained: 999 tickets plus 1 gives a pass and
      0 tickets, and 0 + 1 < 1000. */
  lemma MessageMissesGainedPass()
    ensures var before := Account("p", 999, 0);
      && PassGained(before, 1)
      && !ReportsPass(before, 1)
  {
  }

  /** It can also report a pass that was not gained: 0 tickets plus 999 stays
      below 1000, yet 999 + 999 >= 1000. */
  lemma MessageReportsUngainedPass()
    ensures var before := Account("p", 0, 0);
      && !PassGained(before, 999)
      && ReportsPass(before, 999)
  {
  }

  /** The message and the real outcome agree whenever the amount alone is
      worth a pass, for any well-formed record. */
  lemma MessageExactForLargeAmounts(before: Account, amount: int)
    requires 0 <= before.tickets < TicketsPerPass && amount >= TicketsPerPass
    ensures PassGained(before, amount)
    ensures ReportsPass(before, amount)
  {
  }

  /** For a well-formed record and an amount under 1000 the message is
      decided by the old remainder plus twice the amount: it must reach 1000
      when no pass was gained, and 2000 when one was. */
  lemma MessageForSmallAmounts(before: Account, amount: int)
    requires 0 <= before.tickets < TicketsPerPass && 0 < amount < TicketsPerPass
    ensures PassGained(before, amount) <==> before.tickets + amount >= TicketsPerPass
    ensures !PassGained(before, amount) ==>
      (ReportsPass(before, amount) <==> before.tickets + 2 * amount >= TicketsPerPass)
    ensures PassGained(before, amount) ==>
      (ReportsPass(before, amount) <==> before.tickets + 2 * amount >= 2 * TicketsPerPass)
  {
  }

  /** The boundary cases of the rollover rule. */
  lemma RolloverBoundaries(playerId: string)
    ensures Apply(Some(Account(playerId, 999, 0)), playerId, 1) == Account(playerId, 0, 1)
    ensures Apply(Some(Account(playerId, 999, 0)), playerId, 2001) == Account(playerId, 0, 3)
    ensures Apply(None, playerId, 999) == Account(playerId, 999, 0)
  {
  }
}

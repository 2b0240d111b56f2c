/**
 * The ticket ledger behind the callable functions `addTickets`,
 * `sendTicketsToId` and `initializeUser` (functions/index.js).
 *
 * The database is a map from player id to account.  The platform
 * transaction is one atomic application of the mutation callback whose
 * `committed` outcome is supplied by the caller; its retry loop and the
 * concurrency it resolves are not modelled.
 */
module Ledger {
  import opened Wrappers

  /** Tickets that roll over into one pass. */
  const TicketsPerPass: int := 1000

  /** One record under `users/<playerId>`. */
  datatype Account = Account(playerId: string, tickets: int, passes: int)

  /** A JavaScript value as it may arrive in a callable payload.
      Numbers are integers only: fractions and NaN are not modelled. */
  datatype JsValue = Undefined | Null | Bool(b: bool) | Number(n: int) | Str(s: string)

  /** The callable payload `{ playerId, amount }`. */
  datatype Request = Request(playerId: JsValue, amount: JsValue)

  datatype ErrorCode = InvalidArgument | Aborted | Internal

  /** `functions.https.HttpsError(code, message)`. */
  datatype HttpsError = HttpsError(code: ErrorCode, message: string)

  /** The `{ success, message, user }` object a handler returns. */
  datatype Envelope = Envelope(success: bool, message: string, user: Account)

  /** What a call ends with: the returned envelope or the thrown error. */
  datatype Outcome = Ok(envelope: Envelope) | Err(error: HttpsError)

  const PlayerIdMessage := "Player ID is required and must be a string"
  const NonNegativeAmountMessage := "Amount must be a non-negative number"
  const PositiveAmountMessage := "Amount must be a positive number"
  const TransactionFailedMessage := "Transaction failed"
  const PassEarnedMessage := "Tickets agregados y pase ganado!"
  const TicketsAddedMessage := "Tickets agregados correctamente"
  const TicketsSentMessage := "Tickets enviados correctamente"
  const UserInitializedMessage := "Usuario inicializado correctamente"
  const UserExistsMessage := "Usuario ya existe"

  // ---------------------------------------------------------------------
  // Input validation

  /** JavaScript falsiness of a value (`!v`). */
  predicate Falsy(v: JsValue) {
    match v
    case Undefined => true
    case Null => true
    case Bool(b) => !b
    case Number(n) => n == 0
    case Str(s) => s == []
  }

  /** The gate `!playerId || typeof playerId !== 'string'`: only a non-empty
      string passes, and no length rule beyond that is applied. */
  function CheckPlayerId(v: JsValue): (r: Option<HttpsError>)
    ensures r.None? <==> v.Str? && v.s != []
    ensures r.Some? ==> r.value == HttpsError(InvalidArgument, PlayerIdMessage)
  {
    if Falsy(v) || !v.Str? then Some(HttpsError(InvalidArgument, PlayerIdMessage)) else None
  }

  /** `addTickets`' gate `typeof amount !== 'number' || amount < 0`. */
  function CheckNonNegativeAmount(v: JsValue): (r: Option<HttpsError>)
    ensures r.None? <==> v.Number? && v.n >= 0
    ensures r.Some? ==> r.value == HttpsError(InvalidArgument, NonNegativeAmountMessage)
  {
    if !v.Number? || v.n < 0 then Some(HttpsError(InvalidArgument, NonNegativeAmountMessage)) else None
  }

  /** `sendTicketsToId`' gate `typeof amount !== 'number' || amount <= 0`. */
  function CheckPositiveAmount(v: JsValue): (r: Option<HttpsError>)
    ensures r.None? <==> v.Number? && v.n > 0
    ensures r.Some? ==> r.value == HttpsError(InvalidArgument, PositiveAmountMessage)
  {
    if !v.Number? || v.n <= 0 then Some(HttpsError(InvalidArgument, PositiveAmountMessage)) else None
  }

  /** The first failing gate of `addTickets`, in the order the handler checks them. */
  function AddTicketsGate(req: Request): (r: Option<HttpsError>)
    ensures r.None? <==> req.playerId.Str? && req.playerId.s != [] && req.amount.Number? && req.amount.n >= 0
    ensures !(req.playerId.Str? && req.playerId.s != []) ==> r == Some(HttpsError(InvalidArgument, PlayerIdMessage))
    ensures req.playerId.Str? && req.playerId.s != [] && r.Some? ==>
              r.value == HttpsError(InvalidArgument, NonNegativeAmountMessage)
  {
    if CheckPlayerId(req.playerId).Some? then CheckPlayerId(req.playerId)
    else CheckNonNegativeAmount(req.amount)
  }

  /** The first failing gate of `sendTicketsToId`. */
  function SendTicketsGate(req: Request): (r: Option<HttpsError>)
    ensures r.None? <==> req.playerId.Str? && req.playerId.s != [] && req.amount.Number? && req.amount.n > 0
    ensures !(req.playerId.Str? && req.playerId.s != []) ==> r == Some(HttpsError(InvalidArgument, PlayerIdMessage))
    ensures req.playerId.Str? && req.playerId.s != [] && r.Some? ==>
              r.value == HttpsError(InvalidArgument, PositiveAmountMessage)
  {
    if CheckPlayerId(req.playerId).Some? then CheckPlayerId(req.playerId)
    else CheckPositiveAmount(req.amount)
  }

  // ---------------------------------------------------------------------
  // The transaction mutation

  /** The record the mutation starts from: the stored one, or a zero record. */
  function Base(current: Option<Account>, playerId: string): Account {
    current.GetOr(Account(playerId, 0, 0))
  }

  /** What a record is worth in tickets. */
  function Worth(a: Account): int {
    TicketsPerPass * a.passes + a.tickets
  }

  /** The transaction callback shared by `addTickets` and `sendTicketsToId`:
      add `amount` tickets, roll every full 1000 over into passes and stamp the
      record with the key's player id. */
  function Apply(current: Option<Account>, playerId: string, amount: int): (r: Account)
    ensures r.playerId == playerId
    ensures Worth(r) == Worth(Base(current, playerId)) + amount
    ensures Base(current, playerId).tickets >= 0 && amount >= 0 ==>
              0 <= r.tickets < TicketsPerPass && r.passes >= Base(current, playerId).passes
    ensures Base(current, playerId).tickets + amount < TicketsPerPass ==>
              r.passes == Base(current, playerId).passes && r.tickets == Base(current, playerId).tickets + amount
  {
    var user := Base(current, playerId);
    var tickets := user.tickets + amount;
    if tickets >= TicketsPerPass then
      Account(playerId, tickets % TicketsPerPass, user.passes + tickets / TicketsPerPass)
    else
      Account(playerId, tickets, user.passes)
  }

  /** `addTickets`' message choice, computed from the committed record: it
      reports a pass when `Math.floor((tickets + amount) / 1000)` is positive,
      where `tickets` is the remainder left after the roll-over. */
  function AddTicketsMessage(amount: int, committed: Account): (m: string)
    ensures m == PassEarnedMessage <==> amount > 0 && committed.tickets + amount >= TicketsPerPass
    ensures m != PassEarnedMessage ==> m == TicketsAddedMessage
  {
    if amount > 0 && committed.passes > committed.passes - (committed.tickets + amount) / TicketsPerPass then
      PassEarnedMessage
    else
      TicketsAddedMessage
  }

  // ---------------------------------------------------------------------
  // The store as a value: what each handler leaves behind

  function Lookup(users: map<string, Account>, playerId: string): Option<Account> {
    if playerId in users then Some(users[playerId]) else None
  }

  /** The store after a committed mutation for `playerId`. */
  function Credit(users: map<string, Account>, playerId: string, amount: int): (r: map<string, Account>)
    ensures r.Keys == users.Keys + {playerId}
    ensures forall k :: k in users && k != playerId ==> r[k] == users[k]
    ensures r[playerId].playerId == playerId
    ensures Worth(r[playerId]) == Worth(Base(Lookup(users, playerId), playerId)) + amount
  {
    users[playerId := Apply(Lookup(users, playerId), playerId, amount)]
  }

  /** The store after `initializeUser`: a zero record appears only for an absent key. */
  function Initialize(users: map<string, Account>, playerId: string): (r: map<string, Account>)
    ensures playerId in users ==> r == users
    ensures playerId !in users ==> r == users[playerId := Account(playerId, 0, 0)]
  {
    if playerId in users then users else users[playerId := Account(playerId, 0, 0)]
  }

  /** Every record is stored under its own player id and holds a ticket
      remainder in [0, 1000) and a non-negative pass count. */
  ghost predicate WellFormed(users: map<string, Account>) {
    forall k :: k in users ==>
      users[k].playerId == k && 0 <= users[k].tickets < TicketsPerPass && users[k].passes >= 0
  }

  /** The `catch` block: every error thrown inside `try` reaches the caller as
      `internal`, with the original message. */
  function Rewrap(inner: Outcome): (r: Outcome)
    ensures r.Ok? <==> inner.Ok?
    ensures r.Ok? ==> r == inner
    ensures r.Err? ==> r.error.code == Internal && r.error.message == inner.error.message
  {
    match inner
    case Ok(_) => inner
    case Err(e) => Err(HttpsError(Internal, e.message))
  }

  /** What `addTickets` returns or throws on a store `users`. */
  function AddTicketsResult(users: map<string, Account>, req: Request, committed: bool): (r: Outcome)
    ensures r.Err? ==> r.error.code == Internal
    ensures r.Ok? ==> req.playerId.Str? && req.amount.Number? && committed && r.envelope.success
                      && r.envelope.user == Credit(users, req.playerId.s, req.amount.n)[req.playerId.s]
    ensures r.Ok? ==> (r.envelope.message == PassEarnedMessage || r.envelope.message == TicketsAddedMessage)
  {
    Rewrap(
      if AddTicketsGate(req).Some? then Err(AddTicketsGate(req).value)
      else if !committed then Err(HttpsError(Aborted, TransactionFailedMessage))
      else
        var user := Apply(Lookup(users, req.playerId.s), req.playerId.s, req.amount.n);
        Ok(Envelope(true, AddTicketsMessage(req.amount.n, user), user)))
  }

  /** What `sendTicketsToId` returns or throws on a store `users`. */
  function SendTicketsResult(users: map<string, Account>, req: Request, committed: bool): (r: Outcome)
    ensures r.Err? ==> r.error.code == Internal
    ensures r.Ok? ==> req.playerId.Str? && req.amount.Number? && committed && r.envelope.success
                      && r.envelope.user == Credit(users, req.playerId.s, req.amount.n)[req.playerId.s]
  {
    Rewrap(
      if SendTicketsGate(req).Some? then Err(SendTicketsGate(req).value)
      else if !committed then Err(HttpsError(Aborted, TransactionFailedMessage))
      else
        var user := Apply(Lookup(users, req.playerId.s), req.playerId.s, req.amount.n);
        Ok(Envelope(true, TicketsSentMessage, user)))
  }

  /** What `initializeUser` returns or throws on a store `users`. */
  function InitializeUserResult(users: map<string, Account>, req: Request): (r: Outcome)
    ensures r.Err? <==> !(req.playerId.Str? && req.playerId.s != [])
    ensures r.Err? ==> r.error == HttpsError(Internal, PlayerIdMessage)
    ensures r.Ok? ==> r.envelope.success && r.envelope.user == Initialize(users, req.playerId.s)[req.playerId.s]
    ensures r.Ok? ==> (r.envelope.message == UserInitializedMessage <==> req.playerId.s !in users)
  {
    Rewrap(
      if CheckPlayerId(req.playerId).Some? then Err(CheckPlayerId(req.playerId).value)
      else if req.playerId.s !in users then
        Ok(Envelope(true, UserInitializedMessage, Account(req.playerId.s, 0, 0)))
      else
        Ok(Envelope(true, UserExistsMessage, users[req.playerId.s])))
  }

  // ---------------------------------------------------------------------
  // The handlers over the database

  class Database {
    /** The `users` subtree. */
    var users: map<string, Account>

    constructor ()
      ensures users == map[]
    {
      users := map[];
    }

    /** `exports.addTickets`. */
    method AddTickets(req: Request, committed: bool) returns (r: Outcome)
      modifies this
      ensures r == AddTicketsResult(old(users), req, committed)
      ensures r.Ok? ==> users == Credit(old(users), req.playerId.s, req.amount.n)
                        && r.envelope.user == users[req.playerId.s]
      ensures r.Err? ==> users == old(users)
    {
      var inner: Outcome;
      var gate := AddTicketsGate(req);
      if gate.Some? {
        inner := Err(gate.value);
      } else {
        var playerId, amount := req.playerId.s, req.amount.n;
        var updated := Apply(Lookup(users, playerId), playerId, amount);
        if !committed {
          inner := Err(HttpsError(Aborted, TransactionFailedMessage));
        } else {
          users := users[playerId := updated];
          var userData := users[playerId];
          inner := Ok(Envelope(true, AddTicketsMessage(amount, userData), userData));
        }
      }
      r := Rewrap(inner);
    }

    /** `exports.sendTicketsToId`. */
    method SendTicketsToId(req: Request, committed: bool) returns (r: Outcome)
      modifies this
      ensures r == SendTicketsResult(old(users), req, committed)
      ensures r.Ok? ==> users == Credit(old(users), req.playerId.s, req.amount.n)
                        && r.envelope.user == users[req.playerId.s]
      ensures r.Err? ==> users == old(users)
    {
      var inner: Outcome;
      var gate := SendTicketsGate(req);
      if gate.Some? {
        inner := Err(gate.value);
      } else {
        var playerId, amount := req.playerId.s, req.amount.n;
        var updated := Apply(Lookup(users, playerId), playerId, amount);
        if !committed {
          inner := Err(HttpsError(Aborted, TransactionFailedMessage));
        } else {
          users := users[playerId := updated];
          inner := Ok(Envelope(true, TicketsSentMessage, users[playerId]));
        }
      }
      r := Rewrap(inner);
    }

    /** `exports.initializeUser`: read once, write a zero record when absent. */
    method InitializeUser(req: Request) returns (r: Outcome)
      modifies this
      ensures r == InitializeUserResult(old(users), req)
      ensures r.Ok? ==> users == Initialize(old(users), req.playerId.s)
                        && r.envelope.user == users[req.playerId.s]
      ensures r.Err? ==> users == old(users)
    {
      var inner: Outcome;
      var gate := CheckPlayerId(req.playerId);
      if gate.Some? {
        inner := Err(gate.value);
      } else {
        var playerId := req.playerId.s;
        var snapshot := Lookup(users, playerId);
        if snapshot.None? {
          var newUser := Account(playerId, 0, 0);
          users := users[playerId := newUser];
          inner := Ok(Envelope(true, UserInitializedMessage, newUser));
        } else {
          inner := Ok(Envelope(true, UserExistsMessage, snapshot.value));
        }
      }
      r := Rewrap(inner);
    }
  }
}

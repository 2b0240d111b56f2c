/**
 * The deterministic parts of the JavaScript bridge (WebAppInterface.kt):
 * the leaderboard and winners lists built from database snapshots, the
 * escaping applied before text is spliced into JavaScript, the private
 * message dialog, the user display and the guards in front of the callable
 * functions.  Listeners, coroutines, `evaluateJavascript` and the JSON
 * serialiser are not modelled; a serialised list is an opaque string.
 */
module WebAppInterface {
  import opened Wrappers
  import opened Ordering
  import opened JsText
  import Ledger
  import MainActivity

  /** `WebAppInterface.UserData`. */
  datatype UserData = UserData(playerId: string, tickets: int, passes: int)

  /** `WebAppInterface.WinnerData`. */
  datatype WinnerData = WinnerData(winnerId: string, prize: string, timestamp: int, date: Option<string>)

  /** A child of a snapshot: its key (`child.key`, which may be null) and what
      `getValue` deserialised from it (null when it could not). */
  datatype Child<T> = Child(key: Option<string>, value: Option<T>)

  // ---------------------------------------------------------------------
  // Leaderboard and winners

  /** Passes descending, then tickets descending. */
  function LeaderboardRank(u: UserData): Rank {
    Rank(u.passes, u.tickets)
  }

  /** Timestamp descending. */
  function WinnerRank(w: WinnerData): Rank {
    Rank(w.timestamp, 0)
  }

  /** `child.getValue(UserData)?.copy(playerId = child.key ?: "")`. */
  function ParseUser(child: Child<UserData>): (r: Option<UserData>)
    ensures r.Some? <==> child.value.Some?
    ensures r.Some? ==> && r.value.playerId == child.key.GetOr("")
                        && r.value.tickets == child.value.value.tickets
                        && r.value.passes == child.value.value.passes
  {
    if child.value.Some? then Some(child.value.value.(playerId := child.key.GetOr(""))) else None
  }

  /** `child.getValue(WinnerData)`. */
  function ParseWinner(child: Child<WinnerData>): Option<WinnerData> {
    child.value
  }

  /** The records that parsed to non-null, in snapshot order. */
  function Collect<T>(children: seq<Child<T>>, parse: Child<T> -> Option<T>): seq<T> {
    if children == [] then []
    else
      var last := parse(children[|children| - 1]);
      Collect(children[..|children| - 1], parse) + (if last.Some? then [last.value] else [])
  }

  /** A record is collected exactly when some child parses to it. */
  lemma {:induction false} CollectContents<T>(children: seq<Child<T>>, parse: Child<T> -> Option<T>, y: T)
    ensures y in Collect(children, parse) <==> exists i :: 0 <= i < |children| && parse(children[i]) == Some(y)
  {
    if children != [] {
      var n := |children| - 1;
      CollectContents(children[..n], parse, y);
      if exists i :: 0 <= i < |children| && parse(children[i]) == Some(y) {
        var i :| 0 <= i < |children| && parse(children[i]) == Some(y);
        if i < n {
          assert children[..n][i] == children[i];
        }
      }
      if exists i :: 0 <= i < n && parse(children[..n][i]) == Some(y) {
        var i :| 0 <= i < n && parse(children[..n][i]) == Some(y);
        assert children[i] == children[..n][i];
      }
    }
  }

  /** The `onDataChange` of the leaderboard listener: collect every user that
      parsed, re-keyed by its child key, then sort by passes and tickets. */
  method BuildLeaderboard(children: seq<Child<UserData>>) returns (users: seq<UserData>)
    ensures forall u :: u in users <==>
      exists i :: 0 <= i < |children| && children[i].value.Some?
                  && u == children[i].value.value.(playerId := children[i].key.GetOr(""))
    ensures multiset(users) == multiset(Collect(children, ParseUser))
    ensures SortedDesc(users, LeaderboardRank)
    ensures forall k :: WithRank(users, LeaderboardRank, k) == WithRank(Collect(children, ParseUser), LeaderboardRank, k)
  {
    var collected: seq<UserData> := [];
    var i := 0;
    while i < |children|
      invariant 0 <= i <= |children|
      invariant collected == Collect(children[..i], ParseUser)
    {
      var child := children[i];
      var user := if child.value.Some? then Some(child.value.value.(playerId := child.key.GetOr(""))) else None;
      if user.Some? {
        collected := collected + [user.value];
      }
      assert children[..i + 1][..i] == children[..i];
      i := i + 1;
    }
    assert children[..i] == children;
    users := SortDesc(collected, LeaderboardRank);
    forall u
      ensures u in users <==>
        exists i :: 0 <= i < |children| && children[i].value.Some?
                    && u == children[i].value.value.(playerId := children[i].key.GetOr(""))
    {
      assert u in users <==> u in multiset(collected);
      CollectContents(children, ParseUser, u);
    }
    forall k
      ensures WithRank(users, LeaderboardRank, k) == WithRank(collected, LeaderboardRank, k)
    {
      SortDescStable(collected, LeaderboardRank, k);
    }
  }

  /** The `onDataChange` of the winners listener: collect every winner that
      parsed, then sort by timestamp. */
  method BuildWinners(children: seq<Child<WinnerData>>) returns (winners: seq<WinnerData>)
    ensures forall w :: w in winners <==> exists i :: 0 <= i < |children| && children[i].value == Some(w)
    ensures multiset(winners) == multiset(Collect(children, ParseWinner))
    ensures SortedDesc(winners, WinnerRank)
    ensures forall k :: WithRank(winners, WinnerRank, k) == WithRank(Collect(children, ParseWinner), WinnerRank, k)
  {
    var collected: seq<WinnerData> := [];
    var i := 0;
    while i < |children|
      invariant 0 <= i <= |children|
      invariant collected == Collect(children[..i], ParseWinner)
    {
      var winner := children[i].value;
      if winner.Some? {
        collected := collected + [winner.value];
      }
      assert children[..i + 1][..i] == children[..i];
      i := i + 1;
    }
    assert children[..i] == children;
    winners := SortDesc(collected, WinnerRank);
    forall w
      ensures w in winners <==> exists i :: 0 <= i < |children| && children[i].value == Some(w)
    {
      assert w in winners <==> w in multiset(collected);
      CollectContents(children, ParseWinner, w);
    }
    forall k
      ensures WithRank(winners, WinnerRank, k) == WithRank(collected, WinnerRank, k)
    {
      SortDescStable(collected, WinnerRank, k);
    }
  }

  /** `json.replace("'", "\\'")`, applied to the serialised leaderboard and
      winners before they are spliced into `'...'` literals: every single
      quote comes out behind a backslash, and removing those backslashes
      gives the JSON back. */
  function EscapeSingleQuotes(json: string): (r: string)
    ensures Guarded(r, '\'')
    ensures Unescape(r, '\'') == json
    ensures '\'' !in json ==> r == json
  {
    EscapeGuards(json, '\'');
    EscapeRoundTrip(json, '\'');
    ReplaceCharFacts(json, '\'', "\\'");
    ReplaceChar(json, '\'', "\\'")
  }

  /** Backslashes are not escaped: a quote that already follows a backslash
      gets a second backslash, the two read as one escaped backslash, and the
      quote then ends a single-quoted literal. */
  lemma EscapedBackslashBeforeQuote()
    ensures EscapeSingleQuotes("\\'") == "\\\\'"
  {
    assert ReplaceChar("'", '\'', "\\'") == "\\'";
  }

  // ---------------------------------------------------------------------
  // Private messages

  const WinTitle := "⭐ ¡FELICITACIONES, HAS GANADO! ⭐"
  const LossTitle := "🎉 ¡El Sorteo ha Terminado! 🎉"
  const AdminTitle := "Mensaje del Administrador"

  /** The Swal dialog built for a private message. */
  datatype Dialog = Dialog(icon: string, title: string, text: string, confirmButtonText: string)

  /** `s.replace("\"", "\\\"").replace("\n", "\\n")`: no raw line break is
      left, every double quote comes out behind a backslash, and for a text
      with no backslash of its own, decoding the two escapes `\"` and `\n`
      gives the text back. A single quote is not escaped, so a text that
      holds one still ends the single-quoted literal it is placed in. */
  function EscapeDialogText(s: string): (r: string)
    ensures '\n' !in r
    ensures Guarded(r, '"')
    ensures forall x :: x in s && x != '"' && x != '\n' ==> x in r
    ensures '"' !in s && '\n' !in s ==> r == s
    ensures '\\' !in s ==> DecodeQuoteAndBreak(r) == s
  {
    assert '\\' !in s ==> DecodeQuoteAndBreak(ReplaceChar(ReplaceChar(s, '"', "\\\""), '\n', "\\n")) == s by {
      if '\\' !in s { QuoteAndBreakRoundTrip(s); }
    }
    var quoted := ReplaceChar(s, '"', "\\\"");
    EscapeGuards(s, '"');
    ReplaceCharFacts(s, '"', "\\\"");
    ReplaceCharFacts(quoted, '\n', "\\n");
    ReplaceKeepsGuard(quoted, '\n', "\\n", '"', false);
    ReplaceChar(quoted, '\n', "\\n")
  }

  /** The dialog icon for a message type. */
  function DialogIcon(msgType: string): (r: string)
    ensures r == "success" <==> msgType == "win"
    ensures r != "success" ==> r == "info"
  {
    if msgType == "win" then "success" else if msgType == "loss" then "info" else "info"
  }

  /** The dialog title for a message type. */
  function DialogTitle(msgType: string): (r: string)
    ensures r == WinTitle <==> msgType == "win"
    ensures r == LossTitle <==> msgType == "loss"
    ensures r == AdminTitle <==> msgType != "win" && msgType != "loss"
  {
    if msgType == "win" then WinTitle else if msgType == "loss" then LossTitle else AdminTitle
  }

  /** The confirm button for a message type. */
  function ConfirmButton(msgType: string): (r: string)
    ensures r == "¡Genial!" <==> msgType == "win"
    ensures r != "¡Genial!" ==> r == "Entendido"
  {
    if msgType == "win" then "¡Genial!" else "Entendido"
  }

  // None of the three titles holds a double quote or a line break.

  lemma WinTitlePlain()
    ensures '"' !in WinTitle && '\n' !in WinTitle
  {
  }

  lemma LossTitlePlain()
    ensures '"' !in LossTitle && '\n' !in LossTitle
  {
  }

  lemma AdminTitlePlain()
    ensures '"' !in AdminTitle && '\n' !in AdminTitle
  {
  }

  /** The three titles hold neither double quotes nor line breaks, so the
      escaping applied to them changes nothing. */
  lemma {:induction false} TitlesNeedNoEscaping(msgType: string)
    ensures EscapeDialogText(DialogTitle(msgType)) == DialogTitle(msgType)
  {
    WinTitlePlain();
    LossTitlePlain();
    AdminTitlePlain();
  }

  /** What `checkPrivateMessage` shows for a message record whose `type` and
      `message` fields are read as strings (null when absent or not strings). */
  function PrivateMessageDialog(msgType: Option<string>, message: Option<string>): (r: Option<Dialog>)
    ensures r.None? <==> msgType.None? || message.None?
    ensures r.Some? && msgType.value == "win" ==>
      r.value.icon == "success" && r.value.title == WinTitle && r.value.confirmButtonText == "¡Genial!"
    ensures r.Some? && msgType.value == "loss" ==>
      r.value.icon == "info" && r.value.title == LossTitle && r.value.confirmButtonText == "Entendido"
    ensures r.Some? && msgType.value != "win" && msgType.value != "loss" ==>
      r.value.icon == "info" && r.value.title == AdminTitle && r.value.confirmButtonText == "Entendido"
    ensures r.Some? ==> r.value.text == EscapeDialogText(message.value)
  {
    if msgType.None? || message.None? then None
    else
      var t := msgType.value;
      TitlesNeedNoEscaping(t);
      Some(Dialog(DialogIcon(t), EscapeDialogText(DialogTitle(t)), EscapeDialogText(message.value), ConfirmButton(t)))
  }

  /** The dialog text is escaped for a double-quoted literal but spliced into
      a single-quoted one: a single quote passes through unchanged. */
  lemma DialogTextKeepsSingleQuotes(message: string)
    requires '\'' in message
    ensures '\'' in EscapeDialogText(message)
  {
  }

  /** The escaping is not reversible: a line break and a backslash followed by
      `n` come out the same. */
  lemma DialogTextEscapingIsLossy()
    ensures EscapeDialogText("\n") == EscapeDialogText("\\n") == "\\n"
  {
    assert ReplaceChar("\\n", '\n', "\\n") == "\\n";
  }

  // ---------------------------------------------------------------------
  // User display

  /** The first argument of `window.updateUserUI(...)`: the literal `null`
      for a null or empty id, otherwise the id between single quotes. */
  function PlayerDisplay(playerId: Option<string>): (r: string)
    ensures r == "null" <==> playerId.None? || playerId.value == []
    ensures r != "null" ==> |r| == |playerId.value| + 2 && r[0] == '\'' && r[|r| - 1] == '\''
                            && r[1..|r| - 1] == playerId.value
  {
    if playerId.None? || playerId.value == [] then "null"
    else
      var quoted := "'" + playerId.value + "'";
      assert quoted[0] != "null"[0];
      quoted
  }

  // ---------------------------------------------------------------------
  // Calls into the ledger

  /** A request to a callable function with payload `{ playerId, amount }`. */
  datatype CallableRequest = CallableRequest(name: string, playerId: string, amount: int)

  /** The payload as the ledger receives it. */
  function Payload(req: CallableRequest): Ledger.Request {
    Ledger.Request(Ledger.Str(req.playerId), Ledger.Number(req.amount))
  }

  /** `addTickets(amount)`: no call without a saved player id. */
  function AddTicketsCall(savedId: Option<string>, amount: int): (r: Option<CallableRequest>)
    ensures r.None? <==> savedId.None? || savedId.value == []
    ensures r.Some? ==> r.value == CallableRequest("addTickets", savedId.value, amount)
  {
    if savedId.None? || savedId.value == [] then None
    else Some(CallableRequest("addTickets", savedId.value, amount))
  }

  /** `sendTicketsToId(targetPlayerId, amount)`: no call for an empty target. */
  function SendTicketsCall(targetPlayerId: string, amount: int): (r: Option<CallableRequest>)
    ensures r.None? <==> targetPlayerId == []
    ensures r.Some? ==> r.value == CallableRequest("sendTicketsToId", targetPlayerId, amount)
  {
    if targetPlayerId == [] then None
    else Some(CallableRequest("sendTicketsToId", targetPlayerId, amount))
  }

  /** After a successful `addTickets`: the pass dialog appears when the
      returned message is a string containing "pase". */
  predicate ShowsPassDialog(cfMessage: Option<string>)
    ensures ShowsPassDialog(cfMessage) ==> cfMessage.Some? && |cfMessage.value| >= 4
  {
    cfMessage.Some? && Contains(cfMessage.value, "pase")
  }

  /** The id `requestRewardedAdForTask` hands to the activity: the saved id,
      or "" when none is saved. */
  function RewardedTaskId(savedId: Option<string>): (r: string)
    ensures r == [] <==> savedId.None? || savedId.value == []
    ensures r != [] ==> savedId == Some(r)
  {
    savedId.GetOr("")
  }

  /** Every call the bridge makes passes the ledger's player-id gate, and its
      amount gate exactly when the amount is non-negative (for `addTickets`)
      or positive (for `sendTicketsToId`). */
  lemma BridgeCallsPassIdGate(savedId: Option<string>, target: string, amount: int)
    ensures AddTicketsCall(savedId, amount).Some? ==>
      (Ledger.AddTicketsGate(Payload(AddTicketsCall(savedId, amount).value)).None? <==> amount >= 0)
    ensures SendTicketsCall(target, amount).Some? ==>
      (Ledger.SendTicketsGate(Payload(SendTicketsCall(target, amount).value)).None? <==> amount > 0)
  {
  }

  lemma {:induction false} AbsentFirstChar(s: string, sub: string)
    requires sub != [] && sub[0] !in s
    ensures !Contains(s, sub)
  {
    forall i | 0 <= i <= |s|
      ensures !OccursAt(s, sub, i)
    {
      if i + |sub| <= |s| {
        assert s[i..i + |sub|][0] == s[i];
      }
    }
  }

  /** The dialog follows the ledger's message: after a successful `addTickets`
      it is shown exactly when the ledger reported a pass, that is when the
      amount is positive and the committed remainder plus the amount reaches
      1000. */
  lemma PassDialogFollowsLedger(users: map<string, Ledger.Account>, req: Ledger.Request, committed: bool)
    requires Ledger.AddTicketsResult(users, req, committed).Ok?
    ensures var env := Ledger.AddTicketsResult(users, req, committed).envelope;
      var reported := req.amount.n > 0 && env.user.tickets + req.amount.n >= Ledger.TicketsPerPass;
      ShowsPassDialog(Some(env.message)) == reported
  {
    var env := Ledger.AddTicketsResult(users, req, committed).envelope;
    var user := Ledger.Apply(Ledger.Lookup(users, req.playerId.s), req.playerId.s, req.amount.n);
    assert env == Ledger.Envelope(true, Ledger.AddTicketsMessage(req.amount.n, user), user);
    LedgerMessagesAndPassDialog();
  }

  /** Of the two `addTickets` messages only the pass message contains "pase". */
  lemma LedgerMessagesAndPassDialog()
    ensures ShowsPassDialog(Some(Ledger.PassEarnedMessage))
    ensures !ShowsPassDialog(Some(Ledger.TicketsAddedMessage))
  {
    assert OccursAt(Ledger.PassEarnedMessage, "pase", 20);
    AbsentFirstChar(Ledger.TicketsAddedMessage, "pase");
  }

  /** A saved id passes the rewarded-task guard of the activity exactly when
      it is present, non-empty and not the text "null". */
  lemma RewardedTaskGuard(savedId: Option<string>)
    ensures (MainActivity.HasPlayerId(RewardedTaskId(savedId))
             <==> savedId.Some? && savedId.value != [] && savedId.value != "null")
  {
  }

  /** The two guards disagree on the saved text "null": `addTickets` calls the
      ledger with it, the rewarded task refuses it. */
  lemma NullTextGuards(amount: int)
    ensures AddTicketsCall(Some("null"), amount).Some?
    ensures !MainActivity.HasPlayerId(RewardedTaskId(Some("null")))
  {
  }
}

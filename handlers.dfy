/** The bot's handlers in api/bot.py as state transitions of one object:
    the `registrations` table, the `admin_logs` table, what the bot hands
    to Telegram, and the calls it makes on the registrations table. Backend
    faults and send outcomes are arguments. */
module Handlers {
  import opened Wrappers
  import opened Text
  import opened Store
  import opened Outbox
  import opened RegistrationFlow
  import opened Admin

  /** The Telegram user behind an update (`effective_user`,
      `query.from_user`). */
  datatype User = User(id: int, username: Option<string>, firstName: Option<string>)

  /** A call the handlers make on the registrations table through
      lib/supabase.py. */
  datatype StoreCall =
    | IsRegisteredCall(id: int)
    | RegisterCall(rec: Registration)
    | CountCall
    | ListCall

  /** The row `registration_callback` inserts for the user who clicked. */
  function NewRecord(user: User): (r: Registration)
    ensures r.telegramId == user.id && r.username == user.username
    ensures Truthy(user.firstName) ==> r.firstName == user.firstName.value
    ensures !Truthy(user.firstName) ==> r.firstName == "N/A"
    ensures r.firstName != ""
  {
    Registration(user.id, user.username, OrElse(user.firstName, "N/A"))
  }

  /** The callback data reads back without error, passes the ownership
      guard, and names `action`. */
  predicate Reaches(data: string, clickerId: int, action: string) {
    var p := ParseCallback(data);
    p.Parsed? && !RejectsClicker(p.carriedId, clickerId) && p.action == action
  }

  /** The audit log grew by exactly one entry, by `admin`, with one of the
      administrator commands' action tags. */
  predicate LoggedOnce(before: seq<LogEntry>, after: seq<LogEntry>, admin: int) {
    |after| == |before| + 1 && after[..|before|] == before
      && after[|before|].adminId == admin && IsAdminAction(after[|before|].action)
  }

  const HelpIntro := "Welcome to the Portfolio Showcase Bot!\n\n"
    + "Use /start to register for updates on the upcoming Portfolio Showcase Mini App.\n"
  const HelpAdminSection := "\n--- Admin Commands ---\n"
    + "/count - Get the total number of registered users.\n"
    + "/list - Get a list of all registered usernames and IDs.\n"
    + "/notify <message> - Send a broadcast message to all registered users. Example: `/notify The app is live!`\n"
  const NotACommandText := "I'm a registration bot! Please use commands like /start or /help."

  class Bot {
    /** `ADMIN_ID` (`None` when unset) and `ADMIN_USERNAME`. */
    const adminId: Option<int>
    const adminUsername: Option<string>

    /** The `registrations` table, in insertion order. */
    var rows: seq<Registration>
    /** The `log_admin_action` entries written to `admin_logs`. */
    var adminLog: seq<LogEntry>
    /** Replies, edits, acknowledgements and sends, in order. */
    var outbox: seq<Event>
    /** Calls made on the `registrations` table, in order. */
    var storeCalls: seq<StoreCall>

    ghost predicate Valid()
      reads this
    {
      DistinctIds(rows)
    }

    constructor (adminId: Option<int>, adminUsername: Option<string>, rows: seq<Registration>)
      requires DistinctIds(rows)
      ensures Valid()
      ensures this.adminId == adminId && this.adminUsername == adminUsername
      ensures this.rows == rows && adminLog == [] && outbox == [] && storeCalls == []
    {
      this.adminId := adminId;
      this.adminUsername := adminUsername;
      this.rows := rows;
      adminLog := [];
      outbox := [];
      storeCalls := [];
    }

    // -------------------------------------------------------------------
    // The table helpers of lib/supabase.py and the transport
    // -------------------------------------------------------------------

    method Lookup(id: int, fault: bool) returns (r: Option<bool>)
      modifies this`storeCalls
      ensures r == IsUserRegistered(rows, id, fault)
      ensures storeCalls == old(storeCalls) + [IsRegisteredCall(id)]
    {
      storeCalls := storeCalls + [IsRegisteredCall(id)];
      r := IsUserRegistered(rows, id, fault);
    }

    method Register(rec: Registration, fault: bool) returns (r: Option<Registration>)
      requires Valid()
      modifies this`rows, this`storeCalls
      ensures Valid()
      ensures (r, rows) == RegisterUser(old(rows), rec, fault)
      ensures storeCalls == old(storeCalls) + [RegisterCall(rec)]
    {
      RegisterUserKeepsDistinct(rows, rec, fault);
      storeCalls := storeCalls + [RegisterCall(rec)];
      var result := RegisterUser(rows, rec, fault);
      r, rows := result.0, result.1;
    }

    method FetchCount(fault: bool) returns (r: Option<nat>)
      modifies this`storeCalls
      ensures r == RegisteredUserCount(rows, fault)
      ensures storeCalls == old(storeCalls) + [CountCall]
    {
      storeCalls := storeCalls + [CountCall];
      r := RegisteredUserCount(rows, fault);
    }

    method FetchList(fault: bool) returns (r: Option<seq<UserRow>>)
      modifies this`storeCalls
      ensures r == RegisteredUsersList(rows, fault)
      ensures storeCalls == old(storeCalls) + [ListCall]
    {
      storeCalls := storeCalls + [ListCall];
      r := RegisteredUsersList(rows, fault);
    }

    method LogAdminAction(entry: LogEntry)
      modifies this`adminLog
      ensures adminLog == old(adminLog) + [entry]
    {
      adminLog := adminLog + [entry];
    }

    method Emit(e: Event)
      modifies this`outbox
      ensures outbox == old(outbox) + [e]
    {
      outbox := outbox + [e];
    }

    // -------------------------------------------------------------------
    // /start
    // -------------------------------------------------------------------

    /** `start_command`: one lookup, never an insert. A lookup fault gets
        the generic failure, a registered user the "already registered"
        reply, anyone else the registration prompt with its buttons. */
    method Start(user: User, lookupFault: bool)
      requires Valid()
      modifies this`outbox, this`storeCalls
      ensures Valid() && rows == old(rows) && adminLog == old(adminLog)
      ensures storeCalls == old(storeCalls) + [IsRegisteredCall(user.id)]
      ensures lookupFault ==> outbox == old(outbox) + [Reply(GenericFailure)]
      ensures !lookupFault && HasId(rows, user.id) ==> outbox == old(outbox) + [Reply(AlreadyRegistered)]
      ensures !lookupFault && !HasId(rows, user.id) ==>
                outbox == old(outbox) + [PromptReply(user.id, user.username, user.firstName, adminUsername)]
    {
      var registered := Lookup(user.id, lookupFault);
      if registered.None? {
        Emit(Reply(GenericFailure));
        return;
      }
      if registered.value {
        Emit(Reply(AlreadyRegistered));
      } else {
        Emit(PromptReply(user.id, user.username, user.firstName, adminUsername));
      }
    }

    // -------------------------------------------------------------------
    // The registration buttons
    // -------------------------------------------------------------------

    /** The accept branch of `registration_callback`: re-check the table,
        then insert the clicker's own record only if the re-check finds them
        unregistered. */
    method Accept(user: User, lookupFault: bool, insertFault: bool)
      requires Valid()
      modifies this`rows, this`outbox, this`storeCalls
      ensures Valid() && adminLog == old(adminLog)
      ensures rows == old(rows) || rows == old(rows) + [NewRecord(user)]
      ensures rows != old(rows) <==> !lookupFault && !HasId(old(rows), user.id) && !insertFault
      ensures lookupFault ==>
                outbox == old(outbox) + [Edit(GenericFailure)]
                && storeCalls == old(storeCalls) + [IsRegisteredCall(user.id)]
      ensures !lookupFault && HasId(old(rows), user.id) ==>
                outbox == old(outbox) + [Edit(AlreadyRegistered)]
                && storeCalls == old(storeCalls) + [IsRegisteredCall(user.id)]
      ensures !lookupFault && !HasId(old(rows), user.id) ==>
                outbox == old(outbox) + [Edit(if insertFault then RegistrationFailed else Thanks(user.firstName))]
                && storeCalls == old(storeCalls) + [IsRegisteredCall(user.id), RegisterCall(NewRecord(user))]
    {
      var already := Lookup(user.id, lookupFault);
      if already.None? {
        Emit(Edit(GenericFailure));
        return;
      }
      if already.value {
        Emit(Edit(AlreadyRegistered));
        return;
      }
      var inserted := Register(NewRecord(user), insertFault);
      if inserted.Some? {
        Emit(Edit(Thanks(user.firstName)));
      } else {
        assert rows == old(rows);
        Emit(Edit(RegistrationFailed));
      }
    }

    /** The part of `registration_callback` after the callback data is
        read: the ownership guard, then accept, decline, or nothing for any
        other action. */
    method Act(user: User, action: string, carriedId: Option<int>, lookupFault: bool, insertFault: bool)
      requires Valid()
      modifies this`rows, this`outbox, this`storeCalls
      ensures Valid() && adminLog == old(adminLog)
      ensures rows == old(rows) || rows == old(rows) + [NewRecord(user)]
      ensures old(outbox) <= outbox
      ensures rows != old(rows) <==>
                !RejectsClicker(carriedId, user.id) && action == YesAction
                && !lookupFault && !HasId(old(rows), user.id) && !insertFault
      ensures RejectsClicker(carriedId, user.id) ==>
                outbox == old(outbox) + [Edit(NotForYou)] && storeCalls == old(storeCalls)
      ensures !RejectsClicker(carriedId, user.id) && action == NoAction ==>
                outbox == old(outbox) + [Edit(Declined)] && storeCalls == old(storeCalls)
      ensures !RejectsClicker(carriedId, user.id) && action != YesAction && action != NoAction ==>
                outbox == old(outbox) && storeCalls == old(storeCalls)
      ensures !RejectsClicker(carriedId, user.id) && action == YesAction && lookupFault ==>
                outbox == old(outbox) + [Edit(GenericFailure)]
                && storeCalls == old(storeCalls) + [IsRegisteredCall(user.id)]
      ensures !RejectsClicker(carriedId, user.id) && action == YesAction && !lookupFault && HasId(old(rows), user.id) ==>
                outbox == old(outbox) + [Edit(AlreadyRegistered)]
                && storeCalls == old(storeCalls) + [IsRegisteredCall(user.id)]
      ensures !RejectsClicker(carriedId, user.id) && action == YesAction && !lookupFault && !HasId(old(rows), user.id) ==>
                outbox == old(outbox) + [Edit(if insertFault then RegistrationFailed else Thanks(user.firstName))]
                && storeCalls == old(storeCalls) + [IsRegisteredCall(user.id), RegisterCall(NewRecord(user))]
    {
      if RejectsClicker(carriedId, user.id) {
        Emit(Edit(NotForYou));
        return;
      }
      if action == YesAction {
        Accept(user, lookupFault, insertFault);
      } else if action == NoAction {
        Emit(Edit(Declined));
      }
    }

    /** `registration_callback`: acknowledge, read the callback data, turn
        away a click on someone else's prompt, then accept or decline. Only
        an accept from a user the re-check finds unregistered inserts, and
        it inserts that user's own record; nothing else touches the table. */
    method Callback(user: User, data: string, lookupFault: bool, insertFault: bool)
      requires Valid()
      modifies this`rows, this`outbox, this`storeCalls
      ensures Valid() && adminLog == old(adminLog)
      // the only change the table ever sees
      ensures rows == old(rows) || rows == old(rows) + [NewRecord(user)]
      ensures rows != old(rows) <==>
                Reaches(data, user.id, YesAction) && !lookupFault && !HasId(old(rows), user.id) && !insertFault
      // the click is always acknowledged first
      ensures old(outbox) + [Answer] <= outbox
      // int() raised: nothing after the acknowledgement
      ensures ParseCallback(data).ValueError? ==>
                outbox == old(outbox) + [Answer] && storeCalls == old(storeCalls)
      // someone else's prompt
      ensures ParseCallback(data).Parsed? && RejectsClicker(ParseCallback(data).carriedId, user.id) ==>
                outbox == old(outbox) + [Answer] + [Edit(NotForYou)] && storeCalls == old(storeCalls)
      // decline
      ensures Reaches(data, user.id, NoAction) ==>
                outbox == old(outbox) + [Answer] + [Edit(Declined)] && storeCalls == old(storeCalls)
      // any other action
      ensures ParseCallback(data).Parsed? && !RejectsClicker(ParseCallback(data).carriedId, user.id)
              && ParseCallback(data).action != YesAction && ParseCallback(data).action != NoAction ==>
                outbox == old(outbox) + [Answer] && storeCalls == old(storeCalls)
      // accept
      ensures Reaches(data, user.id, YesAction) && lookupFault ==>
                outbox == old(outbox) + [Answer] + [Edit(GenericFailure)]
                && storeCalls == old(storeCalls) + [IsRegisteredCall(user.id)]
      ensures Reaches(data, user.id, YesAction) && !lookupFault && HasId(old(rows), user.id) ==>
                outbox == old(outbox) + [Answer] + [Edit(AlreadyRegistered)]
                && storeCalls == old(storeCalls) + [IsRegisteredCall(user.id)]
      ensures Reaches(data, user.id, YesAction) && !lookupFault && !HasId(old(rows), user.id) ==>
                outbox == old(outbox) + [Answer] + [Edit(if insertFault then RegistrationFailed else Thanks(user.firstName))]
                && storeCalls == old(storeCalls) + [IsRegisteredCall(user.id), RegisterCall(NewRecord(user))]
    {
      Emit(Answer);
      var parsed := ParseCallback(data);
      if parsed.ValueError? {
        // int() raised outside the handler's try block: the handler ends
        return;
      }
      Act(user, parsed.action, parsed.carriedId, lookupFault, insertFault);
    }

    /** The dispatcher's `CallbackQueryHandler(registration_callback,
        pattern=r'register_(yes|no):\d+')`: data the pattern does not match
        reaches no handler, so nothing at all happens. */
    method HandleCallbackQuery(user: User, data: string, lookupFault: bool, insertFault: bool)
      requires Valid()
      modifies this`rows, this`outbox, this`storeCalls
      ensures Valid() && adminLog == old(adminLog)
      ensures !MatchesCallbackPattern(data) ==>
                rows == old(rows) && outbox == old(outbox) && storeCalls == old(storeCalls)
      ensures rows == old(rows) || rows == old(rows) + [NewRecord(user)]
      ensures rows != old(rows) <==>
                MatchesCallbackPattern(data) && Reaches(data, user.id, YesAction)
                && !lookupFault && !HasId(old(rows), user.id) && !insertFault
      ensures MatchesCallbackPattern(data) ==> |outbox| > |old(outbox)| && outbox[|old(outbox)|] == Answer
      ensures MatchesCallbackPattern(data) && ParseCallback(data).Parsed?
              && RejectsClicker(ParseCallback(data).carriedId, user.id) ==>
                outbox == old(outbox) + [Answer, Edit(NotForYou)] && storeCalls == old(storeCalls)
      ensures MatchesCallbackPattern(data) && Reaches(data, user.id, NoAction) ==>
                outbox == old(outbox) + [Answer, Edit(Declined)] && storeCalls == old(storeCalls)
      ensures MatchesCallbackPattern(data) && ParseCallback(data).ValueError? ==>
                outbox == old(outbox) + [Answer] && storeCalls == old(storeCalls)
      ensures MatchesCallbackPattern(data) && Reaches(data, user.id, YesAction) && lookupFault ==>
                outbox == old(outbox) + [Answer] + [Edit(GenericFailure)]
                && storeCalls == old(storeCalls) + [IsRegisteredCall(user.id)]
      ensures MatchesCallbackPattern(data) && Reaches(data, user.id, YesAction) && !lookupFault
              && HasId(old(rows), user.id) ==>
                outbox == old(outbox) + [Answer] + [Edit(AlreadyRegistered)]
                && storeCalls == old(storeCalls) + [IsRegisteredCall(user.id)]
      ensures MatchesCallbackPattern(data) && Reaches(data, user.id, YesAction) && !lookupFault
              && !HasId(old(rows), user.id) ==>
                outbox == old(outbox) + [Answer] + [Edit(if insertFault then RegistrationFailed else Thanks(user.firstName))]
                && storeCalls == old(storeCalls) + [IsRegisteredCall(user.id), RegisterCall(NewRecord(user))]
    {
      if MatchesCallbackPattern(data) {
        Callback(user, data, lookupFault, insertFault);
      }
    }

    // -------------------------------------------------------------------
    // /help and plain text
    // -------------------------------------------------------------------

    /** `help_command`: the admin section only for the administrator. */
    method Help(userId: int)
      modifies this`outbox
      ensures outbox == old(outbox)
        + [Reply(if IsAdmin(adminId, userId) then HelpIntro + HelpAdminSection else HelpIntro)]
    {
      var message := HelpIntro;
      if IsAdmin(adminId, userId) {
        message := message + HelpAdminSection;
      }
      Emit(Reply(message));
    }

    /** `generic_message_handler`: a hint for text that is not a command. */
    method PlainText(text: string)
      modifies this`outbox
      ensures text != "" && text[0] != '/' ==> outbox == old(outbox) + [Reply(NotACommandText)]
      ensures text == "" || text[0] == '/' ==> outbox == old(outbox)
    {
      if text != "" && text[0] != '/' {
        Emit(Reply(NotACommandText));
      }
    }

    // -------------------------------------------------------------------
    // The administrator commands
    // -------------------------------------------------------------------

    /** `is_admin`: the gate replies "Unauthorized" when it fails. */
    method RequireAdmin(requesterId: int) returns (ok: bool)
      modifies this`outbox
      ensures ok == IsAdmin(adminId, requesterId)
      ensures outbox == if ok then old(outbox) else old(outbox) + [Reply(Unauthorized)]
    {
      if IsAdmin(adminId, requesterId) {
        return true;
      }
      Emit(Reply(Unauthorized));
      return false;
    }

    /** `count_command`. */
    method Count(requesterId: int, fault: bool)
      requires Valid()
      modifies this`outbox, this`adminLog, this`storeCalls
      ensures Valid() && rows == old(rows)
      ensures !IsAdmin(adminId, requesterId) ==>
                outbox == old(outbox) + [Reply(Unauthorized)]
                && adminLog == old(adminLog) && storeCalls == old(storeCalls)
      ensures IsAdmin(adminId, requesterId) ==>
                LoggedOnce(old(adminLog), adminLog, requesterId) && storeCalls == old(storeCalls) + [CountCall]
      ensures IsAdmin(adminId, requesterId) && fault ==>
                outbox == old(outbox) + [Reply(CountFailedText)]
                && adminLog == old(adminLog) + [LogEntry(requesterId, CountUsersFailed, CountFailedDetails)]
      ensures IsAdmin(adminId, requesterId) && !fault ==>
                outbox == old(outbox) + [Reply(CountText(|rows|))]
                && adminLog == old(adminLog) + [LogEntry(requesterId, CountUsers, CountDetails(|rows|))]
    {
      var ok := RequireAdmin(requesterId);
      if !ok { return; }
      var count := FetchCount(fault);
      if count.None? {
        Emit(Reply(CountFailedText));
        LogAdminAction(LogEntry(requesterId, CountUsersFailed, CountFailedDetails));
        return;
      }
      Emit(Reply(CountText(count.value)));
      LogAdminAction(LogEntry(requesterId, CountUsers, CountDetails(count.value)));
    }

    /** `list_command`. */
    method List(requesterId: int, fault: bool)
      requires Valid()
      modifies this`outbox, this`adminLog, this`storeCalls
      ensures Valid() && rows == old(rows)
      ensures !IsAdmin(adminId, requesterId) ==>
                outbox == old(outbox) + [Reply(Unauthorized)]
                && adminLog == old(adminLog) && storeCalls == old(storeCalls)
      ensures IsAdmin(adminId, requesterId) ==>
                LoggedOnce(old(adminLog), adminLog, requesterId) && storeCalls == old(storeCalls) + [ListCall]
      ensures IsAdmin(adminId, requesterId) && fault ==>
                outbox == old(outbox) + [Reply(ListFailedText)]
                && adminLog == old(adminLog) + [LogEntry(requesterId, ListUsersFailed, ListFailedDetails)]
      ensures IsAdmin(adminId, requesterId) && !fault ==>
                var users := RegisteredUsersList(rows, false).value;
                outbox == old(outbox) + [Reply(ListText(users))]
                && adminLog == old(adminLog)
                   + [LogEntry(requesterId, ListUsers, if |users| == 0 then NoUsersDetails else ListDetails(users))]
    {
      var ok := RequireAdmin(requesterId);
      if !ok { return; }
      var users := FetchList(fault);
      if users.None? {
        Emit(Reply(ListFailedText));
        LogAdminAction(LogEntry(requesterId, ListUsersFailed, ListFailedDetails));
        return;
      }
      if |users.value| == 0 {
        Emit(Reply(NoUsersText));
        LogAdminAction(LogEntry(requesterId, ListUsers, NoUsersDetails));
        return;
      }
      Emit(Reply(ListText(users.value)));
      LogAdminAction(LogEntry(requesterId, ListUsers, ListDetails(users.value)));
    }

    /** `notify_command`: `delivered[k]` is whether Telegram accepted the
        send to the k-th registered user. Without message text the user list
        is never fetched; otherwise every user is sent to, in table order,
        and the tallies add up to the number of users. */
    method Notify(requesterId: int, args: seq<string>, fault: bool, delivered: seq<bool>)
      requires Valid()
      requires |delivered| == |rows|
      modifies this`outbox, this`adminLog, this`storeCalls
      ensures Valid() && rows == old(rows)
      ensures !IsAdmin(adminId, requesterId) ==>
                outbox == old(outbox) + [Reply(Unauthorized)]
                && adminLog == old(adminLog) && storeCalls == old(storeCalls)
      ensures IsAdmin(adminId, requesterId) ==> LoggedOnce(old(adminLog), adminLog, requesterId)
      ensures IsAdmin(adminId, requesterId) && MessageText(args) == "" ==>
                outbox == old(outbox) + [Reply(NotifyUsageText)] && storeCalls == old(storeCalls)
                && adminLog == old(adminLog) + [LogEntry(requesterId, NotifyFailed, NoTextDetails)]
      ensures IsAdmin(adminId, requesterId) && MessageText(args) != "" ==>
                storeCalls == old(storeCalls) + [ListCall]
      ensures IsAdmin(adminId, requesterId) && MessageText(args) != "" && fault ==>
                outbox == old(outbox) + [Reply(NotifyListFailedText)]
                && adminLog == old(adminLog) + [LogEntry(requesterId, NotifyFailed, NotifyListFailedDetails)]
      ensures IsAdmin(adminId, requesterId) && MessageText(args) != "" && !fault && |rows| == 0 ==>
                outbox == old(outbox) + [Reply(NotifyNoUsersText)]
                && adminLog == old(adminLog) + [LogEntry(requesterId, NotifyAttemptNoUsers, NotifyNoUsersDetails)]
      ensures IsAdmin(adminId, requesterId) && MessageText(args) != "" && !fault && |rows| > 0 ==>
                var users := RegisteredUsersList(rows, false).value;
                var failedIds := FailedIds(users, delivered);
                var failed := |failedIds|;
                var sent := |users| - failed;
                && outbox == old(outbox) + SendCalls(users, MessageText(args)) + [Reply(BroadcastText(sent, failed))]
                && adminLog == old(adminLog)
                   + [LogEntry(requesterId, BroadcastMessage, BroadcastDetails(MessageText(args), sent, failed, failedIds))]
    {
      var ok := RequireAdmin(requesterId);
      if !ok { return; }
      var text := MessageText(args);
      if text == "" {
        Emit(Reply(NotifyUsageText));
        LogAdminAction(LogEntry(requesterId, NotifyFailed, NoTextDetails));
        return;
      }
      var users := FetchList(fault);
      if users.None? {
        Emit(Reply(NotifyListFailedText));
        LogAdminAction(LogEntry(requesterId, NotifyFailed, NotifyListFailedDetails));
        return;
      }
      if |users.value| == 0 {
        Emit(Reply(NotifyNoUsersText));
        LogAdminAction(LogEntry(requesterId, NotifyAttemptNoUsers, NotifyNoUsersDetails));
        return;
      }
      var sent, failed, failedIds, calls := Broadcast(users.value, text, delivered);
      outbox := outbox + calls;
      Emit(Reply(BroadcastText(sent, failed)));
      LogAdminAction(LogEntry(requesterId, BroadcastMessage, BroadcastDetails(text, sent, failed, failedIds)));
    }
  }
}

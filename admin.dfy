/** The pure parts of the administrator commands in api/bot.py: the gate,
    the texts, the `/list` rendering, the audit-log entries, and the
    `/notify` send loop with its tallies. */
module Admin {
  import opened Wrappers
  import opened Text
  import opened Store
  import opened Outbox

  // ---------------------------------------------------------------------
  // The gate
  // ---------------------------------------------------------------------

  const Unauthorized := "Unauthorized access. This command is for admins only."

  /** `is_admin`: the requester is the configured administrator. With no
      administrator configured (`ADMIN_ID` is `None`) nobody passes. */
  predicate IsAdmin(adminId: Option<int>, requesterId: int): (ok: bool)
    ensures adminId.None? ==> !ok
    ensures ok ==> adminId.value == requesterId
  {
    adminId == Some(requesterId)
  }

  // ---------------------------------------------------------------------
  // The audit log
  // ---------------------------------------------------------------------

  /** A row of `admin_logs`: `admin_telegram_id`, `action`, `details`. */
  datatype LogEntry = LogEntry(adminId: int, action: string, details: string)

  const CountUsers := "count_users"
  const CountUsersFailed := "count_users_failed"
  const ListUsers := "list_users"
  const ListUsersFailed := "list_users_failed"
  const NotifyFailed := "notify_failed"
  const NotifyAttemptNoUsers := "notify_attempt_no_users"
  const BroadcastMessage := "broadcast_message"

  /** The action tags an administrator command may log. */
  predicate IsAdminAction(action: string) {
    action in {CountUsers, CountUsersFailed, ListUsers, ListUsersFailed,
               NotifyFailed, NotifyAttemptNoUsers, BroadcastMessage}
  }

  // ---------------------------------------------------------------------
  // /count
  // ---------------------------------------------------------------------

  const CountFailedText := "Something went wrong while fetching user count, please try again later."
  const CountFailedDetails := "Database error fetching count."

  function CountText(count: nat): string {
    "Currently, " + NatToString(count) + " users are registered."
  }

  function CountDetails(count: nat): string {
    "Returned count: " + NatToString(count)
  }

  // ---------------------------------------------------------------------
  // /list
  // ---------------------------------------------------------------------

  const ListFailedText := "Something went wrong while fetching the user list, please try again later."
  const ListFailedDetails := "Database error fetching list."
  const NoUsersText := "No users are currently registered."
  const NoUsersDetails := "No registered users."
  const ListHeader := "Registered Users:"

  /** One user's line: the id in backticks, then ` (@username)` only when
      the username is truthy. */
  function UserLine(u: UserRow): string {
    "- `" + IntToString(u.telegramId) + "`" + (if Truthy(u.username) then " (@" + u.username.value + ")" else "")
  }

  /** One line per user, in the order the store returned them. */
  function UserLines(users: seq<UserRow>): seq<string>
  {
    seq(|users|, k requires 0 <= k < |users| => UserLine(users[k]))
  }

  /** The reply to `/list` for the list the store returned. */
  function ListText(users: seq<UserRow>): (r: string)
    ensures r == NoUsersText <==> |users| == 0
    ensures |users| > 0 ==> |r| > |ListHeader| && r[..|ListHeader| + 1] == ListHeader + "\n"
  {
    assert ListHeader[0] != NoUsersText[0];
    if |users| == 0 then NoUsersText
    else ListHeader + "\n" + Join("\n", UserLines(users))
  }

  function ListDetails(users: seq<UserRow>): string {
    "Returned " + NatToString(|users|) + " users."
  }

  /** Usernames without line breaks, as Telegram's usernames are. */
  predicate SingleLineNames(users: seq<UserRow>) {
    forall k :: 0 <= k < |users| ==> (users[k].username.Some? ==> '\n' !in users[k].username.value)
  }

  /** Read line by line, a non-empty `/list` reply is the header and then
      exactly one line per user, in store order: ` - `id` ` followed by
      ` (@username)` when the user has a username. */
  lemma ListTextLines(users: seq<UserRow>)
    requires |users| > 0 && SingleLineNames(users)
    ensures Split(ListText(users), '\n') == [ListHeader] + UserLines(users)
  {
    var lines := UserLines(users);
    forall k | 0 <= k < |lines| ensures '\n' !in lines[k] {
      IntToStringHasNo(users[k].telegramId, '\n');
    }
    SplitJoin(lines, '\n');
    assert '\n' !in ListHeader;
    SplitAfterSep(ListHeader, Join("\n", lines), '\n');
  }

  /** The reply names every user by id: line `k + 1` starts with the k-th
      user's id in backticks, and carries ` (@username)` exactly when the
      username is truthy. */
  lemma UserLineShape(u: UserRow)
    ensures var id := "- `" + IntToString(u.telegramId) + "`";
      && UserLine(u)[..|id|] == id
      && (Truthy(u.username) <==> |UserLine(u)| > |id|)
  {
  }

  // ---------------------------------------------------------------------
  // /notify
  // ---------------------------------------------------------------------

  const NotifyUsageText := "Please provide a message to send. Example: `/notify The app is now live!`"
  const NoTextDetails := "No message text provided."
  const NotifyListFailedText := "Something went wrong while fetching the user list for notification, please try again later."
  const NotifyListFailedDetails := "Database error fetching user list for broadcast."
  const NotifyNoUsersText := "No users are currently registered to notify."
  const NotifyNoUsersDetails := "No registered users to send broadcast to."

  /** `" ".join(context.args)`. */
  function MessageText(args: seq<string>): string {
    Join(" ", args)
  }

  /** The message text is empty, and `/notify` stops with the usage reply,
      exactly when there are no arguments or the only one is empty. */
  lemma MessageTextEmptyIff(args: seq<string>)
    ensures MessageText(args) == "" <==> |args| == 0 || (|args| == 1 && args[0] == "")
  {
    JoinEmptyIff(" ", args);
  }

  /** The send the loop makes for each user, in order. */
  function SendCalls(users: seq<UserRow>, text: string): seq<Event>
  {
    seq(|users|, k requires 0 <= k < |users| => Send(users[k].telegramId, text))
  }

  /** The ids whose send failed, in iteration order: `delivered[k]` is the
      outcome of the send to `users[k]`. */
  function FailedIds(users: seq<UserRow>, delivered: seq<bool>): (ids: seq<int>)
    requires |delivered| == |users|
    ensures |ids| <= |users|
  {
    if |users| == 0 then []
    else
      FailedIds(users[..|users| - 1], delivered[..|users| - 1])
        + (if delivered[|users| - 1] then [] else [users[|users| - 1].telegramId])
  }

  /** The number of sends that failed. */
  function CountFailures(delivered: seq<bool>): nat {
    multiset(delivered)[false]
  }

  /** There is one failed id per failed send. */
  lemma {:induction false} FailedIdsCount(users: seq<UserRow>, delivered: seq<bool>)
    requires |delivered| == |users|
    ensures |FailedIds(users, delivered)| == CountFailures(delivered)
  {
    if |users| > 0 {
      var n := |users| - 1;
      FailedIdsCount(users[..n], delivered[..n]);
      assert delivered == delivered[..n] + [delivered[n]];
    }
  }

  /** An id is among the failed ids exactly when some send to a user with
      that id failed. */
  lemma {:induction false} FailedIdsMembers(users: seq<UserRow>, delivered: seq<bool>, id: int)
    requires |delivered| == |users|
    ensures id in FailedIds(users, delivered) <==>
      exists k :: 0 <= k < |users| && !delivered[k] && users[k].telegramId == id
  {
    if |users| > 0 {
      var n := |users| - 1;
      FailedIdsMembers(users[..n], delivered[..n], id);
      if id in FailedIds(users[..n], delivered[..n]) {
        var k :| 0 <= k < n && !delivered[..n][k] && users[..n][k].telegramId == id;
        assert !delivered[k] && users[k].telegramId == id;
      }
    }
  }

  /** The failed ids of a list are those of its first part followed by
      those of the rest: the loop reports failures in iteration order. */
  lemma {:induction false} FailedIdsAppend(u1: seq<UserRow>, d1: seq<bool>, u2: seq<UserRow>, d2: seq<bool>)
    requires |d1| == |u1| && |d2| == |u2|
    ensures FailedIds(u1 + u2, d1 + d2) == FailedIds(u1, d1) + FailedIds(u2, d2)
  {
    if |u2| > 0 {
      var n := |u2| - 1;
      FailedIdsAppend(u1, d1, u2[..n], d2[..n]);
      assert (u1 + u2)[..|u1| + n] == u1 + u2[..n];
      assert (d1 + d2)[..|d1| + n] == d1 + d2[..n];
    } else {
      assert u1 + u2 == u1 && d1 + d2 == d1;
    }
  }

  /** The `/notify` loop: one send per user in order; a failed send is
      tallied and recorded and the loop goes on. Returns the two tallies,
      the failed ids and the transport calls made. */
  method Broadcast(users: seq<UserRow>, text: string, delivered: seq<bool>)
    returns (sent: nat, failed: nat, failedIds: seq<int>, calls: seq<Event>)
    requires |delivered| == |users|
    ensures calls == SendCalls(users, text)
    ensures failedIds == FailedIds(users, delivered)
    ensures failed == |failedIds| == CountFailures(delivered)
    ensures sent + failed == |users|
  {
    sent, failed, failedIds, calls := 0, 0, [], [];
    var i := 0;
    while i < |users|
      invariant 0 <= i <= |users|
      invariant calls == SendCalls(users[..i], text)
      invariant failedIds == FailedIds(users[..i], delivered[..i])
      invariant failed == |failedIds|
      invariant sent + failed == i
    {
      calls := calls + [Send(users[i].telegramId, text)];
      if delivered[i] {
        sent := sent + 1;
      } else {
        failed := failed + 1;
        failedIds := failedIds + [users[i].telegramId];
      }
      assert users[..i + 1][..i] == users[..i];
      assert delivered[..i + 1][..i] == delivered[..i];
      i := i + 1;
    }
    assert users[..i] == users;
    assert delivered[..i] == delivered;
    FailedIdsCount(users, delivered);
  }

  /** `str` of each failed id. */
  function IdStrings(ids: seq<int>): (r: seq<string>)
    ensures |r| == |ids|
  {
    seq(|ids|, k requires 0 <= k < |ids| => IntToString(ids[k]))
  }

  function BroadcastText(sent: nat, failed: nat): string {
    "Broadcast complete! Sent to " + NatToString(sent) + " users. Failed for " + NatToString(failed) + " users."
  }

  /** `', '.join(failed_user_ids) or 'N/A'`: `N/A` exactly when no send
      failed. */
  function FailedIdsText(failedIds: seq<int>): (t: string)
    ensures t == "N/A" <==> |failedIds| == 0
  {
    var joined := Join(", ", IdStrings(failedIds));
    JoinedIdsStartWithNumber(failedIds);
    if joined == "" then "N/A" else joined
  }

  /** Joined failed ids start like a number, so they are never `N/A`. */
  lemma JoinedIdsStartWithNumber(failedIds: seq<int>)
    ensures var joined := Join(", ", IdStrings(failedIds));
      |failedIds| > 0 ==> joined != "" && (joined[0] == '-' || IsDigit(joined[0]))
  {
    if |failedIds| > 0 {
      var first := IntToString(failedIds[0]);
      assert first[0] == '-' || IsDigit(first[0]);
      JoinCons(", ", first, IdStrings(failedIds)[1..]);
      assert IdStrings(failedIds) == [first] + IdStrings(failedIds)[1..];
    }
  }

  const MessagePrefix := "Message: \""

  /** The broadcast's log details: the message text in quotes first, the
      failed ids (or `N/A`) last. */
  function BroadcastDetails(text: string, sent: nat, failed: nat, failedIds: seq<int>): (r: string)
    ensures |r| > |MessagePrefix| + |text| && r[..|MessagePrefix| + |text|] == MessagePrefix + text
    ensures var ids := FailedIdsText(failedIds) + ")"; |r| >= |ids| && r[|r| - |ids|..] == ids
  {
    MessagePrefix + text + "\" | Sent: " + NatToString(sent) + ", Failed: " + NatToString(failed)
      + " (IDs: " + FailedIdsText(failedIds) + ")"
  }
}

/** Client walks through the handlers, proved from their contracts alone. */
module Scenarios {
  import opened Wrappers
  import opened Text
  import opened Store
  import opened Outbox
  import opened RegistrationFlow
  import opened Admin
  import opened Handlers

  /** A user who is not yet registered issues `/start` twice, then clicks
      the accept button twice: the table gains their record exactly once. */
  method AcceptRegistersOnce(adminId: Option<int>, rows: seq<Registration>, user: User)
    requires DistinctIds(rows) && !HasId(rows, user.id) && user.id >= 0
  {
    var bot := new Bot(adminId, None, rows);
    bot.Start(user, false);
    bot.Start(user, false);
    assert bot.rows == rows;

    YesButtonRoundTrip(user.id);
    YesButtonDispatched(user.id);
    bot.HandleCallbackQuery(user, YesButtonData(user.id), false, false);
    assert bot.rows == rows + [NewRecord(user)];
    assert bot.rows[|rows|].telegramId == user.id;

    bot.HandleCallbackQuery(user, YesButtonData(user.id), false, false);
    assert bot.rows == rows + [NewRecord(user)];
  }

  /** Someone else clicking a user's accept button is turned away and the
      table stays as it was. */
  method SomeoneElseClicks(adminId: Option<int>, rows: seq<Registration>, owner: int, clicker: User)
    requires DistinctIds(rows) && owner > 0 && owner != clicker.id
  {
    var bot := new Bot(adminId, None, rows);
    YesButtonRejectsOthers(owner, clicker.id);
    YesButtonDispatched(owner);
    bot.HandleCallbackQuery(clicker, YesButtonData(owner), false, false);
    assert bot.rows == rows;
    assert bot.outbox == [Answer, Edit(NotForYou)];
  }

  /** The decline button as written is never answered; the intended one is,
      and neither writes to the table. */
  method Decline(adminId: Option<int>, rows: seq<Registration>, user: User)
    requires DistinctIds(rows) && user.id >= 0
  {
    var bot := new Bot(adminId, None, rows);
    NoButtonAsWrittenNeverDispatched();
    bot.HandleCallbackQuery(user, NoButtonDataAsWritten, false, false);
    assert bot.outbox == [] && bot.rows == rows;

    NoButtonDispatched(user.id);
    bot.HandleCallbackQuery(user, NoButtonData(user.id), false, false);
    assert bot.outbox == [Answer, Edit(Declined)] && bot.rows == rows;
  }

  /** A requester who is not the administrator gets the refusal from each
      administrator command, and neither the table nor the audit log is
      touched. */
  method NonAdminRefused(adminId: Option<int>, rows: seq<Registration>, requester: int, args: seq<string>)
    requires DistinctIds(rows) && adminId != Some(requester)
  {
    var bot := new Bot(adminId, None, rows);
    bot.Count(requester, false);
    bot.List(requester, false);
    bot.Notify(requester, args, false, seq(|rows|, _ => true));
    assert bot.adminLog == [] && bot.storeCalls == [];
    assert bot.outbox == [Reply(Unauthorized), Reply(Unauthorized), Reply(Unauthorized)];
  }
}

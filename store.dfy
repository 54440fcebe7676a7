/** The contract of the data-access helpers in lib/supabase.py, over an
    abstract `registrations` table. The table is the sequence of its rows in
    insertion order; every helper turns a backend fault into `None`, which
    the model receives as a `fault` argument. */
module Store {
  import opened Wrappers

  /** A row of `registrations`: `telegram_id` (assumed unique: the primary key), `username` as
      Telegram gave it (possibly `None`), `first_name` (never empty). */
  datatype Registration = Registration(telegramId: int, username: Option<string>, firstName: string)

  /** What `get_registered_users_list` selects: `telegram_id, username`. */
  datatype UserRow = UserRow(telegramId: int, username: Option<string>)

  /** The table's uniqueness constraint on `telegram_id`. */
  ghost predicate DistinctIds(rows: seq<Registration>) {
    forall i, j :: 0 <= i < j < |rows| ==> rows[i].telegramId != rows[j].telegramId
  }

  predicate HasId(rows: seq<Registration>, id: int) {
    exists i :: 0 <= i < |rows| && rows[i].telegramId == id
  }

  /** `is_user_registered`: `None` on a fault, otherwise whether a row with
      the id exists (`bool(response.data)`). */
  function IsUserRegistered(rows: seq<Registration>, id: int, fault: bool): Option<bool>
  {
    if fault then None else Some(HasId(rows, id))
  }

  /** `register_user`: the inserted row, or `None` when the backend fails or
      the id is already taken (the uniqueness constraint). The second
      component is the table afterwards. */
  function RegisterUser(rows: seq<Registration>, rec: Registration, fault: bool): (Option<Registration>, seq<Registration>)
  {
    if fault || HasId(rows, rec.telegramId) then (None, rows)
    else (Some(rec), rows + [rec])
  }

  /** `get_registered_user_count`: the exact number of rows, or `None`. */
  function RegisteredUserCount(rows: seq<Registration>, fault: bool): (r: Option<nat>)
    ensures r.Some? <==> RegisteredUsersList(rows, fault).Some?
    ensures r.Some? ==> r.value == |RegisteredUsersList(rows, fault).value|
  {
    if fault then None else Some(|rows|)
  }

  function Project(r: Registration): UserRow {
    UserRow(r.telegramId, r.username)
  }

  /** `get_registered_users_list`: every row's id and username, in table
      order, or `None`. */
  function RegisteredUsersList(rows: seq<Registration>, fault: bool): Option<seq<UserRow>>
  {
    if fault then None else Some(seq(|rows|, k requires 0 <= k < |rows| => Project(rows[k])))
  }

  /** An insert keeps the ids unique. */
  lemma RegisterUserKeepsDistinct(rows: seq<Registration>, rec: Registration, fault: bool)
    requires DistinctIds(rows)
    ensures DistinctIds(RegisterUser(rows, rec, fault).1)
  {
    var after := RegisterUser(rows, rec, fault).1;
    if after != rows {
      forall i, j | 0 <= i < j < |after|
        ensures after[i].telegramId != after[j].telegramId
      {
        if j == |rows| {
          assert after[i] == rows[i];
        }
      }
    }
  }

  /** The list and the count agree: `/list` shows as many users as `/count`
      reports, and a successful insert makes the id registered and adds
      exactly one to the count. */
  lemma RegisterThenLookup(rows: seq<Registration>, rec: Registration, fault: bool)
    requires RegisterUser(rows, rec, fault).0.Some?
    ensures IsUserRegistered(RegisterUser(rows, rec, fault).1, rec.telegramId, false) == Some(true)
    ensures IsUserRegistered(rows, rec.telegramId, false) == Some(false)
    ensures RegisteredUserCount(RegisterUser(rows, rec, fault).1, false) == Some(|rows| + 1)
  {
    var after := RegisterUser(rows, rec, fault).1;
    assert after[|rows|].telegramId == rec.telegramId;
  }

  /** The lookup and the list agree: an id is reported registered exactly
      when the list the administrator sees holds a user with that id. */
  lemma LookupAgreesWithList(rows: seq<Registration>, id: int)
    ensures IsUserRegistered(rows, id, false) == Some(true) <==>
      exists k :: 0 <= k < |rows| && RegisteredUsersList(rows, false).value[k].telegramId == id
  {
    var users := RegisteredUsersList(rows, false).value;
    if HasId(rows, id) {
      var k :| 0 <= k < |rows| && rows[k].telegramId == id;
      assert users[k].telegramId == id;
    }
  }

  /** An id is registered at most once: after a successful insert, any
      later insert with the same id fails and leaves the table as it is. */
  lemma RegisterAtMostOnce(rows: seq<Registration>, rec: Registration, fault: bool, again: Registration, faultAgain: bool)
    requires RegisterUser(rows, rec, fault).0.Some?
    requires again.telegramId == rec.telegramId
    ensures var after := RegisterUser(rows, rec, fault).1;
      RegisterUser(after, again, faultAgain) == (None, after)
  {
    var after := RegisterUser(rows, rec, fault).1;
    assert after[|rows|].telegramId == again.telegramId;
  }

  /** After a successful insert the list shows the earlier users in the same
      order, then the new one. */
  lemma ListAfterRegister(rows: seq<Registration>, rec: Registration, fault: bool)
    requires RegisterUser(rows, rec, fault).0.Some?
    ensures RegisteredUsersList(RegisterUser(rows, rec, fault).1, false)
         == Some(RegisteredUsersList(rows, false).value + [UserRow(rec.telegramId, rec.username)])
  {
    var before := RegisteredUsersList(rows, false).value;
    var after := RegisteredUsersList(RegisterUser(rows, rec, fault).1, false).value;
    assert after == before + [UserRow(rec.telegramId, rec.username)];
  }

  /** With the table's ids distinct, the list names every user once. */
  lemma ListIdsDistinct(rows: seq<Registration>)
    requires DistinctIds(rows)
    ensures var users := RegisteredUsersList(rows, false).value;
      forall i, j :: 0 <= i < j < |users| ==> users[i].telegramId != users[j].telegramId
  {
  }
}

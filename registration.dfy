/** The pure parts of the registration flow in api/bot.py: the texts, the
    registration prompt and its buttons, the parsing of a button's callback
    data, the ownership guard, and the pattern the callback handler is
    registered under. */
module RegistrationFlow {
  import opened Wrappers
  import opened Text
  import opened Outbox

  // ---------------------------------------------------------------------
  // Fixed texts
  // ---------------------------------------------------------------------

  const GenericFailure := "Something went wrong, please try again later."
  const AlreadyRegistered := "You’re already registered. I’ll notify you when the app is live."
  const NotForYou := "This registration prompt is not for you."
  const RegistrationFailed := "Something went wrong during registration, please try again later."
  const Declined := "No problem! You can type /start again anytime if you change your mind."

  function Thanks(firstName: Option<string>): string {
    "🎉 Great! Thanks for registering, " + OrElse(firstName, "there")
      + "! I’ll notify you when the Portfolio Showcase app is ready."
  }

  // ---------------------------------------------------------------------
  // The registration prompt
  // ---------------------------------------------------------------------

  // The prompt's lines, without their line breaks.

  function GreetingLine(firstName: Option<string>): string {
    "Hello " + OrElse(firstName, "there") + "! I see you're not yet registered."
  }

  const CollectLine := "I'll collect the following information to keep you updated:"

  function IdLine(id: int): string {
    "• Your Telegram ID: `" + IntToString(id) + "`"
  }

  function UsernameLine(username: Option<string>): string {
    if Truthy(username) then "• Your Username: `@" + username.value + "`"
    else "• Your Username: `Not available` (You can set one in Telegram settings!)"
  }

  function FirstNameLine(firstName: Option<string>): string {
    "• Your First Name: `" + OrElse(firstName, "Not provided") + "`"
  }

  const ClosingQuestion := "Would you like to register for updates about the Portfolio Showcase app?"

  /** The prompt as api/bot.py builds it. Python joins adjacent string
      literals before it applies `... if username else ...`, so the
      condition picks between two halves of the whole text: with a username
      the prompt stops after the username line, without one it is only the
      last three lines. */
  function PromptTextAsWritten(id: int, username: Option<string>, firstName: Option<string>): (r: string)
    // with a username: the intended prompt cut off after the username line
    ensures Truthy(username) ==>
      |r| < |PromptText(id, username, firstName)| && r == PromptText(id, username, firstName)[..|r|]
    // without one: the intended prompt with its first four lines cut off
    ensures !Truthy(username) ==>
      var full := PromptText(id, username, firstName);
      |r| < |full| && r == full[|full| - |r|..]
  {
    var before := GreetingLine(firstName) + "\n" + "\n" + CollectLine + "\n" + IdLine(id) + "\n";
    PrependTail(before, UsernameLine(username), FirstNameLine(firstName), ClosingQuestion);
    CutAfter(before + UsernameLine(username) + "\n", FirstNameLine(firstName), ClosingQuestion);
    CutBefore(before, UsernameLine(username) + "\n" + FirstNameLine(firstName) + "\n" + "\n" + ClosingQuestion);
    if Truthy(username) then
      GreetingLine(firstName) + "\n" + "\n" + CollectLine + "\n" + IdLine(id) + "\n" + UsernameLine(username) + "\n"
    else
      UsernameLine(username) + "\n" + FirstNameLine(firstName) + "\n" + "\n" + ClosingQuestion
  }

  lemma CutAfter(w: string, f: string, q: string)
    ensures |w| < |w + f + "\n" + "\n" + q| && w == (w + f + "\n" + "\n" + q)[..|w|]
  {
  }

  lemma CutBefore(p: string, t: string)
    requires |p| > 0
    ensures |t| < |p + t| && t == (p + t)[|p + t| - |t|..]
  {
  }

  lemma PrependTail(p: string, u: string, f: string, q: string)
    ensures p + (u + "\n" + f + "\n" + "\n" + q) == p + u + "\n" + f + "\n" + "\n" + q
  {
  }

  /** The prompt as evidently intended: every line, with only the username
      line depending on whether there is a username. */
  function PromptText(id: int, username: Option<string>, firstName: Option<string>): string {
    GreetingLine(firstName) + "\n" + "\n" + CollectLine + "\n" + IdLine(id) + "\n"
      + UsernameLine(username) + "\n" + FirstNameLine(firstName) + "\n" + "\n" + ClosingQuestion
  }

  /** The lines a reader sees in the intended prompt. */
  function PromptLines(id: int, username: Option<string>, firstName: Option<string>): seq<string> {
    [GreetingLine(firstName), "", CollectLine, IdLine(id), UsernameLine(username),
     FirstNameLine(firstName), "", ClosingQuestion]
  }

  /** The intended prompt is its lines joined by line breaks: the greeting,
      a blank line, the preamble, the Telegram id, the username (or the
      placeholder), the first name, a blank line and the question, whatever
      the username is. */
  lemma PromptTextLines(id: int, username: Option<string>, firstName: Option<string>)
    ensures PromptText(id, username, firstName) == Join("\n", PromptLines(id, username, firstName))
  {
    JoinEight(GreetingLine(firstName), CollectLine, IdLine(id), UsernameLine(username),
      FirstNameLine(firstName), ClosingQuestion);
  }

  /** As written, the prompt with a username is only the first five lines
      (and a final line break); the one without a username is only the lines
      from the placeholder line on: no greeting and no Telegram id. */
  lemma PromptAsWrittenLines(id: int, username: Option<string>, firstName: Option<string>)
    ensures Truthy(username) ==>
              PromptTextAsWritten(id, username, firstName) == Join("\n", PromptLines(id, username, firstName)[..5] + [""])
    ensures !Truthy(username) ==>
              PromptTextAsWritten(id, username, firstName) == Join("\n", PromptLines(id, username, firstName)[4..])
  {
    var lines := PromptLines(id, username, firstName);
    if Truthy(username) {
      JoinSixEndingBlank(GreetingLine(firstName), CollectLine, IdLine(id), UsernameLine(username));
      assert lines[..5] + [""] == [lines[0], "", lines[2], lines[3], lines[4], ""];
    } else {
      JoinFourWithBlank(UsernameLine(username), FirstNameLine(firstName), ClosingQuestion);
      assert lines[4..] == [lines[4], lines[5], "", lines[7]];
    }
  }

  lemma JoinEight(g: string, c: string, i: string, u: string, f: string, q: string)
    ensures Join("\n", [g, "", c, i, u, f, "", q])
         == g + "\n" + "\n" + c + "\n" + i + "\n" + u + "\n" + f + "\n" + "\n" + q
  {
    JoinCons("\n", g, ["", c, i, u, f, "", q]);
    JoinCons("\n", "", [c, i, u, f, "", q]);
    JoinSixAfterBlank(c, i, u, f, q);
    var tail := c + "\n" + i + "\n" + u + "\n" + f + "\n" + "\n" + q;
    assert Join("\n", [g, "", c, i, u, f, "", q]) == g + "\n" + ("" + "\n" + tail);
    assert g + "\n" + ("" + "\n" + tail) == g + "\n" + "\n" + tail;
    Prepend(g + "\n" + "\n", c, i, u, f, q);
  }

  lemma Prepend(p: string, c: string, i: string, u: string, f: string, q: string)
    ensures p + (c + "\n" + i + "\n" + u + "\n" + f + "\n" + "\n" + q)
         == p + c + "\n" + i + "\n" + u + "\n" + f + "\n" + "\n" + q
  {
  }

  lemma JoinSixAfterBlank(c: string, i: string, u: string, f: string, q: string)
    ensures Join("\n", [c, i, u, f, "", q]) == c + "\n" + i + "\n" + u + "\n" + f + "\n" + "\n" + q
  {
    JoinCons("\n", c, [i, u, f, "", q]);
    JoinCons("\n", i, [u, f, "", q]);
    JoinCons("\n", u, [f, "", q]);
    JoinFourWithBlank(u, f, q);
  }

  lemma JoinSixEndingBlank(g: string, c: string, i: string, u: string)
    ensures Join("\n", [g, "", c, i, u, ""]) == g + "\n" + "\n" + c + "\n" + i + "\n" + u + "\n"
  {
    JoinCons("\n", g, ["", c, i, u, ""]);
    JoinCons("\n", "", [c, i, u, ""]);
    JoinFourEndingBlank(c, i, u);
    var tail := c + "\n" + i + "\n" + u + "\n";
    assert Join("\n", [g, "", c, i, u, ""]) == g + "\n" + ("" + "\n" + tail);
    assert g + "\n" + ("" + "\n" + tail) == g + "\n" + "\n" + tail;
    PrependFour(g + "\n" + "\n", c, i, u);
  }

  lemma PrependFour(p: string, c: string, i: string, u: string)
    ensures p + (c + "\n" + i + "\n" + u + "\n") == p + c + "\n" + i + "\n" + u + "\n"
  {
  }

  lemma JoinFourEndingBlank(c: string, i: string, u: string)
    ensures Join("\n", [c, i, u, ""]) == c + "\n" + i + "\n" + u + "\n"
  {
    JoinCons("\n", "", []);
    JoinCons("\n", u, [""]);
    JoinCons("\n", i, [u, ""]);
    JoinCons("\n", c, [i, u, ""]);
  }

  lemma JoinFourWithBlank(u: string, f: string, q: string)
    ensures Join("\n", [u, f, "", q]) == u + "\n" + f + "\n" + "\n" + q
  {
    JoinCons("\n", q, []);
    JoinCons("\n", "", [q]);
    JoinCons("\n", f, ["", q]);
    JoinCons("\n", u, [f, "", q]);
  }

  /** The prompt as written never equals the intended one: with a username
      it ends at the username line, and without one it is shorter by the
      greeting, the preamble and the Telegram id. */
  lemma PromptAsWrittenDiffers(id: int, username: Option<string>, firstName: Option<string>)
    ensures PromptTextAsWritten(id, username, firstName) != PromptText(id, username, firstName)
  {
    var written := PromptTextAsWritten(id, username, firstName);
    var intended := PromptText(id, username, firstName);
    if Truthy(username) {
      assert written[|written| - 1] == '\n';
      assert ClosingQuestion[|ClosingQuestion| - 1] == '?';
      assert intended[|intended| - 1] == ClosingQuestion[|ClosingQuestion| - 1];
    } else {
      assert |intended| > |written|;
    }
  }

  // ---------------------------------------------------------------------
  // Buttons and their callback data
  // ---------------------------------------------------------------------

  const YesCaption := "✅ Yes, register me!"
  const NoCaption := "❌ No, thanks."
  const ContactCaption := "❓ Contact Admin"

  const YesAction := "register_yes"
  const NoAction := "register_no"

  function YesButtonData(id: int): string {
    YesAction + ":" + IntToString(id)
  }

  /** The decline button's data as api/bot.py writes it: no id. */
  const NoButtonDataAsWritten := NoAction

  /** The decline button's data as evidently intended, like the accept
      button's. */
  function NoButtonData(id: int): string {
    NoAction + ":" + IntToString(id)
  }

  /** The prompt's inline keyboard: accept and decline, then a link to the
      administrator when an administrator username is configured. */
  function PromptKeyboard(id: int, adminUsername: Option<string>): seq<seq<Button>>
  {
    [[CallbackButton(YesCaption, YesButtonData(id)), CallbackButton(NoCaption, NoButtonData(id))]]
      + if Truthy(adminUsername) then [[UrlButton(ContactCaption, "https://t.me/" + adminUsername.value)]] else []
  }

  /** The reply to `/start` from a user who is not registered. */
  function PromptReply(id: int, username: Option<string>, firstName: Option<string>, adminUsername: Option<string>): Event {
    ReplyWithKeyboard(PromptText(id, username, firstName), PromptKeyboard(id, adminUsername))
  }

  // ---------------------------------------------------------------------
  // Parsing callback data and the ownership guard
  // ---------------------------------------------------------------------

  /** The result of reading callback data: the action and the carried id,
      or the `ValueError` that `int(...)` raises on a non-numeric field. */
  datatype CallbackParse = Parsed(action: string, carriedId: Option<int>) | ValueError

  /** `action = data.split(':')[0]` and
      `int(data.split(':')[1]) if ':' in data else None`. */
  function ParseCallback(data: string): (r: CallbackParse)
    ensures ':' !in data ==> r == Parsed(data, None)
    ensures r.Parsed? ==> ':' !in r.action && |r.action| <= |data| && data[..|r.action|] == r.action
    ensures r.Parsed? && |r.action| < |data| ==> data[|r.action|] == ':'
    ensures r.Parsed? ==> (r.carriedId.Some? <==> ':' in data)
    // with a `:`, the id is `int` of the text after the first `:` up to the
    // next one, and `int()` raising is exactly that text not being a number
    ensures ':' in data ==>
      var action := Split(data, ':')[0];
      |action| < |data| &&
      var field := Split(data[|action| + 1..], ':')[0];
      (r.ValueError? <==> ParseInt(field).None?) && (r.Parsed? ==> r == Parsed(action, ParseInt(field)))
  {
    var fields := Split(data, ':');
    SplitHead(data, ':');
    if ':' !in data then
      SplitNoSep(data, ':');
      Parsed(fields[0], None)
    else
      assert data == fields[0] + [':'] + data[|fields[0]| + 1..];
      SplitAfterSep(fields[0], data[|fields[0]| + 1..], ':');
      match ParseInt(fields[1])
      case None => ValueError
      case Some(n) => Parsed(fields[0], Some(n))
  }

  /** The guard: a carried id that is present, non-zero (Python truthiness)
      and not the clicker's own id turns the click away. */
  predicate RejectsClicker(carriedId: Option<int>, clickerId: int) {
    carriedId.Some? && carriedId.value != 0 && carriedId.value != clickerId
  }

  /** The accept button's data reads back as `register_yes` with the id of
      the user it was made for, and that user passes the guard. */
  lemma YesButtonRoundTrip(id: int)
    ensures ParseCallback(YesButtonData(id)) == Parsed(YesAction, Some(id))
    ensures !RejectsClicker(Some(id), id)
  {
    ButtonDataParses(YesAction, id);
  }

  /** A button made for one user and clicked by another (its id non-zero) is
      always turned away. */
  lemma YesButtonRejectsOthers(owner: int, clicker: int)
    requires owner != clicker && owner != 0
    ensures ParseCallback(YesButtonData(owner)).Parsed?
    ensures RejectsClicker(ParseCallback(YesButtonData(owner)).carriedId, clicker)
  {
    YesButtonRoundTrip(owner);
  }

  /** On the prompt's own buttons the guard turns a clicker away exactly
      when the owner's id is non-zero and not the clicker's: an owner id of
      0 is falsy and lets everyone through. */
  lemma ButtonGuard(owner: int, clicker: int)
    ensures ParseCallback(YesButtonData(owner)).Parsed? && ParseCallback(NoButtonData(owner)).Parsed?
    ensures RejectsClicker(ParseCallback(YesButtonData(owner)).carriedId, clicker) <==> owner != 0 && owner != clicker
    ensures RejectsClicker(ParseCallback(NoButtonData(owner)).carriedId, clicker) <==> owner != 0 && owner != clicker
  {
    ButtonDataParses(YesAction, owner);
    ButtonDataParses(NoAction, owner);
  }

  lemma ButtonDataParses(action: string, id: int)
    requires ':' !in action
    ensures ParseCallback(action + ":" + IntToString(id)) == Parsed(action, Some(id))
  {
    var data := action + ":" + IntToString(id);
    IntToStringHasNo(id, ':');
    SplitAfterSep(action, IntToString(id), ':');
    SplitNoSep(IntToString(id), ':');
    IntToStringRoundTrip(id);
    assert data[|action|] == ':';
  }

  // ---------------------------------------------------------------------
  // The pattern the callback handler is registered under
  // ---------------------------------------------------------------------

  /** `re.match(r'register_(yes|no):\d+', data)`: the data starts with
      `register_yes:` or `register_no:` followed by at least one digit;
      whatever follows is not examined. */
  predicate MatchesCallbackPattern(data: string): (ok: bool)
    ensures ok ==> ':' in data && |data| > 12
  {
    assert |data| > 13 && data[..13] == "register_yes:" ==> data[12] == ':';
    assert |data| > 12 && data[..12] == "register_no:" ==> data[11] == ':';
    || (|data| > 13 && data[..13] == "register_yes:" && IsDigit(data[13]))
    || (|data| > 12 && data[..12] == "register_no:" && IsDigit(data[12]))
  }

  /** Data the pattern lets through has `register_yes` or `register_no`
      before its first `:`, so the handler reads one of those two actions
      and, whenever the id reads back, carries an id: no other action ever
      reaches the handler. */
  lemma PatternFixesAction(data: string)
    requires MatchesCallbackPattern(data)
    ensures Split(data, ':')[0] == YesAction || Split(data, ':')[0] == NoAction
    ensures ParseCallback(data).Parsed? ==>
      ParseCallback(data).carriedId.Some?
      && (ParseCallback(data).action == YesAction || ParseCallback(data).action == NoAction)
  {
    var action := Split(data, ':')[0];
    SplitHead(data, ':');
    if |data| > 13 && data[..13] == "register_yes:" {
      assert data[..12] == data[..13][..12] == YesAction;
      ActionBeforeColon(data, YesAction);
    } else {
      assert data[..11] == data[..12][..11] == NoAction;
      ActionBeforeColon(data, NoAction);
    }
  }

  /** A colon-free action followed by `:` is the first field. */
  lemma ActionBeforeColon(data: string, action: string)
    requires ':' !in action && |action| < |data|
    requires data[..|action|] == action && data[|action|] == ':'
    ensures Split(data, ':')[0] == action
  {
    var head := Split(data, ':')[0];
    SplitHead(data, ':');
    ColonFreePrefix(data, action, head);
  }

  /** Two colon-free prefixes of a text that each end at a `:` (or at the
      end of the text) are the same. */
  lemma ColonFreePrefix(data: string, action: string, head: string)
    requires ':' !in action && |action| < |data|
    requires data[..|action|] == action && data[|action|] == ':'
    requires ':' !in head && |head| <= |data| && data[..|head|] == head
    requires |head| < |data| ==> data[|head|] == ':'
    ensures head == action
  {
  }

  /** Every callback button on the prompt carries the accept or the
      decline data of the prompt's own user. */
  lemma PromptKeyboardData(id: int, adminUsername: Option<string>)
    ensures var k := PromptKeyboard(id, adminUsername);
      forall i, j :: 0 <= i < |k| && 0 <= j < |k[i]| && k[i][j].CallbackButton? ==>
        k[i][j].data == YesButtonData(id) || k[i][j].data == NoButtonData(id)
  {
  }

  /** Every callback button on the prompt reads back as accept or decline
      with the id of the user the prompt was made for, who passes the
      guard; for a non-negative id each one reaches the handler. */
  lemma PromptKeyboardRoundTrip(id: int, adminUsername: Option<string>)
    ensures var k := PromptKeyboard(id, adminUsername);
      forall i, j :: 0 <= i < |k| && 0 <= j < |k[i]| && k[i][j].CallbackButton? ==>
        var p := ParseCallback(k[i][j].data);
        p.Parsed? && p.carriedId == Some(id) && !RejectsClicker(p.carriedId, id)
        && (p.action == YesAction || p.action == NoAction)
        && (id >= 0 ==> MatchesCallbackPattern(k[i][j].data))
  {
    PromptKeyboardData(id, adminUsername);
    YesButtonRoundTrip(id);
    ButtonDataParses(NoAction, id);
    if id >= 0 {
      YesButtonDispatched(id);
      NoButtonDispatched(id);
    }
  }

  /** The accept button of a (non-negative) Telegram id reaches the handler. */
  lemma YesButtonDispatched(id: int)
    requires id >= 0
    ensures MatchesCallbackPattern(YesButtonData(id))
  {
    var data := YesButtonData(id);
    assert data[13] == NatToString(id)[0];
  }

  /** The decline button as written never reaches the handler: it carries no
      `:` and no digits, so a click on it is never answered and never edits
      the prompt. */
  lemma NoButtonAsWrittenNeverDispatched()
    ensures !MatchesCallbackPattern(NoButtonDataAsWritten)
  {
  }

  /** The intended decline button reaches the handler and reads back as
      `register_no` for its own user, who passes the guard. */
  lemma NoButtonDispatched(id: int)
    requires id >= 0
    ensures MatchesCallbackPattern(NoButtonData(id))
    ensures ParseCallback(NoButtonData(id)) == Parsed(NoAction, Some(id))
    ensures !RejectsClicker(Some(id), id)
  {
    var data := NoButtonData(id);
    assert data[12] == NatToString(id)[0];
    ButtonDataParses(NoAction, id);
  }
}

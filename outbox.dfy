/** What the bot hands to the Telegram transport. Markdown parse modes are
    not part of the model. */
module Outbox {

  /** An inline keyboard button: callback data, or a link. */
  datatype Button =
    | CallbackButton(caption: string, data: string)
    | UrlButton(caption: string, url: string)

  datatype Event =
    | Reply(text: string)                                          // update.message.reply_text
    | ReplyWithKeyboard(text: string, keyboard: seq<seq<Button>>)  // reply_text(..., reply_markup=...)
    | Edit(text: string)                                           // query.edit_message_text
    | Answer                                                       // query.answer()
    | Send(chatId: int, text: string)                              // context.bot.send_message
}

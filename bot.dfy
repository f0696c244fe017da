/** `SyncFamilyBot.consume`: the choice of one handler per update. */
module SyncFamilyBot {
  import opened Wrappers
  import opened Telegram

  /** The three entry points of `HandleService`. */
  datatype Handler = HandleCommand | HandleTextMessage | HandleCallbackQuery

  /**
   * A message with text goes to the command handler when the text starts
   * with "/" and to the text handler otherwise; failing that, a callback
   * query goes to the callback handler; anything else is ignored.
   */
  function Consume(update: Update): (h: Option<Handler>)
    ensures h == Some(HandleCommand) <==>
      update.message.Some? && update.message.value.text.Some? && "/" <= update.message.value.text.value
    ensures h == Some(HandleTextMessage) <==>
      update.message.Some? && update.message.value.text.Some? && !("/" <= update.message.value.text.value)
    ensures h == Some(HandleCallbackQuery) <==>
      !(update.message.Some? && update.message.value.text.Some?) && update.callbackQuery.Some?
    ensures h == None <==>
      !(update.message.Some? && update.message.value.text.Some?) && update.callbackQuery.None?
  {
    if update.message.Some? && update.message.value.text.Some? then
      if "/" <= update.message.value.text.value then Some(HandleCommand) else Some(HandleTextMessage)
    else if update.callbackQuery.Some? then Some(HandleCallbackQuery)
    else None
  }
}

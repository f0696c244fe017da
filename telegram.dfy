/**
 * The slice of the Telegram Bot API the bot touches: incoming updates, inline
 * keyboards, outgoing calls, and a transport that records every call it is
 * asked to make.
 */
module Telegram {
  import opened Wrappers

  /** An incoming chat message; `text` is absent for stickers, photos and the like. */
  datatype Message = Message(chatId: int, messageId: int, text: Option<string>, fromFirstName: string)

  /** A press on an inline button: the query id, the button's callback data and the message it sits under. */
  datatype CallbackQuery = CallbackQuery(id: string, data: Option<string>, message: Message, fromFirstName: string)

  /** An update delivered by long polling. */
  datatype Update = Update(message: Option<Message>, callbackQuery: Option<CallbackQuery>)

  /** An inline keyboard button: one that posts callback data back, or one that opens a URL. */
  datatype Button = CallbackButton(text: string, callbackData: string) | UrlButton(text: string, url: string)

  /** An inline keyboard: rows of buttons, top to bottom. */
  type Keyboard = seq<seq<Button>>

  /**
   * The texts the bot sends. Only the parts that vary are kept: who acted,
   * the status verb and the product name.
   */
  datatype Text =
    | Greeting
    | JoinSucceeded
    | JoinFailed
    | FamilyCreated
    | ListUpdated(actor: string)
    | BuyStatus(actor: string, verb: string, productName: string)
    | LegacyBuyStatus(actor: string, productName: string)

  /** One Bot API call, in the order the bot makes them. */
  datatype Event =
    | SendMessage(chatId: int, text: Text, replyMarkup: Option<Keyboard>)
    | EditMessageText(chatId: int, messageId: int, text: Text, keyboard: Keyboard)
    | EditMessageReplyMarkup(chatId: int, messageId: int, keyboard: Keyboard)
    | DeleteMessage(chatId: int, messageId: int)
    | AnswerCallbackQuery(queryId: string)
  {
    /** The chat the call is addressed to; an answer to a callback query names none. */
    function Chat(): Option<int> {
      match this
      case SendMessage(c, _, _) => Some(c)
      case EditMessageText(c, _, _, _) => Some(c)
      case EditMessageReplyMarkup(c, _, _) => Some(c)
      case DeleteMessage(c, _) => Some(c)
      case AnswerCallbackQuery(_) => None
    }
  }

  /** The answer to the first of `replies`: the sent message's id, or `None` when the call failed. */
  function NextReply(replies: seq<Option<int>>): Option<int> {
    if replies == [] then None else replies[0]
  }

  /** The answers left once one has been used. */
  function Later(replies: seq<Option<int>>): seq<Option<int>> {
    if replies == [] then [] else replies[1..]
  }

  /**
   * The transport. Every call is appended to `trace`; a `sendMessage` takes
   * its answer from `replies`, the answers the Bot API will give, in order
   * (once they run out every send fails). Exceptions become `None`, as in
   * `SendServiceImpl.send`.
   */
  class Client {
    var trace: seq<Event>
    var replies: seq<Option<int>>

    constructor (replies: seq<Option<int>>)
      ensures trace == [] && this.replies == replies
    {
      trace := [];
      this.replies := replies;
    }

    method Send(chatId: int, text: Text, markup: Option<Keyboard>) returns (sent: Option<int>)
      modifies this
      ensures trace == old(trace) + [SendMessage(chatId, text, markup)]
      ensures sent == NextReply(old(replies)) && replies == Later(old(replies))
    {
      trace := trace + [SendMessage(chatId, text, markup)];
      sent := NextReply(replies);
      replies := Later(replies);
    }

    method EditText(chatId: int, messageId: int, text: Text, markup: Keyboard)
      modifies this
      ensures trace == old(trace) + [EditMessageText(chatId, messageId, text, markup)]
      ensures replies == old(replies)
    {
      trace := trace + [EditMessageText(chatId, messageId, text, markup)];
    }

    method EditMarkup(chatId: int, messageId: int, markup: Keyboard)
      modifies this
      ensures trace == old(trace) + [EditMessageReplyMarkup(chatId, messageId, markup)]
      ensures replies == old(replies)
    {
      trace := trace + [EditMessageReplyMarkup(chatId, messageId, markup)];
    }

    method Delete(chatId: int, messageId: int)
      modifies this
      ensures trace == old(trace) + [DeleteMessage(chatId, messageId)]
      ensures replies == old(replies)
    {
      trace := trace + [DeleteMessage(chatId, messageId)];
    }

    method AnswerCallback(queryId: string)
      modifies this
      ensures trace == old(trace) + [AnswerCallbackQuery(queryId)]
      ensures replies == old(replies)
    {
      trace := trace + [AnswerCallbackQuery(queryId)];
    }
  }
}

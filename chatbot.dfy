/** The conversation session of PortfolioChatbot: the append-only message
    list, the open/closed flag, and the bot replies waiting on their timer. */
module Chatbot {
  import opened JsText
  import opened Responder
  import ResponderFacts

  datatype Sender = User | Bot

  /** The moment `new Date()` reads; the model treats it as an opaque value. */
  type Instant = int

  datatype Message = Message(text: string, sender: Sender, timestamp: Instant)

  /** The delay, in milliseconds, before a scheduled reply is delivered. */
  const ReplyDelay: nat := 1000

  class PortfolioChatbot {
    /** The `responses` object and the fixed replies the widget answers with. */
    const texts: ReplyTexts
    var isOpen: bool
    var messages: seq<Message>
    /** The trimmed user messages whose delayed reply has been scheduled and
        not yet delivered, in the order they were scheduled. */
    var pending: seq<string>

    /** Every pool a reply is drawn from exists and is non-empty, and no
        empty message ever gets a reply scheduled. */
    ghost predicate Valid()
      reads this
    {
      ValidTexts(texts) &&
      forall k :: 0 <= k < |pending| ==> pending[k] != []
    }

    /** constructor + init + addWelcomeMessage: closed, with one welcome
        message from the greetings pool. */
    constructor (roll: real, now: Instant)
      requires IsRoll(roll)
      ensures Valid() && texts == SiteTexts
      ensures !isOpen && pending == []
      ensures |messages| == 1 && messages[0].sender == Bot && messages[0].timestamp == now
      ensures messages[0].text in texts.responses["greetings"]
    {
      texts := SiteTexts;
      SiteTextsValid();
      isOpen := false;
      messages := [];
      pending := [];
      new;
      AddWelcomeMessage(roll, now);
    }

    method AddWelcomeMessage(roll: real, now: Instant)
      requires ValidTexts(texts) && IsRoll(roll)
      modifies this
      ensures isOpen == old(isOpen) && pending == old(pending)
      ensures messages == old(messages) + [Message(GetRandomResponse(texts, "greetings", roll), Bot, now)]
      ensures messages[|messages| - 1].text in texts.responses["greetings"]
    {
      var welcome := GetRandomResponse(texts, "greetings", roll);
      AddMessage(welcome, Bot, now);
    }

    method ToggleChatbot()
      modifies this
      ensures isOpen == !old(isOpen)
      ensures messages == old(messages) && pending == old(pending)
    {
      isOpen := !isOpen;
    }

    method CloseChatbot()
      modifies this
      ensures !isOpen
      ensures messages == old(messages) && pending == old(pending)
    {
      isOpen := false;
    }

    /** addMessage: append one message at the end; nothing else changes. */
    method AddMessage(text: string, sender: Sender, now: Instant)
      modifies this
      ensures messages == old(messages) + [Message(text, sender, now)]
      ensures isOpen == old(isOpen) && pending == old(pending)
    {
      messages := messages + [Message(text, sender, now)];
    }

    /** sendMessage, given what the input box holds: input that is empty
        after trimming changes nothing; otherwise the trimmed text is appended
        as a user message and its reply is scheduled. */
    method SendMessage(inputValue: string, now: Instant)
      requires Valid()
      modifies this
      ensures Valid()
      ensures isOpen == old(isOpen)
      ensures AllWhitespace(inputValue) ==>
                messages == old(messages) && pending == old(pending)
      ensures !AllWhitespace(inputValue) ==>
                messages == old(messages) + [Message(Trim(inputValue), User, now)] &&
                pending == old(pending) + [Trim(inputValue)]
    {
      var message := Trim(inputValue);
      TrimEmptyIff(inputValue);
      if message == [] {
        return;
      }
      AddMessage(message, User, now);
      pending := pending + [message];
    }

    /** The timer of the `k`-th scheduled reply fires: the reply to that
        message is appended as a bot message. Replies may fire in any order;
        with the constant delay they fire in the order they were scheduled. */
    method DeliverReply(k: nat, roll: real, now: Instant)
      requires Valid() && k < |pending| && IsRoll(roll)
      modifies this
      ensures Valid()
      ensures isOpen == old(isOpen)
      ensures pending == old(pending[..k] + pending[k + 1..])
      ensures messages == old(messages) + [Message(GenerateResponse(texts, old(pending[k]), roll), Bot, now)]
    {
      var message := pending[k];
      var response := GenerateResponse(texts, message, roll);
      AddMessage(response, Bot, now);
      pending := pending[..k] + pending[k + 1..];
    }
  }

  /** A blank send, then "hi" and its delivered reply, from any state with
      nothing pending: the blank submission changes nothing, and "hi" gets
      one user message at once and, when its timer fires `ReplyDelay`
      milliseconds later, one greeting from the bot. */
  method GreetingConversation(bot: PortfolioChatbot)
    requires bot.Valid() && bot.pending == []
    modifies bot
    ensures bot.Valid() && bot.pending == []
    ensures |bot.messages| == |old(bot.messages)| + 2
    ensures bot.messages[..|old(bot.messages)|] == old(bot.messages)
    ensures bot.messages[|bot.messages| - 2] == Message("hi", User, 2)
    ensures bot.messages[|bot.messages| - 1].sender == Bot
    ensures bot.messages[|bot.messages| - 1].text in bot.texts.responses["greetings"]
  {
    assert AllWhitespace("   ");
    bot.SendMessage("   ", 1);
    assert !IsWhitespace("hi"[0]);
    TrimUntouched("hi");
    bot.SendMessage("hi", 2);
    ghost var sent := bot.messages;
    assert sent == old(bot.messages) + [Message("hi", User, 2)];
    ResponderFacts.HiGetsGreeting(bot.texts, 0.25);
    bot.DeliverReply(0, 0.25, 2 + ReplyDelay);
    assert bot.messages[..|sent|] == sent;
  }
}

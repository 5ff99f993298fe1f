/**
 * The `POST /api/chats/:id/respond` handler (server/routes.ts): validate the
 * chat id, resolve the canned answer, persist it as one assistant message.
 */
module Routes {
  import opened Wrappers
  import opened Responses
  import opened Storage

  /** `parseInt(req.params.id)`: a number, or NaN. */
  datatype ParsedId = NaN | Num(value: int)

  /** The reply the handler writes. */
  datatype Reply = Json(message: Message) | BadRequest(error: string) | ServerError(error: string)

  /**
   * The handler. `userMessage` is absent when the body has no string there,
   * in which case `toLowerCase` throws and the catch answers 500. An absent
   * `language` defaults to "en" (the destructuring default); the metadata
   * records the language after that default and the topic as sent.
   */
  method Respond(store: MemStorage, chatId: ParsedId, userMessage: Option<string>,
                 language: Option<string>, topic: Option<string>, nowMessage: int, nowChat: int)
    returns (reply: Reply)
    requires store.Valid()
    modifies store
    ensures store.Valid()
    ensures chatId.NaN? ==> reply == BadRequest("Invalid chat ID")
    ensures chatId.Num? && userMessage.None? ==> reply == ServerError("Failed to generate response")
    ensures (chatId.NaN? || userMessage.None?) ==>
      && store.messages == old(store.messages) && store.chats == old(store.chats)
      && store.users == old(store.users) && store.currentMessageId == old(store.currentMessageId)
      && store.currentChatId == old(store.currentChatId) && store.currentUserId == old(store.currentUserId)
    ensures chatId.Num? && userMessage.Some? ==>
      var lang := language.GetOr("en");
      && reply.Json?
      && reply.message == Message(old(store.currentMessageId), chatId.value, "assistant",
                                  GenerateAIResponse(userMessage.value, lang, topic),
                                  Some(Metadata(Some(lang), topic)), nowMessage)
      && store.messages == old(store.messages)[reply.message.id := reply.message]
      && store.currentMessageId == old(store.currentMessageId) + 1
      && store.users == old(store.users) && store.currentUserId == old(store.currentUserId)
      && store.currentChatId == old(store.currentChatId)
      && (chatId.value in old(store.chats) ==>
            store.chats == old(store.chats)[chatId.value := old(store.chats)[chatId.value].(updatedAt := nowChat)])
      && (chatId.value !in old(store.chats) ==> store.chats == old(store.chats))
  {
    var lang := language.GetOr("en");
    if chatId.NaN? {
      return BadRequest("Invalid chat ID");
    }
    if userMessage.None? {
      return ServerError("Failed to generate response");
    }
    var aiResponse := GenerateAIResponse(userMessage.value, lang, topic);
    var message := store.CreateMessage(
      InsertMessage(chatId.value, "assistant", aiResponse, Some(Metadata(Some(lang), topic))),
      nowMessage, nowChat);
    reply := Json(message);
  }

  /** A caller's view: two answers to the same chat get consecutive ids and both are stored. */
  method RespondTwice(store: MemStorage, chatId: int, userMessage: string, t1: int, t2: int)
    returns (first: Reply, second: Reply)
    requires store.Valid()
    modifies store
    ensures first.Json? && second.Json?
    ensures second.message.id == first.message.id + 1
    ensures first.message.id in store.messages && second.message.id in store.messages
    ensures store.messages[first.message.id].content == store.messages[second.message.id].content
  {
    first := Respond(store, Num(chatId), Some(userMessage), None, None, t1, t1);
    second := Respond(store, Num(chatId), Some(userMessage), None, None, t2, t2);
  }
}

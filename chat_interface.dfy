/**
 * The chat input controller and view conditions
 * (client/src/components/chat-interface.tsx).
 */
module ChatInterface {
  import opened Wrappers
  import opened Text

  const MaxInput := 2000
  const WarnAbove := 1800

  /**
   * What `handleSend` passes to `onSendMessage`: the trimmed input, when it
   * is not blank and no answer is pending.
   */
  function SendDecision(inputValue: string, isAIResponding: bool): (sent: Option<string>)
    ensures sent.Some? <==> Trim(inputValue) != "" && !isAIResponding
    ensures sent.Some? ==> sent.value != "" && IsTrimmed(sent.value)
    ensures sent.Some? ==> exists i, j :: 0 <= i <= j <= |inputValue| && sent.value == inputValue[i..j]
  {
    TrimSpec(inputValue);
    if Trim(inputValue) != "" && !isAIResponding then Some(Trim(inputValue)) else None
  }

  /** The send button's `disabled`. */
  predicate SendDisabled(inputValue: string, isAIResponding: bool) {
    Trim(inputValue) == "" || isAIResponding
  }

  /** The button is enabled exactly when pressing it sends. */
  lemma SendEnabledIffSends(inputValue: string, isAIResponding: bool)
    ensures !SendDisabled(inputValue, isAIResponding) <==> SendDecision(inputValue, isAIResponding).Some?
  {
  }

  /** Sending the sent text again would send the same text. */
  lemma SendIsStable(inputValue: string)
    requires SendDecision(inputValue, false).Some?
    ensures SendDecision(SendDecision(inputValue, false).value, false) == SendDecision(inputValue, false)
  {
    TrimIdempotent(inputValue);
  }

  /** Whitespace-only input is never sent. */
  lemma BlankNotSent(inputValue: string, isAIResponding: bool)
    requires forall k :: 0 <= k < |inputValue| ==> IsJsWhitespace(inputValue[k])
    ensures SendDecision(inputValue, isAIResponding).None?
  {
    TrimSpec(inputValue);
  }

  /** Enter without Shift takes over the key (and sends); anything else is left to the textarea. */
  predicate KeySends(key: string, shiftKey: bool) {
    key == "Enter" && !shiftKey
  }

  /** `showWelcome`: no chat selected (null or id 0) or no messages. */
  predicate ShowWelcome(currentChatId: Option<int>, messageCount: nat) {
    currentChatId.None? || currentChatId == Some(0) || messageCount == 0
  }

  /** The live bubble: drawn only in the message list, not on the welcome screen. */
  predicate ShowLiveBubble(currentChatId: Option<int>, messageCount: nat, isStreaming: bool, streamingMessage: string) {
    !ShowWelcome(currentChatId, messageCount) && isStreaming && streamingMessage != ""
  }

  /** The typing dot: drawn only in the message list, not on the welcome screen. */
  predicate ShowTypingDot(currentChatId: Option<int>, messageCount: nat, isAIResponding: bool, isStreaming: bool) {
    !ShowWelcome(currentChatId, messageCount) && isAIResponding && !isStreaming
  }

  /** The live bubble and the typing dot are never shown together. */
  lemma BubbleAndDotExclusive(currentChatId: Option<int>, messageCount: nat, isAIResponding: bool,
                              isStreaming: bool, streamingMessage: string)
    ensures !(ShowLiveBubble(currentChatId, messageCount, isStreaming, streamingMessage)
              && ShowTypingDot(currentChatId, messageCount, isAIResponding, isStreaming))
  {
  }

  /** The welcome screen replaces the message list, so it shows neither indicator. */
  lemma WelcomeShowsNoIndicator(currentChatId: Option<int>, messageCount: nat, isAIResponding: bool,
                                isStreaming: bool, streamingMessage: string)
    requires ShowWelcome(currentChatId, messageCount)
    ensures !ShowLiveBubble(currentChatId, messageCount, isStreaming, streamingMessage)
    ensures !ShowTypingDot(currentChatId, messageCount, isAIResponding, isStreaming)
  {
  }

  /**
   * With the page's `isAIResponding = isPending || isStreaming`: in the
   * message list, while a request is pending and text has arrived, exactly
   * one of the two indicators shows.
   */
  lemma PendingShowsOneIndicator(currentChatId: Option<int>, messageCount: nat, isPending: bool,
                                 isStreaming: bool, streamingMessage: string)
    requires !ShowWelcome(currentChatId, messageCount)
    requires isPending && streamingMessage != ""
    ensures ShowLiveBubble(currentChatId, messageCount, isStreaming, streamingMessage)
            != ShowTypingDot(currentChatId, messageCount, isPending || isStreaming, isStreaming)
  {
  }

  /** The counter turns red above 1800 characters. */
  predicate CounterWarns(charCount: int) {
    charCount > WarnAbove
  }

  /** The input box's state. */
  class ChatInput {
    var inputValue: string
    var charCount: int
    var sent: seq<string>     // arguments of `onSendMessage`, in order

    ghost predicate Valid()
      reads this
    {
      charCount == |inputValue| && |inputValue| <= MaxInput
    }

    constructor ()
      ensures Valid() && inputValue == "" && sent == []
    {
      inputValue, charCount, sent := "", 0, [];
    }

    /** `handleInputChange`: a value longer than 2000 characters is refused. */
    method HandleInputChange(value: string)
      requires Valid()
      modifies this
      ensures Valid() && sent == old(sent)
      ensures |value| <= MaxInput ==> inputValue == value
      ensures |value| > MaxInput ==> inputValue == old(inputValue) && charCount == old(charCount)
    {
      if |value| <= MaxInput {
        inputValue := value;
        charCount := |value|;
      }
    }

    /** `handleSend`. */
    method HandleSend(isAIResponding: bool) returns (message: Option<string>)
      requires Valid()
      modifies this
      ensures Valid()
      ensures message.Some? <==> Trim(old(inputValue)) != "" && !isAIResponding
      ensures message.Some? ==> message.value == Trim(old(inputValue))
      ensures message.Some? ==> inputValue == "" && sent == old(sent) + [message.value]
      ensures message.None? ==> inputValue == old(inputValue) && sent == old(sent)
    {
      var trimmed := Trim(inputValue);
      if trimmed != "" && !isAIResponding {
        sent := sent + [trimmed];
        inputValue := "";
        charCount := 0;
        return Some(trimmed);
      }
      return None;
    }

    /** `handleKeyDown`: returns whether the default action was prevented. */
    method HandleKeyDown(key: string, shiftKey: bool, isAIResponding: bool)
      returns (prevented: bool, message: Option<string>)
      requires Valid()
      modifies this
      ensures Valid() && prevented == KeySends(key, shiftKey)
      ensures message.Some? <==> KeySends(key, shiftKey) && Trim(old(inputValue)) != "" && !isAIResponding
      ensures message.Some? ==> message.value == Trim(old(inputValue))
      ensures message.None? ==> inputValue == old(inputValue) && sent == old(sent)
      ensures message.Some? ==> inputValue == "" && sent == old(sent) + [message.value]
    {
      prevented := false;
      message := None;
      if KeySends(key, shiftKey) {
        prevented := true;
        message := HandleSend(isAIResponding);
      }
    }
  }
}

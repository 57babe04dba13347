/**
 * The chat page: an append-only transcript that starts with one greeting,
 * a send guarded by the input and the loading flag, and exactly one bot
 * message for every send, whether the request succeeds or fails.
 */
module InteractiveChat {
  import opened Wrappers
  import opened Text
  import opened Renderer
  import opened Forms

  const Greeting: string := "Hi! Ask me anything about your career."
  const NoReply: string := "I couldn't process that request."
  const NotResponding: string := "The server isn't responding. Please try again later."
  const SomethingWrong: string := "Sorry, something went wrong."

  datatype Sender = User | Bot
  datatype Message = Message(sender: Sender, text: string)

  /** The body of a successful `POST /chat/`: the reply may come under either key. */
  datatype ChatReply = ChatReply(message: Option<string>, response: Option<string>)

  /** `data?.message || data?.response || fallback` */
  function ReplyText(reply: ChatReply): (r: string)
    ensures r != ""
    ensures Or(reply.message, "") != "" ==> r == reply.message.value
    ensures Or(reply.message, "") == "" && Or(reply.response, "") != "" ==> r == reply.response.value
    ensures Or(reply.message, "") == "" && Or(reply.response, "") == "" ==> r == NoReply
  {
    Or(reply.message, Or(reply.response, NoReply))
  }

  /**
   * The `catch` block: with a response, its `detail` or "Error: <status>";
   * with only a request, the not-responding text; otherwise the generic one.
   */
  function ChatErrorMessage(err: HttpError): (r: string)
    ensures r != ""
    ensures err.response.Some? && Or(Detail(err), "") != "" ==> r == Detail(err).value
    ensures err.response.Some? && Or(Detail(err), "") == "" ==>
      r == "Error: " + NatToString(err.response.value.status)
    ensures err.response.None? && err.requestSent ==> r == NotResponding
    ensures err.response.None? && !err.requestSent ==> r == SomethingWrong
  {
    if err.response.Some? then Or(Detail(err), "Error: " + NatToString(err.response.value.status))
    else if err.requestSent then NotResponding
    else SomethingWrong
  }

  /** The status in "Error: <status>" reads back as the status code. */
  lemma ErrorStatusReadable(err: HttpError)
    requires err.response.Some? && Or(Detail(err), "") == ""
    ensures var r := ChatErrorMessage(err);
      && |r| > 7 && r[..7] == "Error: " && DecimalValue(r[7..]) == err.response.value.status
      && (r[7] == '0' <==> err.response.value.status == 0)
  {
    var digits := NatToString(err.response.value.status);
    assert ChatErrorMessage(err)[7..] == digits;
    NatToStringValue(err.response.value.status);
  }

  /** `handleKeyDown`: Enter without Shift sends; every other key does not. */
  function SendsOnKey(key: string, shift: bool): (sends: bool)
    ensures sends ==> key == "Enter"
    ensures key == "Enter" ==> (sends <==> !shift)
  {
    key == "Enter" && !shift
  }

  /** Who speaks at position `i`: the bot at even positions, the user at odd ones. */
  function Speaker(i: nat): Sender {
    if i % 2 == 0 then Bot else User
  }

  /** The transcript opens with the greeting and then alternates user, bot, user, bot, ... */
  ghost predicate WellFormed(messages: seq<Message>) {
    && |messages| >= 1
    && messages[0] == Message(Bot, Greeting)
    && forall i :: 0 <= i < |messages| ==> messages[i].sender == Speaker(i)
  }

  /** Each message is shown as one paragraph per line. */
  function Rendered(m: Message): seq<Block> {
    RenderParagraphs(m.text)
  }

  /** A message's paragraphs give back its text exactly, with no headings or list items. */
  lemma RenderedFaithful(m: Message)
    ensures forall i :: 0 <= i < |Rendered(m)| ==> Rendered(m)[i].Paragraph?
    ensures JoinLines(Texts(Rendered(m))) == m.text
  {
    RenderParagraphsFaithful(m.text);
  }

  class ChatSession {
    var messages: seq<Message>
    var input: string
    var loading: bool
    var error: Option<string>

    /**
     * The transcript is well formed, and a request is in flight exactly when
     * the last message is the user's (an even number of messages).
     */
    ghost predicate Valid()
      reads this
    {
      WellFormed(messages) && (loading <==> |messages| % 2 == 0)
    }

    constructor ()
      ensures Valid()
      ensures messages == [Message(Bot, Greeting)] && input == "" && !loading && error.None?
    {
      messages := [Message(Bot, Greeting)];
      input := "";
      loading := false;
      error := None;
    }

    method EditInput(text: string)
      requires Valid()
      modifies this
      ensures Valid()
      ensures input == text
      ensures messages == old(messages) && loading == old(loading) && error == old(error)
    {
      input := text;
    }

    /**
     * `handleSend`: ignored while loading or with a blank input; otherwise
     * the untrimmed input becomes one user message and the request text.
     */
    method Send() returns (request: Option<string>)
      requires Valid()
      modifies this
      ensures Valid()
      ensures request.None? <==> old(loading) || AllWhitespace(old(input))
      ensures request.None? ==>
        messages == old(messages) && input == old(input) && loading == old(loading) && error == old(error)
      ensures request.Some? ==>
        && request.value == old(input)
        && messages == old(messages) + [Message(User, old(input))]
        && input == "" && loading && error.None?
    {
      TrimEmptyIff(input);
      if Trim(input) == "" || loading {
        request := None;
        return;
      }
      var userMessage := input;
      input := "";
      messages := messages + [Message(User, userMessage)];
      loading := true;
      error := None;
      request := Some(userMessage);
    }

    /** A key press in the input box. */
    method KeyDown(key: string, shift: bool) returns (request: Option<string>)
      requires Valid()
      modifies this
      ensures Valid()
      ensures !SendsOnKey(key, shift) ==>
        request.None? && messages == old(messages) && input == old(input)
        && loading == old(loading) && error == old(error)
      ensures SendsOnKey(key, shift) ==>
        (request.None? <==> old(loading) || AllWhitespace(old(input)))
      ensures request.None? ==>
        messages == old(messages) && input == old(input) && loading == old(loading) && error == old(error)
      ensures request.Some? ==>
        request.value == old(input) && messages == old(messages) + [Message(User, old(input))]
        && input == "" && loading && error.None?
    {
      if SendsOnKey(key, shift) {
        request := Send();
      } else {
        request := None;
      }
    }

    /** The request succeeded: one bot message with the reply, then idle. */
    method Complete(reply: ChatReply)
      requires Valid() && loading
      modifies this
      ensures Valid()
      ensures messages == old(messages) + [Message(Bot, ReplyText(reply))]
      ensures !loading && input == old(input) && error == old(error)
    {
      messages := messages + [Message(Bot, ReplyText(reply))];
      loading := false;
    }

    /** The request failed: the same text goes to the banner and, as one bot message, to the transcript. */
    method Fail(err: HttpError)
      requires Valid() && loading
      modifies this
      ensures Valid()
      ensures messages == old(messages) + [Message(Bot, ChatErrorMessage(err))]
      ensures error == Some(ChatErrorMessage(err))
      ensures !loading && input == old(input)
    {
      var errorMessage := ChatErrorMessage(err);
      error := Some(errorMessage);
      messages := messages + [Message(Bot, errorMessage)];
      loading := false;
    }
  }

  /** How many messages of `t` come from `who`. */
  function CountFrom(t: seq<Message>, who: Sender): (n: nat)
    ensures n <= |t|
  {
    if t == [] then 0
    else CountFrom(t[..|t| - 1], who) + (if t[|t| - 1].sender == who then 1 else 0)
  }

  /**
   * One bot message per user message, plus the greeting: in a well-formed
   * transcript the user has sent half the messages (rounded down) and the
   * bot wrote the rest.
   */
  lemma {:induction false} RepliesMatchSends(t: seq<Message>)
    requires forall i :: 0 <= i < |t| ==> t[i].sender == Speaker(i)
    ensures CountFrom(t, User) == |t| / 2
    ensures CountFrom(t, Bot) == (|t| + 1) / 2
    decreases |t|
  {
    if t != [] {
      var init := t[..|t| - 1];
      forall i | 0 <= i < |init| ensures init[i].sender == Speaker(i) {
        assert init[i] == t[i];
      }
      RepliesMatchSends(init);
    }
  }

  /** When no request is in flight, every user message has had its one bot answer. */
  lemma IdleSessionAnswered(t: seq<Message>)
    requires WellFormed(t) && |t| % 2 == 1
    ensures CountFrom(t, Bot) == CountFrom(t, User) + 1
  {
    RepliesMatchSends(t);
  }

  /** A timed-out first question: one user message, one bot message with the not-responding text. */
  method TimedOutFirstQuestion() returns (session: ChatSession)
    ensures session.messages == [
      Message(Bot, Greeting), Message(User, "hello"), Message(Bot, NotResponding)]
    ensures !session.loading && session.error == Some(NotResponding)
  {
    session := new ChatSession();
    session.EditInput("hello");
    assert !IsWhitespace("hello"[0]);
    var request := session.Send();
    session.Fail(HttpError(None, true, "timeout of 10000ms exceeded"));
  }
}

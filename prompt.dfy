/** Building the completion request for one reply and turning the completion
    service's answer (or failure) into the text the cat says. */
module Prompt {

  datatype Option<T> = None | Some(value: T)

  datatype Role = System | User | Assistant

  /** One chat message: `{"role": ..., "content": ...}`. */
  datatype Message = Message(role: Role, content: string)

  /** How many earlier messages are sent along with a new one (two exchanges). */
  const HistoryLimit: nat := 4

  /** The fixed request settings the model keeps; sampling temperature and the two
      penalties are floating-point values with no local behaviour and are left out. */
  const ModelName: string := "gpt-3.5-turbo"
  const MaxTokens: nat := 100

  /** What is sent to the completion service. */
  datatype Request = Request(model: string, messages: seq<Message>, maxTokens: nat)

  /** What the completion service gives back: a list of candidate texts, or the
      description of whatever went wrong (network, authentication, rate limit, ...). */
  datatype Completion = Completed(choices: seq<string>) | Failed(error: string)

  const FallbackPrefix: string := "Meow! Sorry, I'm having trouble right now: "

  /** The description Python gives the error of indexing an empty list. */
  const NoChoiceError: string := "list index out of range"

  /** `history[-4:] if len(history) > 4 else history`: the last (at most) four messages,
      in their original order. */
  function RecentHistory(history: seq<Message>): (r: seq<Message>)
    ensures |r| == if |history| < HistoryLimit then |history| else HistoryLimit
    ensures r == history[|history| - |r|..]
  {
    if |history| > HistoryLimit then history[|history| - HistoryLimit..] else history
  }

  /** The instruction that puts the model in character. */
  function SystemPrompt(cat: string, personality: string): string
  {
    "You are " + cat + ", a cat. " + personality + " Respond briefly as this cat would."
  }

  /** The messages of the request: the instruction, the recent history, the new message. */
  function RequestMessages(cat: string, personality: string, userMessage: string, history: seq<Message>): (m: seq<Message>)
    ensures |m| == |RecentHistory(history)| + 2 <= HistoryLimit + 2
    ensures m[0] == Message(System, SystemPrompt(cat, personality))
    ensures m[|m| - 1] == Message(User, userMessage)
    ensures forall i :: 1 <= i < |m| - 1 ==> m[i] == history[|history| - (|m| - 2) + (i - 1)]
  {
    [Message(System, SystemPrompt(cat, personality))] + RecentHistory(history) + [Message(User, userMessage)]
  }

  /** The reply shown for an upstream failure; it carries the failure's description. */
  function Fallback(error: string): (r: string)
    ensures |r| > |error| && r[|r| - |error|..] == error
  {
    FallbackPrefix + error
  }

  /** Reads the failure description back out of a fallback reply. */
  function ErrorOf(reply: string): (e: Option<string>)
    ensures e.Some? ==> reply == Fallback(e.value)
  {
    if |FallbackPrefix| <= |reply| && reply[..|FallbackPrefix|] == FallbackPrefix
    then Some(reply[|FallbackPrefix|..])
    else None
  }

  lemma FallbackRoundTrip(error: string)
    ensures ErrorOf(Fallback(error)) == Some(error)
  {
    assert Fallback(error)[..|FallbackPrefix|] == FallbackPrefix;
  }

  /** The `try`/`except` around the completion call: the first candidate's text on
      success, otherwise a fallback naming the error; no failure escapes. */
  function ReplyText(c: Completion): (r: string)
    ensures c.Completed? && |c.choices| > 0 ==> r == c.choices[0]
    ensures c.Failed? ==> ErrorOf(r) == Some(c.error)
    ensures c.Completed? && |c.choices| == 0 ==> ErrorOf(r) == Some(NoChoiceError)
  {
    match c
    case Completed(choices) =>
      if |choices| > 0 then choices[0]
      else FallbackRoundTrip(NoChoiceError); Fallback(NoChoiceError)
    case Failed(error) =>
      FallbackRoundTrip(error); Fallback(error)
  }

  /** `get_cat_response`: build the message list step by step, make one completion call
      through `api`, and turn its outcome into the reply. `cat` is the session's
      selected cat, which the source reads from the session state. */
  method GetCatResponse(cat: string, personality: string, userMessage: string, history: seq<Message>,
                        api: Request -> Completion)
    returns (reply: string)
    ensures reply == ReplyText(api(Request(ModelName, RequestMessages(cat, personality, userMessage, history), MaxTokens)))
  {
    var messages := [Message(System, SystemPrompt(cat, personality))];
    var recent := RecentHistory(history);
    messages := messages + recent;
    messages := messages + [Message(User, userMessage)];
    var response := api(Request(ModelName, messages, MaxTokens));
    reply := ReplyText(response);
  }

  /** A conversation made of whole exchanges: user, assistant, user, assistant, ... */
  predicate Exchanges(m: seq<Message>)
  {
    |m| % 2 == 0 &&
    forall i :: 0 <= i < |m| ==> m[i].role == (if i % 2 == 0 then User else Assistant)
  }

  /** Appending one user message and one reply keeps a conversation of whole exchanges. */
  lemma ExchangesExtend(m: seq<Message>, userMessage: string, reply: string)
    requires Exchanges(m)
    ensures Exchanges(m + [Message(User, userMessage), Message(Assistant, reply)])
  {
  }

  /** The window of a conversation of whole exchanges holds whole exchanges too (at most two). */
  lemma WindowKeepsExchanges(history: seq<Message>)
    requires Exchanges(history)
    ensures Exchanges(RecentHistory(history))
  {
    var r := RecentHistory(history);
    var d := |history| - |r|;
    assert d % 2 == 0;
    forall i | 0 <= i < |r|
      ensures r[i].role == (if i % 2 == 0 then User else Assistant)
    {
      assert r[i] == history[d + i];
      assert (d + i) % 2 == i % 2;
    }
  }
}

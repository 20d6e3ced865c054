/** The per-session chat state (`st.session_state`): which cat is selected and the
    messages exchanged with it, and the user actions that change them. */
module Session {
  import opened Catalog
  import opened Prompt

  /** The four conversation starters offered while the chat is empty. */
  const StarterPrompts: seq<string> := [
    "What's your favorite activity?",
    "How do you feel about your owner?",
    "What's your plan for today?",
    "Tell me about yourself"
  ]

  class ChatSession {
    var selectedCat: string
    var messages: seq<Message>
    /** The personality text of every cat; the texts themselves are opaque here. */
    const personalities: map<string, string>

    /** The selected cat is a catalog cat, the personality table names exactly the
        catalog cats, and the chat is a run of whole user/assistant exchanges. */
    ghost predicate Valid()
      reads this
    {
      selectedCat in CatAges &&
      personalities.Keys == CatAges.Keys &&
      Exchanges(messages)
    }

    /** A new session: the default cat and an empty chat. */
    constructor (personalities: map<string, string>)
      requires personalities.Keys == CatAges.Keys
      ensures Valid()
      ensures selectedCat == DefaultCat && messages == []
      ensures this.personalities == personalities
    {
      this.personalities := personalities;
      selectedCat := DefaultCat;
      messages := [];
    }

    /** Choosing a cat: a different cat becomes selected and the chat is emptied;
        choosing the selected cat again changes nothing. */
    method SwitchCat(cat: string)
      requires Valid() && cat in CatAges
      modifies this
      ensures Valid()
      ensures cat != old(selectedCat) ==> selectedCat == cat && messages == []
      ensures cat == old(selectedCat) ==> selectedCat == old(selectedCat) && messages == old(messages)
    {
      if cat != selectedCat {
        selectedCat := cat;
        messages := [];
      }
    }

    /** The sidebar radio: the picked option is turned back into a cat name and that cat
        is chosen. Leaving the radio on the current cat's option changes nothing. */
    method SelectOption(option: string)
      requires Valid() && option in DisplayOptions()
      modifies this
      ensures Valid()
      ensures ParseName(option) in CatAges
      ensures ParseName(option) != old(selectedCat) ==> selectedCat == ParseName(option) && messages == []
      ensures ParseName(option) == old(selectedCat) ==> selectedCat == old(selectedCat) && messages == old(messages)
      ensures option == CurrentOption(old(selectedCat)) ==> selectedCat == old(selectedCat) && messages == old(messages)
    {
      OptionsNameCatalogCats(option);
      CurrentOptionListed(selectedCat);
      var cat := ParseName(option);
      SwitchCat(cat);
    }

    /** "Clear Chat History": the chat is emptied, the cat stays. */
    method Clear()
      requires Valid()
      modifies this
      ensures Valid()
      ensures messages == [] && selectedCat == old(selectedCat)
    {
      messages := [];
    }

    /** One exchange: append the user's message, ask for the cat's reply with the history
        as it was before that message, append the reply. */
    method Exchange(userMessage: string, api: Request -> Completion) returns (reply: string)
      requires Valid()
      modifies this
      ensures Valid()
      ensures selectedCat == old(selectedCat)
      ensures reply == ReplyText(api(Request(ModelName,
        RequestMessages(selectedCat, personalities[selectedCat], userMessage, old(messages)), MaxTokens)))
      ensures messages == old(messages) + [Message(User, userMessage), Message(Assistant, reply)]
    {
      var before, cat := messages, selectedCat;
      var personality := personalities[cat];
      messages := before + [Message(User, userMessage)];
      var history := messages[..|messages| - 1];
      assert history == before;
      reply := GetCatResponse(cat, personality, userMessage, history, api);
      messages := messages + [Message(Assistant, reply)];
      ExchangesExtend(before, userMessage, reply);
    }

    /** The chat input: a non-empty submission adds one exchange; an empty one does nothing. */
    method Submit(userInput: string, api: Request -> Completion) returns (reply: Option<string>)
      requires Valid()
      modifies this
      ensures Valid()
      ensures selectedCat == old(selectedCat)
      ensures userInput == [] ==> reply == None && messages == old(messages)
      ensures userInput != [] ==> reply.Some?
      ensures reply.Some? ==> reply.value == ReplyText(api(Request(ModelName,
        RequestMessages(selectedCat, personalities[selectedCat], userInput, old(messages)), MaxTokens)))
      ensures reply.Some? ==> messages == old(messages) + [Message(User, userInput), Message(Assistant, reply.value)]
    {
      if userInput == [] {
        reply := None;
      } else {
        var text := Exchange(userInput, api);
        reply := Some(text);
      }
    }

    /** A starter button: offered only while the chat is empty; pressing one runs that
        starter as the first exchange. */
    method PressStarter(k: nat, api: Request -> Completion) returns (reply: Option<string>)
      requires Valid() && k < |StarterPrompts|
      modifies this
      ensures Valid()
      ensures selectedCat == old(selectedCat)
      ensures old(messages) != [] ==> reply == None && messages == old(messages)
      ensures old(messages) == [] ==> reply.Some?
      ensures reply.Some? ==> reply.value == ReplyText(api(Request(ModelName,
        RequestMessages(selectedCat, personalities[selectedCat], StarterPrompts[k], []), MaxTokens)))
      ensures reply.Some? ==> messages == [Message(User, StarterPrompts[k]), Message(Assistant, reply.value)]
    {
      if messages != [] {
        reply := None;
      } else {
        var text := Exchange(StarterPrompts[k], api);
        reply := Some(text);
      }
    }
  }
}

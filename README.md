# Cat chat app: verified model of its conversation core

The app lets a visitor pick one of seven house cats and chat with it. A hosted
completion service writes the cat's replies. This project models the logic the
app runs locally around that service:

- **Catalog** (`catalog.dfy`): the fixed age table of the seven cats. The sidebar
  lists them oldest first, with equal ages in alphabetical order. Each cat gets the
  radio label `"<name> (<age> years old)"`, and a label is turned back into a name
  by taking the text before the first `" ("`. The list is built by two loops and
  sorted in place, and the model keeps that form: `CollectCatList`, `SortCats` on an
  array, `FormatOptions`. It proves the sorted list is a sorted permutation of the
  catalog. Any such permutation is exactly Kuni, Snowy, Ciko, Lily, Molly, Bushy,
  Oyen. Every label parses back to its cat, and the radio opens on the session's cat.
- **Prompt** (`prompt.dfy`): `get_cat_response`. The request holds one system
  instruction, then the last four messages of the history at most, in their
  original order, then the new user message. The completion service is a function
  parameter `api: Request -> Completion`. A `Completion` is either a list of
  candidate texts or a failure with its description. The reply is the first
  candidate. A failure, or an empty candidate list (Python's `IndexError`), becomes
  the fixed fallback text followed by the error description. `ErrorOf` gets that
  description back out of the reply.
- **Session** (`session.dfy`): the session state as a class with the fields
  `selectedCat` and `messages`. `SwitchCat` and `SelectOption` model the sidebar
  radio. `Clear` models the clear button. `Submit` models the chat input and
  `PressStarter` models the four starter buttons. Every transition keeps the
  object invariant `Valid()`: the selected cat is in the catalog, the personality
  table names exactly the catalog cats, and the chat is a run of whole
  user/assistant exchanges. This holds because the model takes the user append and
  the reply append of one exchange as a single step (see "Left out").
- **Text** (`text.dfy`): the Python string operations these rely on. These are
  `<` on `str` (code-point lexicographic order), `str()` of a non-negative int, and
  `s.split(sep)[0]`.

Three points where the model follows the code's exact behaviour:

- The fallback reply is one fixed text, `"Meow! Sorry, I'm having trouble right now: "`,
  followed by the error text. It does not change with the selected cat.
- Looking up a name outside the catalog raises Python's `KeyError`; there is no
  dedicated error. The lookups by the session's cat and by a name parsed from a
  catalog label are safe because those names are catalog cats, which the model
  states as a precondition or as part of `Valid()`. The lookup of the age table by
  each key of the personality table (feline_chatbot.py:100-101) is safe because
  both tables have the same seven keys. The model fixes them once as `CatNames`,
  and `Valid()` requires the personality table to have exactly those keys.
- `RecentHistory` is defined and proved for histories of any length. In the model
  the history handed to it always holds whole exchanges, because an exchange is one
  step. In the app it can end with a lone user message after a run that stopped
  between the two appends (see "Left out").

## Model

| member | source | states |
|---|---|---|
| Text.LessIrreflexive | feline_chatbot.py:105 | no name sorts before itself |
| Text.LessTransitive | feline_chatbot.py:105 | the name order is transitive |
| Text.LessTotal | feline_chatbot.py:105 | any two different names are ordered one way or the other, so the sort key decides every pair |
| Text.Decimal | feline_chatbot.py:110 | `str(age)` is a non-empty string of decimal digits with no leading zero |
| Text.DecimalRoundTrip | feline_chatbot.py:110 | the digits in a label denote exactly the age that was formatted |
| Text.BeforeFirst | feline_chatbot.py:125 | `s.split(sep)[0]` is the prefix of `s` that ends just before the first occurrence of `sep`, or all of `s` when `sep` does not occur |
| Catalog.PrecedesTransitive | feline_chatbot.py:105 | the key `(-age, name)` gives a transitive strict order |
| Catalog.PrecedesIrreflexive | feline_chatbot.py:105 | no entry sorts strictly before itself |
| Catalog.PrecedesTotal | feline_chatbot.py:105 | two different entries always compare one way or the other under `(-age, name)` |
| Catalog.NotAfterTransitive | feline_chatbot.py:105 | "may stand before" is transitive |
| Catalog.NotAfterAntisymmetric | feline_chatbot.py:105 | entries that may each stand before the other are equal, so the sorted order is unique |
| Catalog.CatalogNamesParse | feline_chatbot.py:26-34 | no catalog name contains the separator `" ("` |
| Catalog.ParseLabel | feline_chatbot.py:125 | parsing the label `name + " (" + str(age) + " years old)"` gives back `name` whenever `name` does not contain `" ("` |
| Catalog.Labels | feline_chatbot.py:108-110 | one label per entry, in the same order, each formatted from that entry's name and age |
| Catalog.CollectCatList | feline_chatbot.py:99-102 | the loop collects each catalog cat with its actual age, in table order |
| Catalog.SortCats | feline_chatbot.py:105 | the in-place sort leaves the array ordered by age descending, then name ascending, and a permutation of what it held |
| Catalog.SortedUnique | feline_chatbot.py:104-105 | two sorted arrangements of the same entries are equal, so the sort's result does not depend on the input order |
| Catalog.DisplayOrderSortsCatalog | feline_chatbot.py:26-34 | the list Kuni, Snowy, Ciko, Lily, Molly, Bushy, Oyen is sorted and is a permutation of the catalog entries |
| Catalog.SortedCatalogIsDisplayOrder | feline_chatbot.py:99-105 | every sorted permutation of the catalog is exactly that list |
| Catalog.FormatOptions | feline_chatbot.py:108-110 | the loop produces the label of every entry, in list order |
| Catalog.BuildCatOptions | feline_chatbot.py:99-110 | the selector list is the catalog sorted by `(-age, name)`, namely the list above, and the options are its labels |
| Catalog.CurrentIndex | feline_chatbot.py:112-114 | the index is the first position of the current cat's label when it is listed, and 0 otherwise; it lies in `[0, len(options))` whenever there are options |
| Catalog.CurrentOptionListed | feline_chatbot.py:113-125 | every catalog cat's label is among the options and parses back to that cat |
| Catalog.OptionsNameCatalogCats | feline_chatbot.py:125 | every option parses to a catalog cat whose own label is that option |
| Prompt.RecentHistory | feline_chatbot.py:64-65 | the window holds `min(4, len(history))` messages and is the suffix of the history of that length, in original order |
| Prompt.RequestMessages | feline_chatbot.py:61-69 | the request is the system instruction first, then the window's messages in history order, then the new user message last; its length is the window's plus 2, at most 6 |
| Prompt.Fallback | feline_chatbot.py:81-82 | the fallback reply is longer than the error description and ends with it |
| Prompt.ErrorOf | feline_chatbot.py:82 | a reply from which an error is read back is the fallback for that error |
| Prompt.FallbackRoundTrip | feline_chatbot.py:82 | the error description is recovered exactly from the fallback reply |
| Prompt.ReplyText | feline_chatbot.py:71-82 | success gives the first candidate's text; a failure, or an empty candidate list, gives a fallback from which that error's description is recovered; no error escapes |
| Prompt.GetCatResponse | feline_chatbot.py:57-82 | the message list built step by step is the request above, sent once to the completion service, and the reply is that outcome's reply text |
| Prompt.ExchangesExtend | feline_chatbot.py:229-246 | appending a user message and then a reply keeps the chat a run of whole exchanges |
| Prompt.WindowKeepsExchanges | feline_chatbot.py:64-65 | the window of a chat of whole exchanges is itself whole exchanges, at most two |
| Session.ChatSession.constructor | feline_chatbot.py:51-55 | a session starts with Molly selected and no messages |
| Session.ChatSession.SwitchCat | feline_chatbot.py:127-130 | a different cat becomes selected and the messages are emptied; the same cat changes nothing |
| Session.ChatSession.SelectOption | feline_chatbot.py:117-130 | the picked option's parsed name is a catalog cat and is switched to; leaving the radio on the current cat's option changes nothing |
| Session.ChatSession.Clear | feline_chatbot.py:206-208 | the messages are emptied and the selected cat is kept |
| Session.ChatSession.Exchange | feline_chatbot.py:229-246 | the messages grow by exactly a user message and then the reply; the reply is computed from the messages as they were before the user message; earlier messages are unchanged |
| Session.ChatSession.Submit | feline_chatbot.py:226-246 | a non-empty input adds one exchange as above; an empty input changes nothing |
| Session.ChatSession.PressStarter | feline_chatbot.py:252-305 | starter buttons act only while the chat is empty; pressing one makes the chat that starter question and its reply, computed from an empty history |

## Left out

- Page layout, text, profile bullet points, headers, spinners, the chat rendering and `st.rerun`: these are user interface with no state of their own (feline_chatbot.py:10-14, 85-97, 133-223, 248-256).
- The OpenAI client, its `@st.cache_resource` caching, and loading `.env` are foreign calls and I/O (feline_chatbot.py:7, 16-23). The completion call is the function parameter `api`.
- Session.ChatSession.Exchange (and so `Submit` and `PressStarter`) takes the user append and the reply append as one step. In the source they are separate. The user message is appended first (feline_chatbot.py:230, 260, 272, 285, 297). Then `get_cat_response` calls `initialize_openai_client()` outside its `try` (line 59). When `OPENAI_API_KEY` is unset, that call ends the run with `st.stop()` (line 22). The chat then keeps a user message with no reply, and a later exchange sends a history that ends with it. The model does not capture such a stopped run, so its `Exchanges` invariant is stronger than what the app guarantees.
- `api` is a function, so the same request always gets the same outcome in the model. The real service is not deterministic. Properties that compare two calls are therefore not claimed.
- The sampling temperature and the presence and frequency penalties are floating-point settings passed through to the service. They are not in `Request`. The model name and `max_tokens = 100` are kept as constants, with no behaviour beyond being sent.
- The personality texts (feline_chatbot.py:35-49) are opaque. The session receives them as a map that covers every catalog cat. Their content is not modelled.
- `human_equivalent` ages are kept in the table but only shown on the page (feline_chatbot.py:212-214), so nothing is proved about them.
- A successful completion whose first candidate has no text (`None` in Python) is not modelled. Candidates are strings.
- Python's `str(e)` for arbitrary exceptions is not modelled. The error description is a string that the failed outcome carries. The one exception is the empty candidate list, whose text `"list index out of range"` is spelled out.
- Streamlit's `chat_input` returns `None` when nothing was sent. This is modelled as the empty string, which the source treats the same way.
- The radio widget's own behaviour is not modelled. It returns the option at the given index until the user picks another. `SelectOption` takes the returned option as its input.

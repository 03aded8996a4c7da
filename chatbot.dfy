/** The conversation store of `NLPChatbot` (chatbot.py): an ordered list of
    role/content messages that the bot seeds with its system prompt, appends
    to on every exchange, truncates to its first entry and replaces wholesale.

    The HTTP exchange with the completion endpoint is not performed: what the
    endpoint answered is a `Response` parameter, and what a conversation file
    held is a `LoadResult` parameter. The pure functions below say what each
    operation does to a history; the class `NLPChatbot` does it in place and
    is proved to agree with them. */
module Chatbot {
  import opened Wrappers

  const SystemRole := "system"
  const UserRole := "user"
  const AssistantRole := "assistant"

  const BaseUrl := "https://openrouter.ai/api/v1/chat/completions"
  const ModelName := "meta-llama/llama-3.3-70b-instruct:free"

  /** `max_tokens` when the caller gives none. */
  const DefaultMaxTokens := 1000

  const SystemPrompt :=
    "You are an expert NLP (Natural Language Processing) assistant. You specialize in:\n" +
    "- Text analysis and understanding\n" +
    "- Language modeling and generation\n" +
    "- Sentiment analysis\n" +
    "- Named Entity Recognition (NER)\n" +
    "- Text classification\n" +
    "- Machine translation\n" +
    "- Question answering\n" +
    "- Text summarization\n" +
    "- Language understanding tasks\n" +
    "\n" +
    "Provide helpful, accurate, and detailed responses related to NLP topics. " +
    "When appropriate, suggest practical approaches, tools, or code examples."

  /** One entry of the history. The role is a plain string: the bot itself
      writes only "system", "user" and "assistant", but a loaded history may
      carry any role. */
  datatype Message = Message(role: string, content: string)

  /** The JSON payload of one completion request, with the endpoint it is
      posted to. (The float `temperature` is not part of the model.) */
  datatype Request = Request(
    url: string,
    model: string,
    messages: seq<Message>,
    maxTokens: int,
    topP: int,
    frequencyPenalty: int,
    presencePenalty: int)

  /** What reading `choices[0].message.content` from a response body gives:
      the string, or an error (the body is not JSON, or the path is missing). */
  datatype Body = Completion(content: string) | Malformed

  /** What the endpoint did with a request: an HTTP status with a body, or a
      transport failure (DNS, refused connection, the 30-second timeout). */
  datatype Response = Http(status: int, body: Body) | RequestFailed

  /** What reading a conversation file gives: its list of messages, or an
      error (missing file, unreadable file, invalid JSON). */
  datatype LoadResult = Parsed(messages: seq<Message>) | Unreadable

  /** The reply `send_message` returns for a response: the completion text of
      a status-200 response, and `None` for every failure. */
  function ReplyOf(response: Response): Option<string> {
    match response
    case Http(status, Completion(content)) => if status == 200 then Some(content) else None
    case _ => None
  }

  /** The request `send_message` posts for `text`: the whole history with the
      new user message at its end. */
  function RequestFor(history: seq<Message>, text: string, maxTokens: int): Request {
    Request(BaseUrl, ModelName, history + [Message(UserRole, text)], maxTokens, 1, 0, 0)
  }

  /** The history after `send_message(text)` met `response`. */
  function AfterSend(history: seq<Message>, text: string, response: Response): seq<Message> {
    var sent := history + [Message(UserRole, text)];
    match ReplyOf(response)
    case Some(reply) => sent + [Message(AssistantRole, reply)]
    case None => sent
  }

  /** The history after `clear_conversation()`; `None` when indexing the
      first entry of an empty history fails. */
  function AfterClear(history: seq<Message>): Option<seq<Message>> {
    if history == [] then None else Some([history[0]])
  }

  /** The history after `load_conversation` read `file`. */
  function AfterLoad(history: seq<Message>, file: LoadResult): seq<Message> {
    match file
    case Parsed(messages) => messages
    case Unreadable => history
  }

  /** The file `save_conversation()` writes when given no name. */
  function DefaultFilename(timestamp: string): string {
    "conversation_" + timestamp + ".json"
  }

  /** One chat turn: the text sent and what the endpoint answered. */
  datatype Turn = Turn(text: string, response: Response)

  /** The history after a run of consecutive chat turns. */
  function Converse(history: seq<Message>, turns: seq<Turn>): seq<Message>
    decreases |turns|
  {
    if turns == [] then history
    else Converse(AfterSend(history, turns[0].text, turns[0].response), turns[1..])
  }

  /** The requests posted during a run of consecutive chat turns, in order. */
  function RequestsOf(history: seq<Message>, turns: seq<Turn>, maxTokens: int): (requests: seq<Request>)
    ensures |requests| == |turns|
    decreases |turns|
  {
    if turns == [] then []
    else
      [RequestFor(history, turns[0].text, maxTokens)] +
      RequestsOf(AfterSend(history, turns[0].text, turns[0].response), turns[1..], maxTokens)
  }

  /** A reply is produced exactly for a status-200 response whose body holds
      a completion, and it is that completion's text. */
  lemma ReplyOnlyOnSuccess(response: Response)
    ensures ReplyOf(response).Some? <==>
            response.Http? && response.status == 200 && response.body.Completion?
    ensures ReplyOf(response).Some? ==> ReplyOf(response).value == response.body.content
  {
  }

  /** Sending grows the history by two messages on success (the user's text,
      then the reply) and by the user's message alone on failure; every
      earlier entry is kept. */
  lemma SendAppends(history: seq<Message>, text: string, response: Response)
    ensures var after := AfterSend(history, text, response);
      |after| == |history| + (if ReplyOf(response).Some? then 2 else 1) &&
      after[..|history|] == history &&
      after[|history|] == Message(UserRole, text) &&
      (ReplyOf(response).Some? ==> after[|history| + 1] == Message(AssistantRole, ReplyOf(response).value))
  {
  }

  /** What is posted stays in the history: the request's messages are a
      prefix of the history after the exchange, whatever the response. */
  lemma SentIsKept(history: seq<Message>, text: string, response: Response, maxTokens: int)
    ensures RequestFor(history, text, maxTokens).messages <= AfterSend(history, text, response)
  {
  }

  /** A run of chat turns only ever appends: the starting history is a prefix
      of the result, which holds at least one new message per turn. */
  lemma {:induction false} ConverseExtends(history: seq<Message>, turns: seq<Turn>)
    ensures history <= Converse(history, turns)
    ensures |Converse(history, turns)| >= |history| + |turns|
    decreases |turns|
  {
    if turns != [] {
      var next := AfterSend(history, turns[0].text, turns[0].response);
      ConverseExtends(next, turns[1..]);
      PrefixTransitive(history, next, Converse(next, turns[1..]));
    }
  }

  /** No windowing: the i-th request of a run of chat turns is exactly the
      history the earlier turns left, with its own user message last. So it
      carries the whole starting history and at least one message per earlier
      turn, and all of it stays in the final history. */
  lemma {:induction false} EveryRequestCarriesWholeHistory(history: seq<Message>, turns: seq<Turn>, maxTokens: int, i: nat)
    requires i < |turns|
    ensures var m := RequestsOf(history, turns, maxTokens)[i].messages;
      m == Converse(history, turns[..i]) + [Message(UserRole, turns[i].text)] &&
      history <= m && m <= Converse(history, turns) && |m| >= |history| + i + 1
    decreases i
  {
    var next := AfterSend(history, turns[0].text, turns[0].response);
    var m := RequestsOf(history, turns, maxTokens)[i].messages;
    assert Converse(history, turns) == Converse(next, turns[1..]);
    if i == 0 {
      assert RequestsOf(history, turns, maxTokens)[0] == RequestFor(history, turns[0].text, maxTokens);
      assert turns[..0] == [];
      SentIsKept(history, turns[0].text, turns[0].response, maxTokens);
      ConverseExtends(next, turns[1..]);
      PrefixTransitive(m, next, Converse(next, turns[1..]));
    } else {
      assert RequestsOf(history, turns, maxTokens)[i] == RequestsOf(next, turns[1..], maxTokens)[i - 1];
      assert turns[i] == turns[1..][i - 1];
      ConverseStep(history, turns[..i]);
      assert turns[..i][1..] == turns[1..][..i - 1];
      EveryRequestCarriesWholeHistory(next, turns[1..], maxTokens, i - 1);
      PrefixTransitive(history, next, m);
    }
  }

  /** A non-empty run of turns is its first turn, then the rest. */
  lemma ConverseStep(history: seq<Message>, turns: seq<Turn>)
    requires turns != []
    ensures Converse(history, turns) ==
      Converse(AfterSend(history, turns[0].text, turns[0].response), turns[1..])
  {
  }

  /** Clearing after any run of chat turns gives back the first message the
      run started from: the exchanges are forgotten. */
  lemma ClearForgetsTurns(history: seq<Message>, turns: seq<Turn>)
    requires history != []
    ensures AfterClear(Converse(history, turns)) == Some([history[0]])
  {
    ConverseExtends(history, turns);
  }

  /** Clearing twice is clearing once. */
  lemma ClearIdempotent(history: seq<Message>)
    requires AfterClear(history).Some?
    ensures AfterClear(AfterClear(history).value) == AfterClear(history)
  {
  }

  /** After a load, `/clear` keeps whatever message was loaded first, system
      or not, and fails on a loaded empty list. */
  lemma ClearAfterLoad(history: seq<Message>, loaded: seq<Message>)
    ensures loaded != [] ==> AfterClear(AfterLoad(history, Parsed(loaded))) == Some([loaded[0]])
    ensures loaded == [] ==> AfterClear(AfterLoad(history, Parsed(loaded))).None?
  {
  }

  /** A loaded history is sent on as it was loaded: the next request starts
      with exactly the loaded messages, in order, roles included. */
  lemma LoadedHistoryIsSent(history: seq<Message>, loaded: seq<Message>, text: string, maxTokens: int)
    ensures var messages := RequestFor(AfterLoad(history, Parsed(loaded)), text, maxTokens).messages;
      |messages| == |loaded| + 1 && messages[..|loaded|] == loaded
  {
  }

  lemma PrefixTransitive(a: seq<Message>, b: seq<Message>, c: seq<Message>)
    requires a <= b && b <= c
    ensures a <= c
  {
    assert a == b[..|a|] && b == c[..|b|];
    assert a == c[..|a|];
  }

  /** The history store of one chatbot: `history` is updated in place. */
  class NLPChatbot {
    const apiKey: string
    const baseUrl: string := BaseUrl
    const model: string := ModelName
    const systemPrompt: string := SystemPrompt
    var history: seq<Message>

    /** A new bot holds exactly one message: the system prompt. */
    constructor (apiKey: string)
      ensures this.apiKey == apiKey
      ensures history == [Message(SystemRole, SystemPrompt)]
    {
      this.apiKey := apiKey;
      history := [];
      new;
      history := history + [Message(SystemRole, systemPrompt)];
    }

    /** Appends the user message, posts the whole history, and appends the
        assistant's reply only when the endpoint answered with one. */
    method SendMessage(message: string, maxTokens: int, response: Response)
      returns (reply: Option<string>, request: Request)
      modifies this
      ensures request == RequestFor(old(history), message, maxTokens)
      ensures reply == ReplyOf(response)
      ensures history == AfterSend(old(history), message, response)
    {
      history := history + [Message(UserRole, message)];
      request := Request(baseUrl, model, history, maxTokens, 1, 0, 0);
      match response {
        case Http(status, Completion(content)) =>
          if status == 200 {
            history := history + [Message(AssistantRole, content)];
            reply := Some(content);
          } else {
            reply := None;
          }
        case _ =>
          reply := None;
      }
    }

    /** Keeps only the first message; on an empty history the indexing fails
        (`ok` is false) and nothing changes. */
    method ClearConversation() returns (ok: bool)
      modifies this
      ensures ok == (old(history) != [])
      ensures ok ==> history == [old(history)[0]]
      ensures !ok ==> history == old(history)
      ensures AfterClear(old(history)) == if ok then Some(history) else None
    {
      if history == [] {
        ok := false;
      } else {
        history := [history[0]];
        ok := true;
      }
    }

    /** The file `save_conversation(filename)` writes and what it writes to it:
        the given name, or the timestamped default; the history as it is. */
    method SaveConversation(filename: Option<string>, timestamp: string)
      returns (path: string, written: seq<Message>)
      ensures path == if filename.Some? then filename.value else DefaultFilename(timestamp)
      ensures filename.None? ==> path[..13] == "conversation_" && path[|path| - 5..] == ".json"
      ensures written == history
    {
      match filename {
        case Some(name) => path := name;
        case None => path := "conversation_" + timestamp + ".json";
      }
      written := history;
    }

    /** Replaces the history with what was read, unvalidated; a failed read
        leaves the history as it was. */
    method LoadConversation(file: LoadResult) returns (ok: bool)
      modifies this
      ensures ok == file.Parsed?
      ensures history == AfterLoad(old(history), file)
    {
      match file {
        case Parsed(messages) =>
          history := messages;
          ok := true;
        case Unreadable =>
          ok := false;
      }
    }
  }
}

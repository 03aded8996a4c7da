/** The command loop of `main` (chatbot.py): each input line is stripped,
    ignored when blank, dispatched as a slash command, or sent as chat.

    Console input arrives as a sequence of lines; what the outside world
    answers while a line is handled (the endpoint's response, the content of
    a file to load, the clock for a default save name) comes with the line
    as an `Io` value. Printing is not modelled: an `Effect` records what the
    loop did with a line. */
module Cli {
  import opened Wrappers
  import opened Text
  import opened Chatbot

  /** What an input line asks for. `Save` and `Load` carry the text after
      the first space, when there is one. */
  datatype Command =
    | Empty
    | Quit
    | Help
    | Clear
    | Save(file: Option<string>)
    | Load(file: Option<string>)
    | ShowModel
    | Unknown
    | Chat(text: string)

  /** The lower-cased command words the loop recognises. */
  const CommandWords := {"/quit", "/exit", "/help", "/clear", "/save", "/load", "/model"}

  /** The command a lower-cased command word names. */
  function Named(word: string, arg: Option<string>): (c: Command)
    ensures !c.Chat? && c != Empty
    ensures c.Save? || c.Load? ==> c.file == arg
  {
    if word == "/quit" || word == "/exit" then Quit
    else if word == "/help" then Help
    else if word == "/clear" then Clear
    else if word == "/save" then Save(arg)
    else if word == "/load" then Load(arg)
    else if word == "/model" then ShowModel
    else Unknown
  }

  /** How the loop reads one input line. A line that is not blank is chat,
      unless it starts with `/`: then its text up to the first space,
      lower-cased, picks the command and the rest is the argument. */
  function Classify(line: string): (c: Command)
    ensures c.Chat? ==> c.text == Strip(line) && c.text != [] && c.text[0] != '/'
  {
    var s := Strip(line);
    if s == [] then Empty
    else if s[0] != '/' then Chat(s)
    else
      var parts := SplitOnce(s, ' ');
      Named(Lower(parts[0]), if |parts| > 1 then Some(parts[1]) else None)
  }

  /** A slash line is an unknown command exactly when its lower-cased first
      word is none of the command words. */
  lemma UnknownIffNotCommandWord(line: string)
    ensures Classify(line) == Unknown <==>
      var s := Strip(line);
      s != [] && s[0] == '/' && Lower(SplitOnce(s, ' ')[0]) !in CommandWords
  {
    var s := Strip(line);
    if s != [] && s[0] == '/' {
      var parts := SplitOnce(s, ' ');
      NamedUnknown(Lower(parts[0]), if |parts| > 1 then Some(parts[1]) else None);
    }
  }

  /** `Named` gives `Unknown` exactly off the command words. */
  lemma NamedUnknown(word: string, arg: Option<string>)
    ensures Named(word, arg) == Unknown <==> word !in CommandWords
  {
  }

  /** A line is ignored exactly when it is blank. */
  lemma BlankLinesIgnored(line: string)
    ensures Classify(line) == Empty <==> AllSpace(line)
  {
  }

  /** Chat is exactly a line whose stripped text does not start with `/`,
      and what is sent is that stripped text: a slice of the line with only
      whitespace around it. */
  lemma ChatIsStrippedLine(line: string)
    ensures Classify(line).Chat? <==> Strip(line) != [] && Strip(line)[0] != '/'
    ensures Classify(line).Chat? ==>
      var text := Classify(line).text;
      !IsSpace(text[0]) && !IsSpace(text[|text| - 1]) &&
      exists i :: 0 <= i <= |line| - |text| && line[i..i + |text|] == text &&
                  AllSpace(line[..i]) && AllSpace(line[i + |text|..])
  {
    StripIsSlice(line);
  }

  /** Whitespace around a line changes nothing. */
  lemma {:induction false} SurroundingSpaceIgnored(pre: string, line: string, post: string)
    requires AllSpace(pre) && AllSpace(post)
    ensures Classify(pre + line + post) == Classify(line)
  {
    StripIgnoresSurroundingSpace(pre, line, post);
  }

  /** A command with an argument: the word before the first space picks the
      command, whatever its case, and the argument is everything after that
      space, kept as it is (leading spaces included). */
  lemma CommandWithArgument(word: string, arg: string)
    requires word != [] && word[0] == '/' && ' ' !in word
    requires arg != [] && !IsSpace(arg[|arg| - 1])
    ensures Classify(word + " " + arg) == Named(Lower(word), Some(arg))
  {
    var s := word + " " + arg;
    assert s[0] == '/' && s[|s| - 1] == arg[|arg| - 1];
    StripKeepsTrimmed(s);
    SplitOnceAtFirst(word, ' ', arg);
  }

  /** A command without an argument. */
  lemma CommandAlone(word: string)
    requires word != [] && word[0] == '/' && ' ' !in word && !IsSpace(word[|word| - 1])
    ensures Classify(word) == Named(Lower(word), None)
  {
    StripKeepsTrimmed(word);
  }

  /** The argument of `/save` or `/load` is never empty and never ends in
      whitespace, so `/load` followed only by spaces has no filename. */
  lemma ArgumentNeverBlank(line: string)
    requires Classify(line).Save? || Classify(line).Load?
    requires Classify(line).file.Some?
    ensures var a := Classify(line).file.value; a != [] && !IsSpace(a[|a| - 1])
  {
    var s := Strip(line);
    var parts := SplitOnce(s, ' ');
    assert Classify(line) == Named(Lower(parts[0]), if |parts| > 1 then Some(parts[1]) else None);
    assert |parts| == 2 && s == parts[0] + [' '] + parts[1];
    assert s[|parts[0]|] == ' ';
    assert |parts[1]| > 0;
    assert s[|s| - 1] == parts[1][|parts[1]| - 1];
  }

  /** Case does not matter in command words: two words equal after
      lower-casing name the same command, with or without an argument. */
  lemma {:induction false} CommandCaseIgnored(w1: string, w2: string, arg: string)
    requires Lower(w1) == Lower(w2)
    requires w1 != [] && w1[0] == '/' && ' ' !in w1 && !IsSpace(w1[|w1| - 1])
    requires arg != [] && !IsSpace(arg[|arg| - 1])
    ensures Classify(w1) == Classify(w2)
    ensures Classify(w1 + " " + arg) == Classify(w2 + " " + arg)
  {
    assert |w1| == |w2|;
    forall k | 0 <= k < |w2| ensures w2[k] != ' ' {
      if w2[k] == ' ' {
        LowerFixesNonLetter(w2[k], w1[k]);
      }
    }
    LowerFixesNonLetter(w1[0], w2[0]);
    if IsSpace(w2[|w2| - 1]) {
      LowerFixesNonLetter(w2[|w2| - 1], w1[|w1| - 1]);
    }
    CommandAlone(w1);
    CommandAlone(w2);
    CommandWithArgument(w1, arg);
    CommandWithArgument(w2, arg);
  }

  /** Any word that lower-cases to `/quit` or `/exit` ends the loop, alone
      or followed by an argument. */
  lemma QuitInAnyCase(word: string, arg: string)
    requires Lower(word) == "/quit" || Lower(word) == "/exit"
    requires arg != [] && !IsSpace(arg[|arg| - 1])
    ensures Classify(word) == Quit && Classify(word + " " + arg) == Quit
  {
    var lw := Lower(word);
    assert |lw| == 5 && lw[0] == '/' && 'a' <= lw[4] <= 'z';
    assert forall k :: 0 <= k < 5 ==> lw[k] != ' ';
    LowerShape(word);
    CommandAlone(word);
    CommandWithArgument(word, arg);
  }

  /** The shape of a word whose lower-cased form is a command word. */
  lemma LowerShape(word: string)
    requires word != [] && Lower(word)[0] == '/' && 'a' <= Lower(word)[|word| - 1] <= 'z'
    requires forall k :: 0 <= k < |word| ==> Lower(word)[k] != ' '
    ensures word[0] == '/' && ' ' !in word && !IsSpace(word[|word| - 1])
  {
    var lw := Lower(word);
    LowerFixesNonLetter(lw[0], word[0]);
    forall k | 0 <= k < |word| ensures word[k] != ' ' {
      assert lw[k] == LowerChar(word[k]);
    }
    var last := word[|word| - 1];
    assert lw[|word| - 1] == LowerChar(last);
    LetterNotSpace(last);
  }

  /** A character that lower-cases to an ASCII letter is not whitespace. */
  lemma LetterNotSpace(c: char)
    requires 'a' <= LowerChar(c) <= 'z'
    ensures !IsSpace(c)
  {
    assert 'A' <= c <= 'Z' || 'a' <= c <= 'z';
  }

  lemma LowerFixesNonLetter(c: char, d: char)
    requires LowerChar(c) == LowerChar(d)
    requires !('A' <= c <= 'Z') && !('a' <= c <= 'z')
    ensures d == c
  {
  }

  /** What the outside world answers while one line is handled: the
      endpoint's response to a chat line, the content of the file a `/load`
      names, and the timestamp a default save name is built from. */
  datatype Io = Io(response: Response, file: LoadResult, timestamp: string)

  /** What the loop did with one line. */
  datatype Effect =
    | Ignored
    | Exit
    | HelpShown
    | Cleared(ok: bool)
    | Saved(path: string, written: seq<Message>)
    | LoadAttempted(filename: string, ok: bool)
    | MissingFilename
    | ModelShown(model: string)
    | UnknownCommand
    | Sent(request: Request, reply: Option<string>)

  datatype Outcome = Outcome(history: seq<Message>, effect: Effect)

  /** Whether the loop prints the reply: Python treats an empty reply as
      false, so it prints the apology instead, though the reply is kept. */
  predicate ReplyShown(reply: Option<string>) {
    reply.Some? && reply.value != ""
  }

  /** What handling command `c` does to history `h`. Only `/clear`, a
      `/load` with a filename and chat can change the history. */
  function Handle(h: seq<Message>, c: Command, io: Io): (o: Outcome)
    ensures !(c.Clear? || c.Chat? || (c.Load? && c.file.Some?)) ==> o.history == h
    ensures o.effect == Exit <==> c == Quit
  {
    match c
    case Empty => Outcome(h, Ignored)
    case Quit => Outcome(h, Exit)
    case Help => Outcome(h, HelpShown)
    case Clear =>
      (match AfterClear(h)
       case Some(kept) => Outcome(kept, Cleared(true))
       case None => Outcome(h, Cleared(false)))
    case Save(file) =>
      Outcome(h, Saved(if file.Some? then file.value else DefaultFilename(io.timestamp), h))
    case Load(file) =>
      (match file
       case Some(name) => Outcome(AfterLoad(h, io.file), LoadAttempted(name, io.file.Parsed?))
       case None => Outcome(h, MissingFilename))
    case ShowModel => Outcome(h, ModelShown(ModelName))
    case Unknown => Outcome(h, UnknownCommand)
    case Chat(text) =>
      Outcome(AfterSend(h, text, io.response),
              Sent(RequestFor(h, text, DefaultMaxTokens), ReplyOf(io.response)))
  }

  /** A bare `/save` writes the whole history, unchanged, to a file named
      `conversation_<timestamp>.json`. */
  lemma BareSaveUsesDefaultName(h: seq<Message>, io: Io)
    ensures var o := Handle(h, Save(None), io);
      o.history == h && o.effect.Saved? && o.effect.written == h &&
      |o.effect.path| == |io.timestamp| + 18 &&
      o.effect.path[..13] == "conversation_" &&
      o.effect.path[13..13 + |io.timestamp|] == io.timestamp &&
      o.effect.path[13 + |io.timestamp|..] == ".json"
  {
  }

  /** An empty reply is recorded in the history although the user is shown
      the apology. */
  lemma EmptyReplyRecordedNotShown(h: seq<Message>, text: string, io: Io)
    requires io.response == Http(200, Completion(""))
    ensures var o := Handle(h, Chat(text), io);
      o.effect.Sent? && !ReplyShown(o.effect.reply) &&
      o.history == h + [Message(UserRole, text), Message(AssistantRole, "")]
  {
  }

  /** One pass of the loop body on `line`: classify it, then act on it. */
  method Step(bot: NLPChatbot, line: string, io: Io) returns (effect: Effect)
    modifies bot
    ensures Outcome(bot.history, effect) == Handle(old(bot.history), Classify(line), io)
  {
    var command := Classify(line);
    effect := Dispatch(bot, command, io);
  }

  /** Acts on a classified line, calling the bot as `main` does. */
  method Dispatch(bot: NLPChatbot, command: Command, io: Io) returns (effect: Effect)
    modifies bot
    ensures Outcome(bot.history, effect) == Handle(old(bot.history), command, io)
  {
    match command {
      case Empty =>
        effect := Ignored;
      case Quit =>
        effect := Exit;
      case Help =>
        effect := HelpShown;
      case Clear =>
        var ok := bot.ClearConversation();
        effect := Cleared(ok);
      case Save(file) =>
        var path, written := bot.SaveConversation(file, io.timestamp);
        effect := Saved(path, written);
      case Load(file) =>
        if file.Some? {
          var ok := bot.LoadConversation(io.file);
          effect := LoadAttempted(file.value, ok);
        } else {
          effect := MissingFilename;
        }
      case ShowModel =>
        effect := ModelShown(bot.model);
      case Unknown =>
        effect := UnknownCommand;
      case Chat(text) =>
        var reply, request := bot.SendMessage(text, DefaultMaxTokens, io.response);
        effect := Sent(request, reply);
    }
  }

  /** One console line with what the world answers while it is handled. */
  datatype Input = Input(line: string, io: Io)

  /** A line as the loop acts on it: its command and the world's answers. */
  datatype Entry = Entry(command: Command, io: Io)

  /** The commands a stream of lines asks for, in order. */
  function Read(inputs: seq<Input>): (entries: seq<Entry>)
    ensures |entries| == |inputs|
  {
    if inputs == [] then []
    else [Entry(Classify(inputs[0].line), inputs[0].io)] + Read(inputs[1..])
  }

  /** Each line is read on its own: the k-th entry is the k-th line's
      command, with the world's answers to that line. */
  lemma {:induction false} ReadAt(inputs: seq<Input>, k: nat)
    requires k < |inputs|
    ensures Read(inputs)[k] == Entry(Classify(inputs[k].line), inputs[k].io)
    decreases k
  {
    var head := Entry(Classify(inputs[0].line), inputs[0].io);
    assert Read(inputs) == [head] + Read(inputs[1..]);
    if k > 0 {
      ReadAt(inputs[1..], k - 1);
      assert inputs[1..][k - 1] == inputs[k];
    }
  }

  /** The history after the loop has acted on `entries`, starting from `h`;
      the loop stops at the first quit. */
  function Session(h: seq<Message>, entries: seq<Entry>): seq<Message>
    decreases |entries|
  {
    if entries == [] then h
    else if entries[0].command == Quit then h
    else Session(Handle(h, entries[0].command, entries[0].io).history, entries[1..])
  }

  /** A file-reading `/load`. */
  predicate LoadsFile(c: Command) {
    c.Load? && c.file.Some?
  }

  /** Nothing typed after a quit is ever acted on. */
  lemma {:induction false} LinesAfterQuitIgnored(h: seq<Message>, before: seq<Entry>, quit: Entry, after: seq<Entry>)
    requires quit.command == Quit
    ensures Session(h, before + [quit] + after) == Session(h, before)
    decreases |before|
  {
    var all := before + [quit] + after;
    if before == [] {
      assert all[0] == quit;
    } else {
      assert all[0] == before[0];
      assert all[1..] == before[1..] + [quit] + after;
      if before[0].command != Quit {
        LinesAfterQuitIgnored(Handle(h, before[0].command, before[0].io).history, before[1..], quit, after);
      }
    }
  }

  /** Unless a file is loaded, the first message survives the whole session:
      sends append behind it and `/clear` keeps exactly it. */
  lemma {:induction false} FirstMessageSurvives(h: seq<Message>, entries: seq<Entry>)
    requires h != []
    requires forall k :: 0 <= k < |entries| ==> !LoadsFile(entries[k].command)
    ensures Session(h, entries) != [] && Session(h, entries)[0] == h[0]
    decreases |entries|
  {
    if entries != [] && entries[0].command != Quit {
      var c := entries[0].command;
      var next := Handle(h, c, entries[0].io).history;
      assert next != [] && next[0] == h[0] by {
        assert !LoadsFile(entries[0].command);
        if c.Chat? {
          SendAppends(h, c.text, entries[0].io.response);
        }
      }
      FirstMessageSurvives(next, entries[1..]);
    }
  }

  /** From a fresh bot, `/clear` gives back exactly the system prompt as long
      as no file was loaded. */
  lemma ClearRestoresSystemPrompt(entries: seq<Entry>)
    requires forall k :: 0 <= k < |entries| ==> !LoadsFile(entries[k].command)
    ensures AfterClear(Session([Message(SystemRole, SystemPrompt)], entries)) ==
      Some([Message(SystemRole, SystemPrompt)])
  {
    FirstMessageSurvives([Message(SystemRole, SystemPrompt)], entries);
  }

  /** The chat turns of a session of chat lines: each text sent with the
      endpoint's response to it. */
  function ChatTurns(entries: seq<Entry>): seq<Turn>
    requires forall k :: 0 <= k < |entries| ==> entries[k].command.Chat?
  {
    seq(|entries|, k requires 0 <= k < |entries| => Turn(entries[k].command.text, entries[k].io.response))
  }

  /** A session of chat lines only is a run of chat turns of the
      conversation store, so every request of it carries the whole history
      (`Chatbot.EveryRequestCarriesWholeHistory`). */
  lemma {:induction false} ChatSessionIsConversation(h: seq<Message>, entries: seq<Entry>)
    requires forall k :: 0 <= k < |entries| ==> entries[k].command.Chat?
    ensures Session(h, entries) == Converse(h, ChatTurns(entries))
    decreases |entries|
  {
    if entries != [] {
      var c := entries[0].command;
      assert ChatTurns(entries)[1..] == ChatTurns(entries[1..]);
      ChatSessionIsConversation(Handle(h, c, entries[0].io).history, entries[1..]);
    }
  }

  /** The rest of a session from entry `i` on: that entry's outcome, then
      the entries after it, unless it quits. */
  lemma SessionFrom(h: seq<Message>, entries: seq<Entry>, i: nat)
    requires i < |entries|
    ensures Session(h, entries[i..]) ==
      if entries[i].command == Quit then h
      else Session(Handle(h, entries[i].command, entries[i].io).history, entries[i + 1..])
  {
    assert entries[i..][0] == entries[i];
    assert entries[i..][1..] == entries[i + 1..];
  }

  /** The loop of `main` over a finite stream of lines: acts on each line
      until one quits. It returns how many lines it read and whether the
      last of them quit; without a quit it reads them all. */
  method Run(bot: NLPChatbot, inputs: seq<Input>) returns (read: nat, quit: bool)
    modifies bot
    ensures read <= |inputs|
    ensures quit ==> 0 < read && Read(inputs)[read - 1].command == Quit
    ensures !quit ==> read == |inputs|
    ensures forall k :: 0 <= k < read && !(quit && k == read - 1) ==> Read(inputs)[k].command != Quit
    ensures bot.history == Session(old(bot.history), Read(inputs))
  {
    ghost var h, entries := bot.history, Read(inputs);
    read, quit := 0, false;
    while read < |inputs|
      invariant read <= |inputs|
      invariant forall k :: 0 <= k < read ==> entries[k].command != Quit
      invariant Session(h, entries) == Session(bot.history, entries[read..])
    {
      ghost var before := bot.history;
      var effect := Step(bot, inputs[read].line, inputs[read].io);
      ReadAt(inputs, read);
      SessionFrom(before, entries, read);
      read := read + 1;
      if effect == Exit {
        quit := true;
        return;
      }
    }
    assert entries[read..] == [];
  }
}

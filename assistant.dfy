/** The `GoogleAssistant` object: its reminders and Gemini state, and
    `respond`, which serves reminder requests itself (they change state) and
    hands everything else to Gemini, or to the fallback table when Gemini is
    not set up or fails. */
module Assistant {
  import opened Wrappers
  import opened Text
  import opened Rules

  /** How far `initialize_gemini`'s calls into the Gemini SDK got. */
  datatype SdkResult = ConfigureFailed | ModelFailed | ChatFailed | ChatStarted

  /** What the Gemini chat answers a message with: its text, or `None` when
      `send_message` raises. */
  type Backend = string -> Option<string>

  /** The fields of the object that `respond` reads besides the reminders. */
  datatype Config = Config(userName: string, geminiInitialized: bool, modelLoaded: bool, chatStarted: bool)

  const MarathiRequest: string := "in marathi"
  const MarathiPreamble: string := "Please respond in Marathi to: "

  /** The message `generate_response_with_gemini` sends: the input itself, or,
      when its lower-cased form asks for Marathi, the preamble and the input
      with every lower-case "in marathi" removed. */
  function GeminiPrompt(input: string): string {
    if Contains(Lower(input), MarathiRequest) then MarathiPreamble + Strip(Replace(input, MarathiRequest, ""))
    else input
  }

  /** The Marathi request is detected case-blind but removed case-sensitively:
      "In Marathi" stays in the message. */
  lemma CapitalisedRequestIsKept(input: string)
    requires Contains(Lower(input), MarathiRequest) && !Contains(input, MarathiRequest)
    ensures GeminiPrompt(input) == MarathiPreamble + Strip(input)
  {
  }

  /** With the request in lower case, the message is the preamble and the input
      with its first request cut out (and any later ones replaced the same way). */
  lemma LowerCaseRequestIsRemoved(input: string)
    requires Contains(input, MarathiRequest)
    ensures exists i :: && OccursAt(input, MarathiRequest, i)
                        && (forall j | 0 <= j < i :: !OccursAt(input, MarathiRequest, j))
                        && GeminiPrompt(input)
                           == MarathiPreamble + Strip(input[..i] + Replace(input[i + |MarathiRequest|..], MarathiRequest, ""))
  {
    IndexOfIsFirst(input, MarathiRequest);
    var i := IndexOf(input, MarathiRequest).value;
    assert OccursAt(input, MarathiRequest, i);
    var low := Lower(input);
    assert low[i..i + |MarathiRequest|] == input[i..i + |MarathiRequest|];
    assert OccursAt(low, MarathiRequest, i);
    ContainsMeaning(low, MarathiRequest);
    assert input[..i] + "" == input[..i];
  }

  /** `generate_response_with_gemini(input)`: Gemini's text, or, when sending
      fails, the fallback's answer to the message that was sent. */
  function GeminiAnswer(input: string, reminders: seq<string>, cfg: Config, send: Backend, env: Env): Outcome {
    var prompt := GeminiPrompt(input);
    var sent := if cfg.chatStarted then send(prompt) else None;
    match sent
    case Some(text) => Say(text)
    case None => FallbackAnswer(prompt, reminders, cfg.userName, env)
  }

  /** The test `respond` applies before anything else, on the normalised input. */
  predicate AddBranch(s: string) {
    MentionsReminder(s) && AddRequested(s) && Contains(s, TaskCue)
  }

  predicate ListBranch(s: string) {
    MentionsReminder(s) && !AddRequested(s) && ListRequested(s)
  }

  predicate UsesGemini(cfg: Config) {
    cfg.geminiInitialized && cfg.modelLoaded
  }

  /** The reminder block at the head of `respond`, on the normalised input `s`:
      the outcome when the block returns, or `None` when control falls through. */
  function ReminderBlock(s: string, reminders: seq<string>): Option<Outcome> {
    if !MentionsReminder(s) then None
    else if AddRequested(s) then
      match ReminderTask(s)
      case Some(task) => Some(Outcome(Some(Text(AddedReply(task))), Some(task)))
      case None => None
    else if ListRequested(s) then Some(Say(ListingReply(reminders)))
    else None
  }

  /** `respond(input)` on an assistant whose reminders are `reminders`. */
  function RespondAnswer(input: string, reminders: seq<string>, cfg: Config, send: Backend, env: Env): Outcome {
    match ReminderBlock(Normalize(input), reminders)
    case Some(o) => o
    case None =>
      if UsesGemini(cfg) then GeminiAnswer(input, reminders, cfg, send, env)
      else FallbackAnswer(input, reminders, cfg.userName, env)
  }

  /** The reminder block returns exactly in the add branch with a task and in
      the list branch, and only the add branch appends. */
  lemma ReminderBlockCases(s: string, reminders: seq<string>)
    ensures ReminderBlock(s, reminders).Some? <==> AddBranch(s) || ListBranch(s)
    ensures AddBranch(s) ==>
      ReminderBlock(s, reminders) == Some(Outcome(Some(Text(AddedReply(ReminderTask(s).value))), ReminderTask(s)))
    ensures ListBranch(s) ==> ReminderBlock(s, reminders) == Some(Say(ListingReply(reminders)))
  {
  }

  /** A reminder request with "set" or "add" and "remind me to " appends exactly
      one task: the lower-cased rest of the line after the first "remind me to "
      (all of the input after it, when the input is one line), and the reply
      confirms that task. Whether Gemini is on makes no difference. */
  lemma RespondAddsTask(input: string, reminders: seq<string>, cfg: Config, send: Backend, env: Env)
    requires AddBranch(Normalize(input))
    ensures var s := Normalize(input);
      var o := RespondAnswer(input, reminders, cfg, send, env);
      && o.added.Some? && o.added == ReminderTask(s) && IsStoredTask(o.added.value)
      && o.reply == Some(Text("I'll remind you to " + o.added.value + "."))
      && Appended(reminders, o.added) == reminders + [o.added.value]
    ensures var s := Normalize(input);
      var o := RespondAnswer(input, reminders, cfg, send, env);
      '\n' !in s ==>
        forall i | OccursAt(s, TaskCue, i) && (forall j | 0 <= j < i :: !OccursAt(s, TaskCue, j))
          :: o.added == Some(s[i + |TaskCue|..])
  {
    var s := Normalize(input);
    if '\n' !in s {
      forall i | OccursAt(s, TaskCue, i) && (forall j | 0 <= j < i :: !OccursAt(s, TaskCue, j))
        ensures ReminderTask(s) == Some(s[i + |TaskCue|..])
      {
        TaskIsRestOfLine(s, i);
      }
    }
  }

  /** Listing: the header and one line per reminder in insertion order, or the
      "no reminders" text; the reminders do not change. The add test comes
      first, so an input with both "add" and "list" never lists. */
  lemma RespondLists(input: string, reminders: seq<string>, cfg: Config, send: Backend, env: Env)
    requires ListBranch(Normalize(input))
    requires forall k | 0 <= k < |reminders| :: IsStoredTask(reminders[k])
    ensures var o := RespondAnswer(input, reminders, cfg, send, env);
      && o.added.None?
      && (reminders == [] ==> o.reply == Some(Text(NoReminders)))
      && (reminders != [] ==> o.reply.Some? && SplitLines(Printed(o.reply.value)) == [ListingHeader] + Bullets(reminders))
  {
    if reminders != [] {
      ListingLines(reminders);
    }
  }

  /** An input that asks to add a reminder without "remind me to " does not
      return from the reminder branch: it goes on to Gemini or the fallback. */
  lemma AddWithoutCueFallsThrough(input: string, reminders: seq<string>, cfg: Config, send: Backend, env: Env)
    requires var s := Normalize(input); MentionsReminder(s) && AddRequested(s) && !Contains(s, TaskCue)
    ensures RespondAnswer(input, reminders, cfg, send, env)
      == if UsesGemini(cfg) then GeminiAnswer(input, reminders, cfg, send, env)
         else FallbackAnswer(input, reminders, cfg.userName, env)
  {
  }

  /** `respond` answers from the reminder block when it returns, and otherwise
      from Gemini or the fallback. */
  lemma RespondFallsThrough(input: string, reminders: seq<string>, cfg: Config, send: Backend, env: Env)
    ensures var b := ReminderBlock(Normalize(input), reminders);
      RespondAnswer(input, reminders, cfg, send, env)
        == if b.Some? then b.value
           else if UsesGemini(cfg) then GeminiAnswer(input, reminders, cfg, send, env)
           else FallbackAnswer(input, reminders, cfg.userName, env)
  {
  }

  /** Gemini's text when the chat is up and the send succeeds; otherwise the
      fallback's answer to the message that was sent. */
  lemma GeminiAnswerCases(input: string, reminders: seq<string>, cfg: Config, send: Backend, env: Env)
    ensures var prompt := GeminiPrompt(input);
      GeminiAnswer(input, reminders, cfg, send, env)
        == if cfg.chatStarted && send(prompt).Some? then Say(send(prompt).value)
           else FallbackAnswer(prompt, reminders, cfg.userName, env)
  {
  }

  /** With Gemini set up and a chat that answers the message, `respond` always
      has a reply and only its add branch appends; anything outside the reminder
      block gets Gemini's text as it came back. */
  lemma WorkingChatAlwaysAnswers(input: string, reminders: seq<string>, cfg: Config, send: Backend, env: Env)
    requires UsesGemini(cfg) && cfg.chatStarted && send(GeminiPrompt(input)).Some?
    ensures var s := Normalize(input);
      var o := RespondAnswer(input, reminders, cfg, send, env);
      && o.reply.Some?
      && (o.added.Some? <==> AddBranch(s))
      && (!AddBranch(s) && !ListBranch(s) ==> o == Say(send(GeminiPrompt(input)).value))
  {
    ReminderBlockCases(Normalize(input), reminders);
    RespondFallsThrough(input, reminders, cfg, send, env);
    GeminiAnswerCases(input, reminders, cfg, send, env);
  }

  /** The Gemini path appends only through the fallback it falls back on. */
  lemma GeminiAddsOnlyThroughFallback(input: string, reminders: seq<string>, cfg: Config, send: Backend, env: Env)
    ensures var o := GeminiAnswer(input, reminders, cfg, send, env);
      o.added.Some? ==> o == FallbackAnswer(GeminiPrompt(input), reminders, cfg.userName, env)
  {
  }

  /** The reminders change only in the two add branches: the reminder branch of
      `respond`, or the fallback's reminder rule reached after Gemini fails on the
      message it was sent. */
  lemma OnlyAddBranchesAppend(input: string, reminders: seq<string>, cfg: Config, send: Backend, env: Env)
    ensures var s := Normalize(input);
      var o := RespondAnswer(input, reminders, cfg, send, env);
      o.added.Some? ==>
        || (AddBranch(s) && o.added == ReminderTask(s))
        || (var m := Normalize(GeminiPrompt(input));
              && UsesGemini(cfg) && !AddBranch(s)
              && (!cfg.chatStarted || send(GeminiPrompt(input)).None?)
              && Classify(m) == Reminder && AddRequested(m) && o.added == ReminderTask(m))
  {
    var s := Normalize(input);
    ReminderBlockCases(s, reminders);
    RespondFallsThrough(input, reminders, cfg, send, env);
    if UsesGemini(cfg) {
      GeminiAnswerCases(input, reminders, cfg, send, env);
      GeminiAddsOnlyThroughFallback(input, reminders, cfg, send, env);
      FallbackAddsOnlyOnRequest(GeminiPrompt(input), reminders, cfg.userName, env);
    } else {
      FallbackAddsOnlyOnRequest(input, reminders, cfg.userName, env);
      ClassifiedMatches(s);
    }
  }

  /** Every task `respond` appends is lower-case and on one line. */
  lemma RespondKeepsTasksStored(input: string, reminders: seq<string>, cfg: Config, send: Backend, env: Env)
    requires forall k | 0 <= k < |reminders| :: IsStoredTask(reminders[k])
    ensures var r := Appended(reminders, RespondAnswer(input, reminders, cfg, send, env).added);
      forall k | 0 <= k < |r| :: IsStoredTask(r[k])
  {
    OnlyAddBranchesAppend(input, reminders, cfg, send, env);
  }

  /** Without Gemini, a task is appended exactly when the reminder branch of
      `respond` fires: the fallback's own add branch cannot be reached. */
  lemma WithoutGeminiOnlyRespondAdds(input: string, reminders: seq<string>, cfg: Config, send: Backend, env: Env)
    requires !UsesGemini(cfg)
    ensures RespondAnswer(input, reminders, cfg, send, env).added.Some? <==> AddBranch(Normalize(input))
  {
    var s := Normalize(input);
    ReminderBlockCases(s, reminders);
    RespondFallsThrough(input, reminders, cfg, send, env);
    FallbackAddsOnlyOnRequest(input, reminders, cfg.userName, env);
    ClassifiedMatches(s);
  }

  /** Without Gemini, `respond` returns `None` exactly when the input names a
      reminder as a word, no earlier rule of the table matches, and none of
      "set", "add", "list", "show" occurs. */
  lemma WithoutGeminiSilentCases(input: string, reminders: seq<string>, cfg: Config, send: Backend, env: Env)
    requires !UsesGemini(cfg)
    ensures var s := Normalize(input);
      RespondAnswer(input, reminders, cfg, send, env).reply.None? <==>
        Classify(s) == Reminder && !AddRequested(s) && !ListRequested(s)
  {
    var s := Normalize(input);
    if !AddBranch(s) && !ListBranch(s) {
      FallbackSilentCases(input, reminders, cfg.userName, env);
    }
  }

  // ---------------------------------------------------------------- the object

  class GoogleAssistant {
    const name: string
    var userName: string
    var reminders: seq<string>
    var geminiInitialized: bool
    var modelLoaded: bool
    var chatStarted: bool

    /** Every stored task came from an add branch, so it is lower-case and on one line. */
    ghost predicate Valid()
      reads this
    {
      forall k | 0 <= k < |reminders| :: IsStoredTask(reminders[k])
    }

    function Settings(): Config
      reads this
    {
      Config(userName, geminiInitialized, modelLoaded, chatStarted)
    }

    constructor ()
      ensures Valid()
      ensures name == AssistantName && userName == "User" && reminders == []
      ensures !geminiInitialized && !modelLoaded && !chatStarted
    {
      name := AssistantName;
      userName := "User";
      reminders := [];
      geminiInitialized := false;
      modelLoaded := false;
      chatStarted := false;
    }

    /** `initialize_gemini(apiKey)`: with no key nothing happens; otherwise the
        model, the flag and the chat are set in that order, as far as the SDK
        calls get. */
    method InitializeGemini(apiKey: string, sdk: SdkResult) returns (ok: bool)
      modifies this`modelLoaded, this`geminiInitialized, this`chatStarted
      ensures ok <==> apiKey != [] && sdk == ChatStarted
      ensures var loaded := apiKey != [] && (sdk == ChatFailed || sdk == ChatStarted);
        && modelLoaded == (old(modelLoaded) || loaded)
        && geminiInitialized == (old(geminiInitialized) || loaded)
        && chatStarted == (old(chatStarted) || ok)
    {
      if apiKey == [] {
        return false;
      }
      if sdk == ConfigureFailed || sdk == ModelFailed {
        return false;
      }
      modelLoaded := true;
      geminiInitialized := true;
      if sdk == ChatFailed {
        return false;
      }
      chatStarted := true;
      ok := true;
    }

    /** `generate_fallback_response(input)`. */
    method GenerateFallbackResponse(input: string, env: Env) returns (reply: Option<Reply>)
      requires Valid()
      modifies this`reminders
      ensures Valid()
      ensures var o := FallbackAnswer(input, old(reminders), userName, env);
        reply == o.reply && reminders == Appended(old(reminders), o.added)
    {
      var s := Normalize(input);
      var intent := Classify(s);
      if intent != Reminder {
        return Some(CannedReply(intent, s, userName, env));
      }
      if AddRequested(s) {
        var task := ReminderTask(s);
        if task.Some? {
          reminders := reminders + [task.value];
          reply := Some(Text(AddedReply(task.value)));
        } else {
          reply := Some(Text(AskReminder));
        }
      } else if ListRequested(s) {
        reply := Some(Text(ListingReply(reminders)));
      } else {
        reply := None;
      }
    }

    /** `generate_response_with_gemini(input)`; a chat that was never started
        fails like a failed send. */
    method GenerateResponseWithGemini(input: string, send: Backend, env: Env) returns (reply: Option<Reply>)
      requires Valid()
      modifies this`reminders
      ensures Valid()
      ensures var o := GeminiAnswer(input, old(reminders), Settings(), send, env);
        reply == o.reply && reminders == Appended(old(reminders), o.added)
    {
      GeminiAnswerCases(input, reminders, Settings(), send, env);
      var prompt := input;
      if Contains(Lower(input), MarathiRequest) {
        prompt := MarathiPreamble + Strip(Replace(input, MarathiRequest, ""));
      }
      assert prompt == GeminiPrompt(input);
      var sent := if chatStarted then send(prompt) else None;
      if sent.Some? {
        reply := Some(Text(sent.value));
      } else {
        reply := GenerateFallbackResponse(prompt, env);
      }
    }

    /** `respond(input)`. */
    method Respond(input: string, send: Backend, env: Env) returns (reply: Option<Reply>)
      requires Valid()
      modifies this`reminders
      ensures Valid()
      ensures var o := RespondAnswer(input, old(reminders), Settings(), send, env);
        reply == o.reply && reminders == Appended(old(reminders), o.added)
    {
      var s := Normalize(input);
      ReminderBlockCases(s, reminders);
      RespondFallsThrough(input, reminders, Settings(), send, env);
      if MentionsReminder(s) {
        if AddRequested(s) {
          var task := ReminderTask(s);
          if task.Some? {
            reminders := reminders + [task.value];
            return Some(Text(AddedReply(task.value)));
          }
        } else if ListRequested(s) {
          return Some(Text(ListingReply(reminders)));
        }
      }
      if geminiInitialized && modelLoaded {
        reply := GenerateResponseWithGemini(input, send, env);
      } else {
        reply := GenerateFallbackResponse(input, env);
      }
    }
  }
}

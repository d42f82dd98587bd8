/** The fallback responder (`generate_fallback_response`): the normalised input
    is tested against eleven rules in a fixed order, the first rule that
    matches gives the reply, and only the reminder rule touches the reminders. */
module Rules {
  import opened Wrappers
  import opened Text
  import Clock

  // ---------------------------------------------------------------- replies

  const AssistantName: string := "Google Assistant"
  const PythonAnswer: string := "Python is a high-level, interpreted programming language known for its simplicity and readability. It was created by Guido van Rossum and released in 1991. Python supports multiple programming paradigms, including procedural, object-oriented, and functional programming. It's widely used in web development, data science, artificial intelligence, automation, and more."
  const WeatherAnswer: string := "I would normally check the weather for you, but I don't have access to weather data in this implementation."
  const FarewellAnswer: string := "Goodbye! Have a great day!"
  const DefaultAnswer: string := "I'm not sure how to respond to that. Is there something specific you'd like help with?"
  const AskSearch: string := "What would you like me to search for?"
  const AskReminder: string := "What would you like me to remind you about?"
  const NoReminders: string := "You don't have any reminders set."
  const ListingHeader: string := "Here are your reminders:"

  /** The index `random.choice` draws from each joke pool. */
  type MarathiPick = i: nat | i < 4
  type JokePick = i: nat | i < 5

  /** The Marathi jokes, by their place in the pool. */
  function MarathiJokeText(i: MarathiPick): string {
    if i == 0 then
      "शिक्षक: तुम्ही उशिरा का आलात? विद्यार्थी: सर, तुम्हीच तर शिकवलं की Time and Tide wait for none."
    else if i == 1 then
      "डॉक्टर: तुम्हाला काय त्रास आहे? पेशंट: डोकं दुखतंय. डॉक्टर: किती दिवसांपासून? पेशंट: शनिवारपासून. डॉक्टर: मग आज सोमवार आहे, इतके दिवस का थांबलात? पेशंट: माझं डोकं, मला ठरवायचं किती दिवस दुखायचं."
    else if i == 2 then
      "एक मराठी माणूस हॉटेलमध्ये: 'वेटर, मटण आणि भात आणा'. वेटर: 'सर, मटण संपलं'. मराठी माणूस: 'मग काय ते आणा आणि भात आणा.'"
    else
      "मुलगा: बाबा, माझं लग्न ठरलं. बाबा: कुठल्या जातीची आहे? मुलगा: प्रजाती तर नाही, पण ती सुद्धा मानव आहे."
  }

  /** The English jokes, by their place in the pool. */
  function EnglishJokeText(i: JokePick): string {
    if i == 0 then
      "Why don't scientists trust atoms? Because they make up everything!"
    else if i == 1 then
      "Did you hear about the mathematician who's afraid of negative numbers? He'll stop at nothing to avoid them!"
    else if i == 2 then
      "Why do programmers prefer dark mode? Because light attracts bugs!"
    else if i == 3 then
      "What do you call a fake noodle? An impasta!"
    else
      "Why couldn't the bicycle stand up by itself? It was two tired!"
  }

  /** What one turn reads from outside the program: the clock, and the draw
      `random.choice` makes if the turn tells a joke. */
  datatype Env = Env(now: Clock.Now, marathiPick: MarathiPick, jokePick: JokePick)

  /** The long fixed replies, by name; `CannedText` spells each one out. */
  datatype Canned = AboutPython | NoWeather | NotUnderstood | MarathiJokeNo(m: MarathiPick) | EnglishJokeNo(e: JokePick)

  function CannedText(c: Canned): string {
    match c
    case AboutPython => PythonAnswer
    case NoWeather => WeatherAnswer
    case NotUnderstood => DefaultAnswer
    case MarathiJokeNo(i) => MarathiJokeText(i)
    case EnglishJokeNo(j) => EnglishJokeText(j)
  }

  /** A reply string: text put together for this input, or one of the long
      fixed replies, kept by name. */
  datatype Reply = Text(text: string) | Fixed(canned: Canned)

  /** The string the reply is. */
  function Printed(r: Reply): string {
    match r
    case Text(t) => t
    case Fixed(c) => CannedText(c)
  }

  /** One answer of the responder: the reply (`None` where the Python code
      returns `None`), and the task appended to the reminders, if any. */
  datatype Outcome = Outcome(reply: Option<Reply>, added: Option<string>)

  function Say(text: string): Outcome {
    Outcome(Some(Text(text)), None)
  }

  /** The reminders after an answer: the old ones, then the added task if any.
      Nothing is ever removed or reordered. */
  function Appended(reminders: seq<string>, added: Option<string>): (r: seq<string>)
    ensures reminders <= r
    ensures |r| == |reminders| + (if added.Some? then 1 else 0)
    ensures added.Some? ==> r[|reminders|] == added.value
  {
    match added
    case None => reminders
    case Some(task) => reminders + [task]
  }

  /** What the add branches store: lower-case text on a single line. */
  predicate IsStoredTask(task: string) {
    '\n' !in task && IsLowered(task)
  }

  // ---------------------------------------------------------------- patterns

  const PythonQuestion: string := "what is python"
  const MarathiJokeRequests: seq<string> := ["tu mala joke sang", "मला एक जोक सांग", "विनोद सांग"]
  const GreetingWords: seq<string> := ["hello", "hi", "hey", "greetings", "नमस्कार", "नमस्ते"]
  const NameQuestion: string := "your name"
  const MarathiNameQuestion: string := "तुझं नाव"
  const TimeWords: seq<string> := ["time", "what time"]
  const DateWords: seq<string> := ["date", "day", "today"]
  const SearchTerms: seq<string> := ["search", "look up", "find"]
  const WeatherWords: seq<string> := ["weather", "temperature", "forecast"]
  const ReminderWords: seq<string> := ["remind", "reminder"]
  const JokeWords: seq<string> := ["joke", "funny", "make me laugh"]
  const ExitWords: seq<string> := ["exit", "bye", "goodbye", "quit"]

  /** The rules of the table, and `Unrecognized` for its final `else`. */
  datatype Intent =
    | WhatIsPython | MarathiJoke | Greeting | NameQuery | TimeQuery | DateQuery
    | Search | Weather | Reminder | Joke | Farewell | Unrecognized

  /** The order the rules are tried in. */
  const RuleOrder: seq<Intent> :=
    [WhatIsPython, MarathiJoke, Greeting, NameQuery, TimeQuery, DateQuery,
     Search, Weather, Reminder, Joke, Farewell]

  /** The test each rule puts to the normalised input `s`: a substring test for
      the Python and name questions, `\b(...)\b` for the others. */
  predicate Matches(rule: Intent, s: string) {
    match rule
    case WhatIsPython => Contains(s, PythonQuestion)
    case MarathiJoke => SearchWords(s, MarathiJokeRequests)
    case Greeting => SearchWords(s, GreetingWords)
    case NameQuery => Contains(s, NameQuestion) || Contains(s, MarathiNameQuestion)
    case TimeQuery => SearchWords(s, TimeWords)
    case DateQuery => SearchWords(s, DateWords)
    case Search => SearchWords(s, SearchTerms)
    case Weather => SearchWords(s, WeatherWords)
    case Reminder => SearchWords(s, ReminderWords)
    case Joke => SearchWords(s, JokeWords)
    case Farewell => SearchWords(s, ExitWords)
    case Unrecognized => true
  }

  /** The same table read as data: the first rule of `rules` that matches `s`. */
  function FirstMatch(rules: seq<Intent>, s: string): Intent
    decreases |rules|
  {
    if rules == [] then Unrecognized
    else if Matches(rules[0], s) then rules[0]
    else FirstMatch(rules[1..], s)
  }

  /** In a list of rules without the default, `FirstMatch` gives the default
      exactly when no rule matches, and otherwise a rule that matches with no
      rule before it that does. */
  lemma {:induction false} FirstMatchIsEarliest(rules: seq<Intent>, s: string)
    requires Unrecognized !in rules
    ensures FirstMatch(rules, s) == Unrecognized <==> forall k | 0 <= k < |rules| :: !Matches(rules[k], s)
    ensures FirstMatch(rules, s) != Unrecognized ==>
      exists k | 0 <= k < |rules| :: && FirstMatch(rules, s) == rules[k] && Matches(rules[k], s)
                                     && forall j | 0 <= j < k :: !Matches(rules[j], s)
    decreases |rules|
  {
    if rules != [] {
      if Matches(rules[0], s) {
        assert FirstMatch(rules, s) == rules[0];
      } else {
        var tail := rules[1..];
        assert Unrecognized !in tail by {
          assert forall k | 0 <= k < |tail| :: tail[k] == rules[k + 1];
        }
        FirstMatchIsEarliest(tail, s);
        if FirstMatch(tail, s) != Unrecognized {
          var k :| 0 <= k < |tail| && FirstMatch(tail, s) == tail[k] && Matches(tail[k], s)
            && forall j | 0 <= j < k :: !Matches(tail[j], s);
          assert rules[k + 1] == tail[k];
          forall j | 0 <= j < k + 1
            ensures !Matches(rules[j], s)
          {
            if j > 0 {
              assert rules[j] == tail[j - 1];
            }
          }
        } else {
          forall k | 0 <= k < |rules|
            ensures !Matches(rules[k], s)
          {
            if k > 0 {
              assert rules[k] == tail[k - 1];
            }
          }
        }
      }
    }
  }

  /** The `if`/`elif` chain of the fallback: the first rule, in the order the
      chain tries them, that the normalised input matches. */
  function Classify(s: string): Intent {
    FirstMatch(RuleOrder, s)
  }

  /** The rule chosen always matches (the default matches everything). */
  lemma ClassifiedMatches(s: string)
    ensures Matches(Classify(s), s)
  {
    FirstMatchIsEarliest(RuleOrder, s);
  }

  /** In a list of distinct rules, a rule that matches shadows every rule after it. */
  lemma {:induction false} FirstMatchShadows(rules: seq<Intent>, s: string, i: nat, j: nat)
    requires i < j < |rules| && Matches(rules[i], s)
    requires forall a, b | 0 <= a < b < |rules| :: rules[a] != rules[b]
    ensures FirstMatch(rules, s) != rules[j]
    decreases |rules|
  {
    if Matches(rules[0], s) {
      assert rules[0] != rules[j];
    } else {
      var tail := rules[1..];
      assert tail[i - 1] == rules[i] && tail[j - 1] == rules[j];
      assert forall a, b | 0 <= a < b < |tail| :: tail[a] != tail[b] by {
        forall a, b | 0 <= a < b < |tail|
          ensures tail[a] != tail[b]
        {
          assert tail[a] == rules[a + 1] && tail[b] == rules[b + 1];
        }
      }
      FirstMatchShadows(tail, s, i - 1, j - 1);
    }
  }

  /** A rule of the table that matches shadows every rule after it. */
  lemma EarlierRuleWins(s: string, i: nat, j: nat)
    requires i < j < |RuleOrder|
    requires Matches(RuleOrder[i], s)
    ensures Classify(s) != RuleOrder[j]
  {
    FirstMatchShadows(RuleOrder, s, i, j);
  }

  // ---------------------------------------------------------------- search

  /** `s.split("search", 1)[-1].strip()`. */
  function SearchQuery(s: string): string {
    Strip(AfterFirst(s, "search"))
  }

  function SearchReply(s: string): string {
    var q := SearchQuery(s);
    if q == [] then AskSearch else "I would search for '" + q + "' for you."
  }

  /** Without a "search", the query of stripped text is the whole text. */
  lemma QueryWithoutSearch(s: string)
    requires Strip(s) == s && !Contains(s, "search")
    ensures SearchQuery(s) == s
  {
  }

  /** With a "search", the query is the stripped text after its first occurrence. */
  lemma QueryAfterSearch(s: string)
    requires Contains(s, "search")
    ensures exists i :: && OccursAt(s, "search", i)
                        && (forall j | 0 <= j < i :: !OccursAt(s, "search", j))
                        && SearchQuery(s) == Strip(s[i + 6..])
  {
    IndexOfIsFirst(s, "search");
    var i := IndexOf(s, "search").value;
    assert OccursAt(s, "search", i);
  }

  /** Only whitespace after the first "search" leaves an empty query, and the
      reply asks what to search for. */
  lemma NothingAfterSearchAsks(s: string)
    requires Contains(s, "search")
    requires forall i | IndexOf(s, "search").value + 6 <= i < |s| :: IsSpace(s[i])
    ensures SearchReply(s) == AskSearch
  {
    var rest := AfterFirst(s, "search");
    var i := IndexOf(s, "search").value;
    assert rest == s[i + 6..];
    assert forall j | 0 <= j < |rest| :: rest[j] == s[i + 6 + j];
    BlankStripsToEmpty(rest);
  }

  // ---------------------------------------------------------------- reminders

  predicate MentionsReminder(s: string) {
    Matches(Reminder, s)
  }

  /** The add test: plain substrings, so "reset" and "address" pass it. */
  predicate AddRequested(s: string) {
    Contains(s, "set") || Contains(s, "add")
  }

  predicate ListRequested(s: string) {
    Contains(s, "list") || Contains(s, "show")
  }

  const TaskCue: string := "remind me to "

  /** What `re.search(r'remind me to (.*)', s)` captures: the rest of the line
      after the first "remind me to ", or no match. */
  function ReminderTask(s: string): (t: Option<string>)
    ensures t.Some? <==> Contains(s, TaskCue)
    ensures t.Some? ==> exists i :: && OccursAt(s, TaskCue, i)
                                    && (forall j | 0 <= j < i :: !OccursAt(s, TaskCue, j))
                                    && t.value <= s[i + |TaskCue|..]
                                    && (|t.value| < |s| - i - |TaskCue| ==> s[i + |TaskCue| + |t.value|] == '\n')
    ensures t.Some? ==> '\n' !in t.value
    ensures t.Some? && IsLowered(s) ==> IsLowered(t.value)
  {
    IndexOfIsFirst(s, TaskCue);
    ContainsMeaning(s, TaskCue);
    match IndexOf(s, TaskCue)
    case None => None
    case Some(i) =>
      var t := FirstLine(s[i + |TaskCue|..]);
      assert forall k | 0 <= k < |t| :: t[k] == s[i + |TaskCue| + k];
      assert |t| < |s| - i - |TaskCue| ==> s[i + |TaskCue| + |t|] == s[i + |TaskCue|..][|t|];
      Some(t)
  }

  /** On a one-line input, the task is everything after the first "remind me to ". */
  lemma TaskIsRestOfLine(s: string, i: nat)
    requires '\n' !in s
    requires OccursAt(s, TaskCue, i) && forall j | 0 <= j < i :: !OccursAt(s, TaskCue, j)
    ensures ReminderTask(s) == Some(s[i + |TaskCue|..])
  {
    IndexOfIsFirst(s, TaskCue);
    assert IndexOf(s, TaskCue) == Some(i);
    var rest := s[i + |TaskCue|..];
    forall k | 0 <= k < |rest|
      ensures rest[k] != '\n'
    {
      assert rest[k] == s[i + |TaskCue| + k];
    }
    FirstLineOfLine(rest);
  }

  /** An input that opens with "remind me to " and is one line long names the
      reminder as a word and names the rest of itself as the task. */
  lemma CueAtStart(s: string)
    requires |s| >= |TaskCue| && s[..|TaskCue|] == TaskCue && '\n' !in s
    ensures MentionsReminder(s)
    ensures ReminderTask(s) == Some(s[|TaskCue|..])
  {
    assert s[..6] == ReminderWords[0] by {
      assert s[..6] == s[..|TaskCue|][..6];
    }
    assert WordAt(s, ReminderWords[0], 0);
    assert WordsAt(s, ReminderWords, 0);
    IndexOfIsFirst(s, TaskCue);
    assert OccursAt(s, TaskCue, 0);
    var t := s[|TaskCue|..];
    forall k | 0 <= k < |t|
      ensures t[k] != '\n'
    {
      assert t[k] == s[|TaskCue| + k];
    }
    FirstLineOfLine(t);
  }

  function AddedReply(task: string): string {
    "I'll remind you to " + task + "."
  }

  function Bullets(reminders: seq<string>): (lines: seq<string>)
    ensures |lines| == |reminders|
  {
    seq(|reminders|, k requires 0 <= k < |reminders| => "- " + reminders[k])
  }

  /** The listing: a header line, then one "- task" line per reminder. */
  function ListingReply(reminders: seq<string>): string {
    if reminders == [] then NoReminders
    else ListingHeader + "\n" + JoinLines(Bullets(reminders))
  }

  /** Split into lines, the listing is the header and one bullet per reminder,
      in the order they were added. */
  lemma ListingLines(reminders: seq<string>)
    requires reminders != []
    requires forall k | 0 <= k < |reminders| :: '\n' !in reminders[k]
    ensures SplitLines(ListingReply(reminders)) == [ListingHeader] + Bullets(reminders)
  {
    var lines := [ListingHeader] + Bullets(reminders);
    assert lines[1..] == Bullets(reminders);
    assert JoinLines(lines) == ListingReply(reminders);
    forall k | 0 <= k < |lines|
      ensures '\n' !in lines[k]
    {
      if k > 0 {
        assert lines[k] == "- " + reminders[k - 1];
      }
    }
    SplitJoin(lines);
  }

  /** A reminder added later is listed last, after everything listed before. */
  lemma ListingGrows(reminders: seq<string>, task: string)
    requires reminders != []
    ensures ListingReply(reminders + [task]) == ListingReply(reminders) + "\n- " + task
  {
    var b := Bullets(reminders);
    assert Bullets(reminders + [task]) == b + ["- " + task];
    JoinLinesSnoc(b, "- " + task);
  }

  /** The reminder rule of the fallback. */
  function ReminderAnswer(s: string, reminders: seq<string>): Outcome {
    if AddRequested(s) then
      match ReminderTask(s)
      case Some(task) => Outcome(Some(Text(AddedReply(task))), Some(task))
      case None => Say(AskReminder)
    else if ListRequested(s) then Say(ListingReply(reminders))
    else Outcome(None, None)
  }

  // ---------------------------------------------------------------- the table

  /** The reply of every rule but the reminder rule. */
  function CannedReply(intent: Intent, s: string, userName: string, env: Env): Reply
    requires intent != Reminder
  {
    match intent
    case WhatIsPython => Fixed(AboutPython)
    case MarathiJoke => Fixed(MarathiJokeNo(env.marathiPick))
    case Greeting => Text("Hello " + userName + "! How can I help you today?")
    case NameQuery => Text("My name is " + AssistantName + ". I'm a virtual assistant created to help you.")
    case TimeQuery => Text("The current time is " + Clock.TimeText(env.now) + ".")
    case DateQuery => Text("Today is " + Clock.DateText(env.now) + ".")
    case Search => Text(SearchReply(s))
    case Weather => Fixed(NoWeather)
    case Joke => Fixed(EnglishJokeNo(env.jokePick))
    case Farewell => Text(FarewellAnswer)
    case Unrecognized => Fixed(NotUnderstood)
  }

  /** `generate_fallback_response(input)` with the reminders `reminders`. */
  function FallbackAnswer(input: string, reminders: seq<string>, userName: string, env: Env): Outcome {
    TableAnswer(Normalize(input), reminders, userName, env)
  }

  /** The rule table applied to the normalised input `s`. */
  function TableAnswer(s: string, reminders: seq<string>, userName: string, env: Env): Outcome {
    var intent := Classify(s);
    if intent == Reminder then ReminderAnswer(s, reminders) else Outcome(Some(CannedReply(intent, s, userName, env)), None)
  }

  /** The fallback appends a task exactly when the reminder rule is reached and
      both the add test and "remind me to " are present; the task appended is
      the one the reply confirms. */
  lemma FallbackAddsOnlyOnRequest(input: string, reminders: seq<string>, userName: string, env: Env)
    ensures var s := Normalize(input);
      var o := FallbackAnswer(input, reminders, userName, env);
      && (o.added.Some? <==> Classify(s) == Reminder && AddRequested(s) && Contains(s, TaskCue))
      && (o.added.Some? ==> o.added == ReminderTask(s) && o.reply == Some(Text(AddedReply(o.added.value))))
  {
  }

  /** The fallback returns no reply exactly when the reminder rule is reached
      and none of "set", "add", "list", "show" occurs. */
  lemma FallbackSilentCases(input: string, reminders: seq<string>, userName: string, env: Env)
    ensures var s := Normalize(input);
      FallbackAnswer(input, reminders, userName, env).reply.None? <==>
        Classify(s) == Reminder && !AddRequested(s) && !ListRequested(s)
  {
  }

  /** Every rule but the reminder rule answers with its own reply and appends nothing. */
  lemma TableAnswerOfRule(s: string, reminders: seq<string>, userName: string, env: Env)
    requires Classify(s) != Reminder
    ensures TableAnswer(s, reminders, userName, env) == Outcome(Some(CannedReply(Classify(s), s, userName, env)), None)
  {
  }

  /** A joke reply is the entry of its pool that `random.choice` drew, whatever
      else the input says, and a joke appends nothing. */
  lemma JokesComeFromPools(input: string, reminders: seq<string>, userName: string, env: Env)
    ensures var s := Normalize(input);
      var o := FallbackAnswer(input, reminders, userName, env);
      && (Classify(s) == MarathiJoke ==> o == Outcome(Some(Fixed(MarathiJokeNo(env.marathiPick))), None))
      && (Classify(s) == Joke ==> o == Outcome(Some(Fixed(EnglishJokeNo(env.jokePick))), None))
  {
    var s := Normalize(input);
    if Classify(s) != Reminder {
      TableAnswerOfRule(s, reminders, userName, env);
    }
  }

  /** A search request is never empty: each search term takes room. */
  lemma SearchRequestIsNotEmpty(s: string)
    requires Matches(Search, s)
    ensures s != []
  {
    SearchWordsMeaning(s, SearchTerms);
    var i, k :| 0 <= i <= |s| && 0 <= k < |SearchTerms| && WordAt(s, SearchTerms[k], i);
    assert |SearchTerms[k]| > 0;
  }

  /** Stripped, non-empty text without "search" is its own query. */
  lemma QueryIsWholeText(s: string)
    requires Strip(s) == s && s != [] && !Contains(s, "search")
    ensures SearchReply(s) == "I would search for '" + s + "' for you."
  {
    QueryWithoutSearch(s);
  }

  lemma TableAnswerOfSearch(s: string, reminders: seq<string>, userName: string, env: Env)
    requires Classify(s) == Search
    ensures TableAnswer(s, reminders, userName, env) == Say(SearchReply(s))
  {
  }

  /** "find ..." or "look up ..." without "search" echoes the whole normalised
      input as the query. */
  lemma FindEchoesInput(input: string, reminders: seq<string>, userName: string, env: Env)
    requires Classify(Normalize(input)) == Search && !Contains(Normalize(input), "search")
    ensures FallbackAnswer(input, reminders, userName, env).reply
      == Some(Text("I would search for '" + Normalize(input) + "' for you."))
  {
    var s := Normalize(input);
    StripIdempotent(Lower(input));
    ClassifiedMatches(s);
    SearchRequestIsNotEmpty(s);
    QueryIsWholeText(s);
    TableAnswerOfSearch(s, reminders, userName, env);
  }
}

/** Particular inputs worked through the model: where the word-bounded rules
    match and where they do not, and what `respond` does with a few reminder
    requests. */
module Scenarios {
  import opened Wrappers
  import opened Text
  import opened Rules
  import opened Assistant

  /** "hi" on its own is a greeting. */
  lemma HiIsAGreeting(s: string)
    requires s == "hi"
    ensures Matches(Greeting, s)
  {
    assert WordAt(s, GreetingWords[1], 0);
    SearchWordsMeaning(s, GreetingWords);
  }

  /** Inside a word, "hi" is not a greeting: "chirp" and "this" have a letter
      before it, so no `\b` opens it. */
  lemma HiInsideAWordIsNot(s: string)
    requires s == "chirp" || s == "this"
    ensures !Matches(Greeting, s)
  {
    forall j, k | 0 <= j <= |s| && 0 <= k < |GreetingWords|
      ensures !WordAt(s, GreetingWords[k], j)
    {
      if k == 1 && j == 1 {
        assert !IsBoundary(s, 1);
      }
    }
    SearchWordsMeaning(s, GreetingWords);
  }

  /** "नमस्कार" ends in a letter, so `\b` closes it after the last letter. */
  lemma NamaskarIsAGreeting(s: string)
    requires s == "नमस्कार"
    ensures Matches(Greeting, s)
  {
    assert s[..7] == GreetingWords[4];
    assert WordAt(s, GreetingWords[4], 0);
    SearchWordsMeaning(s, GreetingWords);
  }

  /** "नमस्ते" ends in a vowel sign, which is not a word character: typed on
      its own, no `\b` follows it, so the greeting rule does not see it. */
  lemma NamasteIsNotAGreeting(s: string)
    requires s == "नमस्ते"
    ensures !Matches(Greeting, s)
  {
    assert !IsBoundary(s, 6);
    forall j, k | 0 <= j <= |s| && 0 <= k < |GreetingWords|
      ensures !WordAt(s, GreetingWords[k], j)
    {
      var w := GreetingWords[k];
      if k < 4 && j < |s| {
        assert s[j] as int >= 0x900 > w[0] as int;
      }
    }
    SearchWordsMeaning(s, GreetingWords);
  }

  /** Followed by a letter, as in "नमस्तेजी", the vowel sign does have a `\b`
      after it, and the greeting rule matches. */
  lemma NamasteBeforeALetterIs(s: string)
    requires s == "नमस्तेजी"
    ensures Matches(Greeting, s)
  {
    assert s[..6] == GreetingWords[5];
    assert WordAt(s, GreetingWords[5], 0);
    SearchWordsMeaning(s, GreetingWords);
  }

  /** "list reminders" holds "remind" and "reminder" only inside the word
      "reminders", so the reminder block of `respond` does not see it and the
      input goes on to Gemini or the fallback. */
  lemma ListRemindersIsNotAReminderRequest(input: string, reminders: seq<string>, cfg: Config, send: Backend, env: Env)
    requires input == "list reminders"
    ensures !MentionsReminder(input) && Normalize(input) == input
    ensures RespondAnswer(input, reminders, cfg, send, env)
      == if UsesGemini(cfg) then GeminiAnswer(input, reminders, cfg, send, env)
         else FallbackAnswer(input, reminders, cfg.userName, env)
  {
    NormalizeKeepsNormal(input);
    NoReminderWordInList(input);
    RespondFallsThrough(input, reminders, cfg, send, env);
  }

  lemma NoReminderWordInList(s: string)
    requires s == "list reminders"
    ensures !MentionsReminder(s)
  {
    assert !ScanWords(s, ReminderWords, 14);
    assert !ScanWords(s, ReminderWords, 13);
    assert !ScanWords(s, ReminderWords, 12);
    assert !ScanWords(s, ReminderWords, 11);
    assert !ScanWords(s, ReminderWords, 10);
    assert !ScanWords(s, ReminderWords, 9);
    assert !ScanWords(s, ReminderWords, 8);
    assert !ScanWords(s, ReminderWords, 7);
    assert !ScanWords(s, ReminderWords, 6);
    assert !ScanWords(s, ReminderWords, 5);
    assert !ScanWords(s, ReminderWords, 4);
    assert !ScanWords(s, ReminderWords, 3);
    assert !ScanWords(s, ReminderWords, 2);
    assert !ScanWords(s, ReminderWords, 1);
  }

  /** A one-line input that opens with "remind me to " followed by "set" or
      "add" asks to add the rest of itself. */
  lemma CueFollowedBy(s: string, w: string)
    requires w == "set" || w == "add"
    requires |s| >= |TaskCue| + |w| && s[..|TaskCue|] == TaskCue && s[|TaskCue|..|TaskCue| + |w|] == w
    requires '\n' !in s
    ensures AddBranch(s) && ReminderTask(s) == Some(s[|TaskCue|..])
  {
    CueAtStart(s);
    IndexOfIsFirst(s, TaskCue);
    assert OccursAt(s, w, |TaskCue|);
    ContainsMeaning(s, w);
  }

  /** The add test is a plain substring test: "address" passes it. */
  lemma AddressPassesTheAddTest(s: string)
    requires s == TaskCue + "address the letter"
    ensures AddBranch(s) && ReminderTask(s) == Some("address the letter")
  {
    var rest := "address the letter";
    assert s[..|TaskCue|] == TaskCue && s[|TaskCue|..] == rest;
    assert rest[..3] == "add";
    assert s[|TaskCue|..|TaskCue| + 3] == rest[..3];
    CueFollowedBy(s, "add");
  }
}

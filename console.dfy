/** `main()`: the set-up questions, then the loop that reads a line, ends the
    session on an exit word, flips speech on a toggle command, and otherwise
    prints and (when speech is on) speaks the assistant's reply. The lines
    typed are a finite script of turns; printing is recorded as events. */
module Console {
  import opened Wrappers
  import opened Text
  import opened Rules
  import opened Assistant

  const ExitCommands: seq<string> := ["exit", "quit", "bye", "goodbye"]
  const ToggleCommands: seq<string> := ["toggle tts", "toggle speech"]

  /** One line typed at the prompt, with the clock, the random picks and the
      Gemini chat's answer the reply would see at that moment: the network can
      answer a message on one turn and fail it on a later one. */
  datatype Turn = Turn(line: string, env: Env, send: Backend)

  /** What the loop shows for one turn. `Answered(reply, spoken)` is the printed
      reply (`None` prints as "None"), and whether it was also handed to `speak`.
      `Crashed` is the error `main` reports when `speak` is handed `None`: the
      concatenation in `speak` raises outside its `try`, and the loop ends. */
  datatype Event = SaidGoodbye | SpeechToggled(enabled: bool) | Answered(reply: Option<Reply>, spoken: bool) | Crashed

  /** The loop's state: whether speech is on, the assistant's reminders, what has
      been shown so far, and whether the loop is still reading lines. */
  datatype Session = Session(tts: bool, reminders: seq<string>, events: seq<Event>, running: bool)

  predicate IsExit(line: string) {
    Lower(line) in ExitCommands
  }

  predicate IsToggle(line: string) {
    Lower(line) in ToggleCommands
  }

  /** One pass of the `while True` body. */
  function Step(cfg: Config, st: Session, turn: Turn): Session {
    if IsExit(turn.line) then
      st.(events := st.events + [SaidGoodbye], running := false)
    else if IsToggle(turn.line) then
      st.(tts := !st.tts, events := st.events + [SpeechToggled(!st.tts)])
    else
      var o := RespondAnswer(turn.line, st.reminders, cfg, turn.send, turn.env);
      var reminders := Appended(st.reminders, o.added);
      if st.tts && o.reply.None? then
        Session(st.tts, reminders, st.events + [Answered(None, false), Crashed], false)
      else
        Session(st.tts, reminders, st.events + [Answered(o.reply, st.tts)], true)
  }

  /** The loop over a script of turns: it stops at the end of the script or
      when a step ends the session. */
  function Run(cfg: Config, st: Session, turns: seq<Turn>): Session
    decreases |turns|
  {
    if turns == [] || !st.running then st
    else Run(cfg, Step(cfg, st, turns[0]), turns[1..])
  }

  /** The answer to "Enable text-to-speech? (y/n, default: n)". */
  predicate WantsSpeech(answer: string) {
    Normalize(answer) == "y"
  }

  /** The set-up of `main`: a fresh assistant, Gemini set up with the stripped
      key when one was typed, and speech on only for the answer "y". */
  method StartSession(keyLine: string, sdk: SdkResult, speechAnswer: string) returns (a: GoogleAssistant, tts: bool)
    ensures fresh(a) && a.Valid() && a.reminders == []
    ensures a.name == AssistantName && a.userName == "User"
    ensures tts <==> WantsSpeech(speechAnswer)
    ensures var loaded := Strip(keyLine) != [] && (sdk == ChatFailed || sdk == ChatStarted);
      && a.geminiInitialized == loaded && a.modelLoaded == loaded
      && a.chatStarted == (Strip(keyLine) != [] && sdk == ChatStarted)
  {
    a := new GoogleAssistant();
    var key := Strip(keyLine);
    if key != [] {
      var _ := a.InitializeGemini(key, sdk);
    }
    tts := Normalize(speechAnswer) == "y";
  }

  /** One pass of the loop body of `main` on the assistant `a`, with speech
      set to `tts` and `events` shown so far. */
  method TakeTurn(a: GoogleAssistant, turn: Turn, tts: bool, events: seq<Event>)
    returns (tts': bool, events': seq<Event>, running: bool)
    requires a.Valid()
    modifies a`reminders
    ensures a.Valid()
    ensures Session(tts', a.reminders, events', running)
      == Step(a.Settings(), Session(tts, old(a.reminders), events, true), turn)
  {
    tts', running := tts, true;
    if IsExit(turn.line) {
      events' := events + [SaidGoodbye];
      running := false;
    } else if IsToggle(turn.line) {
      tts' := !tts;
      events' := events + [SpeechToggled(tts')];
    } else {
      var reply := a.Respond(turn.line, turn.send, turn.env);
      if !tts {
        events' := events + [Answered(reply, false)];
      } else if reply.None? {
        events' := events + [Answered(None, false), Crashed];
        running := false;
      } else {
        events' := events + [Answered(reply, true)];
      }
    }
  }

  /** The loop of `main` over the script `turns`, on an assistant set up before. */
  method RunSession(a: GoogleAssistant, turns: seq<Turn>, ttsEnabled: bool)
    returns (events: seq<Event>, tts: bool)
    requires a.Valid()
    modifies a`reminders
    ensures a.Valid()
    ensures var st := Run(a.Settings(), Session(ttsEnabled, old(a.reminders), [], true), turns);
      events == st.events && tts == st.tts && a.reminders == st.reminders
  {
    ghost var cfg := a.Settings();
    ghost var start := Session(ttsEnabled, a.reminders, [], true);
    events, tts := [], ttsEnabled;
    var running := true;
    var i := 0;
    while i < |turns| && running
      invariant 0 <= i <= |turns|
      invariant a.Valid() && a.Settings() == cfg
      invariant Run(cfg, start, turns) == Run(cfg, Session(tts, a.reminders, events, running), turns[i..])
    {
      assert turns[i..][1..] == turns[i + 1..];
      tts, events, running := TakeTurn(a, turns[i], tts, events);
      i := i + 1;
    }
  }

  // ---------------------------------------------------------------- properties

  /** A session that has ended stays as it is. */
  lemma {:induction false} StoppedSessionStays(cfg: Config, st: Session, turns: seq<Turn>)
    requires !st.running
    ensures Run(cfg, st, turns) == st
  {
  }

  /** The loop never removes or reorders a reminder: the reminders at the start
      are a prefix of the reminders at the end, and every added one is a task an
      add branch stored. */
  lemma {:induction false} RemindersOnlyGrow(cfg: Config, st: Session, turns: seq<Turn>)
    requires forall k | 0 <= k < |st.reminders| :: IsStoredTask(st.reminders[k])
    ensures st.reminders <= Run(cfg, st, turns).reminders
    ensures var r := Run(cfg, st, turns).reminders;
      forall k | 0 <= k < |r| :: IsStoredTask(r[k])
    decreases |turns|
  {
    if turns != [] && st.running {
      var next := Step(cfg, st, turns[0]);
      if !IsExit(turns[0].line) && !IsToggle(turns[0].line) {
        RespondKeepsTasksStored(turns[0].line, st.reminders, cfg, turns[0].send, turns[0].env);
      }
      RemindersOnlyGrow(cfg, next, turns[1..]);
    }
  }

  /** The events grow by at least one per turn read, and what was shown stays shown. */
  lemma {:induction false} EventsOnlyGrow(cfg: Config, st: Session, turns: seq<Turn>)
    ensures st.events <= Run(cfg, st, turns).events
    ensures st.running && turns != [] ==> |Run(cfg, st, turns).events| > |st.events|
    decreases |turns|
  {
    if turns != [] && st.running {
      EventsOnlyGrow(cfg, Step(cfg, st, turns[0]), turns[1..]);
    }
  }

  /** An exit word ends the session: a goodbye is shown and no later line is read. */
  lemma ExitEndsSession(cfg: Config, st: Session, turn: Turn, rest: seq<Turn>)
    requires st.running && IsExit(turn.line)
    ensures Run(cfg, st, [turn] + rest)
      == Session(st.tts, st.reminders, st.events + [SaidGoodbye], false)
  {
    assert ([turn] + rest)[1..] == rest;
    StoppedSessionStays(cfg, Step(cfg, st, turn), rest);
  }

  /** The exit test lower-cases but does not strip: "Exit" ends the session,
      "exit " does not. */
  lemma ExitIsExact()
    ensures IsExit("Exit") && IsExit("GOODBYE")
    ensures !IsExit("exit ") && !IsExit(" bye")
  {
    var a, b := Lower("Exit"), Lower("GOODBYE");
    assert a[0] == 'e' && a[1..] == "xit";
    assert a == "exit";
    assert b == "goodbye" by {
      forall k | 0 <= k < 7 ensures b[k] == "goodbye"[k] {
        assert "GOODBYE"[k] as int + 32 == "goodbye"[k] as int;
      }
    }
    var c, d := Lower("exit "), Lower(" bye");
    assert |c| == 5 && d[0] == ' ';
  }

  /** A toggle command flips speech, shows the new setting, and leaves the
      reminders alone; two toggles in a row put speech back. */
  lemma ToggleFlipsSpeech(cfg: Config, st: Session, turn: Turn, again: Turn)
    requires st.running && IsToggle(turn.line) && IsToggle(again.line)
    ensures var next := Step(cfg, st, turn);
      && next.tts == !st.tts && next.reminders == st.reminders && next.running
      && next.events == st.events + [SpeechToggled(!st.tts)]
    ensures Run(cfg, st, [turn, again]).tts == st.tts
    ensures Run(cfg, st, [turn, again]).reminders == st.reminders
  {
    assert forall c | c in ToggleCommands :: c !in ExitCommands;
    var next := Step(cfg, st, turn);
    assert [turn, again][1..] == [again];
    assert Run(cfg, st, [turn, again]) == Run(cfg, next, [again]);
    var last := Step(cfg, next, again);
    assert [again][1..] == [];
    assert Run(cfg, next, [again]) == Run(cfg, last, []);
    assert last.tts == st.tts && last.reminders == st.reminders;
  }

  /** With speech off and no toggle, the session never crashes: a missing
      reply is printed as "None" and the loop goes on. */
  lemma {:induction false} SilentSessionNeverCrashes(cfg: Config, st: Session, turns: seq<Turn>)
    requires !st.tts && Crashed !in st.events
    requires forall k | 0 <= k < |turns| :: !IsToggle(turns[k].line)
    ensures Crashed !in Run(cfg, st, turns).events
    decreases |turns|
  {
    if turns != [] && st.running {
      RunSilentStep(cfg, st, turns[0]);
      var rest := turns[1..];
      forall k | 0 <= k < |rest|
        ensures !IsToggle(rest[k].line)
      {
        assert rest[k] == turns[k + 1];
      }
      SilentSessionNeverCrashes(cfg, Step(cfg, st, turns[0]), rest);
    }
  }

  lemma RunSilentStep(cfg: Config, st: Session, turn: Turn)
    requires st.running && !st.tts && Crashed !in st.events && !IsToggle(turn.line)
    ensures var next := Step(cfg, st, turn);
      !next.tts && Crashed !in next.events
  {
  }

  /** With speech on, a reply of `None` ends the session with the error. */
  lemma SpokenSilenceEndsSession(cfg: Config, st: Session, turn: Turn)
    requires st.running && st.tts && !IsExit(turn.line) && !IsToggle(turn.line)
    requires RespondAnswer(turn.line, st.reminders, cfg, turn.send, turn.env).reply.None?
    ensures var next := Step(cfg, st, turn);
      && !next.running && next.events == st.events + [Answered(None, false), Crashed]
  {
  }
}

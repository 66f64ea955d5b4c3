/** The REPL: routing an input line, parsing slash-commands into a closed
    command type, running a command or a chat turn against explicit client
    state, and the loop over a sequence of input events. Every answer of
    the agent service a step needs is supplied in a `Services` value. */
module Commands {
  import opened Outcomes
  import opened Text
  import opened Catalog
  import opened Render
  import opened Supervisor

  datatype Command =
    | Quit
    | NewSession
    | ShowHistory
    | ShowSessions
    | ShowModels
    | ShowCurrentModel
    | SwitchModel(spec: string)
    | Abort
    | Help
    | Unknown(command: string)

  /** The command words matched exactly, after stripping and lower-casing. */
  const Keywords: set<string> :=
    {"/quit", "/exit", "/new", "/history", "/sessions", "/models", "/model", "/abort", "/help"}

  /** The command named by the lower-cased line `cmd`; `arg` is the
      argument a `/model <spec>` line carries. */
  function CommandOf(cmd: string, arg: string): (c: Command)
    ensures c.Unknown? <==> cmd !in Keywords && !StartsWith(cmd, "/model ")
    ensures c.Unknown? ==> c.command == cmd
    ensures c == Quit <==> cmd in {"/quit", "/exit"}
    ensures c == NewSession <==> cmd == "/new"
    ensures c == ShowHistory <==> cmd == "/history"
    ensures c == ShowSessions <==> cmd == "/sessions"
    ensures c == ShowModels <==> cmd == "/models"
    ensures c == ShowCurrentModel <==> cmd == "/model"
    ensures c == Abort <==> cmd == "/abort"
    ensures c == Help <==> cmd == "/help"
    ensures c.SwitchModel? <==> StartsWith(cmd, "/model ")
    ensures c.SwitchModel? ==> c.spec == arg
  {
    KeywordsLackModelPrefix();
    if cmd == "/quit" || cmd == "/exit" then Quit
    else if cmd == "/new" then NewSession
    else if cmd == "/history" then ShowHistory
    else if cmd == "/sessions" then ShowSessions
    else if cmd == "/models" then ShowModels
    else if StartsWith(cmd, "/model ") then SwitchModel(arg)
    else if cmd == "/model" then ShowCurrentModel
    else if cmd == "/abort" then Abort
    else if cmd == "/help" then Help
    else Unknown(cmd)
  }

  /** No other keyword starts with `/model `, so only a `/model <spec>`
      line takes an argument. */
  lemma KeywordsLackModelPrefix()
    ensures !StartsWith("/history", "/model ") && !StartsWith("/sessions", "/model ")
    ensures !StartsWith("/models", "/model ")
  {
    assert "/history"[1] == 'h';
    assert "/sessions"[1] == 's';
    assert "/models"[6] == 's';
  }

  /** Without a `/model ` prefix the argument plays no part. */
  lemma CommandOfIgnoresArgument(cmd: string, x: string, y: string)
    requires !StartsWith(cmd, "/model ")
    ensures CommandOf(cmd, x) == CommandOf(cmd, y)
  {
  }

  /** `raw[7:].strip()`: the text after `/model ` with only the surrounding
      whitespace cut and its letter case kept. */
  function ModelArgument(raw: string): (arg: string)
    ensures IsStripped(arg)
    ensures |raw| < 7 ==> arg == ""
    ensures |raw| >= 7 ==> CutsOnlySpace(raw[7..], arg)
    ensures |raw| >= 7 ==> Lower(arg) == Strip(Lower(raw)[7..])
  {
    if |raw| < 7 then ""
    else
      LowerStrip(raw[7..]);
      LowerDrop(raw, 7);
      Strip(raw[7..])
  }

  /** `handle_command`'s dispatch. The line is stripped and lower-cased for
      matching; `/model <spec>` takes its argument from the stripped line
      before lower-casing, so the argument keeps its case; anything else is
      an unknown command reported in its lower-cased form. */
  function ParseCommand(line: string): (c: Command)
    ensures c.Unknown? <==> Lower(Strip(line)) !in Keywords && !StartsWith(Lower(Strip(line)), "/model ")
    ensures c.Unknown? ==> c.command == Lower(Strip(line))
    ensures c == Quit <==> Lower(Strip(line)) in {"/quit", "/exit"}
    ensures c == NewSession <==> Lower(Strip(line)) == "/new"
    ensures c == ShowHistory <==> Lower(Strip(line)) == "/history"
    ensures c == ShowSessions <==> Lower(Strip(line)) == "/sessions"
    ensures c == ShowModels <==> Lower(Strip(line)) == "/models"
    ensures c == ShowCurrentModel <==> Lower(Strip(line)) == "/model"
    ensures c == Abort <==> Lower(Strip(line)) == "/abort"
    ensures c == Help <==> Lower(Strip(line)) == "/help"
    ensures c.SwitchModel? <==> StartsWith(Lower(Strip(line)), "/model ")
    ensures c.SwitchModel? ==> IsStripped(c.spec) && CutsOnlySpace(Strip(line)[7..], c.spec)
    ensures c.SwitchModel? ==> Lower(c.spec) == Strip(Lower(Strip(line))[7..])
  {
    var raw := Strip(line);
    CommandOf(Lower(raw), ModelArgument(raw))
  }

  /** The command handler strips the line itself, so a line the loop has
      already stripped parses the same. */
  lemma ParseStripped(line: string)
    ensures ParseCommand(Strip(line)) == ParseCommand(line)
  {
    StripIdempotent(line);
  }

  /** Lines that differ only in letter case parse to the same command, up
      to the letter case of a `/model` argument. */
  lemma ParseIgnoresCase(a: string, b: string)
    requires Lower(a) == Lower(b)
    ensures ParseCommand(a).SwitchModel? <==> ParseCommand(b).SwitchModel?
    ensures !ParseCommand(a).SwitchModel? ==> ParseCommand(a) == ParseCommand(b)
    ensures ParseCommand(a).SwitchModel? ==> Lower(ParseCommand(a).spec) == Lower(ParseCommand(b).spec)
  {
    LowerStrip(a);
    LowerStrip(b);
    var ra, rb := Strip(a), Strip(b);
    var cmd := Lower(ra);
    assert cmd == Lower(rb);
    assert ParseCommand(a) == CommandOf(cmd, ModelArgument(ra));
    assert ParseCommand(b) == CommandOf(cmd, ModelArgument(rb));
    if !StartsWith(cmd, "/model ") {
      CommandOfIgnoresArgument(cmd, ModelArgument(ra), ModelArgument(rb));
    }
  }

  /** `/model`, in any letter case, followed by a space and an argument
      that is not all whitespace, switches to exactly that argument with its
      surrounding whitespace cut and its letter case kept. */
  lemma ModelArgumentKeepsCase(keyword: string, arg: string)
    requires Lower(keyword) == "/model"
    requires !AllSpace(arg)
    ensures ParseCommand(keyword + " " + arg) == SwitchModel(Strip(arg))
  {
    var b := KeywordLineParse(keyword, arg);
    var line := keyword + " " + arg;
    StripAfterPrefix(keyword + " ", arg, b, ModelArgument(line[..b]));
  }

  /** A `/model` line with a non-blank argument strips to a prefix that
      reaches into the argument, and parses to a switch to the argument
      cut from that prefix. */
  lemma KeywordLineParse(keyword: string, arg: string) returns (b: nat)
    requires Lower(keyword) == "/model"
    requires !AllSpace(arg)
    ensures 7 < b <= 7 + |arg| && AllSpace((keyword + " " + arg)[b..])
    ensures ParseCommand(keyword + " " + arg) == SwitchModel(ModelArgument((keyword + " " + arg)[..b]))
  {
    var line := keyword + " " + arg;
    var m :| 0 <= m < |arg| && !IsSpace(arg[m]);
    assert Lower(keyword)[0] == '/';
    assert line[0] == '/' && line[7 + m] == arg[m];
    b := StripKeepsFront(line, 7 + m);
    var q := line[..b];
    KeywordSurvives(keyword, line, q);
    assert ParseCommand(line) == CommandOf(Lower(q), ModelArgument(q));
  }

  /** A prefix of `keyword + " " + ...` longer than seven characters,
      lower-cased, starts with `/model `. */
  lemma KeywordSurvives(keyword: string, line: string, q: string)
    requires Lower(keyword) == "/model"
    requires |q| > 7 && StartsWith(line, q) && StartsWith(line, keyword + " ")
    ensures StartsWith(Lower(q), "/model ")
  {
    var head := keyword + " ";
    assert q[..7] == head;
    LowerPrefix(q, 7);
    LowerAppend(keyword, " ");
    assert Lower(" ") == " ";
  }

  /** `/models` lists the catalog; it is not `/model` with an argument. */
  lemma ModelsIsNotModel(line: string)
    requires Lower(Strip(line)) == "/models"
    ensures ParseCommand(line) == ShowModels
    ensures !ParseCommand(line).SwitchModel?
  {
  }

  /** What one line read at the prompt becomes in `repl`. */
  datatype Input = Blank | Slash(command: Command) | Chat(text: string)

  /** The loop strips the line, skips it when empty, hands it to the
      command handler when it starts with `/`, and sends it otherwise. */
  function Route(line: string): (r: Input)
    ensures r.Blank? <==> Strip(line) == ""
    ensures r.Slash? <==> Strip(line) != "" && Strip(line)[0] == '/'
    ensures r.Slash? ==> r.command == ParseCommand(line)
    ensures r.Chat? ==> r.text == Strip(line) && r.text != "" && r.text[0] != '/'
  {
    var text := Strip(line);
    if text == "" then Blank
    else if text[0] == '/' then
      ParseStripped(line);
      Slash(ParseCommand(text))
    else Chat(text)
  }

  /** Process-wide client state: the active pair, the current session and
      the owned server process (if any). */
  datatype Client = Client(selection: Selection, session: string, process: Option<Handle>)

  /** How the chat call of a turn ended. */
  datatype ChatOutcome =
    | Replied
    | Interrupted
    | ConnectionLost
    | StatusError(status: int, message: string)
    | Failed(message: string)

  /** The answers of the agent service and of the child process for one
      step: catalog, session creation, abort, message and session listings,
      the chat call, and the child's reaction to termination. */
  datatype Services = Services(
    providers: Result<Providers>,
    created: Result<string>,
    aborted: Result<()>,
    messages: Result<seq<Message>>,
    sessions: Result<seq<SessionInfo>>,
    chat: ChatOutcome,
    stop: StopOutcome)

  /** What a step prints, or asks of the service or the child process. */
  datatype Effect =
    | Goodbye
    | ProcessControl(action: ProcAction)
    | SessionOpened(shortId: string)
    | SessionCreateFailed(message: string)
    | NewSessionCreated
    | HistoryShown(history: History)
    | SessionsShown(listing: SessionListing)
    | ModelsShown(models: Listing)
    | SwitchReported(outcome: SwitchOutcome)
    | CurrentModelShown(selection: Selection)
    | ModelUsageHint
    | AbortRequested(session: string)
    | AbortDone
    | AbortFailed(message: string)
    | HelpShown
    | UnknownCommandReported(command: string)
    | ThinkingNote
    | ChatRequested(session: string, selection: Selection, text: string)
    | AbortingNote
    | ResponseShown(display: Display)
    | ConnectionLostReported
    | ApiErrorReported(status: int, message: string)
    | ErrorReported(message: string)

  /** The state after a step, what it did, and the exit status when the
      step ends the program. */
  datatype Step = Step(client: Client, effects: seq<Effect>, exitCode: Option<int>)

  function ProcessEffects(actions: seq<ProcAction>): (r: seq<Effect>)
    ensures |r| == |actions|
    ensures forall i :: 0 <= i < |r| ==> r[i] == ProcessControl(actions[i])
  {
    seq(|actions|, i requires 0 <= i < |actions| => ProcessControl(actions[i]))
  }

  /** Ending the program with `code`: the cleanup registered at exit runs
      on the way out. */
  function ExitWith(client: Client, effects: seq<Effect>, code: int, stop: StopOutcome): (r: Step)
    ensures r.exitCode == Some(code) && r.client.process.None?
    ensures r.client.selection == client.selection && r.client.session == client.session
    ensures r.effects == effects + ProcessEffects(CleanupProcess(client.process, stop).actions)
  {
    var c := CleanupProcess(client.process, stop);
    Step(client.(process := c.process), effects + ProcessEffects(c.actions), Some(code))
  }

  /** Leaving normally: say goodbye, clean up, and exit with status 0 (the
      cleanup registered at exit then runs once more). */
  function Farewell(client: Client, stop: StopOutcome): (r: Step)
    ensures r.exitCode == Some(0) && r.client.process.None?
    ensures r.client.selection == client.selection && r.client.session == client.session
    ensures |r.effects| > 0 && r.effects[0] == Goodbye
  {
    var first := CleanupProcess(client.process, stop);
    ExitWith(client.(process := first.process), [Goodbye] + ProcessEffects(first.actions), 0, stop)
  }

  /** `send_message`: the chat request carries the current session and
      pair. A reply is rendered; an interrupt requests one abort (its
      failure ignored) and then renders whatever exists; a connection loss,
      a status error or any other error is reported once, with no render. */
  function Send(client: Client, text: string, chat: ChatOutcome, messages: Result<seq<Message>>): (r: seq<Effect>)
    ensures |r| >= 3
    ensures r[0] == ThinkingNote && r[1] == ChatRequested(client.session, client.selection, text)
    ensures r[|r| - 1].ResponseShown? <==> chat.Replied? || chat.Interrupted?
    ensures r[|r| - 1].ResponseShown? ==> r[|r| - 1].display == DisplayResponse(messages)
    ensures forall i :: 0 <= i < |r| - 1 ==> !r[i].ResponseShown?
    ensures chat.Interrupted? ==> r[|r| - 2] == AbortRequested(client.session)
    ensures forall i :: 0 <= i < |r| && r[i].AbortRequested? ==> chat.Interrupted? && i == |r| - 2
    ensures !(chat.Replied? || chat.Interrupted?) ==> |r| == 3
    ensures chat.Replied? ==> |r| == 3
    ensures chat.Interrupted? ==> |r| == 5 && r[2] == AbortingNote
    ensures chat.ConnectionLost? ==> r[2] == ConnectionLostReported
    ensures chat.StatusError? ==> r[2] == ApiErrorReported(chat.status, chat.message)
    ensures chat.Failed? ==> r[2] == ErrorReported(chat.message)
  {
    var start := [ThinkingNote, ChatRequested(client.session, client.selection, text)];
    match chat
    case Replied => start + [ResponseShown(DisplayResponse(messages))]
    case Interrupted => start + [AbortingNote, AbortRequested(client.session), ResponseShown(DisplayResponse(messages))]
    case ConnectionLost => start + [ConnectionLostReported]
    case StatusError(status, message) => start + [ApiErrorReported(status, message)]
    case Failed(message) => start + [ErrorReported(message)]
  }

  /** The rest of `handle_command`: one command run against the client
      state. Only `/model <spec>` may change the pair, only `/new` the
      session, and only `/quit`, `/exit` or a failed `/new` end the program
      (after cleanup). */
  function Execute(client: Client, cmd: Command, sv: Services): (r: Step)
    ensures r.exitCode.Some? <==> EndsProgram(cmd, sv)
    ensures r.exitCode == Some(0) <==> cmd == Quit
    ensures r.exitCode == Some(1) <==> cmd == NewSession && sv.created.Err?
    ensures r.exitCode.Some? ==> r.client.process.None?
    ensures r.exitCode.None? ==> r.client.process == client.process
    ensures r.client.selection != client.selection ==>
      cmd.SwitchModel? && r.client.selection == Switch(client.selection, cmd.spec, sv.providers).0
    ensures r.client.session != client.session ==> cmd == NewSession && sv.created == Ok(r.client.session)
    ensures cmd.SwitchModel? ==>
      var sw := Switch(client.selection, cmd.spec, sv.providers);
      r.client.selection == sw.0 && r.effects == [SwitchReported(sw.1)]
    ensures cmd == NewSession && sv.created.Ok? ==>
      r.client.session == sv.created.value
      && r.effects == [SessionOpened(Take(sv.created.value, SessionIdShown) + "..."), NewSessionCreated]
    ensures cmd.Unknown? ==> r == Step(client, [UnknownCommandReported(cmd.command)], None)
  {
    match cmd
    case Quit => Farewell(client, sv.stop)
    case NewSession =>
      (match sv.created
       case Ok(id) => Step(client.(session := id), [SessionOpened(Take(id, SessionIdShown) + "..."), NewSessionCreated], None)
       case Err(e) => ExitWith(client, [SessionCreateFailed(e)], 1, sv.stop))
    case ShowHistory => Step(client, [HistoryShown(HistoryOf(sv.messages))], None)
    case ShowSessions => Step(client, [SessionsShown(SessionsOf(sv.sessions, client.session))], None)
    case ShowModels => Step(client, [ModelsShown(ListingOf(sv.providers, client.selection))], None)
    case SwitchModel(spec) =>
      var switched := Switch(client.selection, spec, sv.providers);
      Step(client.(selection := switched.0), [SwitchReported(switched.1)], None)
    case ShowCurrentModel => Step(client, [CurrentModelShown(client.selection), ModelUsageHint], None)
    case Abort =>
      var report := if sv.aborted.Ok? then AbortDone else AbortFailed(sv.aborted.message);
      Step(client, [AbortRequested(client.session), report], None)
    case Help => Step(client, [HelpShown], None)
    case Unknown(c) => Step(client, [UnknownCommandReported(c)], None)
  }

  /** What each command reports: a failed `/new` reports the failure
      first; `/history`, `/sessions` and `/models` show the listing fetched
      for the current session or pair; `/model` alone shows the pair and a
      usage hint; `/abort` requests an abort of the current session and
      reports whether it succeeded; `/help` shows the command table. */
  lemma ExecuteReports(client: Client, cmd: Command, sv: Services)
    ensures var r := Execute(client, cmd, sv);
      && (cmd == NewSession && sv.created.Err? ==>
            r.effects == [SessionCreateFailed(sv.created.message)]
              + ProcessEffects(CleanupProcess(client.process, sv.stop).actions))
      && (cmd == ShowHistory ==> r.effects == [HistoryShown(HistoryOf(sv.messages))])
      && (cmd == ShowSessions ==> r.effects == [SessionsShown(SessionsOf(sv.sessions, client.session))])
      && (cmd == ShowModels ==> r.effects == [ModelsShown(ListingOf(sv.providers, client.selection))])
      && (cmd == ShowCurrentModel ==> r.effects == [CurrentModelShown(client.selection), ModelUsageHint])
      && (cmd == Abort ==>
            |r.effects| == 2 && r.effects[0] == AbortRequested(client.session)
            && (r.effects[1] == AbortDone <==> sv.aborted.Ok?)
            && (sv.aborted.Err? ==> r.effects[1] == AbortFailed(sv.aborted.message)))
      && (cmd == Help ==> r.effects == [HelpShown])
  {
  }

  /** `/quit` (and end of input) cleans the child up once: the cleanup
      registered at exit, running after the explicit one, adds nothing. */
  lemma QuitCleansUpOnce(client: Client, sv: Services)
    ensures Execute(client, Quit, sv).effects
      == [Goodbye] + ProcessEffects(CleanupProcess(client.process, sv.stop).actions)
  {
    CleanupIdempotent(client.process, sv.stop, sv.stop);
    var first := CleanupProcess(client.process, sv.stop);
    assert ProcessEffects([]) == [];
    assert [Goodbye] + ProcessEffects(first.actions) + [] == [Goodbye] + ProcessEffects(first.actions);
  }

  /** End of input says goodbye and cleans the child up once, like `/quit`. */
  lemma EndOfInputCleansUp(client: Client, sv: Services)
    ensures ReplStep(client, EndOfInput, sv).effects
      == [Goodbye] + ProcessEffects(CleanupProcess(client.process, sv.stop).actions)
  {
    QuitCleansUpOnce(client, sv);
  }

  /** An input event at the prompt: a line, or end of input (which the
      loop treats like an interrupt at the prompt). */
  datatype Event = Line(text: string) | EndOfInput

  /** The program ends after command `cmd`: on quit, or when `/new`
      cannot create a session. */
  predicate EndsProgram(cmd: Command, sv: Services) {
    cmd == Quit || (cmd == NewSession && sv.created.Err?)
  }

  /** What the loop does with a routed line. */
  function LineStep(client: Client, input: Input, sv: Services): (r: Step)
    ensures r.exitCode.Some? <==> input.Slash? && EndsProgram(input.command, sv)
    ensures r.exitCode.Some? ==> r.client.process.None?
    ensures r.exitCode.None? ==> r.client.process == client.process
    ensures r.exitCode.Some? ==> r.exitCode.value in {0, 1}
    ensures input.Blank? ==> r == Step(client, [], None)
    ensures input.Chat? ==> r.client == client && r.effects == Send(client, input.text, sv.chat, sv.messages)
    ensures input.Slash? ==> r == Execute(client, input.command, sv)
    ensures r.client.selection != client.selection ==> input.Slash? && input.command.SwitchModel?
    ensures r.client.session != client.session ==> input == Slash(NewSession)
  {
    match input
    case Blank => Step(client, [], None)
    case Slash(cmd) => Execute(client, cmd, sv)
    case Chat(t) => Step(client, Send(client, t, sv.chat, sv.messages), None)
  }

  /** The event ends the program: end of input, or a line that routes to
      a command that ends it. Whether it does is independent of the client
      state. */
  predicate Ending(event: Event, sv: Services) {
    event.EndOfInput? || (Route(event.text).Slash? && EndsProgram(Route(event.text).command, sv))
  }

  /** One turn of `repl`. End of input says goodbye and leaves the loop;
      the program then cleans up and exits with status 0. A turn ends the
      program only at end of input, on quit or on a failed `/new`. */
  function ReplStep(client: Client, event: Event, sv: Services): (r: Step)
    ensures r.exitCode.Some? <==> Ending(event, sv)
    ensures r.exitCode.Some? ==> r.client.process.None?
    ensures r.exitCode.None? ==> r.client.process == client.process
    ensures r.exitCode.Some? ==> r.exitCode.value in {0, 1}
    ensures event.EndOfInput? ==> r.exitCode == Some(0) && |r.effects| > 0 && r.effects[0] == Goodbye
  {
    match event
    case EndOfInput => Farewell(client, sv.stop)
    case Line(text) => LineStep(client, Route(text), sv)
  }

  /** A line that does not end the program still runs: a blank line does
      nothing, a chat line is sent stripped, and a slash line runs the
      command the handler parses from it. */
  lemma ReplStepRoutes(client: Client, text: string, sv: Services)
    ensures var r := ReplStep(client, Line(text), sv);
      && (Route(text).Blank? ==> r == Step(client, [], None))
      && (Route(text).Chat? ==> r.client == client && r.effects == Send(client, Strip(text), sv.chat, sv.messages))
      && (Route(text).Slash? ==> r == Execute(client, ParseCommand(text), sv))
  {
  }

  /** One turn of the loop: what was typed and how the world answered. */
  datatype Turn = Turn(event: Event, services: Services)

  /** The loop over a sequence of turns: it stops at the first turn that
      ends the program, and every exit leaves no child process behind. */
  function Run(client: Client, turns: seq<Turn>): (r: Step)
    ensures r.exitCode.Some? ==> r.client.process.None?
    ensures r.exitCode.None? ==> r.client.process == client.process
    ensures r.exitCode.Some? ==> r.exitCode.value in {0, 1}
    decreases |turns|
  {
    if |turns| == 0 then Step(client, [], None)
    else
      var step := ReplStep(client, turns[0].event, turns[0].services);
      if step.exitCode.Some? then step
      else
        var rest := Run(step.client, turns[1..]);
        Step(rest.client, step.effects + rest.effects, rest.exitCode)
  }

  /** A loop whose turns never quit, never fail to create a session and
      never reach end of input keeps running. */
  lemma {:induction false} RunWithoutExitKeepsGoing(client: Client, turns: seq<Turn>)
    requires forall i :: 0 <= i < |turns| ==> !Ending(turns[i].event, turns[i].services)
    ensures Run(client, turns).exitCode.None?
    decreases |turns|
  {
    if |turns| > 0 {
      var step := ReplStep(client, turns[0].event, turns[0].services);
      assert forall i :: 0 <= i < |turns[1..]| ==> turns[1..][i] == turns[i + 1];
      RunWithoutExitKeepsGoing(step.client, turns[1..]);
    }
  }

  /** A turn that ends the program makes the loop exit, and the loop never
      looks at the turns after it: running up to and including that turn
      gives the same step as running them all. */
  lemma RunExitsAt(client: Client, turns: seq<Turn>, k: nat)
    requires k < |turns| && Ending(turns[k].event, turns[k].services)
    ensures Run(client, turns).exitCode.Some?
    ensures Run(client, turns) == Run(client, turns[..k + 1])
  {
    forall c: Client
      ensures Turned(c, turns[k]).exitCode.Some?
    {
    }
    RunIsLoop(client, turns);
    RunIsLoop(client, turns[..k + 1]);
    LoopExitsAt(client, turns, k, Turned);
  }

  lemma RunConcat(client: Client, a: seq<Turn>, b: seq<Turn>)
    requires Run(client, a).exitCode.None?
    ensures var ra := Run(client, a); var rb := Run(ra.client, b);
      Run(client, a + b) == Step(rb.client, ra.effects + rb.effects, rb.exitCode)
  {
    RunIsLoop(client, a);
    RunIsLoop(client, a + b);
    RunIsLoop(Run(client, a).client, b);
    LoopConcat(client, a, b, Turned);
  }

  /** One turn of the loop as a function of the state and the turn. */
  function Turned(client: Client, turn: Turn): Step {
    ReplStep(client, turn.event, turn.services)
  }

  /** The loop of `Run` over any turn function: stop at the first step
      that exits, otherwise carry the state and collect the effects. */
  function Loop(client: Client, turns: seq<Turn>, turned: (Client, Turn) -> Step): Step
    decreases |turns|
  {
    if |turns| == 0 then Step(client, [], None)
    else
      var step := turned(client, turns[0]);
      if step.exitCode.Some? then step
      else
        var rest := Loop(step.client, turns[1..], turned);
        Step(rest.client, step.effects + rest.effects, rest.exitCode)
  }

  /** `Run` is the loop over `ReplStep`. */
  lemma {:induction false} RunIsLoop(client: Client, turns: seq<Turn>)
    ensures Run(client, turns) == Loop(client, turns, Turned)
    decreases |turns|
  {
    if |turns| > 0 {
      var step := ReplStep(client, turns[0].event, turns[0].services);
      RunIsLoop(step.client, turns[1..]);
    }
  }

  /** The loop carries state and effects across a split of its turns,
      whatever one turn does. */
  lemma {:induction false} LoopConcat(client: Client, a: seq<Turn>, b: seq<Turn>, turned: (Client, Turn) -> Step)
    requires Loop(client, a, turned).exitCode.None?
    ensures var ra := Loop(client, a, turned); var rb := Loop(ra.client, b, turned);
      Loop(client, a + b, turned) == Step(rb.client, ra.effects + rb.effects, rb.exitCode)
    decreases |a|
  {
    if |a| == 0 {
      assert a + b == b;
    } else {
      var step := turned(client, a[0]);
      var ab := a + b;
      assert ab[0] == a[0] && ab[1..] == a[1..] + b;
      LoopConcat(step.client, a[1..], b, turned);
    }
  }

  /** One unfolding of the loop: a first turn that ends the program is the
      whole result; otherwise it contributes its effects and the loop goes
      on from its state. */
  lemma RunCons(client: Client, turns: seq<Turn>)
    requires |turns| > 0
    ensures var step := ReplStep(client, turns[0].event, turns[0].services);
      && (step.exitCode.Some? ==> Run(client, turns) == step)
      && (step.exitCode.None? ==>
            var rest := Run(step.client, turns[1..]);
            Run(client, turns) == Step(rest.client, step.effects + rest.effects, rest.exitCode))
  {
  }

  /** A turn that exits from every state stops the loop, and the turns
      after it are never looked at. */
  lemma {:induction false} LoopExitsAt(client: Client, turns: seq<Turn>, k: nat, turned: (Client, Turn) -> Step)
    requires k < |turns| && forall c :: turned(c, turns[k]).exitCode.Some?
    ensures Loop(client, turns, turned).exitCode.Some?
    ensures Loop(client, turns, turned) == Loop(client, turns[..k + 1], turned)
    decreases k
  {
    var prefix := turns[..k + 1];
    assert prefix[0] == turns[0];
    var step := turned(client, turns[0]);
    if step.exitCode.None? {
      assert prefix[1..] == turns[1..][..k];
      assert turns[1..][k - 1] == turns[k];
      LoopExitsAt(step.client, turns[1..], k - 1, turned);
    }
  }
}

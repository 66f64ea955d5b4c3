/** The response renderer: which message `display_response` shows, the one
    block each part is dispatched to, tool panels, reasoning and error
    notices, plus the `/history` transcript and the `/sessions` table.
    Output is an abstract plan of blocks rather than formatted terminal text. */
module Render {
  import opened Outcomes
  import opened Text

  const ToolInputLimit: nat := 300
  const ToolOutputLimit: nat := 500
  const ReasoningLimit: nat := 300
  const HistoryLimit: nat := 200
  const SessionIdShown: nat := 8

  /** A tool's input: absent or falsy, its formatted text (JSON for a
      dictionary, `str()` otherwise), or a value whose formatting raised. */
  datatype ToolInput = NoInput | Formatted(text: string) | Unformattable

  /** The `state` of a tool part; `status` is the raw status string. */
  datatype ToolState = ToolState(
    status: string,
    title: Option<string>,
    input: ToolInput,
    output: Option<string>,
    error: Option<string>)

  /** A message part, closed over the kinds the renderer distinguishes;
      `OtherPart` carries the type name of any other kind. A reasoning
      part's `text` is `None` when the attribute is missing. */
  datatype Part =
    | TextPart(text: string)
    | ToolPart(tool: string, state: ToolState)
    | StepStartPart
    | StepFinishPart(inputTokens: int, outputTokens: int)
    | ReasoningPart(reasoning: Option<string>)
    /** A part of any other type (file, snapshot, patch, ...); its `kind`
        is never one of the five dispatched type names `text`, `tool`,
        `step-start`, `step-finish` and `reasoning`. */
    | OtherPart(kind: string)

  /** The `data` of an assistant error: its `message` and `provider_id`
      attributes when present, and `str(data)` for when `message` is not. */
  datatype ErrorData = ErrorData(message: Option<string>, providerId: Option<string>, shown: string)

  /** A top-level assistant error; `name` is `None` when the attribute is
      missing. */
  datatype AssistantError = AssistantError(name: Option<string>, data: ErrorData)

  datatype Role = User | Assistant

  datatype Message = Message(role: Role, parts: seq<Part>, error: Option<AssistantError>)

  /** The four visual markers of a tool's status. */
  datatype Marker = CompletedMarker | ErrorMarker | RunningMarker | PendingMarker

  datatype ToolLine =
    | TitleLine(title: string)
    | StatusLine(marker: Marker)
    | InputLine(input: string)
    | OutputLine(output: string)
    | ErrorLine(message: string)

  datatype ErrorNotice =
    | AbortedNotice
    | AuthNotice(provider: string, message: string)
    | GenericNotice(name: string, message: string)

  /** One rendered block. `Silent` is what an empty text or reasoning part
      is dispatched to: it prints nothing. */
  datatype Block =
    | ErrorPanel(notice: ErrorNotice)
    | Prose(text: string)
    | ToolPanel(tool: string, lines: seq<ToolLine>)
    | StepStarted
    | StepFinished(tokens: int)
    | ThinkingPanel(text: string)
    | KindIndicator(kind: string)
    | Silent

  /** What `display_response` shows. */
  datatype Display = FetchFailed(message: string) | NoAssistantResponse | Rendered(blocks: seq<Block>)

  /** The status marker: the three known statuses map to their own marker
      and every other status string shows as pending. */
  function StatusMarker(status: string): (m: Marker)
    ensures m == CompletedMarker <==> status == "completed"
    ensures m == ErrorMarker <==> status == "error"
    ensures m == RunningMarker <==> status == "running"
    ensures m == PendingMarker <==> status !in {"completed", "error", "running"}
  {
    if status == "completed" then CompletedMarker
    else if status == "error" then ErrorMarker
    else if status == "running" then RunningMarker
    else PendingMarker
  }

  predicate HasInputLine(lines: seq<ToolLine>) {
    exists i :: 0 <= i < |lines| && lines[i].InputLine?
  }

  predicate HasOutputLine(lines: seq<ToolLine>) {
    exists i :: 0 <= i < |lines| && lines[i].OutputLine?
  }

  predicate HasErrorLine(lines: seq<ToolLine>) {
    exists i :: 0 <= i < |lines| && lines[i].ErrorLine?
  }

  /** Index of the status line: after the title when there is one. */
  function StatusAt(st: ToolState): nat {
    if Truthy(st.title) then 1 else 0
  }

  /** How many input lines a panel has: one for a formatted input. */
  function InputCount(st: ToolState): nat {
    if st.input.Formatted? then 1 else 0
  }

  /** The optional lines after the status: the input (cut at 300), the
      output (cut at 500) and the error message, each only when present. */
  function DetailLines(st: ToolState): (r: seq<ToolLine>)
    ensures forall i :: 0 <= i < |r| ==> !r[i].StatusLine? && !r[i].TitleLine?
    ensures HasInputLine(r) <==> st.input.Formatted?
    ensures forall i :: 0 <= i < |r| && r[i].InputLine? ==> r[i].input == Truncate(st.input.text, ToolInputLimit)
    ensures HasOutputLine(r) <==> Truthy(st.output)
    ensures forall i :: 0 <= i < |r| && r[i].OutputLine? ==> r[i].output == Truncate(st.output.value, ToolOutputLimit)
    ensures HasErrorLine(r) <==> Truthy(st.error)
    ensures |r| == InputCount(st) + (if Truthy(st.output) then 1 else 0) + (if Truthy(st.error) then 1 else 0)
    ensures st.input.Formatted? ==> r[0] == InputLine(Truncate(st.input.text, ToolInputLimit))
    ensures Truthy(st.output) ==> r[InputCount(st)] == OutputLine(Truncate(st.output.value, ToolOutputLimit))
    ensures Truthy(st.error) ==> r[|r| - 1] == ErrorLine(st.error.value)
  {
    var input := if st.input.Formatted? then [InputLine(Truncate(st.input.text, ToolInputLimit))] else [];
    var output := if Truthy(st.output) then [OutputLine(Truncate(st.output.value, ToolOutputLimit))] else [];
    var error := if Truthy(st.error) then [ErrorLine(st.error.value)] else [];
    var r := input + output + error;
    assert forall i :: 0 <= i < |r| ==> r[i] in input || r[i] in output || r[i] in error;
    assert st.input.Formatted? ==> r[0] == input[0];
    assert Truthy(st.output) ==> r[|input|] == output[0];
    assert Truthy(st.error) ==> r[|r| - 1] == error[0];
    r
  }

  /** The lines of a tool panel: the title when there is one, then the
      status marker, then the detail lines. */
  function ToolLines(st: ToolState): (r: seq<ToolLine>)
    ensures StatusAt(st) < |r| && r[StatusAt(st)] == StatusLine(StatusMarker(st.status))
    ensures forall i :: 0 <= i < |r| && i != StatusAt(st) ==> !r[i].StatusLine?
    ensures (r[0].TitleLine?) <==> Truthy(st.title)
    ensures Truthy(st.title) ==> r[0] == TitleLine(st.title.value)
    ensures HasInputLine(r) <==> st.input.Formatted?
    ensures forall i :: 0 <= i < |r| && r[i].InputLine? ==> r[i].input == Truncate(st.input.text, ToolInputLimit)
    ensures HasOutputLine(r) <==> Truthy(st.output)
    ensures forall i :: 0 <= i < |r| && r[i].OutputLine? ==> r[i].output == Truncate(st.output.value, ToolOutputLimit)
    ensures HasErrorLine(r) <==> Truthy(st.error)
    ensures r[StatusAt(st) + 1..] == DetailLines(st)
  {
    var head := (if Truthy(st.title) then [TitleLine(st.title.value)] else []) + [StatusLine(StatusMarker(st.status))];
    var details := DetailLines(st);
    var r := head + details;
    HeadKeepsDetails(head, details);
    r
  }

  /** Prefixing title and status lines changes none of the detail lines. */
  lemma HeadKeepsDetails(head: seq<ToolLine>, details: seq<ToolLine>)
    requires forall i :: 0 <= i < |head| ==> head[i].TitleLine? || head[i].StatusLine?
    ensures HasInputLine(head + details) <==> HasInputLine(details)
    ensures HasOutputLine(head + details) <==> HasOutputLine(details)
    ensures HasErrorLine(head + details) <==> HasErrorLine(details)
    ensures forall i :: |head| <= i < |head + details| ==> (head + details)[i] == details[i - |head|]
  {
    var r := head + details;
    if HasInputLine(details) {
      var i :| 0 <= i < |details| && details[i].InputLine?;
      assert r[i + |head|] == details[i];
    }
    if HasOutputLine(details) {
      var i :| 0 <= i < |details| && details[i].OutputLine?;
      assert r[i + |head|] == details[i];
    }
    if HasErrorLine(details) {
      var i :| 0 <= i < |details| && details[i].ErrorLine?;
      assert r[i + |head|] == details[i];
    }
  }

  /** Tool input truncation: a formatted input longer than 300 characters
      shows as its first 300 characters plus "...", a shorter one as is. */
  lemma ToolInputTruncation(st: ToolState, i: nat)
    requires i < |ToolLines(st)| && ToolLines(st)[i].InputLine?
    ensures st.input.Formatted?
    ensures |st.input.text| > ToolInputLimit ==> ToolLines(st)[i].input == st.input.text[..ToolInputLimit] + "..."
    ensures |st.input.text| <= ToolInputLimit ==> ToolLines(st)[i].input == st.input.text
  {
  }

  /** Tool output truncation: the same law at 500 characters. */
  lemma ToolOutputTruncation(st: ToolState, i: nat)
    requires i < |ToolLines(st)| && ToolLines(st)[i].OutputLine?
    ensures Truthy(st.output)
    ensures |st.output.value| > ToolOutputLimit ==> ToolLines(st)[i].output == st.output.value[..ToolOutputLimit] + "..."
    ensures |st.output.value| <= ToolOutputLimit ==> ToolLines(st)[i].output == st.output.value
  {
  }

  /** `render_error`: a notice chosen by the error's name (default "Error");
      the message is `data.message` when present, else `str(data)`, and an
      authentication notice names `data.provider_id` (or "" without one). */
  function Notice(e: AssistantError): (r: ErrorNotice)
    ensures r.AbortedNotice? <==> e.name == Some("MessageAbortedError")
    ensures r.AuthNotice? <==> e.name == Some("ProviderAuthError")
    ensures r.AuthNotice? ==> r.provider == e.data.providerId.Or("")
    ensures !r.AbortedNotice? && e.data.message.Some? ==> r.message == e.data.message.value
    ensures !r.AbortedNotice? && e.data.message.None? ==> r.message == e.data.shown
    ensures r.GenericNotice? ==> r.name == e.name.Or("Error")
  {
    var name := e.name.Or("Error");
    var msg := e.data.message.Or(e.data.shown);
    if name == "MessageAbortedError" then AbortedNotice
    else if name == "ProviderAuthError" then AuthNotice(e.data.providerId.Or(""), msg)
    else GenericNotice(name, msg)
  }

  /** The block one part is dispatched to; the block's kind follows the
      part's kind, and only empty text or reasoning prints nothing. */
  function RenderPart(p: Part): (b: Block)
    ensures b.Prose? || (b.Silent? && p.TextPart?) <==> p.TextPart?
    ensures b.ToolPanel? <==> p.ToolPart?
    ensures b.StepStarted? <==> p.StepStartPart?
    ensures b.StepFinished? <==> p.StepFinishPart?
    ensures b.ThinkingPanel? || (b.Silent? && p.ReasoningPart?) <==> p.ReasoningPart?
    ensures b.KindIndicator? <==> p.OtherPart?
    ensures b.Silent? <==> (p.TextPart? && p.text == "") || (p.ReasoningPart? && !Truthy(p.reasoning))
    ensures p.TextPart? && p.text != "" ==> b == Prose(p.text)
    ensures p.ToolPart? ==> b == ToolPanel(p.tool, ToolLines(p.state))
  {
    match p
    case TextPart(t) => if t != "" then Prose(t) else Silent
    case ToolPart(tool, st) => ToolPanel(tool, ToolLines(st))
    case StepStartPart => StepStarted
    case StepFinishPart(i, o) => StepFinished(i + o)
    case ReasoningPart(t) => if Truthy(t) then ThinkingPanel(Truncate(t.value, ReasoningLimit)) else Silent
    case OtherPart(k) => KindIndicator(k)
  }

  /** Reasoning truncation: the same law as tool input, at 300. */
  lemma ReasoningTruncation(t: string)
    requires t != ""
    ensures |t| > ReasoningLimit ==> RenderPart(ReasoningPart(Some(t))) == ThinkingPanel(t[..ReasoningLimit] + "...")
    ensures |t| <= ReasoningLimit ==> RenderPart(ReasoningPart(Some(t))) == ThinkingPanel(t)
  {
  }

  /** A part of an unrecognised kind shows only its kind name. */
  lemma OtherKindShowsOnlyIndicator(p: Part)
    requires p.OtherPart?
    ensures RenderPart(p) == KindIndicator(p.kind)
  {
  }

  /** The step-finish summary adds input and output tokens. */
  lemma StepFinishTokens(i: int, o: int)
    ensures RenderPart(StepFinishPart(i, o)).tokens == i + o
  {
  }

  /** One block per part, in the parts' order. */
  function PartBlocks(parts: seq<Part>): (r: seq<Block>)
    ensures |r| == |parts|
    ensures forall i :: 0 <= i < |parts| ==> r[i] == RenderPart(parts[i])
  {
    if |parts| == 0 then [] else [RenderPart(parts[0])] + PartBlocks(parts[1..])
  }

  /** An error panel (when the message has an error) followed by the part
      blocks. */
  function MessageBlocks(m: Message): (r: seq<Block>)
    ensures |r| == |m.parts| + (if m.error.Some? then 1 else 0)
    ensures m.error.Some? ==> r[0] == ErrorPanel(Notice(m.error.value))
    ensures var off := if m.error.Some? then 1 else 0;
      forall i :: 0 <= i < |m.parts| ==> r[off + i] == RenderPart(m.parts[i])
    ensures forall i :: 0 < i < |r| ==> !r[i].ErrorPanel?
  {
    match m.error
    case Some(e) => [ErrorPanel(Notice(e))] + PartBlocks(m.parts)
    case None => PartBlocks(m.parts)
  }

  /** Index of the last assistant message. */
  function LastAssistant(msgs: seq<Message>): (r: Option<nat>)
    ensures r.Some? ==> r.value < |msgs| && msgs[r.value].role == Assistant
    ensures r.Some? ==> forall j :: r.value < j < |msgs| ==> msgs[j].role != Assistant
    ensures r.None? ==> forall j :: 0 <= j < |msgs| ==> msgs[j].role != Assistant
  {
    if |msgs| == 0 then None
    else if msgs[|msgs| - 1].role == Assistant then Some(|msgs| - 1)
    else LastAssistant(msgs[..|msgs| - 1])
  }

  /** `display_response`: a fetch error, a notice when the session has no
      assistant message, or the blocks of the last assistant message. */
  function DisplayResponse(fetched: Result<seq<Message>>): (r: Display)
    ensures r.FetchFailed? <==> fetched.Err?
    ensures r.FetchFailed? ==> r.message == fetched.message
    ensures fetched.Ok? ==>
      (r.NoAssistantResponse? <==> forall j :: 0 <= j < |fetched.value| ==> fetched.value[j].role != Assistant)
  {
    match fetched
    case Err(e) => FetchFailed(e)
    case Ok(msgs) =>
      match LastAssistant(msgs)
      case None => NoAssistantResponse
      case Some(k) => Rendered(MessageBlocks(msgs[k]))
  }

  /** The message rendered is the last assistant one: its error first, then
      exactly one block per part in order, whatever the messages after it. */
  lemma DisplayShowsLastAssistant(msgs: seq<Message>, k: nat)
    requires k < |msgs| && msgs[k].role == Assistant
    requires forall j :: k < j < |msgs| ==> msgs[j].role != Assistant
    ensures DisplayResponse(Ok(msgs)) == Rendered(MessageBlocks(msgs[k]))
  {
  }

  // ---------------------------------------------------------------------
  // `/history`

  datatype HistoryLine =
    | YouSaid(text: string)
    | AssistantSaid(text: string)
    | ToolSummary(tool: string, status: string)
    | Separator

  datatype History = HistoryFailed(message: string) | NoMessagesYet | Transcript(lines: seq<HistoryLine>)

  /** Number of text parts in `parts`. */
  function TextParts(parts: seq<Part>): nat {
    if |parts| == 0 then 0 else (if parts[0].TextPart? then 1 else 0) + TextParts(parts[1..])
  }

  /** A user message's lines: every text part verbatim, empty ones too. */
  function UserLines(parts: seq<Part>): (r: seq<HistoryLine>)
    ensures |r| == TextParts(parts)
    ensures forall i :: 0 <= i < |r| ==> r[i].YouSaid?
    ensures forall i :: 0 <= i < |parts| && parts[i].TextPart? ==> YouSaid(parts[i].text) in r
    ensures forall i :: 0 <= i < |r| ==> exists j :: 0 <= j < |parts| && parts[j] == TextPart(r[i].text)
  {
    if |parts| == 0 then []
    else
      var rest := UserLines(parts[1..]);
      assert forall i :: 1 <= i < |parts| ==> parts[i] == parts[1..][i - 1];
      if parts[0].TextPart? then [YouSaid(parts[0].text)] + rest else rest
  }

  /** An assistant message's lines: non-empty text parts cut at 200
      characters, and a one-line status summary per tool part. */
  function AssistantLines(parts: seq<Part>): (r: seq<HistoryLine>)
    ensures |r| <= |parts|
    ensures forall i :: 0 <= i < |r| ==> r[i].AssistantSaid? || r[i].ToolSummary?
    ensures forall i :: 0 <= i < |r| && r[i].AssistantSaid? ==> r[i].text != "" && |r[i].text| <= HistoryLimit + 3
    ensures forall i :: 0 <= i < |parts| && parts[i].TextPart? && parts[i].text != "" ==>
      AssistantSaid(Truncate(parts[i].text, HistoryLimit)) in r
    ensures forall i :: 0 <= i < |parts| && parts[i].ToolPart? ==>
      ToolSummary(parts[i].tool, parts[i].state.status) in r
  {
    if |parts| == 0 then []
    else
      var rest := AssistantLines(parts[1..]);
      assert forall i :: 1 <= i < |parts| ==> parts[i] == parts[1..][i - 1];
      match parts[0]
      case TextPart(t) => if t != "" then [AssistantSaid(Truncate(t, HistoryLimit))] + rest else rest
      case ToolPart(tool, st) => [ToolSummary(tool, st.status)] + rest
      case _ => rest
  }

  /** Nothing else appears in an assistant message's transcript: every
      line comes from a non-empty text part, cut at 200 characters, or from
      a tool part. */
  lemma {:induction false} AssistantLinesFromParts(parts: seq<Part>, i: nat)
    requires i < |AssistantLines(parts)|
    ensures var line := AssistantLines(parts)[i];
      exists j :: 0 <= j < |parts| && LineOf(parts[j], line)
    decreases |parts|
  {
    var r := AssistantLines(parts);
    var rest := AssistantLines(parts[1..]);
    var own := |r| - |rest|;
    assert r[own..] == rest;
    if i < own {
      assert LineOf(parts[0], r[i]);
    } else {
      AssistantLinesFromParts(parts[1..], i - own);
      var j :| 0 <= j < |parts[1..]| && LineOf(parts[1..][j], rest[i - own]);
      assert parts[j + 1] == parts[1..][j];
    }
  }

  /** `line` is what an assistant transcript shows for `p`. */
  predicate LineOf(p: Part, line: HistoryLine) {
    || (p.TextPart? && p.text != "" && line == AssistantSaid(Truncate(p.text, HistoryLimit)))
    || (p.ToolPart? && line == ToolSummary(p.tool, p.state.status))
  }

  /** A user message's transcript keeps the order of its parts: the lines
      of two runs of parts are the lines of each in turn. */
  lemma {:induction false} UserLinesConcat(a: seq<Part>, b: seq<Part>)
    ensures UserLines(a + b) == UserLines(a) + UserLines(b)
    decreases |a|
  {
    if |a| == 0 {
      assert a + b == b;
    } else {
      assert (a + b)[0] == a[0];
      assert (a + b)[1..] == a[1..] + b;
      UserLinesConcat(a[1..], b);
    }
  }

  /** The same order law for an assistant message's transcript. */
  lemma {:induction false} AssistantLinesConcat(a: seq<Part>, b: seq<Part>)
    ensures AssistantLines(a + b) == AssistantLines(a) + AssistantLines(b)
    decreases |a|
  {
    if |a| == 0 {
      assert a + b == b;
    } else {
      assert (a + b)[0] == a[0];
      assert (a + b)[1..] == a[1..] + b;
      AssistantLinesConcat(a[1..], b);
    }
  }

  /** A message's lines followed by the blank separator. */
  function MessageLines(m: Message): (r: seq<HistoryLine>)
    ensures |r| > 0 && r[|r| - 1] == Separator
    ensures forall i :: 0 <= i < |r| - 1 ==> !r[i].Separator?
  {
    (if m.role == User then UserLines(m.parts) else AssistantLines(m.parts)) + [Separator]
  }

  /** Before its separator, a user message shows its user lines and an
      assistant message its assistant lines. */
  lemma MessageLinesByRole(m: Message)
    ensures var r := MessageLines(m);
      r[..|r| - 1] == if m.role == User then UserLines(m.parts) else AssistantLines(m.parts)
  {
  }

  /** The whole transcript, message by message. */
  function TranscriptLines(msgs: seq<Message>): (r: seq<HistoryLine>)
    ensures |r| >= |msgs|
    ensures |msgs| > 0 ==> r[|r| - 1] == Separator
  {
    if |msgs| == 0 then [] else TranscriptLines(msgs[..|msgs| - 1]) + MessageLines(msgs[|msgs| - 1])
  }

  /** The transcript is the concatenation of the messages' lines in order. */
  lemma {:induction false} TranscriptConcat(a: seq<Message>, b: seq<Message>)
    ensures TranscriptLines(a + b) == TranscriptLines(a) + TranscriptLines(b)
    decreases |b|
  {
    if |b| == 0 {
      assert a + b == a;
    } else {
      var b' := b[..|b| - 1];
      var last := b[|b| - 1];
      assert (a + b)[..|a + b| - 1] == a + b';
      assert (a + b)[|a + b| - 1] == last;
      calc {
        TranscriptLines(a + b);
        TranscriptLines(a + b') + MessageLines(last);
        { TranscriptConcat(a, b'); }
        TranscriptLines(a) + TranscriptLines(b') + MessageLines(last);
        TranscriptLines(a) + (TranscriptLines(b') + MessageLines(last));
        TranscriptLines(a) + TranscriptLines(b);
      }
    }
  }

  /** The transcript of a single message is that message's lines. */
  lemma TranscriptOfOne(m: Message)
    ensures TranscriptLines([m]) == MessageLines(m)
  {
    assert [m][..0] == [];
  }

  /** `show_history`. */
  function HistoryOf(fetched: Result<seq<Message>>): (r: History)
    ensures r.HistoryFailed? <==> fetched.Err?
    ensures r.HistoryFailed? ==> r.message == fetched.message
    ensures r.NoMessagesYet? <==> fetched == Ok([])
    ensures r.Transcript? ==> r.lines == TranscriptLines(fetched.value) && |r.lines| >= |fetched.value| > 0
  {
    match fetched
    case Err(e) => HistoryFailed(e)
    case Ok(msgs) => if |msgs| == 0 then NoMessagesYet else Transcript(TranscriptLines(msgs))
  }

  // ---------------------------------------------------------------------
  // `/sessions`

  datatype SessionInfo = SessionInfo(id: string, title: Option<string>)

  datatype SessionRow = SessionRow(shortId: string, title: string, active: bool)

  datatype SessionListing = ListFailed(message: string) | NoSessions | SessionTable(rows: seq<SessionRow>)

  /** One table row: the id's first 8 characters plus "...", the title or
      "(untitled)", and the active mark exactly on the current session. */
  function Row(s: SessionInfo, current: string): (r: SessionRow)
    ensures r.active <==> s.id == current
    ensures r.title != ""
    ensures Truthy(s.title) ==> r.title == s.title.value
    ensures !Truthy(s.title) ==> r.title == "(untitled)"
    ensures |r.shortId| == (if |s.id| <= SessionIdShown then |s.id| else SessionIdShown) + 3
    ensures StartsWith(s.id, r.shortId[..|r.shortId| - 3]) && r.shortId[|r.shortId| - 3..] == "..."
  {
    SessionRow(Take(s.id, SessionIdShown) + "...", if Truthy(s.title) then s.title.value else "(untitled)", s.id == current)
  }

  /** One row per session, in order. */
  function Rows(sessions: seq<SessionInfo>, current: string): (r: seq<SessionRow>)
    ensures |r| == |sessions|
    ensures forall i :: 0 <= i < |r| ==> r[i] == Row(sessions[i], current)
  {
    if |sessions| == 0 then [] else [Row(sessions[0], current)] + Rows(sessions[1..], current)
  }

  /** With distinct session ids, at most one row is marked active. */
  lemma AtMostOneActive(sessions: seq<SessionInfo>, current: string, i: nat, j: nat)
    requires forall a, b :: 0 <= a < b < |sessions| ==> sessions[a].id != sessions[b].id
    requires i < |sessions| && j < |sessions|
    requires Rows(sessions, current)[i].active && Rows(sessions, current)[j].active
    ensures i == j
  {
  }

  /** `list_sessions`. */
  function SessionsOf(fetched: Result<seq<SessionInfo>>, current: string): (r: SessionListing)
    ensures r.ListFailed? <==> fetched.Err?
    ensures r.NoSessions? <==> fetched == Ok([])
    ensures r.ListFailed? ==> r.message == fetched.message
    ensures r.SessionTable? ==> r.rows == Rows(fetched.value, current) && |r.rows| == |fetched.value| > 0
  {
    match fetched
    case Err(e) => ListFailed(e)
    case Ok(ss) => if |ss| == 0 then NoSessions else SessionTable(Rows(ss, current))
  }
}

# opencode-chat client core, modelled in Dafny

`opencode-chat` is a terminal chat client for an OpenCode agent server. This
project models its deterministic decision layer as pure functions over
explicit state. Every answer of the server, of the operating system and of
the user is passed in as a value:

- `Text` (`text.dfy`) holds the Python string behaviour the client relies on.
  That is `strip()`, ASCII `lower()`, `startswith`, slicing, `split("/", 1)`,
  and the "first n characters plus `...`" truncation.
- `Catalog` (`catalog.dfy`) covers the provider/model catalog:
  - resolving a `/model` argument (`provider/model` or a bare model id);
  - the validated, atomic switch of the active pair;
  - the startup check of the default pair;
  - the `/models` listing.
- `Render` (`render.dfy`) covers `display_response` and the part renderers,
  producing an abstract plan of blocks. It also covers the `/history`
  transcript and the `/sessions` table rows.
- `Supervisor` (`supervisor.dfy`) covers:
  - discovery of a running server in a fixed order;
  - the bounded health poll after spawning `opencode serve`;
  - idempotent cleanup of the owned child process.
- `Commands` (`commands.dfy`) covers the REPL: routing a line, parsing
  slash-commands into a closed `Command` type, running a command or a chat
  turn against a `Client` state record, and the loop over a sequence of
  input events.
- `Outcomes` (`outcomes.dfy`) holds `Option` and `Result`. They stand in for
  Python's `None` and for the exceptions the SDK raises.

Where the docstrings and the code differ, the model follows the code:
- Discovery always probes the client built from `OPENCODE_BASE_URL` first,
  even when that variable is unset; the SDK then uses its default address.
- A switch checks the model against the LAST provider with the requested id,
  because a dictionary built from the catalog keeps the last one.
- A bare model id whose first offering provider has the empty id is reported
  as not found. This follows the source's truthiness test.

## Model

| member | source | states |
|---|---|---|
| Text.TrimStart | chat.py:341 | the result is a suffix of the input that does not start with whitespace, and everything cut before it is whitespace |
| Text.TrimEnd | chat.py:341 | the result is a prefix of the input that does not end with whitespace, and everything cut after it is whitespace |
| Text.Strip | chat.py:341 | the result has no surrounding whitespace and is a slice of the input with only whitespace cut from either end; text without surrounding whitespace is left unchanged |
| Text.StripUnique | chat.py:341 | any stripped slice of the input that cuts only whitespace is the result of stripping, so `strip()` is characterised by that property |
| Text.StripIdempotent | chat.py:540-549 | stripping the line in the loop and again in the command handler equals stripping it once |
| Text.LowerStrip | chat.py:341-342 | lower-casing commutes with stripping, so `raw.lower()` equals lower-casing then stripping |
| Text.Lower | chat.py:342 | lower-casing keeps the length and maps each character on its own: ASCII capitals to small letters, everything else unchanged |
| Text.Truncate | chat.py:232 | a text of at most n characters is unchanged; a longer one becomes its first n characters followed by exactly `...` |
| Text.SplitFirst | chat.py:486 | splitting at the first `/` gives a part without `/` and the rest, which rejoin to the spec |
| Catalog.FindProvider | chat.py:489-494 | the first provider in catalog order offering the model; none exactly when no provider offers it |
| Catalog.Lookup | chat.py:501-502 | the provider the id-keyed dictionary keeps is the last one with that id; absent exactly when no provider has the id |
| Catalog.KnownIds | chat.py:503-504 | the available-provider list holds every catalog provider id, and each exactly once |
| Catalog.KnownIdsInFirstOccurrenceOrder | chat.py:501-504 | the ids appear in the order of their first occurrence in the catalog |
| Catalog.Resolve | chat.py:485-498 | a spec with `/` splits at its first `/`; a bare id keeps the id as the model |
| Catalog.ResolveCompoundIgnoresCatalog | chat.py:485-486 | a `provider/model` spec resolves the same whatever the catalog holds, so no search is made |
| Catalog.ResolveBareId | chat.py:487-498 | a bare id resolves to provider p exactly when p is the non-empty id of the first provider in catalog order offering it |
| Catalog.ResolveUnknownBareId | chat.py:495-498 | a bare id that no provider offers is not found |
| Catalog.Switch | chat.py:475-516 | the pair switches exactly when the catalog is fetched, the spec resolves, the provider exists and the kept provider offers the model; otherwise the old pair is kept and the outcome says which check failed, naming the unknown provider with the known ids, or the unknown model with the provider's first 10 model ids |
| Catalog.SwitchIsAtomic | chat.py:500-515 | after a switch the pair is either the old pair exactly or the resolved, validated pair, never a mix |
| Catalog.CheckDefault | chat.py:121-136 | the default pair is always used; it is confirmed only when the catalog offers it, a fetch error is reported with its message, and otherwise a warning is given |
| Catalog.ModelRows | chat.py:463-470 | one row per model in order, carrying the model's cost, marked active exactly when it names the active pair |
| Catalog.DefaultFor | chat.py:455-456 | a provider's header names a default exactly when the defaults map holds a non-empty model for its id, and then names that model |
| Catalog.ProviderBlock | chat.py:452-472 | a provider's block is its header with its default model when one is set, then one row per model in order, then a blank line; a provider with no models has "(no models)" instead and no blank line |
| Catalog.ListingSound | chat.py:452-472 | every model row in the listing names a model some catalog provider offers, and is marked active exactly when it names the active pair |
| Catalog.ListingHasEveryModel | chat.py:452-472 | every model of every provider has its row in the listing |
| Catalog.ListingConcat | chat.py:452-472 | the listing of two provider lists is the concatenation of their listings, so providers are listed in catalog order |
| Catalog.ListingOfOne | chat.py:452-472 | the listing of one provider is its block |
| Catalog.ListingOf | chat.py:442-450 | the listing fails, with the fetch's message, exactly when the catalog fetch fails, and is otherwise the blocks of every provider |
| Render.StatusMarker | chat.py:198-206 | completed, error and running each get their own marker; every other status shows as pending |
| Render.DetailLines | chat.py:215-238 | input, output and error lines appear in that order, each at most once: input exactly when the input was formatted, cut at 300; output exactly for a non-empty output, cut at 500; error exactly for a non-empty error |
| Render.ToolLines | chat.py:208-240 | the title comes first exactly when present, the single status line follows, and the detail lines follow it in their own order |
| Render.ToolInputTruncation | chat.py:223-225 | a formatted input over 300 characters shows as its first 300 plus `...`; one of at most 300 shows unchanged |
| Render.ToolOutputTruncation | chat.py:230-233 | the same law for tool output at 500 characters |
| Render.Notice | chat.py:268-286 | abort and auth errors get their own notices; the message is `data.message` when present, else `str(data)`; the name defaults to `Error` |
| Render.RenderPart | chat.py:168-182 | each part kind maps to its own block kind; text renders its own text, a tool its own tool name and lines; only empty text or reasoning prints nothing; unknown kinds get a kind indicator |
| Render.ReasoningTruncation | chat.py:260-265 | reasoning over 300 characters shows as its first 300 plus `...`; shorter reasoning shows unchanged |
| Render.OtherKindShowsOnlyIndicator | chat.py:180-182 | a part of any other kind renders only a one-line indicator naming its kind |
| Render.StepFinishTokens | chat.py:249-257 | the step summary's token count is input plus output tokens |
| Render.PartBlocks | chat.py:167-182 | exactly one block per part, in the parts' order |
| Render.MessageBlocks | chat.py:163-182 | a present error renders first and only there; then one block per part in order |
| Render.LastAssistant | chat.py:152-157 | the index of the last message with the assistant role; none exactly when there is no assistant message |
| Render.DisplayResponse | chat.py:144-161 | a fetch error is reported with its message; without an assistant message only a notice is shown |
| Render.DisplayShowsLastAssistant | chat.py:152-182 | the blocks shown are those of the last assistant message, whatever user messages follow it |
| Render.UserLines | chat.py:397-401 | a user message shows every text part verbatim, empty ones included, and nothing else |
| Render.AssistantLines | chat.py:402-412 | an assistant message shows each non-empty text part cut at 200 characters and a status summary for each tool part |
| Render.AssistantLinesFromParts | chat.py:402-412 | every line of an assistant message comes from one of its parts: a non-empty text part cut at 200, or a tool part's status |
| Render.UserLinesConcat | chat.py:397-401 | a user message's lines follow its parts in order |
| Render.AssistantLinesConcat | chat.py:402-412 | an assistant message's lines follow its parts in order |
| Render.MessageLines | chat.py:395-413 | each message's lines end with exactly one blank separator |
| Render.MessageLinesByRole | chat.py:395-413 | before the separator, a user message shows its user lines and any other message its assistant lines |
| Render.TranscriptLines | chat.py:395-413 | the transcript has at least one line per message and ends with a separator when there are messages |
| Render.TranscriptOfOne | chat.py:395-413 | the transcript of one message is that message's lines |
| Render.TranscriptConcat | chat.py:395-413 | the transcript of a message list is the concatenation, in order, of the transcripts of its parts |
| Render.HistoryOf | chat.py:383-393 | the history fails, with the fetch's message, exactly on a fetch error, says "no messages" exactly for an empty session, and is otherwise the transcript |
| Render.Row | chat.py:433-437 | a row shows the id's first 8 characters plus `...`, the title when it is non-empty and `(untitled)` otherwise, and the active mark exactly on the current session |
| Render.Rows | chat.py:433-437 | one row per session, in order |
| Render.AtMostOneActive | chat.py:436 | with distinct session ids at most one row is marked active |
| Render.SessionsOf | chat.py:416-439 | the table fails, with the fetch's message, exactly on a fetch error, says "no sessions" exactly for an empty list, and otherwise has one row per session in order |
| Supervisor.Candidates | chat.py:35-45 | the configured client comes first, then ports 54321, 4096, 3000 and 8080 in that order |
| Supervisor.Discover | chat.py:33-51 | the first candidate that responds is returned and no later one is probed; none only after every candidate failed |
| Supervisor.PollHealth | chat.py:79-86 | at most 30 probes, 0.5 s apart, so at most 15 s of waiting; the poll stops at the first success, and 30 probes were made whenever none succeeded |
| Supervisor.CleanupProcess | chat.py:93-106 | no actions without a handle; otherwise terminate first; when terminating raises, nothing else; otherwise wait up to 5 s, and kill and wait exactly when that grace expires (four actions, else two); the handle is always dropped |
| Supervisor.CleanupIdempotent | chat.py:95-97 | a second cleanup does nothing |
| Supervisor.StartServer | chat.py:58-90 | the start reports a missing executable exactly when nothing was spawned, and exits with status 1; a healthy poll keeps the child on port 54321; 30 failed probes clean the child up once and exit with status 1 |
| Commands.CommandOf | chat.py:344-380 | each keyword maps to its command and only that keyword does, `/model ` with a space takes the argument, and anything else is unknown |
| Commands.ModelArgument | chat.py:362-363 | the `/model` argument is the text after the 7-character prefix with only surrounding whitespace cut, letter case kept; lower-casing it gives the stripped lower-cased text after the prefix |
| Commands.ParseCommand | chat.py:339-380 | matching is on the stripped, lower-cased line: each keyword gives its command and no other line does; `/models` and `/model` are distinct from `/model <spec>`, whose spec is cut from the stripped line with case kept; unknown commands report the lower-cased line |
| Commands.ParseStripped | chat.py:341 | the handler's own strip makes a pre-stripped line parse the same |
| Commands.ParseIgnoresCase | chat.py:341-342 | lines differing only in letter case parse to the same command, up to the case of a `/model` argument |
| Commands.ModelArgumentKeepsCase | chat.py:341-363 | `/model` in any case, a space and any argument that is not all whitespace switches to exactly the stripped argument, case preserved |
| Commands.ModelsIsNotModel | chat.py:359-363 | `/models` in any case lists the catalog and never switches |
| Commands.Route | chat.py:540-551 | blank lines are skipped, lines starting with `/` go to the command handler, and everything else is sent stripped |
| Commands.ExitWith | chat.py:75 | every exit runs the registered cleanup, leaving no child process |
| Commands.Farewell | chat.py:344-347 | leaving normally, by `/quit` or at end of input, says goodbye first, exits with status 0, leaves no child process and keeps session and pair |
| Commands.Send | chat.py:294-324 | the chat request carries the current session and pair; a reply renders once after the request; an interrupt reports, aborts once and then renders; a lost connection or other error is reported once, with its message, and nothing renders |
| Commands.Execute | chat.py:339-380 | only `/model` changes the pair, to the switch's result and reporting its outcome; only a successful `/new` changes the session, to the created one, reporting its shortened id; only quit or a failed `/new` exit, after cleanup; unknown commands change nothing |
| Commands.ExecuteReports | chat.py:348-380 | a failed `/new` reports the error and then cleans the child up once on the way out; `/history`, `/sessions`, `/models`, `/model` and `/help` show exactly their own output; `/abort` requests the abort and then reports success exactly when it succeeded, or the failure's message |
| Commands.QuitCleansUpOnce | chat.py:344-347 | `/quit` cleans up once; the cleanup that runs again at exit adds nothing |
| Commands.EndOfInputCleansUp | chat.py:541-568 | end of input says goodbye and then cleans the child up exactly once before the program ends |
| Commands.LineStep | chat.py:545-551 | blank lines do nothing; chat turns change no state and produce exactly the chat turn's effects; slash lines run the command handler; only quit or a failed `/new` exit |
| Commands.ReplStep | chat.py:536-551 | a turn exits, with status 0 or 1, exactly at end of input, on quit, or on a failed `/new`; end of input says goodbye and exits with status 0; an exit leaves no child process |
| Commands.ReplStepRoutes | chat.py:545-551 | a line that is read does nothing when blank, is sent stripped when it is chat, and otherwise runs the command parsed from it |
| Commands.Run | chat.py:538-551 | the loop's exit status is 0 or 1, and no exit leaves a child process behind |
| Commands.RunExitsAt | chat.py:538-551 | once a turn ends the program the loop has exited, and no later turn has any effect on the result |
| Commands.RunCons | chat.py:538-551 | a first turn that ends the program is the whole run; otherwise its effects come first and the loop goes on from the state it left |
| Commands.RunConcat | chat.py:538-551 | when a first stretch of turns does not end the program, the run continues from the state it left and its effects precede those of the rest |
| Commands.RunWithoutExitKeepsGoing | chat.py:538-551 | a run of turns that never quit, never fail `/new` and never reach end of input does not exit |

## Left out

- Terminal formatting by `rich` is left out: panels, tables, markdown and colour markup. Output is modelled as abstract blocks, lines and effects.
- OpenCode SDK calls are left out: session list/create/chat/abort/messages and provider listing are network I/O. Their results are inputs, as `Result` values or as the `Services` record.
- `subprocess.Popen`, `terminate`, `kill`, `wait` timeouts, `time.sleep` and `sys.exit` are left out. They are modelled as a spawned-handle input, `StopOutcome`, `ProcAction` values and exit codes. The 0.5 s sleep before each probe is not performed; `PollHealth` accounts for it as the total `waitedMillis`.
- `atexit` registration is left out. Every exit path runs the cleanup instead (`ExitWith`). The hook is registered only after a successful spawn, and without an owned process cleanup is a no-op, so the result is the same.
- Supervisor.CleanupProcess: an exception raised by the forced `kill()` or the final `wait()` escapes cleanup and keeps the handle in the source; that case is not modelled.
- `json.dumps(indent=2)` and `str()` of a tool input are left out. The formatted text is an opaque string (`Formatted`), and a value whose formatting raises is `Unformattable`.
- Render.StepFinishTokens: token counts are integers, not `int(float + float)`. The cost, formatted to four decimals, is left out because it is floating point.
- Text.Lower: only ASCII letters are lower-cased, and length is preserved; Python's full Unicode case mapping is not modelled.
- Interrupts outside the chat call, such as during rendering, are left out, as are Python exceptions as control flow. Interrupts and end of input at the prompt are the `EndOfInput` event.
- `show_help` is left out; it is a static table, `HelpShown`. `main`'s banner is left out too.
- The startup sequence is left out: `ensure_opencode` choosing between discovery and spawn, and the first `create_session`. Its parts are modelled: `Discover`, `StartServer`, `CheckDefault`, and `/new`'s session creation in `Execute`.

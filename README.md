# Slack bridge for Claude: a Dafny model of its message router

The bridge (`index.js`) takes Slack events and decides whether to act on
them. It strips every `<@ID>` user mention from the text, other people's included, and recognises the control
commands: reset the session, switch to a named session, show the current
session. Any other text goes to the `claude` command-line agent, which is
run under a per-user session. The bridge keeps three stores: a per-user
session map (`sessions.json`), a registry of threads opened by mentions
(`threads.json`), and an inbox of received messages (`inbox.json`).

This project models that core in five modules:

- `Wrappers` (`wrappers.dfy`): `Option` and map lookup.
- `JsString` (`jsstring.dfy`): the JavaScript string operations the bridge relies on.
  - `trim` and the `\s` class, over the ECMAScript whitespace and line-terminator set.
  - ASCII lower-casing, `includes`, `split`/`join` on one character, and decimal rendering of integers.
- `Router` (`router.dfy`): the pure decisions.
  - Event gating and the reply thread timestamp.
  - Mention stripping, with `replace(/<@[A-Z0-9]+>\s*/g, '')` modelled as a left-to-right scan.
  - The session-switch pattern `^[!/]session\s+(.+)$` with flag `i`. Its greedy whitespace run, its `.` that stops at line terminators and its end-of-input `$` are written out.
  - Command parsing in `handleSlackEvent`'s order.
  - The timestamp-freshness part of request verification.
- `Agent` (`agent.dfy`): `runClaudeCode` as a function of how the agent process ended.
  - Option building from the environment and the choice between resuming and starting a session.
  - Collection of the output streams and classification of the exit.
  - The effect on the session store, and reply truncation.
- `Bridge` (`bridge.dfy`): the whole effect of one event.
  - `Handle` is the reference function.
  - The class `Bridge.Bridge` holds the three stores as fields and performs the same steps in place. `saveSession`, `clearSession`, `saveThread`, the inbox push and `runClaudeCode` are its methods. `SaveSession`, `ClearSession`, `SaveThread` and `AppendInbox` state their map or sequence update directly. `RunClaudeCode` and the three event handlers are tied to `RunSpec` and `Handle`.

Inputs that `index.js` obtains from the outside world are parameters:

- the clock (`now`);
- the UUID generator (`freshId`);
- how the spawned agent ended (`AgentRun`): its exit code and the chunks written to stdout and stderr, a spawn error, or the five-minute timeout;
- the allow-list and the `CLAUDE_*` environment variables.

Absent or empty JSON fields are the empty string. This matches the truthiness tests in `index.js` (`event.thread_ts ? … : …`, `event.text || ''`, `if (sessionId)`).

## Model

| member | source | states |
|---|---|---|
| JsString.Trim | index.js:190 | `trim` returns a string with no whitespace at either end that sits inside its input with only whitespace before and after it |
| JsString.TrimPadded | index.js:190 | `trim` removes exactly the whitespace padding of a trimmed string and nothing else |
| JsString.TrimIdempotent | index.js:190 | trimming twice is trimming once |
| JsString.LowerAsciiEquals | index.js:197-198 | the lower-cased message equals a command word with no capitals iff it has the word's length and each character is the word's letter or that letter's ASCII capital |
| JsString.Includes | index.js:342 | `includes` is true exactly when the searched string occurs at some index |
| JsString.Split | index.js:307 | `split(',')` yields at least one piece and no piece contains the separator |
| JsString.JoinSplit | index.js:307 | joining the pieces of a split with the same separator gives the original string back |
| JsString.SplitCount | index.js:307 | a split yields one more piece than there are separators |
| JsString.NatToStringValue | index.js:345 | the decimal rendering of an exit code reads back as the same number |
| Router.Admit | index.js:166-193 | an event is handled iff it is not a bot's, its user is on the allow-list, and it is a DM, a mention or a reply in a registered thread; the handled text is `UserMessage` of the event text (mentions stripped, then trimmed); the reply goes to `thread_ts` when present, else `ts` |
| Router.StripMentions | index.js:190 | stripping mentions never lengthens the text |
| Router.StripMentionsNoMarkup | index.js:190 | text containing no `<` is kept as it is, and stripping goes on with whatever follows it |
| Router.OtherMarkupKept | index.js:190 | a `<` that does not open `<@ID>` (links, channel references, `<!here>`, lower-case ids) is kept, and stripping goes on after it |
| Router.MentionAfterText | index.js:190 | a mention after plain text is removed with its trailing whitespace run, and the text before it is kept |
| Router.StripLeadingMention | index.js:190 | a leading `<@ID>` (capitals and digits) and the whitespace run after it are removed, and stripping continues on the rest |
| Router.UserMessage | index.js:189-190 | the message the bridge works with is trimmed and is the mention-stripped text with only whitespace removed around it |
| Router.MentionExample | index.js:188-190 | the documented example: `<@U0AA8NX69FU> 안녕` becomes `안녕` |
| Router.SessionArgument | index.js:209 | the pattern matches iff some split point satisfies it; the capture is the message suffix from the latest such split point (greedy `\s+`) |
| Router.ParseCommand | index.js:196-232 | Reset iff the lower-cased message is a reset word; Switch iff the switch pattern matches; Show iff the lower-cased message is a show word; otherwise the message is content, unchanged |
| Router.SwitchIdentifier | index.js:209-211 | on a trimmed message the switched-to id is non-empty, trimmed, on one line, in its original case, and is the message's tail after `!session`/`/session` and whitespace |
| Router.ResetExample | index.js:197-198 | `!RESET` resets (comparison after lower-casing) |
| Router.ShowExample | index.js:222 | `!session` alone shows the current session |
| Router.MultiLineExample | index.js:209 | an argument that spans lines is not a switch command but content |
| Router.RequestPrecheck | index.js:111-124 | without a signing secret every request passes; with one, a missing signature or timestamp fails, a timestamp more than 300 s from now fails; a request with both headers and a timestamp within 300 s, or one that does not parse, goes to the HMAC check |
| Agent.ModelName | index.js:303 | the model is never empty: `CLAUDE_MODEL`, or `opus` when unset |
| Agent.AddDirFlags | index.js:307 | one `--add-dir` flag per comma-separated entry, in order, each with the trimmed entry |
| Agent.AddDirFlagCount | index.js:306-307 | the number of `--add-dir` flags is the number of commas plus one |
| Agent.DirOptions | index.js:301-308 | the `--add-dir` flags, joined by spaces after a leading space, exactly when `CLAUDE_ALLOWED_DIRS` is set, and nothing otherwise |
| Agent.SkipOption | index.js:302-311 | ` --dangerously-skip-permissions` exactly when `CLAUDE_SKIP_PERMISSIONS` is `true`, and nothing otherwise |
| Agent.BaseOptions | index.js:301-311 | the options are `--model <model>` followed by the directory flags and then the permission flag, each present exactly when its variable says so |
| Agent.ClaudeArguments | index.js:313-322 | the command line is `-p --resume <id> ` for a resumed session or `-p --session-id <id> ` for a new one, followed by the base options, and nothing else |
| Agent.ClaudeArgumentsInjective | index.js:313-322 | the command line determines the session: equal arguments under one configuration mean the same choice of resume or start and the same id |
| Agent.ConcatAppend | index.js:329-335 | for chunks given as text, how the stream is cut into chunks does not change the collected text |
| Agent.Accumulate | index.js:329-335 | appending text chunk after text chunk yields the concatenation of all chunks |
| Agent.CloseOutcome | index.js:337-346 | exit 0 resolves, with the trimmed stdout or the trimmed stderr when stdout is blank; any other exit rejects, with the trimmed stderr or `Exit code: N` |
| Agent.RunOutcome | index.js:337-357 | only a clean exit resolves; a closed run is classified by `CloseOutcome` of its collected streams; a spawn error rejects with its own message, the timeout with its fixed message |
| Agent.SessionsAfter | index.js:313-344 | the store after a run: the fresh id is stored when the user had no session, the user is unbound afterwards iff the run clears the session, and no other user changes |
| Agent.RunSpec | index.js:297-346 | a stored non-empty session is resumed with `--resume` and the store kept; otherwise the fresh id is stored before the run and passed with `--session-id`; the user is unbound afterwards iff the run closes with a non-zero code and its stderr mentions `session` or `resume`; no other user changes |
| Agent.Truncate | index.js:270-273 | a result of at most 3900 characters is kept; a longer one becomes its first 3900 characters plus the marker, so no reply exceeds 3900 plus the marker length |
| Agent.TruncateIdempotent | index.js:270-273 | truncating a truncated reply changes nothing |
| Bridge.ShowReply | index.js:222-231 | the "no active session" text is chosen exactly when the user has no session or an empty one; otherwise the reply quotes the session id |
| Bridge.SwitchReply | index.js:213-217 | the switch confirmation quotes the new session id |
| Bridge.FinalReply | index.js:269-287 | the last reply is never empty: the truncated result, `(빈 응답)` when that is empty, or the error prefix and message |
| Bridge.HandleCommand | index.js:196-232 | a control command answers once, never runs the agent and touches neither threads nor inbox; reset unbinds and posts the reset notice, switch binds to the id and posts the switch confirmation for it, show changes nothing and posts `ShowReply` of the user's stored session |
| Bridge.HandleContent | index.js:234-288 | content registers the thread a top-level mention opens, appends one inbox entry, runs the agent as `RunSpec` says, and answers with the processing notice and then `FinalReply` of the run's outcome |
| Bridge.Handle | index.js:166-289 | an event that is not admitted changes nothing and sends nothing; the agent runs iff the admitted message is content |
| Bridge.HandleSessions | index.js:166-289 | one event changes at most its sender's session |
| Bridge.HandleReplies | index.js:196-288 | every reply goes to the event's channel and the chosen thread timestamp |
| Bridge.HandleStores | index.js:234-252 | the inbox only grows, by one entry per content message; threads are never removed, and a thread is added or renewed only by a mention outside a thread, under `channel-ts` |
| Bridge.ResetIdempotent | index.js:76-80 | a second reset of the same user leaves the stores as the first did and answers the same |
| Bridge.SwitchThenResume | index.js:209-218 | after switching to an id, the user's next content message resumes that id |
| Bridge.NewSessionResumed | index.js:313-323 | a user without a session starts one under the generated id, and unless the run clears it, the next content message resumes it |
| Bridge.SessionErrorStartsOver | index.js:342-343 | after a failure that mentions the session, the user's next content message starts a new session with a fresh id |
| Bridge.MentionOpensThread | index.js:179-186 | a top-level mention opens a thread in which later replies from allowed users are admitted, answered in that thread |
| Bridge.Bridge.constructor | index.js:35-58 | the bridge starts from the stores the files hold |
| Bridge.Bridge.GetSession | index.js:71-74 | the user's stored session, absent exactly when the user is unbound |
| Bridge.Bridge.SaveSession | index.js:65-69 | afterwards the user is bound to the id and every other user's entry is as before |
| Bridge.Bridge.ClearSession | index.js:76-80 | afterwards the user is unbound and every other user's entry is as before; clearing an unbound user changes nothing |
| Bridge.Bridge.IsActiveThread | index.js:93-96 | a thread is active exactly when its key is registered, which is the test the event gating makes on a thread reply |
| Bridge.Bridge.GetThreadUser | index.js:93-101 | a thread's opener is known exactly for registered threads |
| Bridge.Bridge.SaveThread | index.js:87-91 | afterwards the thread is registered to the user, with the other stores unchanged |
| Bridge.Bridge.AppendInbox | index.js:243-251 | the inbox grows by exactly the new entry at its end |
| Bridge.Bridge.OnClose | index.js:329-346 | the close handler's outcome is `CloseOutcome` of the concatenated streams, and the user is unbound iff the failure mentions the session |
| Bridge.Bridge.RunClaudeCode | index.js:291-359 | the session store, the agent call and the outcome are exactly those `RunSpec` gives |
| Bridge.Bridge.HandleCommandMessage | index.js:196-232 | the stores and replies after a command are exactly those `HandleCommand` gives |
| Bridge.Bridge.HandleContentMessage | index.js:234-288 | the stores, replies and agent call after content are exactly those `HandleContent` gives |
| Bridge.Bridge.HandleSlackEvent | index.js:166-289 | the stores, replies and agent call after an event are exactly those `Handle` gives |

## Left out

- The HTTP server, the `url_verification` handshake and the debug routes (`/health`, `/inbox`, `/sessions`): request plumbing.
- The HMAC-SHA256 signature and `timingSafeEqual`: foreign cryptographic calls. Only the checks before them are modelled, in `RequestPrecheck`.
- Posting to Slack and its failures. Replies are the list of texts the bridge would post, in order. A failed "processing" post is caught by `handleSlackEvent` and changes nothing else.
- The `echo <prompt> | claude …` shell string. The prompt is kept beside the argument string instead of being quoted into it.
- Running the agent. How it ended is an input.
- Agent.RunSpec: does not model the race after the timeout, where the killed process's close handler can still unbind the user if stderr mentions the session. A timed-out run here always keeps the user's binding. It also does not model a close that follows a spawn error. Both are event-loop orderings.
- Agent.ConcatAppend: holds for chunks given as text. The source decodes each byte chunk on its own with `data.toString()`, so a UTF-8 character split across two chunks (any Hangul syllable is three bytes) turns into replacement characters. The model does not capture that corruption.
- Agent.Truncate: lengths count code points. JavaScript's `length` and `substring` count UTF-16 units, so text outside the Basic Multilingual Plane is cut at a different place.
- Reading and writing the JSON files, and the read-modify-write race between concurrent events. The stores are in-memory values and each event is handled alone.
- The inbox's `lastChecked` field. It is only ever written as `null` (when `inbox.json` is created and when it is cleared) and is never read.
- Object-prototype keys such as `__proto__` used as user ids or thread keys. The maps here have no prototype.
- The startup checks of the environment, and the parsing of `ALLOWED_USERS`. The allow-list is a parameter.
- Logging.
- Absent event fields inside message text. `event.channel` and `event.ts` are interpolated into template strings for the thread key and the inbox entry, where an absent field becomes `"undefined"`. The model writes it as `""`, which matches only the truthiness tests.
- `new Date().toISOString()`: one `now` value stands for both the thread's and the inbox entry's timestamps.
- `parseInt` of the timestamp header is a parameter of `RequestPrecheck`: an integer, or None for NaN.

## Notes on the code

- `saveThread` overwrites the record when a top-level mention reuses a thread key, so `Handle` lets a thread's record be renewed.
- Replies in a registered thread are still parsed for control commands. They are admitted from any allowed user, not only the thread's creator.
- `getThreadUser` is never consulted when gating.
- The session is cleared only on a non-zero exit. The test is a plain substring test for `session` or `resume` on the raw error output.

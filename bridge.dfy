/** The bridge's state and its handling of one Slack event
    (`handleSlackEvent`, index.js:166-289): the session store
    (index.js:61-80), the thread registry (index.js:83-101) and the inbox
    (index.js:242-252). `Handle` is the whole effect of one event as a
    function of the stores before it; the class `Bridge` performs the same
    steps by updating its fields in place. The replies are the texts the
    bridge posts, in order; posting itself is not modelled. */
module Bridge {
  import opened Wrappers
  import opened JsString
  import opened Router
  import opened Agent

  /** The value threads.json keeps for a registered thread. */
  datatype ThreadRecord = ThreadRecord(userId: string, createdAt: string)

  /** One entry of inbox.json's `messages`. */
  datatype InboxEntry = InboxEntry(
    id: string,
    kind: string,
    channel: string,
    user: string,
    text: string,
    ts: string,
    receivedAt: string)

  /** A message posted back to Slack. */
  datatype Reply = Reply(channel: string, threadTs: string, text: string)

  datatype Stores = Stores(
    sessions: map<string, string>,
    threads: map<string, ThreadRecord>,
    inbox: seq<InboxEntry>)

  // ---------------------------------------------------------------------
  // Reply texts (index.js:199-231, 256-287)

  const ResetReply := "🔄 새 세션이 시작되었습니다."
  const NoSessionReply := "❌ 활성 세션이 없습니다."
  const ProcessingReply := "⏳ 처리 중..."
  const EmptyReply := "(빈 응답)"
  const ErrorPrefix := "❌ 오류 발생: "

  const SwitchPrefix := "🔗 세션이 전환되었습니다: `"
  const ShowPrefix := "📍 현재 세션: `"

  /** The switch confirmation quotes the new session id. */
  function SwitchReply(sessionId: string): (text: string)
    ensures OccursAt(text, sessionId, |SwitchPrefix|)
  {
    var text := SwitchPrefix + sessionId + "`";
    assert text[|SwitchPrefix|..|SwitchPrefix| + |sessionId|] == sessionId;
    text
  }

  /** `currentSession ? ... : ...`: an unbound user and one bound to the
      empty string both have no active session. */
  function ShowReply(current: Option<string>): (text: string)
    ensures text == NoSessionReply <==> current.None? || current.value == ""
    ensures current.Some? && current.value != "" ==> OccursAt(text, current.value, |ShowPrefix|)
  {
    if current.Some? && current.value != "" then
      var text := ShowPrefix + current.value + "`";
      assert text[0] != NoSessionReply[0];
      assert text[|ShowPrefix|..|ShowPrefix| + |current.value|] == current.value;
      text
    else NoSessionReply
  }

  /** The reply that ends a content message: the truncated result, a
      placeholder when it is empty, or the error message. */
  function FinalReply(o: Outcome): (text: string)
    ensures text != ""
    ensures o.Resolved? && Truncate(o.text) != "" ==> text == Truncate(o.text)
    ensures o.Resolved? && Truncate(o.text) == "" ==> text == EmptyReply
    ensures o.Resolved? ==> |text| <= MaxResponseLength + |TruncationMarker|
    ensures o.Rejected? ==> text == ErrorPrefix + o.message
  {
    match o
    case Resolved(result) =>
      var response := Truncate(result);
      if response != "" then response else EmptyReply
    case Rejected(message) => ErrorPrefix + message
  }

  // ---------------------------------------------------------------------
  // One event as a function

  datatype Handled = Handled(stores: Stores, replies: seq<Reply>, call: Option<AgentCall>)

  /** The inbox entry for a content message. */
  function InboxEntryFor(e: Event, user: string, message: string, now: string): InboxEntry
  {
    InboxEntry(ThreadKey(e.channel, e.ts), "dm", e.channel, user, message, e.ts, now)
  }

  /** A control command: it answers once and never runs the agent. */
  function HandleCommand(st: Stores, user: string, command: Command, channel: string, replyTs: string): (h: Handled)
    requires !command.Content?
    ensures h.call.None? && |h.replies| == 1
    ensures h.replies[0].channel == channel && h.replies[0].threadTs == replyTs
    ensures h.stores.threads == st.threads && h.stores.inbox == st.inbox
    ensures forall v :: v != user ==> Lookup(h.stores.sessions, v) == Lookup(st.sessions, v)
    ensures command == Reset ==> user !in h.stores.sessions
    ensures command.Switch? ==> Lookup(h.stores.sessions, user) == Some(command.sessionId)
    ensures command == Show ==> h.stores == st
    ensures command == Reset ==> h.replies[0].text == ResetReply
    ensures command.Switch? ==> h.replies[0].text == SwitchReply(command.sessionId)
    ensures command == Show ==> h.replies[0].text == ShowReply(Lookup(st.sessions, user))
  {
    match command
    case Reset =>
      Handled(st.(sessions := st.sessions - {user}), [Reply(channel, replyTs, ResetReply)], None)
    case Switch(sessionId) =>
      Handled(st.(sessions := st.sessions[user := sessionId]), [Reply(channel, replyTs, SwitchReply(sessionId))], None)
    case Show =>
      Handled(st, [Reply(channel, replyTs, ShowReply(Lookup(st.sessions, user)))], None)
  }

  /** A content message: register the thread a mention starts, queue the
      message in the inbox, run the agent, then answer twice. */
  function HandleContent(st: Stores, e: Event, user: string, message: string, replyTs: string,
                         cfg: Config, now: string, freshId: string, run: AgentRun): (h: Handled)
    ensures h.call == Some(RunSpec(st.sessions, user, message, freshId, cfg, run).call)
    ensures h.stores.sessions == RunSpec(st.sessions, user, message, freshId, cfg, run).sessions
    ensures h.stores.inbox == st.inbox + [InboxEntryFor(e, user, message, now)]
    ensures forall k :: k in st.threads ==> k in h.stores.threads
    ensures forall k :: k in h.stores.threads && (k !in st.threads || h.stores.threads[k] != st.threads[k]) ==>
              StartsThread(e) && k == ThreadKey(e.channel, e.ts)
    ensures StartsThread(e) ==> Lookup(h.stores.threads, ThreadKey(e.channel, e.ts)) == Some(ThreadRecord(user, now))
    ensures |h.replies| == 2 && h.replies[0].text == ProcessingReply
    ensures h.replies[1].text == FinalReply(RunSpec(st.sessions, user, message, freshId, cfg, run).outcome)
    ensures forall r :: r in h.replies ==> r.channel == e.channel && r.threadTs == replyTs
  {
    var threads := if StartsThread(e) then st.threads[ThreadKey(e.channel, e.ts) := ThreadRecord(user, now)] else st.threads;
    var inbox := st.inbox + [InboxEntryFor(e, user, message, now)];
    var inv := RunSpec(st.sessions, user, message, freshId, cfg, run);
    Handled(Stores(inv.sessions, threads, inbox),
            [Reply(e.channel, replyTs, ProcessingReply), Reply(e.channel, replyTs, FinalReply(inv.outcome))],
            Some(inv.call))
  }

  /** Everything one event does. `now` stands for the clock, `freshId` for
      the id randomUUID would generate and `run` for how the agent process
      ends. */
  function Handle(st: Stores, e: Event, allowed: seq<string>, cfg: Config,
                  now: string, freshId: string, run: AgentRun): (h: Handled)
    // An event that is not admitted leaves no trace.
    ensures Admit(e, allowed, st.threads.Keys).Ignored? ==> h == Handled(st, [], None)
    // The agent runs exactly for admitted content messages.
    ensures h.call.Some? <==>
              var a := Admit(e, allowed, st.threads.Keys);
              a.Admitted? && ParseCommand(a.message).Content?
  {
    match Admit(e, allowed, st.threads.Keys)
    case Ignored => Handled(st, [], None)
    case Admitted(user, message, replyTs) =>
      var command := ParseCommand(message);
      if command.Content? then HandleContent(st, e, user, message, replyTs, cfg, now, freshId, run)
      else HandleCommand(st, user, command, e.channel, replyTs)
  }

  /** Only the sender's session can change. */
  lemma HandleSessions(st: Stores, e: Event, allowed: seq<string>, cfg: Config,
                       now: string, freshId: string, run: AgentRun)
    ensures var h := Handle(st, e, allowed, cfg, now, freshId, run);
            forall v :: Some(v) != e.user ==> Lookup(h.stores.sessions, v) == Lookup(st.sessions, v)
  {
  }

  /** Every reply goes to the event's channel, in the thread chosen for it. */
  lemma HandleReplies(st: Stores, e: Event, allowed: seq<string>, cfg: Config,
                      now: string, freshId: string, run: AgentRun)
    ensures var h := Handle(st, e, allowed, cfg, now, freshId, run);
            forall r :: r in h.replies ==>
              r.channel == e.channel && r.threadTs == Admit(e, allowed, st.threads.Keys).replyTs
  {
    var a := Admit(e, allowed, st.threads.Keys);
    if a.Admitted? {
      var command := ParseCommand(a.message);
      if command.Content? {
        assert Handle(st, e, allowed, cfg, now, freshId, run)
            == HandleContent(st, e, a.user, a.message, a.replyTs, cfg, now, freshId, run);
      } else {
        assert Handle(st, e, allowed, cfg, now, freshId, run)
            == HandleCommand(st, a.user, command, e.channel, a.replyTs);
      }
    }
  }

  /** Only content messages reach the inbox, one entry each, at the end;
      threads are only ever added, and a new or renewed one only for a
      mention that is not itself in a thread, keyed by its own timestamp. */
  lemma HandleStores(st: Stores, e: Event, allowed: seq<string>, cfg: Config,
                     now: string, freshId: string, run: AgentRun)
    ensures var h := Handle(st, e, allowed, cfg, now, freshId, run);
            h.stores.inbox == st.inbox + (if h.call.Some? then [InboxEntryFor(e, e.user.value, h.call.value.prompt, now)] else [])
    ensures var h := Handle(st, e, allowed, cfg, now, freshId, run);
            forall k :: k in st.threads ==> k in h.stores.threads
    ensures var h := Handle(st, e, allowed, cfg, now, freshId, run);
            forall k :: k in h.stores.threads && (k !in st.threads || h.stores.threads[k] != st.threads[k]) ==>
              h.call.Some? && StartsThread(e) && k == ThreadKey(e.channel, e.ts)
  {
  }

  // ---------------------------------------------------------------------
  // What follows from one event for the next

  /** A second reset finds nothing left to clear and answers the same. */
  lemma ResetIdempotent(st: Stores, e: Event, allowed: seq<string>, cfg: Config,
                        now: string, freshId: string, run: AgentRun,
                        now': string, freshId': string, run': AgentRun)
    requires Admit(e, allowed, st.threads.Keys).Admitted?
    requires ParseCommand(Admit(e, allowed, st.threads.Keys).message) == Reset
    ensures var h := Handle(st, e, allowed, cfg, now, freshId, run);
            var h' := Handle(h.stores, e, allowed, cfg, now', freshId', run');
            h'.stores == h.stores && h'.replies == h.replies && h'.call.None?
  {
    var a := Admit(e, allowed, st.threads.Keys);
    var h := HandleCommand(st, a.user, Reset, e.channel, a.replyTs);
    assert Handle(st, e, allowed, cfg, now, freshId, run) == h;
    assert h.stores.threads.Keys == st.threads.Keys;
    assert Admit(e, allowed, h.stores.threads.Keys) == a;
    var h' := HandleCommand(h.stores, a.user, Reset, e.channel, a.replyTs);
    assert Handle(h.stores, e, allowed, cfg, now', freshId', run') == h';
    assert h'.stores.sessions == h.stores.sessions;
  }

  /** After `!session <id>`, the sender's next content message resumes that
      session. */
  lemma SwitchThenResume(st: Stores, e: Event, e': Event, allowed: seq<string>, cfg: Config,
                         now: string, freshId: string, run: AgentRun,
                         now': string, freshId': string, run': AgentRun)
    requires Admit(e, allowed, st.threads.Keys).Admitted?
    requires ParseCommand(Admit(e, allowed, st.threads.Keys).message).Switch?
    requires e'.user == e.user
    requires var h := Handle(st, e, allowed, cfg, now, freshId, run);
             var a' := Admit(e', allowed, h.stores.threads.Keys);
             a'.Admitted? && ParseCommand(a'.message).Content?
    ensures var id := ParseCommand(Admit(e, allowed, st.threads.Keys).message).sessionId;
            var h := Handle(st, e, allowed, cfg, now, freshId, run);
            var h' := Handle(h.stores, e', allowed, cfg, now', freshId', run');
            h'.call == Some(AgentCall(Admit(e', allowed, h.stores.threads.Keys).message, ClaudeArguments(Resume(id), cfg)))
  {
    var a := Admit(e, allowed, st.threads.Keys);
    SwitchIdentifier(a.message, ParseCommand(a.message).sessionId);
  }

  /** A user without a session starts one under the generated id, and
      unless the agent's failure mentions the session, the user's next
      content message resumes it. */
  lemma NewSessionResumed(st: Stores, e: Event, e': Event, allowed: seq<string>, cfg: Config,
                          now: string, freshId: string, run: AgentRun,
                          now': string, freshId': string, run': AgentRun)
    requires freshId != ""
    requires Admit(e, allowed, st.threads.Keys).Admitted?
    requires ParseCommand(Admit(e, allowed, st.threads.Keys).message).Content?
    requires Admit(e, allowed, st.threads.Keys).user !in st.sessions
    requires !ClearsSession(run)
    requires e'.user == e.user
    requires var h := Handle(st, e, allowed, cfg, now, freshId, run);
             var a' := Admit(e', allowed, h.stores.threads.Keys);
             a'.Admitted? && ParseCommand(a'.message).Content?
    ensures var h := Handle(st, e, allowed, cfg, now, freshId, run);
            h.call.value.arguments == ClaudeArguments(Start(freshId), cfg)
    ensures var h := Handle(st, e, allowed, cfg, now, freshId, run);
            var h' := Handle(h.stores, e', allowed, cfg, now', freshId', run');
            h'.call.value.arguments == ClaudeArguments(Resume(freshId), cfg)
  {
  }

  /** A failure that mentions the session drops it, and the user's next
      content message starts a new one. */
  lemma SessionErrorStartsOver(st: Stores, e: Event, e': Event, allowed: seq<string>, cfg: Config,
                               now: string, freshId: string, run: AgentRun,
                               now': string, freshId': string, run': AgentRun)
    requires Admit(e, allowed, st.threads.Keys).Admitted?
    requires ParseCommand(Admit(e, allowed, st.threads.Keys).message).Content?
    requires ClearsSession(run)
    requires e'.user == e.user
    requires var h := Handle(st, e, allowed, cfg, now, freshId, run);
             var a' := Admit(e', allowed, h.stores.threads.Keys);
             a'.Admitted? && ParseCommand(a'.message).Content?
    ensures var h := Handle(st, e, allowed, cfg, now, freshId, run);
            var h' := Handle(h.stores, e', allowed, cfg, now', freshId', run');
            h'.call.value.arguments == ClaudeArguments(Start(freshId'), cfg)
  {
  }

  /** A mention outside any thread opens one: a later reply in it, from an
      allowed user and not from a bot, is admitted even though it is
      neither a mention nor a direct message. */
  lemma MentionOpensThread(st: Stores, e: Event, e': Event, allowed: seq<string>, cfg: Config,
                           now: string, freshId: string, run: AgentRun)
    requires Admit(e, allowed, st.threads.Keys).Admitted?
    requires ParseCommand(Admit(e, allowed, st.threads.Keys).message).Content?
    requires StartsThread(e) && e.ts != ""
    requires !IsBotMessage(e') && IsUserAllowed(allowed, e'.user)
    requires e'.channel == e.channel && e'.threadTs == e.ts
    ensures var h := Handle(st, e, allowed, cfg, now, freshId, run);
            var a' := Admit(e', allowed, h.stores.threads.Keys);
            a'.Admitted? && a'.replyTs == e.ts
  {
    var h := Handle(st, e, allowed, cfg, now, freshId, run);
    assert ThreadKey(e'.channel, e'.threadTs) in h.stores.threads;
  }

  // ---------------------------------------------------------------------
  // The bridge as an object

  /** The bridge's state, updated in place: sessions.json, threads.json
      and inbox.json's messages, with the allow-list and the agent options
      it was started with. */
  class Bridge {
    var sessions: map<string, string>
    var threads: map<string, ThreadRecord>
    var inbox: seq<InboxEntry>
    const allowedUsers: seq<string>
    const config: Config

    function State(): Stores
      reads this
    {
      Stores(sessions, threads, inbox)
    }

    /** The stores as the files hold them at startup: empty when the
        files are created, or what an earlier run left. */
    constructor (initial: Stores, allowedUsers: seq<string>, config: Config)
      ensures State() == initial
      ensures this.allowedUsers == allowedUsers && this.config == config
    {
      sessions := initial.sessions;
      threads := initial.threads;
      inbox := initial.inbox;
      this.allowedUsers := allowedUsers;
      this.config := config;
    }

    /** `getSession`: the user's session id, None when unbound. */
    function GetSession(userId: string): (r: Option<string>)
      reads this
      ensures r.Some? <==> userId in sessions
      ensures r.Some? ==> r.value == sessions[userId]
    {
      Lookup(sessions, userId)
    }

    /** `saveSession`: binds the user and touches no one else. */
    method SaveSession(userId: string, sessionId: string)
      modifies this
      ensures sessions == old(sessions)[userId := sessionId]
      ensures threads == old(threads) && inbox == old(inbox)
      ensures GetSession(userId) == Some(sessionId)
      ensures forall v :: v != userId ==> GetSession(v) == old(GetSession(v))
    {
      sessions := sessions[userId := sessionId];
    }

    /** `clearSession`: unbinds the user and touches no one else; a user
        already unbound leaves the store as it is, so clearing twice is
        clearing once. */
    method ClearSession(userId: string)
      modifies this
      ensures sessions == old(sessions) - {userId}
      ensures threads == old(threads) && inbox == old(inbox)
      ensures GetSession(userId) == None
      ensures forall v :: v != userId ==> GetSession(v) == old(GetSession(v))
      ensures old(userId !in sessions) ==> sessions == old(sessions)
    {
      sessions := sessions - {userId};
    }

    /** `isActiveThread`: a stored record is always truthy, so a thread is
        active exactly when its key is registered. `HandleSlackEvent` gates
        thread replies with `Router.IsThreadReply` over `threads.Keys`,
        which is this same test on the reply's thread key. */
    predicate IsActiveThread(threadKey: string): (b: bool)
      reads this
      ensures forall e: Event :: e.threadTs != "" && ThreadKey(e.channel, e.threadTs) == threadKey ==>
                (IsThreadReply(e, threads.Keys) <==> b)
    {
      threadKey in threads
    }

    /** `getThreadUser`: the user who opened the thread, exactly for the
        registered threads. */
    function GetThreadUser(threadKey: string): (r: Option<string>)
      reads this
      ensures r.Some? <==> IsActiveThread(threadKey)
      ensures r.Some? ==> r.value == threads[threadKey].userId
    {
      if threadKey in threads then Some(threads[threadKey].userId) else None
    }

    /** `saveThread`: registers (or re-registers) the thread. */
    method SaveThread(threadKey: string, userId: string, createdAt: string)
      modifies this
      ensures threads == old(threads)[threadKey := ThreadRecord(userId, createdAt)]
      ensures sessions == old(sessions) && inbox == old(inbox)
      ensures IsActiveThread(threadKey) && GetThreadUser(threadKey) == Some(userId)
    {
      threads := threads[threadKey := ThreadRecord(userId, createdAt)];
    }

    /** `inbox.messages.push`. */
    method AppendInbox(entry: InboxEntry)
      modifies this
      ensures inbox == old(inbox) + [entry]
      ensures sessions == old(sessions) && threads == old(threads)
    {
      inbox := inbox + [entry];
    }

    /** `runClaudeCode`: choose the session (storing a new one first), run
        the agent, collect both streams, and classify the exit, unbinding
        the user when a failure mentions the session. */
    method RunClaudeCode(userId: string, prompt: string, freshId: string, run: AgentRun)
      returns (call: AgentCall, outcome: Outcome)
      modifies this
      ensures var inv := RunSpec(old(sessions), userId, prompt, freshId, config, run);
              sessions == inv.sessions && call == inv.call && outcome == inv.outcome
      ensures threads == old(threads) && inbox == old(inbox)
    {
      var sessionId := GetSession(userId);
      var choice: SessionChoice;
      if sessionId.Some? && sessionId.value != "" {
        choice := Resume(sessionId.value);
      } else {
        choice := Start(freshId);
        SaveSession(userId, freshId);
      }
      call := AgentCall(prompt, ClaudeArguments(choice, config));
      match run
      case Closed(code, stdout, stderr) =>
        outcome := OnClose(userId, code, stdout, stderr);
      case SpawnFailed(message) =>
        outcome := Rejected(message);
      case TimedOut =>
        outcome := Rejected(TimeoutMessage);
    }

    /** The process's streams and its `close` handler (index.js:329-346). */
    method OnClose(userId: string, code: Option<int>, stdout: seq<string>, stderr: seq<string>)
      returns (outcome: Outcome)
      modifies this
      ensures outcome == CloseOutcome(code, Concat(stdout), Concat(stderr))
      ensures sessions == (if ClearsSession(Closed(code, stdout, stderr)) then old(sessions) - {userId} else old(sessions))
      ensures threads == old(threads) && inbox == old(inbox)
    {
      var output := Accumulate(stdout);
      var errorOutput := Accumulate(stderr);
      if code == Some(0) {
        outcome := Resolved(if Trim(output) != "" then Trim(output) else Trim(errorOutput));
      } else {
        if Includes(errorOutput, "session") || Includes(errorOutput, "resume") {
          ClearSession(userId);
        }
        outcome := Rejected(if Trim(errorOutput) != "" then Trim(errorOutput) else "Exit code: " + ExitCodeText(code));
      }
    }

    /** `handleSlackEvent`: the replies it posts and the agent call it
        makes, with the stores left as `Handle` says. */
    method HandleSlackEvent(e: Event, now: string, freshId: string, run: AgentRun)
      returns (replies: seq<Reply>, call: Option<AgentCall>)
      modifies this
      ensures var h := Handle(old(State()), e, allowedUsers, config, now, freshId, run);
              State() == h.stores && replies == h.replies && call == h.call
    {
      var admission := Admit(e, allowedUsers, threads.Keys);
      if admission.Ignored? {
        return [], None;
      }
      var command := ParseCommand(admission.message);
      if command.Content? {
        replies, call := HandleContentMessage(e, admission.user, admission.message, admission.replyTs, now, freshId, run);
      } else {
        replies, call := HandleCommandMessage(admission.user, command, e.channel, admission.replyTs);
      }
    }

    /** The command branches of `handleSlackEvent` (index.js:196-232). */
    method HandleCommandMessage(user: string, command: Command, channel: string, replyTs: string)
      returns (replies: seq<Reply>, call: Option<AgentCall>)
      requires !command.Content?
      modifies this
      ensures var h := HandleCommand(old(State()), user, command, channel, replyTs);
              State() == h.stores && replies == h.replies && call == h.call
    {
      match command
      case Reset =>
        ClearSession(user);
        replies, call := [Reply(channel, replyTs, ResetReply)], None;
      case Switch(sessionId) =>
        SaveSession(user, sessionId);
        replies, call := [Reply(channel, replyTs, SwitchReply(sessionId))], None;
      case Show =>
        replies, call := [Reply(channel, replyTs, ShowReply(GetSession(user)))], None;
    }

    /** The content branch of `handleSlackEvent` (index.js:234-288). */
    method HandleContentMessage(e: Event, user: string, message: string, replyTs: string,
                                now: string, freshId: string, run: AgentRun)
      returns (replies: seq<Reply>, call: Option<AgentCall>)
      modifies this
      ensures var h := HandleContent(old(State()), e, user, message, replyTs, config, now, freshId, run);
              State() == h.stores && replies == h.replies && call == h.call
    {
      if StartsThread(e) {
        SaveThread(ThreadKey(e.channel, e.ts), user, now);
      }
      AppendInbox(InboxEntryFor(e, user, message, now));
      var agentCall, outcome := RunClaudeCode(user, message, freshId, run);
      replies := [Reply(e.channel, replyTs, ProcessingReply), Reply(e.channel, replyTs, FinalReply(outcome))];
      call := Some(agentCall);
    }
  }
}

/** The inbound half of `handleSlackEvent` (index.js:166-232): which Slack
    events are handled at all, how the user's text is cleaned, where the
    reply goes, and which control command the text is. Everything here is a
    pure function of the event, the allow-list and the registered threads. */
module Router {
  import opened Wrappers
  import opened JsString

  /** The fields of a Slack event that the bridge reads. Optional string
      fields are checked for truthiness in `handleSlackEvent`, so an absent field and
      an empty one behave alike and both are written "". */
  datatype Event = Event(
    kind: string,          // event.type
    botId: string,         // event.bot_id
    subtype: string,       // event.subtype
    user: Option<string>,  // event.user
    channelType: string,   // event.channel_type
    channel: string,
    text: string,
    ts: string,
    threadTs: string)      // event.thread_ts

  predicate IsBotMessage(e: Event)
  {
    e.botId != "" || e.subtype == "bot_message"
  }

  predicate IsUserAllowed(allowed: seq<string>, user: Option<string>)
  {
    user.Some? && user.value in allowed
  }

  predicate IsDirectMessage(e: Event)
  {
    e.kind == "message" && e.channelType == "im"
  }

  predicate IsMention(e: Event)
  {
    e.kind == "app_mention"
  }

  /** Key of a thread in the thread registry: channel and root timestamp. */
  function ThreadKey(channel: string, ts: string): string
  {
    channel + "-" + ts
  }

  predicate IsThreadReply(e: Event, activeThreads: set<string>)
  {
    e.threadTs != "" && ThreadKey(e.channel, e.threadTs) in activeThreads
  }

  /** A mention outside any thread opens a thread that is registered. */
  predicate StartsThread(e: Event)
  {
    IsMention(e) && e.threadTs == ""
  }

  /** Timestamp the replies are threaded under. */
  function ReplyThreadTs(e: Event): string
  {
    if e.threadTs != "" then e.threadTs else e.ts
  }

  // ---------------------------------------------------------------------
  // Mention stripping: `text.replace(/<@[A-Z0-9]+>\s*/g, '')`

  predicate IsIdChar(c: char)
  {
    'A' <= c <= 'Z' || '0' <= c <= '9'
  }

  /** Length of the longest prefix of `s` made of IsIdChar characters. */
  function IdRun(s: string): (n: nat)
    ensures n <= |s|
    ensures forall i :: 0 <= i < n ==> IsIdChar(s[i])
    ensures n == |s| || !IsIdChar(s[n])
    decreases |s|
  {
    if s == [] || !IsIdChar(s[0]) then 0 else 1 + IdRun(s[1..])
  }

  /** Length of the match of `<@[A-Z0-9]+>\s*` at the start of `s`, if the
      pattern matches there (both repetitions are greedy). */
  function MentionMatch(s: string): (r: Option<nat>)
    ensures r.Some? ==> 4 <= r.value <= |s|
  {
    if |s| < 2 || s[0] != '<' || s[1] != '@' then None
    else
      var n := IdRun(s[2..]);
      if n == 0 || 2 + n >= |s| || s[2 + n] != '>' then None
      else Some(3 + n + LeadingWhitespace(s[3 + n..]))
  }

  /** Global replace of every mention (and the whitespace after it) by
      nothing, scanning left to right as `String.prototype.replace` does. */
  function StripMentions(s: string): (r: string)
    ensures |r| <= |s|
    decreases |s|
  {
    if s == [] then []
    else match MentionMatch(s)
      case Some(n) => StripMentions(s[n..])
      case None => [s[0]] + StripMentions(s[1..])
  }

  /** Text without `<` holds no mention: stripping leaves it as it is
      and goes on with whatever follows it. */
  lemma {:induction false} StripMentionsNoMarkup(u: string, s: string)
    requires forall i :: 0 <= i < |u| ==> u[i] != '<'
    ensures StripMentions(u + s) == u + StripMentions(s)
    decreases |u|
  {
    if u != [] {
      assert (u + s)[1..] == u[1..] + s;
      StripMentionsNoMarkup(u[1..], s);
    } else {
      assert u + s == s;
    }
  }

  /** A `<` that does not open `<@ID>` (Slack's links, channel references
      and special mentions such as `<#C1>`, `<!here>`, `<http://…>`, or a
      user id in lower case) is kept, and stripping goes on after it. */
  lemma OtherMarkupKept(s: string)
    requires s != [] && s[0] == '<'
    requires |s| < 2 || s[1] != '@' || IdRun(s[2..]) == 0
             || 2 + IdRun(s[2..]) >= |s| || s[2 + IdRun(s[2..])] != '>'
    ensures StripMentions(s) == "<" + StripMentions(s[1..])
  {
  }

  /** A leading `<@ID>` and the whitespace after it are removed, and
      stripping goes on with the rest of the text. */
  lemma StripLeadingMention(s: string, id: string, ws: string, rest: string)
    requires id != [] && forall i :: 0 <= i < |id| ==> IsIdChar(id[i])
    requires AllWhitespace(ws)
    requires rest == [] || !IsWhitespace(rest[0])
    requires s == "<@" + (id + (">" + (ws + rest)))
    ensures StripMentions(s) == StripMentions(rest)
  {
    assert s[2..] == id + (">" + (ws + rest));
    IdRunOf(id, ">" + (ws + rest));
    assert s[3 + |id|..] == ws + rest;
    LeadingWhitespacePadded(ws, rest);
    MentionMatchAt(s, |id|, |ws|);
    StripAfterMatch(s, 3 + |id| + |ws|);
    assert s[3 + |id| + |ws|..] == rest;
  }

  /** A mention after plain text is removed with the whitespace after it,
      and the text before it is kept. */
  lemma MentionAfterText(u: string, s: string, id: string, ws: string, rest: string)
    requires forall i :: 0 <= i < |u| ==> u[i] != '<'
    requires id != [] && forall i :: 0 <= i < |id| ==> IsIdChar(id[i])
    requires AllWhitespace(ws)
    requires rest == [] || !IsWhitespace(rest[0])
    requires s == "<@" + (id + (">" + (ws + rest)))
    ensures StripMentions(u + s) == u + StripMentions(rest)
  {
    StripMentionsNoMarkup(u, s);
    StripLeadingMention(s, id, ws, rest);
  }

  lemma StripAfterMatch(s: string, n: nat)
    requires MentionMatch(s) == Some(n)
    ensures StripMentions(s) == StripMentions(s[n..])
  {
  }

  lemma MentionMatchAt(s: string, n: nat, k: nat)
    requires |s| >= 3 + n && s[0] == '<' && s[1] == '@'
    requires n != 0 && IdRun(s[2..]) == n && s[2 + n] == '>'
    requires LeadingWhitespace(s[3 + n..]) == k
    ensures MentionMatch(s) == Some(3 + n + k)
  {
  }

  lemma {:induction false} IdRunOf(id: string, rest: string)
    requires forall i :: 0 <= i < |id| ==> IsIdChar(id[i])
    requires rest == [] || !IsIdChar(rest[0])
    ensures IdRun(id + rest) == |id|
    decreases |id|
  {
    if id != [] {
      assert (id + rest)[1..] == id[1..] + rest;
      IdRunOf(id[1..], rest);
    }
  }

  /** The text the bridge works with: mentions stripped, then trimmed. */
  function UserMessage(text: string): (m: string)
    ensures IsTrimmed(m)
    ensures exists i: nat :: PaddedAt(StripMentions(text), i, m)
  {
    Trim(StripMentions(text))
  }

  /** The example in the comment at index.js:188: the bot mention in front of a greeting goes. */
  lemma MentionExample()
    ensures UserMessage("<@U0AA8NX69FU> 안녕") == "안녕"
  {
    StripExample();
    TrimOfTrimmed("안녕");
  }

  lemma StripExample()
    ensures StripMentions("<@U0AA8NX69FU> 안녕") == "안녕"
  {
    StripMentionsNoMarkup("안녕", []);
    assert "안녕" + [] == "안녕";
    StripLeadingMention("<@U0AA8NX69FU> 안녕", "U0AA8NX69FU", " ", "안녕");
  }

  // ---------------------------------------------------------------------
  // The session-switch pattern `/^[!\/]session\s+(.+)$/i`

  predicate IsCommandPrefix(c: char)
  {
    c == '!' || c == '/'
  }

  /** `s[1..8]` is the word `session` in any mix of ASCII case, as the
      pattern's `i` flag compares it. */
  predicate HasSessionWord(s: string)
  {
    && |s| >= 8
    && ToLowerAscii(s[1]) == 's' && ToLowerAscii(s[2]) == 'e' && ToLowerAscii(s[3]) == 's'
    && ToLowerAscii(s[4]) == 's' && ToLowerAscii(s[5]) == 'i' && ToLowerAscii(s[6]) == 'o'
    && ToLowerAscii(s[7]) == 'n'
  }

  /** The pattern matches all of `s` with its capture group starting at
      index `i`: prefix, `session` in any ASCII case, a whitespace run up to
      `i`, then one or more characters other than line terminators. */
  ghost predicate SessionPatternAt(s: string, i: int)
  {
    && 9 <= i < |s|
    && IsCommandPrefix(s[0]) && HasSessionWord(s)
    && AllWhitespace(s[8..i]) && NoLineTerminator(s[i..])
  }

  /** The capture group of the session-switch pattern, or None when the
      pattern does not match. The greedy `\s+` makes the capture the one
      that starts as late as possible. */
  function SessionArgument(s: string): (r: Option<string>)
    ensures r.None? <==> forall i :: !SessionPatternAt(s, i)
    ensures r.Some? ==> SessionPatternAt(s, |s| - |r.value|) && r.value == s[|s| - |r.value|..]
    ensures r.Some? ==> forall i :: SessionPatternAt(s, i) ==> i <= |s| - |r.value|
  {
    if |s| < 10 || !IsCommandPrefix(s[0]) || !HasSessionWord(s) || !IsWhitespace(s[8]) then
      assert forall i :: SessionPatternAt(s, i) ==> s[8..i][0] == s[8];
      None
    else
      var p := 8 + LeadingWhitespace(s[8..]);
      var rest := s[p..];
      assert s[8..][..p - 8] == s[8..p];
      if rest != [] then
        assert s[p] == rest[0];
        assert forall i :: SessionPatternAt(s, i) ==> i <= p;
        if NoLineTerminator(rest) then
          assert SessionPatternAt(s, p);
          Some(rest)
        else
          var q :| 0 <= q < |rest| && IsLineTerminator(rest[q]);
          assert forall i :: SessionPatternAt(s, i) ==> s[i..][p + q - i] == rest[q];
          None
      else
        var last := s[|s| - 1];
        if IsLineTerminator(last) then
          assert forall i :: SessionPatternAt(s, i) ==> s[i..][|s| - 1 - i] == last;
          None
        else
          assert s[|s| - 1..] == [last];
          assert s[8..|s| - 1] == s[8..p][..|s| - 9];
          assert SessionPatternAt(s, |s| - 1);
          Some([last])
  }

  // ---------------------------------------------------------------------
  // Control commands

  datatype Command = Reset | Switch(sessionId: string) | Show | Content(text: string)

  /** The lower-cased messages that reset the session. */
  predicate IsResetWord(w: string)
  {
    w == "!new" || w == "!reset" || w == "/new" || w == "/reset"
  }

  /** The lower-cased messages that show the current session. */
  predicate IsShowWord(w: string)
  {
    w == "!session" || w == "!sessions" || w == "/session" || w == "/sessions"
  }

  /** The command the user's message is, checked in `handleSlackEvent`'s order:
      reset words, then the session-switch pattern, then show words. */
  function ParseCommand(message: string): (c: Command)
    ensures c == Reset <==> IsResetWord(LowerAscii(message))
    ensures c.Switch? <==> exists i :: SessionPatternAt(message, i)
    ensures c == Show <==> IsShowWord(LowerAscii(message))
    ensures c.Content? ==> c.text == message
  {
    var lower := LowerAscii(message);
    assert IsResetWord(lower) ==> |message| <= 6;
    assert IsShowWord(lower) ==> 8 <= |message| <= 9;
    assert IsShowWord(lower) ==> !IsResetWord(lower);
    if IsResetWord(lower) then Reset
    else
      var arg := SessionArgument(message);
      if arg.Some? then
        assert |message| >= 10;
        Switch(Trim(arg.value))
      else if IsShowWord(lower) then Show
      else Content(message)
  }

  /** On a trimmed message the capture starts after the whole whitespace
      run and ends where the message ends, so it is itself trimmed. */
  lemma CaptureOfTrimmed(message: string, arg: string)
    requires IsTrimmed(message)
    requires SessionArgument(message) == Some(arg)
    ensures arg != [] && IsTrimmed(arg)
  {
    var p := |message| - |arg|;
    assert SessionPatternAt(message, p);
    assert arg[|arg| - 1] == message[|message| - 1];
  }

  /** On a trimmed message (which is what the bridge parses) the switched-to
      id is the capture itself: non-empty, on one line, case kept, and the
      message is `<prefix>session`, whitespace, and the id. */
  lemma SwitchIdentifier(message: string, id: string)
    requires IsTrimmed(message)
    requires ParseCommand(message) == Switch(id)
    ensures id != [] && IsTrimmed(id) && NoLineTerminator(id)
    ensures message[|message| - |id|..] == id
    ensures IsCommandPrefix(message[0]) && HasSessionWord(message)
    ensures 9 <= |message| - |id| && AllWhitespace(message[8..|message| - |id|])
  {
    var lower := LowerAscii(message);
    assert !IsResetWord(lower);
    var arg := SessionArgument(message).value;
    assert id == Trim(arg);
    CaptureOfTrimmed(message, arg);
    TrimOfTrimmed(arg);
  }

  /** Reset words are compared after lower-casing. */
  lemma ResetExample()
    ensures ParseCommand("!RESET") == Reset
  {
    assert LowerAscii("!RESET") == "!reset";
  }

  /** Without an argument the session word shows the current session. */
  lemma ShowExample()
    ensures ParseCommand("!session") == Show
  {
    assert LowerAscii("!session") == "!session";
  }

  /** An argument that spans lines does not match the switch pattern, whose
      `.` stops at a line break and whose `$` is the end of the input. */
  lemma MultiLineExample()
    ensures ParseCommand("!session a\nb") == Content("!session a\nb")
  {
    var m := "!session a\nb";
    forall i | 9 <= i < |m| ensures !SessionPatternAt(m, i) {
      if i <= 10 {
        assert m[i..][10 - i] == '\n';
      } else {
        assert m[8..i][1] == 'a';
      }
    }
    assert LowerAscii(m) == m;
  }

  // ---------------------------------------------------------------------
  // Event gating

  datatype Admission =
    | Ignored
    | Admitted(user: string, message: string, replyTs: string)

  /** Whether the bridge handles the event, and if so as whom, with which
      text and under which thread timestamp. */
  function Admit(e: Event, allowed: seq<string>, activeThreads: set<string>): (a: Admission)
    ensures a.Admitted? <==>
              && !IsBotMessage(e)
              && IsUserAllowed(allowed, e.user)
              && (IsDirectMessage(e) || IsMention(e) || IsThreadReply(e, activeThreads))
    ensures a.Admitted? ==> e.user == Some(a.user) && a.user in allowed
    ensures a.Admitted? ==> a.message == UserMessage(e.text)
    ensures a.Admitted? ==> a.replyTs == ReplyThreadTs(e)
  {
    if IsBotMessage(e) then Ignored
    else if !IsUserAllowed(allowed, e.user) then Ignored
    else if !IsDirectMessage(e) && !IsMention(e) && !IsThreadReply(e, activeThreads) then Ignored
    else Admitted(e.user.value, UserMessage(e.text), ReplyThreadTs(e))
  }

  // ---------------------------------------------------------------------
  // Request freshness (index.js:112-124), the part of signature checking
  // that is not a cryptographic call.

  const MaxRequestAgeSeconds := 300

  datatype Precheck = Accept | Reject | CheckSignature

  /** The checks run before the HMAC comparison. `parsedTimestamp` is
      `parseInt` of the timestamp header, None when that is NaN. */
  function RequestPrecheck(hasSecret: bool, signature: string, timestamp: string,
                           parsedTimestamp: Option<int>, now: int): (v: Precheck)
    ensures !hasSecret ==> v == Accept
    ensures hasSecret ==> v != Accept
    ensures v == CheckSignature ==>
              && signature != "" && timestamp != ""
              && (parsedTimestamp.Some? ==>
                    now - MaxRequestAgeSeconds <= parsedTimestamp.value <= now + MaxRequestAgeSeconds)
    ensures (&& hasSecret && signature != "" && timestamp != "" && parsedTimestamp.Some?
             && (|| parsedTimestamp.value < now - MaxRequestAgeSeconds
                 || parsedTimestamp.value > now + MaxRequestAgeSeconds)) ==> v == Reject
    ensures (&& hasSecret && signature != "" && timestamp != ""
             && (parsedTimestamp.Some? ==>
                   now - MaxRequestAgeSeconds <= parsedTimestamp.value <= now + MaxRequestAgeSeconds)) ==> v == CheckSignature
  {
    if !hasSecret then Accept
    else if signature == "" || timestamp == "" then Reject
    else match parsedTimestamp
      case Some(t) =>
        var age := if now - t < 0 then t - now else now - t;
        if age > MaxRequestAgeSeconds then Reject else CheckSignature
      case None => CheckSignature
  }
}

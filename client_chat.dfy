/** The decisions of a chat request in the Gemini backend client
    (`app/backends/gemini/client.py`): choosing the account and the Google
    session, turning the upstream answers into OpenAI-style chunks, framing
    a streamed reply, and folding the chunks into one message when the
    caller did not ask for a stream. What the pool and Google return are
    inputs. */
module GeminiChat {
  import opened Wrappers
  import opened Strings
  import GeminiClient
  import Accounts

  /** `_max_account_switch_tries`. */
  const MaxAccountSwitchTries := 3

  /** `min(self._max_account_switch_tries, max(len(available), 1))`: the
      number of tries of the session loop and of the failover loop. */
  function MaxRetries(eligible: nat): (n: nat)
    ensures 1 <= n <= MaxAccountSwitchTries
    ensures eligible <= MaxAccountSwitchTries && eligible >= 1 ==> n == eligible
    ensures eligible >= MaxAccountSwitchTries ==> n == MaxAccountSwitchTries
    ensures eligible == 0 ==> n == 1
  {
    var atLeastOne := if eligible < 1 then 1 else eligible;
    if MaxAccountSwitchTries < atLeastOne then MaxAccountSwitchTries else atLeastOne
  }

  /** `MODEL_TO_QUOTA_TYPE.get(model, "text")`: the cooldown a failure of
      this model stamps. */
  function FailureQuotaType(model: string): (t: string)
    ensures t in Accounts.QuotaTypes
    ensures model == "gemini-imagen" ==> t == "images"
    ensures model == "gemini-veo" ==> t == "videos"
    ensures model != "gemini-imagen" && model != "gemini-veo" ==> t == "text"
  {
    if model in GeminiClient.ModelToQuotaType then GeminiClient.ModelToQuotaType[model] else "text"
  }

  /** The exceptions `chat` raises. */
  datatype ChatError = ValueError(message: string) | RuntimeError(message: string)

  /** `str(self._all_model_ids())`. */
  const AvailableModels :=
    "['gemini-auto', 'gemini-2.5-flash', 'gemini-2.5-pro', 'gemini-3-flash-preview', "
    + "'gemini-3.1-pro-preview', 'gemini-imagen', 'gemini-veo']"

  // Session acquisition.

  /** What one try of the fresh-session loop met: `get_account` raising,
      or the account it gave and the outcome of `create_google_session`. */
  datatype Attempt =
    | NoAccount(error: string)
    | SessionFailed(accountId: string, error: string)
    | SessionCreated(accountId: string, session: string)

  /** The account and Google session a chat continues on, and whether the
      session is new. */
  datatype Acquired = Acquired(accountId: string, session: string, isNew: bool)

  /** What the acquisition did to the pool: whether it dropped the cached
      entry, the accounts it stamped with a cooldown of
      `FailureQuotaType(model)` in order, and the session it cached. */
  datatype Effects = Effects(popped: bool, stamped: seq<string>, cached: Option<(string, string)>)

  /** The loop over `range(max_retries)` from try `i`, `holder` being the
      account the previous tries left in `account_manager`. A try without
      an account stamps the one still held, if any; the last failing try
      raises; running past the last try leaves no account. */
  function Tries(i: nat, n: nat, holder: Option<string>, attempt: nat -> Attempt, stamped: seq<string>)
    : (Result<Acquired, ChatError>, seq<string>, Option<(string, string)>)
    requires i <= n
    decreases n - i
  {
    if i == n then (Err(RuntimeError("No available Gemini accounts")), stamped, None)
    else match attempt(i)
      case SessionCreated(acc, session) => (Ok(Acquired(acc, session, true)), stamped, Some((acc, session)))
      case NoAccount(e) =>
        var stamped' := if holder.Some? then stamped + [holder.value] else stamped;
        if i == n - 1 then (Err(RuntimeError("All Gemini accounts unavailable: " + e)), stamped', None)
        else Tries(i + 1, n, holder, attempt, stamped')
      case SessionFailed(acc, e) =>
        if i == n - 1 then (Err(RuntimeError("All Gemini accounts unavailable: " + e)), stamped + [acc], None)
        else Tries(i + 1, n, Some(acc), attempt, stamped + [acc])
  }

  /** The session acquisition of `chat`: the model check, the pool check,
      the cached session (kept when `get_account` accepts its account, as
      `cachedAccountOk` says, dropped otherwise), and then the loop of at
      most `MaxRetries(eligible)` tries. */
  function Acquire(model: string, accountCount: nat, cached: Option<(string, string)>, cachedAccountOk: bool,
                   eligible: nat, attempt: nat -> Attempt): (Result<Acquired, ChatError>, Effects) {
    if !GeminiClient.KnownModel(model) then
      (Err(ValueError("Model '" + model + "' not found. Available: " + AvailableModels)), Effects(false, [], None))
    else if accountCount == 0 then (Err(RuntimeError("No Gemini accounts configured")), Effects(false, [], None))
    else if cached.Some? && cachedAccountOk then
      (Ok(Acquired(cached.value.0, cached.value.1, false)), Effects(false, [], None))
    else
      var (r, stamped, written) := Tries(0, MaxRetries(eligible), None, attempt, []);
      (r, Effects(cached.Some?, stamped, written))
  }

  /** The session acquisition of `chat`, with its loop. */
  method AcquireSession(model: string, accountCount: nat, cached: Option<(string, string)>, cachedAccountOk: bool,
                        eligible: nat, attempt: nat -> Attempt) returns (r: Result<Acquired, ChatError>, effects: Effects)
    ensures (r, effects) == Acquire(model, accountCount, cached, cachedAccountOk, eligible, attempt)
  {
    if !(model in GeminiClient.ModelMapping || model in GeminiClient.VirtualModels) {
      return Err(ValueError("Model '" + model + "' not found. Available: " + AvailableModels)), Effects(false, [], None);
    }
    if accountCount == 0 {
      return Err(RuntimeError("No Gemini accounts configured")), Effects(false, [], None);
    }
    var popped := false;
    if cached.Some? {
      if cachedAccountOk {
        return Ok(Acquired(cached.value.0, cached.value.1, false)), Effects(false, [], None);
      }
      popped := true;
    }
    var atLeastOne := if eligible < 1 then 1 else eligible;
    var maxRetries := if MaxAccountSwitchTries < atLeastOne then MaxAccountSwitchTries else atLeastOne;
    var holder: Option<string> := None;
    var stamped: seq<string> := [];
    var i := 0;
    while i < maxRetries
      invariant 0 <= i <= maxRetries
      invariant Tries(i, maxRetries, holder, attempt, stamped) == Tries(0, maxRetries, None, attempt, [])
      decreases maxRetries - i
    {
      match attempt(i) {
        case SessionCreated(acc, session) =>
          return Ok(Acquired(acc, session, true)), Effects(popped, stamped, Some((acc, session)));
        case NoAccount(e) =>
          if holder.Some? {
            stamped := stamped + [holder.value];
          }
          if i == maxRetries - 1 {
            return Err(RuntimeError("All Gemini accounts unavailable: " + e)), Effects(popped, stamped, None);
          }
        case SessionFailed(acc, e) =>
          holder := Some(acc);
          stamped := stamped + [acc];
          if i == maxRetries - 1 {
            return Err(RuntimeError("All Gemini accounts unavailable: " + e)), Effects(popped, stamped, None);
          }
      }
      i := i + 1;
    }
    r, effects := Err(RuntimeError("No available Gemini accounts")), Effects(popped, stamped, None);
  }

  /** The loop ends at the first created session, which it caches; if
      none of the remaining tries creates one, it raises the last try's
      error; it never stamps more accounts than it has tries left. */
  lemma {:induction false} TriesMeaning(i: nat, n: nat, holder: Option<string>, attempt: nat -> Attempt, stamped: seq<string>)
    requires i < n
    ensures var (r, s, w) := Tries(i, n, holder, attempt, stamped);
      && stamped <= s && |s| <= |stamped| + (n - i)
      && (r.Ok? <==> exists j :: i <= j < n && attempt(j).SessionCreated?)
      && (r.Ok? ==> exists j :: i <= j < n && attempt(j).SessionCreated?
                      && (forall l :: i <= l < j ==> !attempt(l).SessionCreated?)
                      && r.value == Acquired(attempt(j).accountId, attempt(j).session, true)
                      && w == Some((attempt(j).accountId, attempt(j).session)))
      && (r.Err? ==> w.None? && r.error == RuntimeError("All Gemini accounts unavailable: " + attempt(n - 1).error))
    decreases n - i
  {
    if !attempt(i).SessionCreated? && i < n - 1 {
      var holder' := if attempt(i).SessionFailed? then Some(attempt(i).accountId) else holder;
      var stamped' := if attempt(i).SessionFailed? then stamped + [attempt(i).accountId]
                      else if holder.Some? then stamped + [holder.value] else stamped;
      TriesMeaning(i + 1, n, holder', attempt, stamped');
      var (r, s, w) := Tries(i, n, holder, attempt, stamped);
      assert (r, s, w) == Tries(i + 1, n, holder', attempt, stamped');
      if r.Ok? {
        var j :| i + 1 <= j < n && attempt(j).SessionCreated?
                 && (forall l :: i + 1 <= l < j ==> !attempt(l).SessionCreated?)
                 && r.value == Acquired(attempt(j).accountId, attempt(j).session, true)
                 && w == Some((attempt(j).accountId, attempt(j).session));
        assert forall l :: i <= l < j ==> !attempt(l).SessionCreated?;
      }
    }
  }

  /** An unknown model is refused before the pool is touched; a usable
      cached session is resumed without side effects; otherwise the cached
      entry, if any, is dropped, at most three tries are made (one per
      eligible account, at least one), and the request either continues on
      a new session, which is cached, or fails with "All Gemini accounts
      unavailable" -- never with "No available Gemini accounts". */
  lemma AcquireMeaning(model: string, accountCount: nat, cached: Option<(string, string)>, cachedAccountOk: bool,
                       eligible: nat, attempt: nat -> Attempt)
    ensures var (r, fx) := Acquire(model, accountCount, cached, cachedAccountOk, eligible, attempt);
      && (!GeminiClient.KnownModel(model) ==> r.Err? && r.error.ValueError? && fx == Effects(false, [], None))
      && (GeminiClient.KnownModel(model) && accountCount == 0 ==>
            r == Err(RuntimeError("No Gemini accounts configured")) && fx == Effects(false, [], None))
      && (GeminiClient.KnownModel(model) && accountCount > 0 && cached.Some? && cachedAccountOk ==>
            r == Ok(Acquired(cached.value.0, cached.value.1, false)) && fx == Effects(false, [], None))
      && (GeminiClient.KnownModel(model) && accountCount > 0 && !(cached.Some? && cachedAccountOk) ==>
            && fx.popped == cached.Some?
            && |fx.stamped| <= MaxRetries(eligible)
            && (r.Ok? ==> r.value.isNew && fx.cached == Some((r.value.accountId, r.value.session)))
            && (r.Ok? <==> exists j :: 0 <= j < MaxRetries(eligible) && attempt(j).SessionCreated?)
            && (r.Err? ==> r.error == RuntimeError("All Gemini accounts unavailable: "
                                                   + attempt(MaxRetries(eligible) - 1).error)))
  {
    if GeminiClient.KnownModel(model) && accountCount > 0 && !(cached.Some? && cachedAccountOk) {
      TriesMeaning(0, MaxRetries(eligible), None, attempt, []);
    }
  }

  // Answers to chunks.

  /** One reply of an answer: its text (`""` when absent) and whether it is
      marked as a thought. */
  datatype ReplyText = ReplyText(text: string, thought: bool)

  /** `streamAssistResponse.answer` of one stream object: its state, the
      skip reasons and the replies. */
  datatype Answer = Answer(state: string, skipReasons: seq<string>, replies: seq<ReplyText>)

  /** What the generator emits for the answers: a skip notice, reasoning,
      or answer text. */
  datatype Item = SkipNotice(notice: string) | Thought(reasoning: string) | AnswerText(text: string)

  /** The chunk's `delta`. */
  datatype Delta = RoleDelta | ContentDelta(content: string) | ReasoningDelta(reasoning: string) | EmptyDelta

  /** A line the generator yields: `data: <chunk>` with a delta and a
      finish reason, `data: <error>`, or `data: [DONE]`. */
  datatype Chunk = DataChunk(delta: Delta, finishReason: Option<string>) | ErrorChunk(message: string) | DoneLine

  /** The warning shown for a skipped answer. */
  function SkipText(reasons: seq<string>): string {
    if "CUSTOMER_POLICY_VIOLATION" in reasons then "\n\U{26A0}\U{FE0F} Content filtered by Google safety policy.\n"
    else "\n\U{26A0}\U{FE0F} Response skipped: " + Join(reasons, ", ") + "\n"
  }

  /** A reply with text gives reasoning when it is a thought and answer
      text otherwise; an empty reply gives nothing. */
  function ReplyItem(r: ReplyText): seq<Item> {
    if r.text == "" then [] else if r.thought then [Thought(r.text)] else [AnswerText(r.text)]
  }

  function ReplyItems(rs: seq<ReplyText>): seq<Item> {
    if rs == [] then [] else ReplyItems(rs[..|rs| - 1]) + ReplyItem(rs[|rs| - 1])
  }

  /** A skipped answer gives one notice and none of its replies. */
  function AnswerItems(a: Answer): seq<Item> {
    if a.state == "SKIPPED" then [SkipNotice(SkipText(a.skipReasons))] else ReplyItems(a.replies)
  }

  function Items(answers: seq<Answer>): seq<Item> {
    if answers == [] then [] else Items(answers[..|answers| - 1]) + AnswerItems(answers[|answers| - 1])
  }

  function ItemChunk(item: Item): Chunk {
    match item
    case SkipNotice(t) => DataChunk(ContentDelta(t), None)
    case Thought(t) => DataChunk(ReasoningDelta(t), None)
    case AnswerText(t) => DataChunk(ContentDelta(t), None)
  }

  function ItemChunks(items: seq<Item>): (cs: seq<Chunk>)
    ensures |cs| == |items|
  {
    if items == [] then [] else ItemChunks(items[..|items| - 1]) + [ItemChunk(items[|items| - 1])]
  }

  /** The conversation is counted when the first thing emitted is answer
      text: a skip notice or reasoning emitted first sets the flag without
      counting. */
  predicate Counted(items: seq<Item>) {
    items != [] && items[0].AnswerText?
  }

  /** A streamed reply opens with the role chunk and closes with the stop
      chunk and `[DONE]`; a non-streamed one is the body alone. */
  function Framed(isStream: bool, body: seq<Chunk>): seq<Chunk> {
    if isStream then [DataChunk(RoleDelta, None)] + body + [DataChunk(EmptyDelta, Some("stop")), DoneLine]
    else body
  }

  lemma ItemsStep(answers: seq<Answer>, k: nat)
    requires k < |answers|
    ensures Items(answers[..k + 1]) == Items(answers[..k]) + AnswerItems(answers[k])
  {
    assert answers[..k + 1][..k] == answers[..k];
  }

  lemma ReplyItemsStep(rs: seq<ReplyText>, j: nat)
    requires j < |rs|
    ensures ReplyItems(rs[..j + 1]) == ReplyItems(rs[..j]) + ReplyItem(rs[j])
  {
    assert rs[..j + 1][..j] == rs[..j];
  }

  lemma {:induction false} ItemChunksAppend(a: seq<Item>, b: seq<Item>)
    ensures ItemChunks(a + b) == ItemChunks(a) + ItemChunks(b)
    decreases |b|
  {
    if b == [] {
      assert a + b == a;
    } else {
      var b0 := b[..|b| - 1];
      assert (a + b)[..|a + b| - 1] == a + b0;
      ItemChunksAppend(a, b0);
    }
  }

  lemma CountedAppend(a: seq<Item>, b: seq<Item>)
    ensures Counted(a + b) == if a == [] then Counted(b) else Counted(a)
  {
    if a == [] {
      assert a + b == b;
    } else {
      assert (a + b)[0] == a[0];
    }
  }

  /** One reply of `_stream_chat`: reasoning, or answer text, which counts
      the conversation when nothing was emitted before it. */
  method EmitReply(reply: ReplyText, ghost before: seq<Item>, acc: Accounts.AccountManager, firstResponse: bool)
    returns (chunks: seq<Chunk>, firstResponse': bool)
    requires firstResponse == (before != [])
    modifies acc`conversationCount
    ensures chunks == ItemChunks(ReplyItem(reply))
    ensures firstResponse' == (before + ReplyItem(reply) != [])
    ensures acc.conversationCount == old(acc.conversationCount)
      + (if before == [] && Counted(ReplyItem(reply)) then 1 else 0)
  {
    chunks, firstResponse' := [], firstResponse;
    if reply.text != "" {
      if reply.thought {
        firstResponse' := true;
        chunks := [DataChunk(ReasoningDelta(reply.text), None)];
        assert ItemChunks([Thought(reply.text)]) == ItemChunks([]) + [ItemChunk(Thought(reply.text))];
      } else {
        if !firstResponse' {
          firstResponse' := true;
          acc.conversationCount := acc.conversationCount + 1;
        }
        chunks := [DataChunk(ContentDelta(reply.text), None)];
        assert ItemChunks([AnswerText(reply.text)]) == ItemChunks([]) + [ItemChunk(AnswerText(reply.text))];
      }
    } else {
      assert before + [] == before;
    }
  }

  /** The reply loop of `_stream_chat` for one answer. */
  method StreamReplies(rs: seq<ReplyText>, ghost before: seq<Item>, acc: Accounts.AccountManager, firstResponse: bool)
    returns (chunks: seq<Chunk>, firstResponse': bool)
    requires firstResponse == (before != [])
    modifies acc`conversationCount
    ensures chunks == ItemChunks(ReplyItems(rs))
    ensures firstResponse' == (before + ReplyItems(rs) != [])
    ensures acc.conversationCount == old(acc.conversationCount)
      + (if before == [] && Counted(ReplyItems(rs)) then 1 else 0)
  {
    chunks, firstResponse' := [], firstResponse;
    var j := 0;
    while j < |rs|
      invariant 0 <= j <= |rs|
      invariant chunks == ItemChunks(ReplyItems(rs[..j]))
      invariant firstResponse' == (before + ReplyItems(rs[..j]) != [])
      invariant acc.conversationCount == old(acc.conversationCount)
        + (if before == [] && Counted(ReplyItems(rs[..j])) then 1 else 0)
    {
      ReplyItemsStep(rs, j);
      ItemChunksAppend(ReplyItems(rs[..j]), ReplyItem(rs[j]));
      CountedAppend(ReplyItems(rs[..j]), ReplyItem(rs[j]));
      var more;
      more, firstResponse' := EmitReply(rs[j], before + ReplyItems(rs[..j]), acc, firstResponse');
      chunks := chunks + more;
      j := j + 1;
    }
    assert rs[..j] == rs;
  }

  /** One answer of `_stream_chat`: a skip notice, or its replies. */
  method StreamAnswer(answer: Answer, ghost before: seq<Item>, acc: Accounts.AccountManager, firstResponse: bool)
    returns (chunks: seq<Chunk>, firstResponse': bool)
    requires firstResponse == (before != [])
    modifies acc`conversationCount
    ensures chunks == ItemChunks(AnswerItems(answer))
    ensures firstResponse' == (before + AnswerItems(answer) != [])
    ensures acc.conversationCount == old(acc.conversationCount)
      + (if before == [] && Counted(AnswerItems(answer)) then 1 else 0)
  {
    if answer.state == "SKIPPED" {
      var errorText := SkipText(answer.skipReasons);
      firstResponse' := true;
      chunks := [DataChunk(ContentDelta(errorText), None)];
      assert ItemChunks([SkipNotice(errorText)]) == ItemChunks([]) + [ItemChunk(SkipNotice(errorText))];
    } else {
      chunks, firstResponse' := StreamReplies(answer.replies, before, acc, firstResponse);
    }
  }

  /** The answer loop of `_stream_chat` and its framing, the upstream
      answers given in order. */
  method StreamChat(answers: seq<Answer>, isStream: bool, acc: Accounts.AccountManager) returns (chunks: seq<Chunk>)
    modifies acc`conversationCount
    ensures chunks == Framed(isStream, ItemChunks(Items(answers)))
    ensures acc.conversationCount == old(acc.conversationCount) + (if Counted(Items(answers)) then 1 else 0)
  {
    var body: seq<Chunk> := [];
    var firstResponse := false;
    var k := 0;
    while k < |answers|
      invariant 0 <= k <= |answers|
      invariant body == ItemChunks(Items(answers[..k]))
      invariant firstResponse == (Items(answers[..k]) != [])
      invariant acc.conversationCount == old(acc.conversationCount) + (if Counted(Items(answers[..k])) then 1 else 0)
    {
      ItemsStep(answers, k);
      var before := Items(answers[..k]);
      ItemChunksAppend(before, AnswerItems(answers[k]));
      CountedAppend(before, AnswerItems(answers[k]));
      var more;
      more, firstResponse := StreamAnswer(answers[k], before, acc, firstResponse);
      body := body + more;
      k := k + 1;
    }
    assert answers[..k] == answers;
    if isStream {
      chunks := [DataChunk(RoleDelta, None)] + body + [DataChunk(EmptyDelta, Some("stop")), DoneLine];
    } else {
      chunks := body;
    }
  }

  /** Over the replies of one answer: counted exactly when the first reply
      with text is not a thought. */
  lemma {:induction false} CountedReplies(rs: seq<ReplyText>)
    ensures Counted(ReplyItems(rs)) <==>
      exists j :: 0 <= j < |rs| && rs[j].text != "" && !rs[j].thought
                  && forall i :: 0 <= i < j ==> rs[i].text == ""
  {
    if rs != [] {
      var init := rs[..|rs| - 1];
      CountedReplies(init);
      CountedAppend(ReplyItems(init), ReplyItem(rs[|rs| - 1]));
      ReplyItemsEmpty(init);
      forall i | 0 <= i < |init| ensures init[i] == rs[i] { }
    }
  }

  lemma {:induction false} ReplyItemsEmpty(rs: seq<ReplyText>)
    ensures ReplyItems(rs) == [] <==> forall i :: 0 <= i < |rs| ==> rs[i].text == ""
  {
    if rs != [] {
      var init := rs[..|rs| - 1];
      assert ReplyItems(rs) == ReplyItems(init) + ReplyItem(rs[|rs| - 1]);
      ReplyItemsEmpty(init);
      forall i | 0 <= i < |init| ensures init[i] == rs[i] { }
      assert ReplyItem(rs[|rs| - 1]) == [] <==> rs[|rs| - 1].text == "";
    }
  }

  /** Over the answers: nothing is emitted exactly when no answer is
      skipped and no reply carries text. */
  lemma {:induction false} ItemsEmpty(answers: seq<Answer>)
    ensures Items(answers) == [] <==> forall k :: 0 <= k < |answers| ==> AnswerItems(answers[k]) == []
  {
    if answers != [] {
      var init := answers[..|answers| - 1];
      ItemsEmpty(init);
      forall k | 0 <= k < |init| ensures init[k] == answers[k] { }
    }
  }

  /** The conversation counter of `_stream_chat` rises exactly when the
      first answer that emits anything is not skipped and its first reply
      with text is not a thought; a skip notice or reasoning emitted first
      means the reply is never counted. */
  lemma CountedMeaning(answers: seq<Answer>)
    ensures Counted(Items(answers)) <==>
      exists k :: 0 <= k < |answers| && (forall i :: 0 <= i < k ==> AnswerItems(answers[i]) == [])
                  && answers[k].state != "SKIPPED" && Counted(ReplyItems(answers[k].replies))
  {
    CountedFirst(answers);
    if Counted(Items(answers)) {
      var k :| FirstCounted(answers, k);
      assert 0 <= k < |answers| && (forall i :: 0 <= i < k ==> AnswerItems(answers[i]) == [])
             && answers[k].state != "SKIPPED" && Counted(ReplyItems(answers[k].replies));
    } else {
      forall k | 0 <= k < |answers| && (forall i :: 0 <= i < k ==> AnswerItems(answers[i]) == [])
                 && answers[k].state != "SKIPPED"
        ensures !Counted(ReplyItems(answers[k].replies))
      {
        assert !FirstCounted(answers, k);
      }
    }
  }

  /** A counted answer after answers that emitted nothing. */
  ghost predicate FirstCounted(answers: seq<Answer>, k: int) {
    && 0 <= k < |answers| && (forall i :: 0 <= i < k ==> AnswerItems(answers[i]) == [])
    && answers[k].state != "SKIPPED" && Counted(ReplyItems(answers[k].replies))
  }

  lemma {:induction false} CountedFirst(answers: seq<Answer>)
    ensures Counted(Items(answers)) <==> exists k :: FirstCounted(answers, k)
  {
    if answers != [] {
      var n := |answers| - 1;
      var init := answers[..n];
      assert Items(answers) == Items(init) + AnswerItems(answers[n]);
      CountedFirst(init);
      CountedAppend(Items(init), AnswerItems(answers[n]));
      ItemsEmpty(init);
      forall k | 0 <= k < n ensures init[k] == answers[k] { }
      if Items(init) == [] {
        FirstCountedLast(answers);
      } else {
        FirstCountedInit(answers, init);
      }
    }
  }

  /** When the earlier answers emitted nothing, only the last can be the
      first counted one. */
  lemma FirstCountedLast(answers: seq<Answer>)
    requires answers != []
    requires forall k :: 0 <= k < |answers| - 1 ==> AnswerItems(answers[k]) == []
    ensures (exists k :: FirstCounted(answers, k)) <==> FirstCounted(answers, |answers| - 1)
  {
    forall k | FirstCounted(answers, k) ensures k == |answers| - 1 { }
  }

  /** When some earlier answer emitted something, the first counted answer
      lies among the earlier ones. */
  lemma FirstCountedInit(answers: seq<Answer>, init: seq<Answer>)
    requires answers != [] && init == answers[..|answers| - 1]
    requires exists k :: 0 <= k < |init| && AnswerItems(init[k]) != []
    ensures (exists k :: FirstCounted(answers, k)) <==> (exists k :: FirstCounted(init, k))
  {
    var n := |init|;
    forall k | 0 <= k < n ensures init[k] == answers[k] { }
    forall k | FirstCounted(answers, k) ensures FirstCounted(init, k) {
      var j :| 0 <= j < n && AnswerItems(init[j]) != [];
    }
    forall k | FirstCounted(init, k) ensures FirstCounted(answers, k) { }
  }

  // Account failover of the response wrapper.

  /** What one pass of the wrapper's loop met: `_stream_chat` ran to its
      end, or it raised after yielding `partial`. */
  datatype Pass = Completed(chunks: seq<Chunk>) | Broke(partial: seq<Chunk>, error: string)

  /** What the account switch after a failed pass met: `get_account` and
      `create_google_session` gave the new account, or one of them raised. */
  datatype Switch = Switched(accountId: string) | SwitchFailed

  /** How the wrapper ended: a pass completed, a switch failed, or the
      last pass failed with the error (cut to 200 characters). */
  datatype Ending = Done | FailoverFailed | Exhausted(error: string)

  /** The loop over `range(max_retries)` from pass `i` on `account`, after
      `out` was yielded and the accounts in `stamped` were stamped with a
      cooldown: the chunks yielded, the ending and the stamped accounts. */
  function Failover(i: nat, n: nat, account: string, pass: nat -> Pass, switch: nat -> Switch,
                    out: seq<Chunk>, stamped: seq<string>): (seq<Chunk>, Ending, seq<string>)
    requires i < n
    decreases n - i
  {
    match pass(i)
    case Completed(cs) => (out + cs, Done, stamped)
    case Broke(partial, e) =>
      if i == n - 1 then (out + partial, Exhausted(Take(e, 200)), stamped + [account])
      else match switch(i)
        case SwitchFailed => (out + partial, FailoverFailed, stamped + [account])
        case Switched(next) => Failover(i + 1, n, next, pass, switch, out + partial, stamped + [account])
  }

  /** The error line a failed wrapper yields when it streams. */
  function EndingLine(ending: Ending): Chunk {
    match ending
    case Done => DoneLine
    case FailoverFailed => ErrorChunk("Account Failover Failed")
    case Exhausted(e) => ErrorChunk(e)
  }

  /** The wrapper's output: the passes' chunks, then the error line of a
      failed streamed request. */
  function Wrapped(isStream: bool, body: seq<Chunk>, ending: Ending): seq<Chunk> {
    if isStream && !ending.Done? then body + [EndingLine(ending)] else body
  }

  /** `response_wrapper`, from the account the session was acquired on,
      with `eligible` accounts available. */
  method ResponseWrapper(account: string, isStream: bool, eligible: nat, pass: nat -> Pass, switch: nat -> Switch)
    returns (chunks: seq<Chunk>, stamped: seq<string>)
    ensures var (body, ending, s) := Failover(0, MaxRetries(eligible), account, pass, switch, [], []);
      chunks == Wrapped(isStream, body, ending) && stamped == s
  {
    var atLeastOne := if eligible < 1 then 1 else eligible;
    var maxRetries := if MaxAccountSwitchTries < atLeastOne then MaxAccountSwitchTries else atLeastOne;
    var current := account;
    var body: seq<Chunk> := [];
    var ending := Done;
    stamped := [];
    var i := 0;
    var running := true;
    while running
      invariant 0 <= i < maxRetries
      invariant running ==> Failover(i, maxRetries, current, pass, switch, body, stamped)
                            == Failover(0, maxRetries, account, pass, switch, [], [])
      invariant running ==> ending == Done
      invariant !running ==> (body, ending, stamped) == Failover(0, maxRetries, account, pass, switch, [], [])
      decreases maxRetries - i + (if running then 1 else 0)
    {
      match pass(i) {
        case Completed(cs) =>
          body := body + cs;
          running := false;
        case Broke(partial, e) =>
          body := body + partial;
          stamped := stamped + [current];
          if i < maxRetries - 1 {
            match switch(i) {
              case SwitchFailed =>
                ending := FailoverFailed;
                running := false;
              case Switched(next) =>
                current := next;
                i := i + 1;
            }
          } else {
            ending := Exhausted(Take(e, 200));
            running := false;
          }
      }
    }
    if isStream && !ending.Done? {
      match ending {
        case FailoverFailed => chunks := body + [ErrorChunk("Account Failover Failed")];
        case Exhausted(message) => chunks := body + [ErrorChunk(message)];
      }
    } else {
      chunks := body;
    }
  }

  /** The loop stops at the first pass that completes, having stamped the
      account of every pass before it; a failed switch ends it with
      `Account Failover Failed`; when every pass fails it ends with the
      last pass's error cut to 200 characters, having stamped one account
      per pass. What was yielded is never taken back. */
  lemma {:induction false} FailoverMeaning(i: nat, n: nat, account: string, pass: nat -> Pass, switch: nat -> Switch,
                                           out: seq<Chunk>, stamped: seq<string>)
    requires i < n
    ensures var (body, ending, s) := Failover(i, n, account, pass, switch, out, stamped);
      && out <= body && stamped <= s && |s| <= |stamped| + (n - i)
      && (pass(i).Broke? ==> |s| > |stamped| && s[|stamped|] == account)
      && (ending.Done? <==> exists j :: i <= j < n && pass(j).Completed?
                                      && forall l :: i <= l < j ==> pass(l).Broke? && switch(l).Switched?)
      && (ending.Done? ==> exists j :: i <= j < n && pass(j).Completed? && |s| == |stamped| + (j - i)
                                     && (forall l :: i <= l < j ==> pass(l).Broke? && switch(l).Switched?)
                                     && |pass(j).chunks| <= |body| && body[|body| - |pass(j).chunks|..] == pass(j).chunks)
      && (ending.FailoverFailed? ==> exists j :: i <= j < n - 1 && pass(j).Broke? && switch(j).SwitchFailed?)
      && (ending.Exhausted? ==>
            && (forall l :: i <= l < n ==> pass(l).Broke?)
            && ending.error == Take(pass(n - 1).error, 200)
            && |s| == |stamped| + (n - i))
    decreases n - i
  {
    match pass(i) {
      case Completed(cs) =>
      case Broke(partial, e) =>
        if i < n - 1 && switch(i).Switched? {
          var next := switch(i).accountId;
          FailoverMeaning(i + 1, n, next, pass, switch, out + partial, stamped + [account]);
          var (body, ending, s) := Failover(i, n, account, pass, switch, out, stamped);
          assert (body, ending, s) == Failover(i + 1, n, next, pass, switch, out + partial, stamped + [account]);
          assert (stamped + [account])[|stamped|] == account;
          if ending.Done? {
            var j :| i + 1 <= j < n && pass(j).Completed? && |s| == |stamped| + 1 + (j - i - 1)
                     && (forall l :: i + 1 <= l < j ==> pass(l).Broke? && switch(l).Switched?)
                     && |pass(j).chunks| <= |body| && body[|body| - |pass(j).chunks|..] == pass(j).chunks;
            assert forall l :: i <= l < j ==> pass(l).Broke? && switch(l).Switched?;
          }
        }
    }
  }

  // Non-streamed replies.

  /** What the collector reads from one line: the content and reasoning of
      its delta (error lines carry no delta). */
  function LineContent(c: Chunk): string {
    if c.DataChunk? && c.delta.ContentDelta? then c.delta.content else ""
  }

  function LineReasoning(c: Chunk): string {
    if c.DataChunk? && c.delta.ReasoningDelta? then c.delta.reasoning else ""
  }

  /** The text and reasoning collected up to the first `[DONE]`. */
  function Collected(chunks: seq<Chunk>): (string, string) {
    if chunks == [] || chunks[0] == DoneLine then ("", "")
    else
      var rest := Collected(chunks[1..]);
      (LineContent(chunks[0]) + rest.0, LineReasoning(chunks[0]) + rest.1)
  }

  /** The assistant message of a non-streamed reply; reasoning only when
      there is some. */
  datatype Completion = Completion(content: string, reasoning: Option<string>)

  function CompletionOf(chunks: seq<Chunk>): Completion {
    var (content, reasoning) := Collected(chunks);
    Completion(content, if reasoning != "" then Some(reasoning) else None)
  }

  /** The collecting loop of a non-streamed `chat`. */
  method CollectCompletion(chunks: seq<Chunk>) returns (message: Completion)
    ensures message == CompletionOf(chunks)
  {
    var fullContent, fullReasoning := "", "";
    var k := 0;
    assert chunks[0..] == chunks;
    while k < |chunks|
      invariant 0 <= k <= |chunks|
      invariant Collected(chunks).0 == fullContent + Collected(chunks[k..]).0
      invariant Collected(chunks).1 == fullReasoning + Collected(chunks[k..]).1
    {
      if chunks[k] == DoneLine {
        break;
      }
      CollectedStep(chunks, k, fullContent, fullReasoning);
      var c := chunks[k];
      ghost var content0, reasoning0 := fullContent, fullReasoning;
      if c.DataChunk? && c.delta.ContentDelta? {
        fullContent := fullContent + c.delta.content;
      }
      if c.DataChunk? && c.delta.ReasoningDelta? {
        fullReasoning := fullReasoning + c.delta.reasoning;
      }
      assert fullContent == content0 + LineContent(c) && fullReasoning == reasoning0 + LineReasoning(c);
      k := k + 1;
    }
    CollectedEnd(chunks, k, fullContent, fullReasoning);
    message := Completion(fullContent, if fullReasoning != "" then Some(fullReasoning) else None);
  }

  lemma CollectedStep(chunks: seq<Chunk>, k: nat, content: string, reasoning: string)
    requires k < |chunks| && chunks[k] != DoneLine
    requires Collected(chunks).0 == content + Collected(chunks[k..]).0
    requires Collected(chunks).1 == reasoning + Collected(chunks[k..]).1
    ensures Collected(chunks).0 == (content + LineContent(chunks[k])) + Collected(chunks[k + 1..]).0
    ensures Collected(chunks).1 == (reasoning + LineReasoning(chunks[k])) + Collected(chunks[k + 1..]).1
  {
    assert chunks[k..][1..] == chunks[k + 1..];
    var rest := Collected(chunks[k + 1..]);
    assert Collected(chunks[k..]) == (LineContent(chunks[k]) + rest.0, LineReasoning(chunks[k]) + rest.1);
  }

  lemma CollectedEnd(chunks: seq<Chunk>, k: nat, content: string, reasoning: string)
    requires k <= |chunks| && (k < |chunks| ==> chunks[k] == DoneLine)
    requires Collected(chunks).0 == content + Collected(chunks[k..]).0
    requires Collected(chunks).1 == reasoning + Collected(chunks[k..]).1
    ensures Collected(chunks) == (content, reasoning)
  {
    assert Collected(chunks[k..]) == ("", "");
    assert content + "" == content && reasoning + "" == reasoning;
  }

  function ItemsContent(items: seq<Item>): string {
    if items == [] then ""
    else (if items[0].Thought? then "" else if items[0].SkipNotice? then items[0].notice else items[0].text)
         + ItemsContent(items[1..])
  }

  function ItemsReasoning(items: seq<Item>): string {
    if items == [] then "" else (if items[0].Thought? then items[0].reasoning else "") + ItemsReasoning(items[1..])
  }

  /** The collected message holds the skip notices and answer text in
      order as its content, and the reasoning, in order, only when there
      is some. */
  lemma {:induction false} CollectedItems(items: seq<Item>)
    ensures Collected(ItemChunks(items)) == (ItemsContent(items), ItemsReasoning(items))
    decreases |items|
  {
    if items != [] {
      CollectedItems(items[1..]);
      ItemChunksAppend([items[0]], items[1..]);
      assert [items[0]] + items[1..] == items;
      assert ItemChunks([items[0]]) == [ItemChunk(items[0])];
      assert ItemChunks(items)[1..] == ItemChunks(items[1..]);
    }
  }

  /** The framing of a streamed reply: the role chunk first, then the body,
      then the stop chunk and `[DONE]`; collecting a framed body gives what
      collecting the body alone gives. */
  lemma FramedMeaning(body: seq<Chunk>)
    requires DoneLine !in body
    ensures var f := Framed(true, body);
      && |f| == |body| + 3 && f[0] == DataChunk(RoleDelta, None)
      && f[1..|f| - 2] == body
      && f[|f| - 2] == DataChunk(EmptyDelta, Some("stop")) && f[|f| - 1] == DoneLine
      && Collected(f) == Collected(body)
  {
    var f := Framed(true, body);
    CollectedTail(body, [DataChunk(EmptyDelta, Some("stop")), DoneLine]);
    assert f[1..] == body + [DataChunk(EmptyDelta, Some("stop")), DoneLine];
    var c := Collected(f[1..]);
    assert Collected(f) == ("" + c.0, "" + c.1);
    assert "" + c.0 == c.0 && "" + c.1 == c.1;
  }

  lemma {:induction false} CollectedTail(body: seq<Chunk>, tail: seq<Chunk>)
    requires DoneLine !in body && tail == [DataChunk(EmptyDelta, Some("stop")), DoneLine]
    ensures Collected(body + tail) == Collected(body)
    decreases |body|
  {
    if body == [] {
      assert body + tail == tail;
      assert tail[1..] == [DoneLine];
      assert Collected([DoneLine]) == ("", "");
    } else {
      assert (body + tail)[1..] == body[1..] + tail;
      CollectedTail(body[1..], tail);
    }
  }

  /** A non-streamed chat returns the answer text of all the upstream
      answers, in order, with skip notices in place, and the reasoning
      apart. */
  lemma NonStreamCompletion(answers: seq<Answer>)
    ensures var items := Items(answers);
      CompletionOf(Framed(false, ItemChunks(items)))
        == Completion(ItemsContent(items), if ItemsReasoning(items) != "" then Some(ItemsReasoning(items)) else None)
  {
    CollectedItems(Items(answers));
  }
}

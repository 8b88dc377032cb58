/** The model conversation: one request to the primary model, a round of tool
    calls fed back into a follow-up request for as long as the model asks for
    tools, reasoning markup stripped from the answer, a fixed apology for an
    empty answer, and a single request to a fallback model when anything in
    the exchange throws. Also the cache read-through of speech-to-text and
    image analysis.

    The models, the search API, the table renderer and WhatsApp sends are
    parameters. The source loops for as long as the model keeps asking for
    tools; here each follow-up request costs one unit of `fuel`, and running
    out is the outcome `OutOfFuel`. */
module Llm {
  import opened Wrappers
  import opened Text
  import opened Hashing
  import opened Think
  import opened Conversation
  import Tools
  import Reminders
  import CacheManager

  type Png = seq<bv8>

  /** The first choice's message: its content (`null` is `None`) and its
      tool calls (`None` when absent; an empty list is present). */
  datatype Response = Response(content: Option<string>, toolCalls: Option<seq<ToolCall>>)

  /** Everything the exchange depends on beyond the transcript. */
  datatype Env = Env(
    primary: seq<Turn> -> Result<Response>,
    fallback: seq<Turn> -> Result<Option<string>>,
    braveKey: string,
    fetch: (string, string) -> Tools.HttpOutcome,
    createTable: Tools.Table -> Result<Png>,
    phone: string,
    now: int,
    newId: nat -> string,
    hasClient: bool,
    send: Reminders.Sender)

  // Each apology starts with a separate one-letter literal so that its first
  // character is visible to the verifier.
  const EmptyAnswerApology := "I" + " apologize, but I couldn't generate a proper response. Could you please rephrase your message or try again?"
  const FallbackApology := "I" + " encountered an error and couldn't generate a proper response. Please try again in a moment."
  const TableDone := "Table image generated successfully"
  const ReminderDone := "Reminder set successfully"
  const DefaultCountry := "US"
  const BadArguments := "Unexpected token in JSON"

  predicate IsKnownTool(name: string) {
    name == "web_search" || name == "create_table" || name == "set_reminder"
  }

  // ---------------------------------------------------------------------
  // One round of tool calls

  /** One tool call's result, the table image it made, and the reminder
      list after it. */
  datatype Step = Step(turn: Result<Turn>, image: Option<Png>, reminders: seq<Reminder>)

  type Reminder = Reminders.Reminder

  /** `args.country || "US"`. */
  function CountryOr(country: string): string {
    if country == "" then DefaultCountry else country
  }

  /** The reminder `set_reminder` adds, given the list it is added to. */
  function AddFor(args: Args, env: Env, reminders: seq<Reminder>): Reminders.Added {
    Reminders.AddReminder(reminders, env.phone, args.message, args.duration, env.now,
                          env.newId(|reminders|), env.hasClient, env.send)
  }

  /** Run one tool call. Only `create_table` yields an image and only
      `set_reminder` changes the reminder list. */
  function RunTool(call: ToolCall, env: Env, reminders: seq<Reminder>): (r: Step)
    ensures r.turn.Success? ==>
      && IsKnownTool(call.name) && call.arguments.Some?
      && r.turn.value.Tool? && r.turn.value.callId == call.id && r.turn.value.name == call.name
    ensures !IsKnownTool(call.name) ==> r == Step(Failure("Unknown tool: " + call.name), None, reminders)
    ensures call.name == "web_search" && call.arguments.Some? ==>
      var found := Tools.WebSearch(env.braveKey, call.arguments.value.query,
                                   CountryOr(call.arguments.value.country), env.fetch);
      && (r.turn.Success? <==> found.Success?)
      && (r.turn.Success? ==> r.turn.value.content == SearchJson(found.value))
    ensures call.name == "create_table" && call.arguments.Some? ==>
      && (r.turn.Success? <==> env.createTable(call.arguments.value.table).Success?)
      && (r.turn.Success? ==> r.image == Some(env.createTable(call.arguments.value.table).value))
    ensures call.name == "set_reminder" && call.arguments.Some? ==>
      && r.reminders == AddFor(call.arguments.value, env, reminders).reminders
      && (r.turn.Success? <==> AddFor(call.arguments.value, env, reminders).result.Success?)
    ensures call.name != "set_reminder" || call.arguments.None? ==> r.reminders == reminders
    ensures r.image.Some? ==> call.name == "create_table" && r.turn.Success?
  {
    if !IsKnownTool(call.name) then Step(Failure("Unknown tool: " + call.name), None, reminders)
    else if call.arguments.None? then Step(Failure(BadArguments), None, reminders)
    else
      var args := call.arguments.value;
      if call.name == "web_search" then
        match Tools.WebSearch(env.braveKey, args.query, CountryOr(args.country), env.fetch)
        case Failure(e) => Step(Failure(e), None, reminders)
        case Success(found) => Step(Success(Tool(call.id, call.name, SearchJson(found))), None, reminders)
      else if call.name == "create_table" then
        match env.createTable(args.table)
        case Failure(e) => Step(Failure(e), None, reminders)
        case Success(png) => Step(Success(Tool(call.id, call.name, Note(TableDone))), Some(png), reminders)
      else
        var added := AddFor(args, env, reminders);
        match added.result
        case Failure(e) => Step(Failure(e), None, added.reminders)
        case Success(_) => Step(Success(Tool(call.id, call.name, Note(ReminderDone))), None, added.reminders)
  }

  /** A whole round: the tool results in call order if every call succeeded,
      the image of the last table made, and the reminder list after all
      calls (reminders are added even when another call of the round fails). */
  datatype Round = Round(turns: Result<seq<Turn>>, image: Option<Png>, reminders: seq<Reminder>)

  function RunTools(calls: seq<ToolCall>, env: Env, reminders: seq<Reminder>): (r: Round)
    ensures r.turns.Success? ==> |r.turns.value| == |calls|
    ensures reminders <= r.reminders
    decreases |calls|
  {
    if calls == [] then Round(Success([]), None, reminders)
    else
      var first := RunTool(calls[0], env, reminders);
      var rest := RunTools(calls[1..], env, first.reminders);
      var turns := match (first.turn, rest.turns)
        case (Success(t), Success(ts)) => Success([t] + ts)
        case (Failure(e), _) => Failure(e)
        case (_, Failure(e)) => Failure(e);
      Round(turns, if rest.image.Some? then rest.image else first.image, rest.reminders)
  }

  /** `ts` holds one tool result per call, in call order. */
  predicate AnswersCalls(ts: seq<Turn>, calls: seq<ToolCall>) {
    |ts| == |calls| &&
    forall i | 0 <= i < |calls| :: ts[i].Tool? && ts[i].callId == calls[i].id && ts[i].name == calls[i].name
  }

  /** A successful round answers every call, in call order. */
  lemma {:induction false} RoundAnswersInOrder(calls: seq<ToolCall>, env: Env, reminders: seq<Reminder>)
    requires RunTools(calls, env, reminders).turns.Success?
    ensures AnswersCalls(RunTools(calls, env, reminders).turns.value, calls)
    decreases |calls|
  {
    if calls != [] {
      var first := RunTool(calls[0], env, reminders);
      var round := RunTools(calls[1..], env, first.reminders);
      assert first.turn.Success? && round.turns.Success?;
      RoundAnswersInOrder(calls[1..], env, first.reminders);
      ConsAnswers(first.turn.value, calls[0], round.turns.value, calls[1..]);
      assert [calls[0]] + calls[1..] == calls;
    }
  }

  lemma ConsAnswers(t: Turn, call: ToolCall, ts: seq<Turn>, calls: seq<ToolCall>)
    requires t.Tool? && t.callId == call.id && t.name == call.name
    requires AnswersCalls(ts, calls)
    ensures AnswersCalls([t] + ts, [call] + calls)
  {
    var ts', calls' := [t] + ts, [call] + calls;
    forall i | 1 <= i < |calls'| ensures ts'[i] == ts[i - 1] && calls'[i] == calls[i - 1] {
    }
  }

  /** One unknown tool, or one call whose arguments are not JSON, fails the
      whole round. */
  lemma {:induction false} BadCallFailsRound(calls: seq<ToolCall>, env: Env, reminders: seq<Reminder>, i: nat)
    requires i < |calls| && (!IsKnownTool(calls[i].name) || calls[i].arguments.None?)
    ensures RunTools(calls, env, reminders).turns.Failure?
    decreases |calls|
  {
    if i > 0 {
      assert calls[1..][i - 1] == calls[i];
      BadCallFailsRound(calls[1..], env, RunTool(calls[0], env, reminders).reminders, i - 1);
    }
  }

  /** `Promise.all` resolves when every call resolves: a round whose calls
      all succeed, whatever the reminder list they meet, succeeds. */
  lemma {:induction false} RoundSucceedsWhenEveryCallDoes(calls: seq<ToolCall>, env: Env, reminders: seq<Reminder>)
    requires forall i, rs | 0 <= i < |calls| :: RunTool(calls[i], env, rs).turn.Success?
    ensures RunTools(calls, env, reminders).turns.Success?
    decreases |calls|
  {
    if calls != [] {
      forall i, rs | 0 <= i < |calls[1..]| ensures RunTool(calls[1..][i], env, rs).turn.Success? {
        assert calls[1..][i] == calls[i + 1];
      }
      assert RunTool(calls[0], env, reminders).turn.Success?;
      RoundSucceedsWhenEveryCallDoes(calls[1..], env, RunTool(calls[0], env, reminders).reminders);
    }
  }

  /** `Promise.all` rejects when any call throws: a call that fails
      whatever the reminder list fails the whole round. */
  lemma {:induction false} RoundFailsWhenACallFails(calls: seq<ToolCall>, env: Env, reminders: seq<Reminder>, i: nat)
    requires i < |calls| && forall rs :: RunTool(calls[i], env, rs).turn.Failure?
    ensures RunTools(calls, env, reminders).turns.Failure?
    decreases |calls|
  {
    if i > 0 {
      assert calls[1..][i - 1] == calls[i];
      RoundFailsWhenACallFails(calls[1..], env, RunTool(calls[0], env, reminders).reminders, i - 1);
    }
  }

  /** Without a `create_table` call a round hands on no image, so the image
      of an earlier round is dropped. */
  lemma {:induction false} NoTableNoImage(calls: seq<ToolCall>, env: Env, reminders: seq<Reminder>)
    requires forall i | 0 <= i < |calls| :: calls[i].name != "create_table"
    ensures RunTools(calls, env, reminders).image == None
    decreases |calls|
  {
    if calls != [] {
      assert forall i | 0 <= i < |calls| - 1 :: calls[1..][i] == calls[i + 1];
      NoTableNoImage(calls[1..], env, RunTool(calls[0], env, reminders).reminders);
    }
  }

  /** Only `set_reminder` calls change the reminder list. */
  lemma {:induction false} OnlyRemindersChangeList(calls: seq<ToolCall>, env: Env, reminders: seq<Reminder>)
    requires forall i | 0 <= i < |calls| :: calls[i].name != "set_reminder"
    ensures RunTools(calls, env, reminders).reminders == reminders
    decreases |calls|
  {
    if calls != [] {
      assert forall i | 0 <= i < |calls| - 1 :: calls[1..][i] == calls[i + 1];
      OnlyRemindersChangeList(calls[1..], env, reminders);
    }
  }

  /** The image a round hands on is the one made by its last `create_table`
      call: a round whose last call is a successful `create_table` passes
      that call's image. */
  lemma {:induction false} LastTableWins(calls: seq<ToolCall>, env: Env, reminders: seq<Reminder>)
    requires calls != []
    requires RunTools(calls, env, reminders).turns.Success?
    requires calls[|calls| - 1].name == "create_table" && calls[|calls| - 1].arguments.Some?
    requires env.createTable(calls[|calls| - 1].arguments.value.table).Success?
    ensures RunTools(calls, env, reminders).image
         == Some(env.createTable(calls[|calls| - 1].arguments.value.table).value)
    decreases |calls|
  {
    var first := RunTool(calls[0], env, reminders);
    if |calls| > 1 {
      assert calls[1..][|calls[1..]| - 1] == calls[|calls| - 1];
      LastTableWins(calls[1..], env, first.reminders);
    }
  }

  // ---------------------------------------------------------------------
  // The answer

  /** Reasoning markup removed from a primary answer: with an opening tag,
      the trimmed text between the first and second closing tags (or to the
      end); `None` stands for the
      exception thrown when there is no closing tag. */
  function StripThink(full: string): (r: Option<string>)
    ensures r.None? <==> Contains(full, Open) && !Contains(full, Close)
    ensures !Contains(full, Open) ==> r == Some(full)
    ensures Contains(full, Open) && r.Some? ==>
      r.value == Trim(Before(full[IndexOf(full, Close).value + |Close|..], Close))
  {
    if Contains(full, Open) then
      match AfterClose(full)
      case None => None
      case Some(after) => Some(Trim(after))
    else Some(full)
  }

  /** Neither fixed apology is blank. */
  lemma ApologiesNotBlank()
    ensures !Blank(EmptyAnswerApology) && !Blank(FallbackApology)
  {
    assert EmptyAnswerApology[0] == 'I';
    assert FallbackApology[0] == 'I';
  }

  datatype Outcome = Reply(answer: string, image: Option<Png>) | Threw | OutOfFuel

  /** The `catch` block: one request to a fallback model with the same
      transcript and no tools. Its content is returned as is, or replaced by
      the fixed error message when blank; if the request throws, so does
      the exchange. */
  function Fallback(msgs: seq<Turn>, buf: Option<Png>, env: Env): (r: Outcome)
    ensures r.Threw? <==> env.fallback(msgs).Failure?
    ensures !r.OutOfFuel?
    ensures r.Reply? ==> r.image == buf && !Blank(r.answer)
    ensures r.Reply? ==>
      var content := env.fallback(msgs).value.GetOr("");
      r.answer == if Blank(content) then FallbackApology else content
  {
    match env.fallback(msgs)
    case Failure(_) => Threw
    case Success(content) =>
      var full := content.GetOr("");
      ApologiesNotBlank();
      Reply(if Blank(full) then FallbackApology else full, buf)
  }

  /** How one exchange ended: the outcome, the transcript of the request that
      produced it, and the reminder list afterwards. */
  datatype Run = Run(outcome: Outcome, transcript: seq<Turn>, reminders: seq<Reminder>)

  /** `chat(messages, phoneNumber, imageBuffer)`. */
  function Chat(msgs: seq<Turn>, buf: Option<Png>, env: Env, reminders: seq<Reminder>, fuel: nat): (r: Run)
    ensures msgs <= r.transcript
    ensures reminders <= r.reminders
    ensures r.outcome.Reply? ==> !Blank(r.outcome.answer)
    ensures r.outcome.Threw? ==> env.fallback(r.transcript).Failure?
    ensures r.outcome.Reply? && r.transcript == msgs ==> r.outcome.image == buf
    decreases fuel
  {
    if fuel == 0 then Run(OutOfFuel, msgs, reminders)
    else match env.primary(msgs)
      case Failure(_) => Run(Fallback(msgs, buf, env), msgs, reminders)
      case Success(res) =>
        match res.toolCalls
        case Some(calls) =>
          var round := RunTools(calls, env, reminders);
          if round.turns.Failure? then Run(Fallback(msgs, buf, env), msgs, round.reminders)
          else
            var next := msgs + [AssistantCalls(calls)] + round.turns.value;
            var r := Chat(next, round.image, env, round.reminders, fuel - 1);
            assert msgs <= next <= r.transcript;
            r
        case None =>
          match StripThink(res.content.GetOr(""))
          case None => Run(Fallback(msgs, buf, env), msgs, reminders)
          case Some(answer) =>
            ApologiesNotBlank();
            Run(Reply(if Blank(answer) then EmptyAnswerApology else answer, buf), msgs, reminders)
  }

  /** A tool round continues the exchange with the old transcript, one
      assistant turn carrying the calls, and one result per call in order,
      passing on the round's image. */
  lemma ToolRoundContinues(msgs: seq<Turn>, buf: Option<Png>, env: Env, reminders: seq<Reminder>,
                           fuel: nat, content: Option<string>, calls: seq<ToolCall>)
    requires env.primary(msgs) == Success(Response(content, Some(calls)))
    requires RunTools(calls, env, reminders).turns.Success?
    ensures var round := RunTools(calls, env, reminders);
      && |round.turns.value| == |calls|
      && Chat(msgs, buf, env, reminders, fuel + 1)
         == Chat(msgs + [AssistantCalls(calls)] + round.turns.value, round.image, env, round.reminders, fuel)
  {
  }

  /** An unknown tool, or arguments that are not JSON, send the exchange to
      the fallback with the transcript and image of this request. */
  lemma BadToolFallsBack(msgs: seq<Turn>, buf: Option<Png>, env: Env, reminders: seq<Reminder>,
                         fuel: nat, content: Option<string>, calls: seq<ToolCall>, i: nat)
    requires env.primary(msgs) == Success(Response(content, Some(calls)))
    requires i < |calls| && (!IsKnownTool(calls[i].name) || calls[i].arguments.None?)
    ensures Chat(msgs, buf, env, reminders, fuel + 1).outcome == Fallback(msgs, buf, env)
    ensures Chat(msgs, buf, env, reminders, fuel + 1).transcript == msgs
  {
    BadCallFailsRound(calls, env, reminders, i);
  }

  /** When the primary request throws, the `catch` block answers with one
      fallback request on the same transcript. */
  lemma PrimaryFailureFallsBack(msgs: seq<Turn>, buf: Option<Png>, env: Env, reminders: seq<Reminder>, fuel: nat)
    requires env.primary(msgs).Failure?
    ensures Chat(msgs, buf, env, reminders, fuel + 1) == Run(Fallback(msgs, buf, env), msgs, reminders)
  {
  }

  /** An answer without tools and without the reasoning markup is returned as
      it is, or replaced by the apology when it is blank or missing. */
  lemma PlainAnswer(msgs: seq<Turn>, buf: Option<Png>, env: Env, reminders: seq<Reminder>,
                    fuel: nat, content: Option<string>)
    requires env.primary(msgs) == Success(Response(content, None))
    requires !Contains(content.GetOr(""), Open)
    ensures var s := content.GetOr("");
      Chat(msgs, buf, env, reminders, fuel + 1) == Run(Reply(if Blank(s) then EmptyAnswerApology else s, buf), msgs, reminders)
  {
  }

  /** A reasoned answer without tools is the trimmed text after the markup,
      or the apology when that is blank; the image passed in is kept. */
  lemma ReasonedAnswer(msgs: seq<Turn>, buf: Option<Png>, env: Env, reminders: seq<Reminder>,
                       fuel: nat, t: string, a: string)
    requires TagFree(t) && TagFree(a)
    requires env.primary(msgs) == Success(Response(Some(Tagged(t, a)), None))
    ensures Chat(msgs, buf, env, reminders, fuel + 1).outcome
         == Reply(if Blank(a) then EmptyAnswerApology else Trim(a), buf)
  {
    TaggedParts(t, a);
    assert Contains(Tagged(t, a), Open);
    var tr := Trim(a);
    assert Blank(tr) <==> Blank(a) by {
      assert tr == [] <==> Blank(a);
      if tr != [] {
        assert !IsWhitespace(tr[0]);
      }
    }
  }

  /** A reply that opens the markup and never closes it goes to the fallback. */
  lemma UnclosedMarkupFallsBack(msgs: seq<Turn>, buf: Option<Png>, env: Env, reminders: seq<Reminder>,
                                fuel: nat, full: string)
    requires Contains(full, Open) && !Contains(full, Close)
    requires env.primary(msgs) == Success(Response(Some(full), None))
    ensures Chat(msgs, buf, env, reminders, fuel + 1).outcome == Fallback(msgs, buf, env)
  {
  }

  /** The primary model asks for tools on every request, and every round of
      the tools it asks for succeeds, whatever the reminder list. */
  ghost predicate AlwaysCallsTools(env: Env) {
    forall m ::
      && env.primary(m).Success? && env.primary(m).value.toolCalls.Some?
      && forall rs :: RunTools(env.primary(m).value.toolCalls.value, env, rs).turns.Success?
  }

  /** A model that asks for tools on every request never produces an answer:
      with any amount of fuel, the exchange runs out of it. */
  lemma {:induction false} EndlessToolRequests(msgs: seq<Turn>, buf: Option<Png>, env: Env,
                                              reminders: seq<Reminder>, fuel: nat)
    requires AlwaysCallsTools(env)
    ensures Chat(msgs, buf, env, reminders, fuel).outcome == OutOfFuel
    decreases fuel
  {
    if fuel > 0 {
      var calls := env.primary(msgs).value.toolCalls.value;
      var round := RunTools(calls, env, reminders);
      assert round.turns.Success?;
      var next := msgs + [AssistantCalls(calls)] + round.turns.value;
      EndlessToolRequests(next, round.image, env, round.reminders, fuel - 1);
    }
  }

  // ---------------------------------------------------------------------
  // Speech-to-text and image analysis behind the cache

  /** A result and the cache after computing it. */
  datatype Cached = Cached(result: Result<string>, cache: CacheManager.Cache)

  /** A lookup that returns a non-empty string; an empty cached string counts
      as a miss. */
  predicate Hit(h: Hash, c: CacheManager.Cache, input: string, kind: CacheManager.Kind, now: int) {
    var v := CacheManager.Get(h, c, input, kind, now).value;
    v.Some? && v.value != ""
  }

  /** `transcribeAudio`: the audio's digest is looked up; on a miss the
      speech-to-text service is called and its text stored. */
  function TranscribeAudio(h: Hash, c: CacheManager.Cache, audio: string, now: int,
                           stt: string -> Result<string>): (r: Cached)
    ensures Hit(h, c, h(audio), CacheManager.Transcription, now) ==>
      r == Cached(Success(CacheManager.Get(h, c, h(audio), CacheManager.Transcription, now).value.value), c)
    ensures !Hit(h, c, h(audio), CacheManager.Transcription, now) ==> r.result == stt(audio)
    ensures !Hit(h, c, h(audio), CacheManager.Transcription, now) && r.result.Success? ==>
      r.cache == CacheManager.Set(h, CacheManager.Get(h, c, h(audio), CacheManager.Transcription, now).cache,
                                  h(audio), r.result.value, CacheManager.Transcription, now)
    ensures !Hit(h, c, h(audio), CacheManager.Transcription, now) && r.result.Failure? ==>
      r.cache == CacheManager.Get(h, c, h(audio), CacheManager.Transcription, now).cache
  {
    var key := h(audio);
    var look := CacheManager.Get(h, c, key, CacheManager.Transcription, now);
    if look.value.Some? && look.value.value != "" then Cached(Success(look.value.value), look.cache)
    else match stt(audio)
      case Failure(e) => Cached(Failure(e), look.cache)
      case Success(text) => Cached(Success(text), CacheManager.Set(h, look.cache, key, text, CacheManager.Transcription, now))
  }

  /** A transcription obtained from the service is served from the cache for
      the next 24 hours, whatever the service would say then. */
  lemma TranscriptionReused(h: Hash, c: CacheManager.Cache, audio: string, t1: int, t2: int,
                            stt1: string -> Result<string>, stt2: string -> Result<string>)
    requires !Hit(h, c, h(audio), CacheManager.Transcription, t1)
    requires stt1(audio).Success? && stt1(audio).value != ""
    requires t2 - t1 <= CacheManager.ExpirationMs
    ensures var first := TranscribeAudio(h, c, audio, t1, stt1);
      TranscribeAudio(h, first.cache, audio, t2, stt2).result == stt1(audio)
  {
  }

  /** `vision`'s combination: the description, then the OCR text after a
      blank line when both are present. */
  function Combine(description: string, ocr: string): (r: string)
    ensures r == "" <==> description == "" && ocr == ""
    ensures ocr == "" ==> r == description
    ensures description == "" ==> r == ocr
    ensures description != "" && ocr != "" ==> r == description + "\n\n" + ocr
  {
    if ocr == "" then description
    else description + (if description != "" then "\n\n" else "") + ocr
  }

  /** `vision(imageUrl)`: the URL itself is the cache input; on a miss both
      services are asked and either failure fails the call. The description
      may be absent, and the OCR text is trimmed. */
  function Vision(h: Hash, c: CacheManager.Cache, url: string, now: int,
                  describe: string -> Result<Option<string>>, ocr: string -> Result<Option<string>>): (r: Cached)
    ensures Hit(h, c, url, CacheManager.Image, now) ==>
      r == Cached(Success(CacheManager.Get(h, c, url, CacheManager.Image, now).value.value), c)
    ensures !Hit(h, c, url, CacheManager.Image, now) ==>
      (r.result.Success? <==> describe(url).Success? && ocr(url).Success?)
    ensures !Hit(h, c, url, CacheManager.Image, now) && r.result.Success? ==>
      r.result.value == Combine(describe(url).value.GetOr(""), Trim(ocr(url).value.GetOr("")))
    ensures !Hit(h, c, url, CacheManager.Image, now) && r.result.Success? ==>
      r.cache == CacheManager.Set(h, CacheManager.Get(h, c, url, CacheManager.Image, now).cache,
                                  url, r.result.value, CacheManager.Image, now)
    ensures !Hit(h, c, url, CacheManager.Image, now) && r.result.Failure? ==>
      r.cache == CacheManager.Get(h, c, url, CacheManager.Image, now).cache
  {
    var look := CacheManager.Get(h, c, url, CacheManager.Image, now);
    if look.value.Some? && look.value.value != "" then Cached(Success(look.value.value), look.cache)
    else match (describe(url), ocr(url))
      case (Success(d), Success(o)) =>
        var result := Combine(d.GetOr(""), Trim(o.GetOr("")));
        Cached(Success(result), CacheManager.Set(h, look.cache, url, result, CacheManager.Image, now))
      case (Failure(e), _) => Cached(Failure(e), look.cache)
      case (_, Failure(e)) => Cached(Failure(e), look.cache)
  }

  /** A non-empty analysis obtained from the services is served from the
      cache for the next 24 hours, whatever the services would say then. */
  lemma AnalysisReused(h: Hash, c: CacheManager.Cache, url: string, t1: int, t2: int,
                       d1: string -> Result<Option<string>>, o1: string -> Result<Option<string>>,
                       d2: string -> Result<Option<string>>, o2: string -> Result<Option<string>>)
    requires !Hit(h, c, url, CacheManager.Image, t1)
    requires Vision(h, c, url, t1, d1, o1).result.Success? && Vision(h, c, url, t1, d1, o1).result.value != ""
    requires t2 - t1 <= CacheManager.ExpirationMs
    ensures var first := Vision(h, c, url, t1, d1, o1);
      Vision(h, first.cache, url, t2, d2, o2) == Cached(first.result, first.cache)
  {
  }

  /** An analysis that came out empty is stored but never served: the next
      call asks the services again. */
  lemma EmptyAnalysisNotReused(h: Hash, c: CacheManager.Cache, url: string, t1: int, t2: int,
                               d1: string -> Result<Option<string>>, o1: string -> Result<Option<string>>,
                               d2: string -> Result<Option<string>>, o2: string -> Result<Option<string>>)
    requires !Hit(h, c, url, CacheManager.Image, t1)
    requires d1(url).Success? && d1(url).value.GetOr("") == ""
    requires o1(url).Success? && o1(url).value.GetOr("") == ""
    ensures var first := Vision(h, c, url, t1, d1, o1);
      first.result == Success("") && !Hit(h, first.cache, url, CacheManager.Image, t2)
  {
    var look := CacheManager.Get(h, c, url, CacheManager.Image, t1);
    assert Trim("") == "";
    assert Combine("", "") == "";
    var first := Vision(h, c, url, t1, d1, o1);
    assert first.result == Success("");
    var stored := CacheManager.Set(h, look.cache, url, "", CacheManager.Image, t1);
    assert first.cache == stored;
    assert stored[CacheManager.Key(h, url, CacheManager.Image)].data == "";
    var again := CacheManager.Get(h, stored, url, CacheManager.Image, t2);
    assert again.value.Some? ==> again.value.value == "";
  }
}

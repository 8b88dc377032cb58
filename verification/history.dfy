/** The message handler's pure decisions: which inbound messages are answered
    at all, what user input they carry, which statistics they count, and how
    the fetched chat history becomes the transcript sent to the model. */
module History {
  import opened Wrappers
  import opened Text
  import opened Conversation
  import Stats
  import Country

  /** A platform message as the handler reads it. */
  datatype Message = Message(body: string, msgType: string, hasMedia: bool, fromMe: bool, author: string)

  /** Downloaded media: base64 data and its MIME type. */
  datatype Media = Media(data: string, mimetype: string)

  /** The services a message may need; a `Failure` is a rejected promise. */
  datatype Io = Io(
    download: Message -> Result<Media>,
    transcribe: string -> Result<string>,
    vision: string -> Result<string>,
    pdfText: string -> Result<string>)

  const ClearCommand := "/clear"
  const PdfMime := "application/pdf"
  const GroupSuffix := "@g.us"
  const UnsupportedNotice := "Please send a valid message. I do not support calls, videos, or location messages."
  const InviteNotice := "Please send a valid message. I do not support groups invites."
  const ClearedNotice := "Chat history cleared. This will remove all messages from the chat."

  predicate IsClear(body: string) {
    ClearCommand <= body
  }

  predicate IsVoice(msgType: string) {
    msgType == "ptt" || msgType == "audio"
  }

  function DataUrl(media: Media): string {
    "data:" + media.mimetype + ";base64," + media.data
  }

  /** The text part of a PDF document: the extracted text in brackets, then the
      caption when there is one. */
  function PdfNote(text: string, body: string): string {
    if body == [] then "[PDF: " + text + "]" else "[PDF: " + text + "] " + body
  }

  // ---------------------------------------------------------------------------
  // History normalisation

  /** The parts a downloaded history message contributes, by type. The vision
      call on a sticker is made only for its failure: its text is not used. */
  function MediaParts(m: Message, media: Media, io: Io): Result<seq<Part>> {
    if IsVoice(m.msgType) then
      match io.transcribe(media.data)
      case Failure(e) => Failure(e)
      case Success(t) => Success([TextPart(t)])
    else if m.msgType == "sticker" then
      match io.vision(media.data)
      case Failure(e) => Failure(e)
      case Success(_) => Success([ImageUrl(DataUrl(media))])
    else if m.msgType == "document" && media.mimetype == PdfMime then
      match io.pdfText(media.data)
      case Failure(e) => Failure(e)
      case Success(t) => Success([TextPart(PdfNote(t, m.body))])
    else if m.msgType == "image" then
      Success([ImageUrl(DataUrl(media))])
    else
      Success([])
  }

  /** The content of one history message, or the failure that skips it. */
  function Content(m: Message, io: Io): (r: Result<seq<Part>>)
    ensures !m.hasMedia ==> r == Success([TextPart(m.body)])
    ensures m.hasMedia && io.download(m).Failure? ==> r.Failure?
    ensures r.Success? ==> |r.value| <= 1
  {
    if m.hasMedia then
      match io.download(m)
      case Failure(e) => Failure(e)
      case Success(media) => MediaParts(m, media, io)
    else
      Success([TextPart(m.body)])
  }

  /** The turn one history message adds: none when its processing failed, an
      assistant turn with the raw body for the bot's own messages, and a user
      turn otherwise, headed by the author in a group. */
  function Contribution(m: Message, isGroup: bool, io: Io): (r: seq<Turn>)
    ensures |r| <= 1
    ensures r != [] <==> Content(m, io).Success?
    ensures r != [] && m.fromMe ==> r[0] == Assistant(m.body)
    ensures r != [] && !m.fromMe ==> r[0].User?
    ensures r != [] && !m.fromMe && isGroup ==> r[0].parts == [TextPart("[" + m.author + "]")] + Content(m, io).value
    ensures r != [] && !m.fromMe && !isGroup ==> r[0].parts == Content(m, io).value
  {
    match Content(m, io)
    case Failure(_) => []
    case Success(parts) =>
      if m.fromMe then [Assistant(m.body)]
      else if isGroup then [User([TextPart("[" + m.author + "]")] + parts)]
      else [User(parts)]
  }

  /** The turns of a stretch of history without `/clear` markers. */
  function Contributions(h: seq<Message>, isGroup: bool, io: Io): seq<Turn>
    decreases |h|
  {
    if h == [] then []
    else Contributions(h[..|h| - 1], isGroup, io) + Contribution(h[|h| - 1], isGroup, io)
  }

  /** Each message contributes at most one turn. */
  lemma {:induction false} ContributionsAtMostOneEach(h: seq<Message>, isGroup: bool, io: Io)
    ensures |Contributions(h, isGroup, io)| <= |h|
    decreases |h|
  {
    if h != [] {
      ContributionsAtMostOneEach(h[..|h| - 1], isGroup, io);
    }
  }

  /** The history after its last `/clear` marker: the longest suffix without a
      marker. */
  function AfterLastClear(h: seq<Message>): seq<Message>
    decreases |h|
  {
    if h == [] then []
    else if IsClear(h[|h| - 1].body) then []
    else AfterLastClear(h[..|h| - 1]) + [h[|h| - 1]]
  }

  /** `AfterLastClear` is a suffix without markers that is either the whole
      history or preceded by a marker. */
  lemma {:induction false} AfterLastClearIsLastSuffix(h: seq<Message>)
    ensures |AfterLastClear(h)| <= |h|
    ensures AfterLastClear(h) == h[|h| - |AfterLastClear(h)|..]
    ensures ClearFree(AfterLastClear(h))
    ensures |AfterLastClear(h)| < |h| ==> IsClear(h[|h| - |AfterLastClear(h)| - 1].body)
    decreases |h|
  {
    if h != [] && !IsClear(h[|h| - 1].body) {
      var h', last := h[..|h| - 1], h[|h| - 1];
      AfterLastClearIsLastSuffix(h');
      var r' := AfterLastClear(h');
      var r := r' + [last];
      assert AfterLastClear(h) == r;
      assert h == h' + [last];
      assert r' == h'[|h'| - |r'|..];
      assert r == h[|h| - |r|..];
      ClearFreeSnoc(r', last);
      if |r| < |h| {
        assert h[|h| - |r| - 1] == h'[|h'| - |r'| - 1];
      }
    }
  }

  lemma ClearFreeSnoc(r: seq<Message>, m: Message)
    requires ClearFree(r) && !IsClear(m.body)
    ensures ClearFree(r + [m])
  {
    forall i | 0 <= i < |r| + 1 ensures !IsClear((r + [m])[i].body) {
      if i < |r| {
        assert (r + [m])[i] == r[i];
      }
    }
  }

  /** The transcript the handler builds from the fetched history. */
  function Normalized(h: seq<Message>, isGroup: bool, io: Io): seq<Turn> {
    Contributions(AfterLastClear(h), isGroup, io)
  }

  /** The handler's loop over the fetched history, oldest first: a marker
      empties the transcript, a message that fails is skipped, every other
      message appends its turn. */
  method NormalizeHistory(history: seq<Message>, isGroup: bool, io: Io) returns (messages: seq<Turn>)
    ensures messages == Normalized(history, isGroup, io)
  {
    messages := [];
    var i := 0;
    while i < |history|
      invariant 0 <= i <= |history|
      invariant messages == Contributions(AfterLastClear(history[..i]), isGroup, io)
    {
      var m := history[i];
      assert history[..i + 1][..i] == history[..i];
      if IsClear(m.body) {
        messages := [];
      } else {
        var after := AfterLastClear(history[..i]);
        assert AfterLastClear(history[..i + 1]) == after + [m];
        assert (after + [m])[..|after|] == after;
        messages := messages + Contribution(m, isGroup, io);
      }
      i := i + 1;
    }
    assert history[..i] == history;
  }

  /** The transcript keeps the history's order: the turns of a concatenation
      are the turns of its halves, one after the other. */
  lemma {:induction false} ContributionsAppend(a: seq<Message>, b: seq<Message>, isGroup: bool, io: Io)
    ensures Contributions(a + b, isGroup, io) == Contributions(a, isGroup, io) + Contributions(b, isGroup, io)
    decreases |b|
  {
    if b != [] {
      var b' := b[..|b| - 1];
      assert (a + b)[..|a + b| - 1] == a + b';
      assert (a + b)[|a + b| - 1] == b[|b| - 1];
      ContributionsAppend(a, b', isGroup, io);
    } else {
      assert a + b == a;
    }
  }

  predicate ClearFree(h: seq<Message>) {
    forall i | 0 <= i < |h| :: !IsClear(h[i].body)
  }

  /** Appending history after a stretch: a marker in the new part hides
      everything before it, otherwise the new part is added in full. */
  lemma {:induction false} AfterLastClearAppend(a: seq<Message>, b: seq<Message>)
    ensures ClearFree(b) ==> AfterLastClear(a + b) == AfterLastClear(a) + b
    ensures !ClearFree(b) ==> AfterLastClear(a + b) == AfterLastClear(b)
    decreases |b|
  {
    if b == [] {
      assert a + b == a;
    } else {
      var b', last := b[..|b| - 1], b[|b| - 1];
      assert b == b' + [last];
      assert (a + b)[..|a + b| - 1] == a + b';
      assert (a + b)[|a + b| - 1] == last;
      if IsClear(last.body) {
        assert !ClearFree(b);
      } else {
        AfterLastClearAppend(a, b');
        assert ClearFree(b) == ClearFree(b') by {
          forall i | 0 <= i < |b'| ensures b'[i] == b[i] { }
        }
        assert AfterLastClear(a + b) == AfterLastClear(a + b') + [last];
        assert AfterLastClear(b) == AfterLastClear(b') + [last];
        if ClearFree(b') {
          assert AfterLastClear(a) + b' + [last] == AfterLastClear(a) + b;
        }
      }
    }
  }

  /** Only the messages after the last `/clear` marker reach the model. */
  lemma ClearHidesEarlierHistory(before: seq<Message>, marker: Message, after: seq<Message>, isGroup: bool, io: Io)
    requires IsClear(marker.body)
    ensures Normalized(before + [marker] + after, isGroup, io) == Normalized(after, isGroup, io)
  {
    AfterLastClearAppend(before + [marker], after);
    AfterLastClearAppend([], after);
    assert [] + after == after;
    if ClearFree(after) {
      assert AfterLastClear(before + [marker]) == [];
    }
  }

  /** A message whose processing fails is skipped: the transcript is the one
      built without it. */
  lemma FailedMessageSkipped(before: seq<Message>, m: Message, after: seq<Message>, isGroup: bool, io: Io)
    requires !IsClear(m.body) && Content(m, io).Failure?
    ensures Normalized(before + [m] + after, isGroup, io) == Normalized(before + after, isGroup, io)
  {
    AfterLastClearAppend(before + [m], after);
    AfterLastClearAppend(before, after);
    assert before + [m] + after == (before + [m]) + after;
    if ClearFree(after) {
      var head := AfterLastClear(before);
      assert AfterLastClear(before + [m]) == head + [m] by {
        assert (before + [m])[..|before|] == before;
      }
      ContributionsAppend(head + [m], after, isGroup, io);
      ContributionsAppend(head, after, isGroup, io);
      assert (head + [m])[..|head|] == head;
    }
  }

  /** Without markers or media every message gives exactly one turn, at its
      own position. */
  lemma {:induction false} PlainHistoryOneTurnEach(h: seq<Message>, isGroup: bool, io: Io)
    requires forall i | 0 <= i < |h| :: !h[i].hasMedia
    ensures |Contributions(h, isGroup, io)| == |h|
    ensures forall i | 0 <= i < |h| :: Contributions(h, isGroup, io)[i] == Contribution(h[i], isGroup, io)[0]
    decreases |h|
  {
    if h != [] {
      var h' := h[..|h| - 1];
      PlainHistoryOneTurnEach(h', isGroup, io);
      var last := Contribution(h[|h| - 1], isGroup, io);
      assert |last| == 1;
      forall i | 0 <= i < |h| ensures Contributions(h, isGroup, io)[i] == Contribution(h[i], isGroup, io)[0] {
        if i < |h'| {
          assert h'[i] == h[i];
        }
      }
    }
  }

  /** The bot's own messages come back as assistant turns carrying the raw
      body, whatever media they had, once their media processed. */
  lemma OwnMessageIsAssistantTurn(m: Message, isGroup: bool, io: Io)
    requires m.fromMe && !IsClear(m.body) && Content(m, io).Success?
    ensures Normalized([m], isGroup, io) == [Assistant(m.body)]
  {
    assert [m][..0] == [];
    assert AfterLastClear([m]) == [m];
    assert Contributions([m], isGroup, io) == Contribution(m, isGroup, io);
  }

  /** The content of a downloaded message by type: a transcript for voice, an
      image part for stickers and images, the PDF note for PDF documents and
      nothing for other media; a failing service skips the message. */
  lemma MediaContentByType(m: Message, media: Media, io: Io)
    requires m.hasMedia && io.download(m) == Success(media)
    ensures IsVoice(m.msgType) && io.transcribe(media.data).Success? ==>
      Content(m, io) == Success([TextPart(io.transcribe(media.data).value)])
    ensures (m.msgType == "sticker" && io.vision(media.data).Success?) || m.msgType == "image" ==>
      Content(m, io) == Success([ImageUrl(DataUrl(media))])
    ensures m.msgType == "document" && media.mimetype == PdfMime && io.pdfText(media.data).Success? ==>
      Content(m, io) == Success([TextPart(PdfNote(io.pdfText(media.data).value, m.body))])
    ensures m.msgType == "document" && media.mimetype != PdfMime ==> Content(m, io) == Success([])
    ensures !IsVoice(m.msgType) && m.msgType !in {"sticker", "image", "document"} ==> Content(m, io) == Success([])
    ensures IsVoice(m.msgType) && io.transcribe(media.data).Failure? ==> Content(m, io).Failure?
    ensures m.msgType == "sticker" && io.vision(media.data).Failure? ==> Content(m, io).Failure?
    ensures m.msgType == "document" && media.mimetype == PdfMime && io.pdfText(media.data).Failure? ==>
      Content(m, io).Failure?
  {
  }

  // ---------------------------------------------------------------------------
  // Inbound classification

  /** What the handler does with an inbound message. */
  datatype Action =
    | Ignored                 // a group message that does not mention the bot
    | Rejected(reply: string) // an unsupported type, answered with a notice
    | Silent                  // no input could be extracted
    | Cleared(notice: string) // the chat was cleared
    | Answer(input: string)   // the message goes on to the model
    | Failed                  // a media call threw: the handler's error path

  /** The action, and the statistics kinds counted on the way. */
  datatype Handled = Handled(action: Action, counted: seq<string>)

  /** The input a message carries and the statistics it counts. */
  datatype Extracted = Extracted(input: string, counted: seq<string>)

  predicate IsGroup(from: string) {
    Contains(from, GroupSuffix)
  }

  predicate IsUnsupported(msgType: string) {
    msgType == "call_log" || msgType == "video" || msgType == "location"
  }

  /** The statistics code: the first two characters of the sender's id, the
      part before `@` (`split("@")[0]` is `Before`). */
  function StatCode(from: string): (r: string)
    ensures r <= Before(from, "@")
    ensures |r| == if |Before(from, "@")| < 2 then |Before(from, "@")| else 2
  {
    var sender := Before(from, "@");
    if |sender| <= 2 then sender else sender[..2]
  }

  /** The downloaded part of the extraction: voice is transcribed and an image
      becomes the word "Image". */
  function FromMedia(m: Message, io: Io): Result<Extracted> {
    if !m.hasMedia then Success(Extracted("", []))
    else
      match io.download(m)
      case Failure(e) => Failure(e)
      case Success(media) =>
        if IsVoice(m.msgType) then
          match io.transcribe(media.data)
          case Failure(e) => Failure(e)
          case Success(t) => Success(Extracted(t, ["audio"]))
        else if m.msgType == "image" then Success(Extracted("Image", ["image"]))
        else Success(Extracted("", []))
  }

  /** The text-typed part of the extraction, applied after the media part. */
  function Overrides(m: Message, e: Extracted): Extracted {
    if m.msgType == "chat" then Extracted(m.body, e.counted + ["message"])
    else if m.msgType == "sticker" then Extracted("Sticker", e.counted + ["sticker"])
    else if m.msgType == "document" then Extracted("Document", e.counted + ["document"])
    else e
  }

  /** The user input of an inbound message and the statistics it counts,
      or the failure of a media call. */
  function Extract(m: Message, io: Io): Result<Extracted> {
    match FromMedia(m, io)
    case Failure(e) => Failure(e)
    case Success(x) => Success(Overrides(m, x))
  }

  /** The input by message type: the body of a text message, the transcript
      of a voice note, and a fixed word for images, stickers and documents;
      nothing for other types. Each counts its own kind, and a failing
      download or transcription counts nothing. */
  lemma InputByType(m: Message, io: Io)
    ensures m.hasMedia && io.download(m).Failure? ==> Extract(m, io).Failure?
    ensures !m.hasMedia || io.download(m).Success? ==>
      && (m.msgType == "chat" ==> Extract(m, io) == Success(Extracted(m.body, ["message"])))
      && (m.msgType == "sticker" ==> Extract(m, io) == Success(Extracted("Sticker", ["sticker"])))
      && (m.msgType == "document" ==> Extract(m, io) == Success(Extracted("Document", ["document"])))
      && (m.msgType == "image" && m.hasMedia ==> Extract(m, io) == Success(Extracted("Image", ["image"])))
      && (m.msgType == "image" && !m.hasMedia ==> Extract(m, io) == Success(Extracted("", [])))
      && (!IsVoice(m.msgType) && m.msgType !in {"chat", "sticker", "document", "image"} ==>
            Extract(m, io) == Success(Extracted("", [])))
    ensures IsVoice(m.msgType) && m.hasMedia && io.download(m).Success? ==>
      var t := io.transcribe(io.download(m).value.data);
      && (t.Failure? ==> Extract(m, io).Failure?)
      && (t.Success? ==> Extract(m, io) == Success(Extracted(t.value, ["audio"])))
  {
    if !m.hasMedia || io.download(m).Success? {
      if m.msgType == "chat" {
        assert !IsVoice(m.msgType) && m.msgType != "image";
        assert FromMedia(m, io) == Success(Extracted("", []));
        assert Overrides(m, Extracted("", [])) == Extracted(m.body, ["message"]);
      } else if m.msgType == "sticker" {
        assert !IsVoice(m.msgType) && m.msgType != "image" && m.msgType != "chat";
        assert FromMedia(m, io) == Success(Extracted("", []));
        assert Overrides(m, Extracted("", [])) == Extracted("Sticker", ["sticker"]);
      } else if m.msgType == "document" {
        assert !IsVoice(m.msgType) && m.msgType != "image" && m.msgType != "chat" && m.msgType != "sticker";
        assert FromMedia(m, io) == Success(Extracted("", []));
        assert Overrides(m, Extracted("", [])) == Extracted("Document", ["document"]);
      }
    }
  }

  /** The handler from the group gate to the point where the model is called. */
  function HandleInbound(m: Message, from: string, mentionsMe: bool, io: Io): (r: Handled)
    ensures IsGroup(from) && !mentionsMe ==> r == Handled(Ignored, [])
    ensures r.action == Failed <==> !(IsGroup(from) && !mentionsMe) && Extract(m, io).Failure?
    ensures r.action.Rejected? <==>
      !(IsGroup(from) && !mentionsMe) && Extract(m, io).Success? &&
      (IsUnsupported(m.msgType) || m.msgType == "groups_v4_invite")
    ensures !(IsGroup(from) && !mentionsMe) && Extract(m, io).Success?
            && !IsUnsupported(m.msgType) && m.msgType != "groups_v4_invite" ==>
      var e := Extract(m, io).value;
      && r.counted == e.counted
      && (r.action == Silent <==> e.input == [])
      && (r.action.Cleared? <==> e.input != [] && IsClear(e.input))
      && (r.action.Answer? <==> e.input != [] && !IsClear(e.input))
      && (r.action.Answer? ==> r.action.input == e.input)
    ensures r.action.Rejected? && IsUnsupported(m.msgType) ==> r.action.reply == UnsupportedNotice
    ensures r.action.Rejected? && !IsUnsupported(m.msgType) ==> r.action.reply == InviteNotice
    ensures r.action.Cleared? ==> r.action.notice == ClearedNotice
    ensures r.action.Answer? ==> r.action.input != [] && !IsClear(r.action.input)
    ensures |r.counted| <= 1
    ensures r.action.Rejected? ==> r.counted == []
  {
    if IsGroup(from) && !mentionsMe then Handled(Ignored, [])
    else
      match Extract(m, io)
      case Failure(_) => Handled(Failed, [])
      case Success(e) =>
        if IsUnsupported(m.msgType) then Handled(Rejected(UnsupportedNotice), e.counted)
        else if m.msgType == "groups_v4_invite" then Handled(Rejected(InviteNotice), e.counted)
        else if e.input == [] then Handled(Silent, e.counted)
        else if IsClear(e.input) then Handled(Cleared(ClearedNotice), e.counted)
        else Handled(Answer(e.input), e.counted)
  }

  /** A text message is counted as a message even when it is empty and gets
      no answer. */
  lemma EmptyTextCountedButSilent(m: Message, from: string, mentionsMe: bool, io: Io)
    requires m.msgType == "chat" && m.body == [] && !m.hasMedia
    requires !IsGroup(from) || mentionsMe
    ensures HandleInbound(m, from, mentionsMe, io) == Handled(Silent, ["message"])
  {
  }

  /** A text message is answered with its body, or clears the chat when the
      body starts with the command. */
  lemma TextMessage(m: Message, from: string, mentionsMe: bool, io: Io)
    requires m.msgType == "chat" && m.body != [] && !m.hasMedia
    requires !IsGroup(from) || mentionsMe
    ensures IsClear(m.body) ==> HandleInbound(m, from, mentionsMe, io) == Handled(Cleared(ClearedNotice), ["message"])
    ensures !IsClear(m.body) ==> HandleInbound(m, from, mentionsMe, io) == Handled(Answer(m.body), ["message"])
  {
  }

  /** The clear check looks at the extracted input, so a voice note whose
      transcript starts with the command clears the chat as well. */
  lemma SpokenClearClearsChat(m: Message, from: string, mentionsMe: bool, io: Io, media: Media, rest: string)
    requires m.msgType == "ptt" && m.hasMedia && (!IsGroup(from) || mentionsMe)
    requires io.download(m) == Success(media) && io.transcribe(media.data) == Success(ClearCommand + rest)
    ensures HandleInbound(m, from, mentionsMe, io) == Handled(Cleared(ClearedNotice), ["audio"])
  {
    assert ClearCommand <= ClearCommand + rest;
  }

  /** Images, stickers and documents reach the model as a fixed word,
      counted under their own kind. */
  lemma FixedWordInputs(m: Message, from: string, mentionsMe: bool, io: Io)
    requires !IsGroup(from) || mentionsMe
    requires !m.hasMedia || io.download(m).Success?
    ensures m.msgType == "image" && m.hasMedia ==>
      HandleInbound(m, from, mentionsMe, io) == Handled(Answer("Image"), ["image"])
    ensures m.msgType == "sticker" ==>
      HandleInbound(m, from, mentionsMe, io) == Handled(Answer("Sticker"), ["sticker"])
    ensures m.msgType == "document" ==>
      HandleInbound(m, from, mentionsMe, io) == Handled(Answer("Document"), ["document"])
  {
    InputByType(m, io);
    if m.msgType in {"image", "sticker", "document"} {
      assert !IsUnsupported(m.msgType) && m.msgType != "groups_v4_invite";
      assert "Image"[0] != ClearCommand[0] && "Sticker"[0] != ClearCommand[0] && "Document"[0] != ClearCommand[0];
      assert !IsClear("Image") && !IsClear("Sticker") && !IsClear("Document");
    }
  }

  /** A voice note whose transcription fails takes the error path before
      anything is counted. */
  lemma FailedTranscriptionCountsNothing(m: Message, from: string, mentionsMe: bool, io: Io, media: Media)
    requires IsVoice(m.msgType) && m.hasMedia && (!IsGroup(from) || mentionsMe)
    requires io.download(m) == Success(media) && io.transcribe(media.data).Failure?
    ensures HandleInbound(m, from, mentionsMe, io) == Handled(Failed, [])
  {
  }

  /** The sender id of a phone number is its digits; the statistics code is
      their first two, and since two bare digits carry no `+` the country
      lookup finds nothing and those digits become the statistics key. */
  lemma StatsKeyIsRawDigits(digits: string, domain: string)
    requires AllDigits(digits) && |digits| >= 2
    ensures StatCode(digits + "@" + domain) == digits[..2]
    ensures Stats.CountryKey(StatCode(digits + "@" + domain)) == digits[..2]
  {
    var from := digits + "@" + domain;
    var n := |digits|;
    assert from[n..n + 1] == "@";
    assert OccursAt(from, "@", n);
    forall j: nat | j < n ensures !OccursAt(from, "@", j) {
      assert from[j] == digits[j];
      assert from[j..j + 1][0] == from[j];
    }
    assert IndexOf(from, "@") == Some(n);
    assert Before(from, "@") == from[..n] == digits;
    Country.ShortDigitStringHasNoCountry(digits[..2]);
  }
}

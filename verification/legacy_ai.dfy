/** The older chat entry point, which returns the model's reasoning and its
    answer separately, both cut out of the raw reply with `split`. */
module LegacyAi {
  import opened Wrappers
  import opened Text
  import opened Think

  datatype Reply = Reply(answer: string, thinking: string)

  /** `full.split("<think>")[1]?.split("</think>")[0] ?? ""`: the text after
      the first opening tag, up to the next tag of either kind. */
  function Thinking(full: string): (r: string)
    ensures !Contains(full, Open) ==> r == ""
    ensures Contains(full, Open) ==>
      r == Before(Before(full[IndexOf(full, Open).value + |Open|..], Open), Close)
  {
    match SecondPiece(full, Open)
    case None => ""
    case Some(afterOpen) =>
      ghost var rest := full[IndexOf(full, Open).value + |Open|..];
      assert afterOpen == Before(rest, Open);
      Before(afterOpen, Close)
  }

  /** `full.split("</think>")[1]?.trim() ?? ""`: the trimmed text between the
      first and second closing tags, or nothing. */
  function Answer(full: string): (r: string)
    ensures !Contains(full, Close) ==> r == ""
    ensures Contains(full, Close) ==>
      r == Trim(Before(full[IndexOf(full, Close).value + |Close|..], Close))
  {
    match AfterClose(full)
    case None => ""
    case Some(after) => Trim(after)
  }

  /** The tail of the legacy `chat`: `content ?? ""`, then the two cuts. */
  function LegacyChat(content: Option<string>): (r: Reply)
    ensures content.None? ==> r == Reply("", "")
    ensures r.answer == Answer(content.GetOr("")) && r.thinking == Thinking(content.GetOr(""))
  {
    var full := content.GetOr("");
    Reply(Answer(full), Thinking(full))
  }

  /** A well-formed reply comes apart into its reasoning and its trimmed
      answer, whatever the two contain besides the tags. */
  lemma TaggedReplySplits(t: string, a: string)
    requires TagFree(t) && TagFree(a)
    ensures LegacyChat(Some(Tagged(t, a))) == Reply(Trim(a), t)
  {
    TaggedParts(t, a);
    TaggedBody(t, a);
  }

  /** A reply without the markup loses its answer: there is no closing tag,
      so the answer is empty however long the reply is. */
  lemma PlainReplyHasNoAnswer(s: string)
    requires TagFree(s)
    ensures LegacyChat(Some(s)) == Reply("", "")
  {
  }

  /** An opening tag that is never closed makes everything after it the
      reasoning, and the answer empty. */
  lemma UnclosedReasoning(t: string)
    requires TagFree(t)
    ensures LegacyChat(Some(Open + t)) == Reply("", t)
  {
    BothAreTags();
    NoneAfterTag(Open, t, Close);
    assert (Open + t)[0..|Open|] == Open;
    FirstAt(Open + t, Open, 0);
    assert (Open + t)[|Open|..] == t;
  }
}

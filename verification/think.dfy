/** The reasoning markup of the model's replies: a reply may start with
    `<think>…</think>` before the answer. Both the current and the legacy
    chat code cut the answer out with `split("</think>")[1]`. */
module Think {
  import opened Wrappers
  import opened Text

  const Open := "<think>"
  const Close := "</think>"

  /** `full.split(tag)[1]`, or `None` where JavaScript gives `undefined`
      (no `tag` in the text): the text between the first and the second
      occurrence of the tag, or up to the end when there is only one. */
  function SecondPiece(full: string, tag: string): (r: Option<string>)
    requires tag != []
    ensures r.Some? <==> Contains(full, tag)
    ensures r.Some? ==> r.value == Before(full[IndexOf(full, tag).value + |tag|..], tag)
  {
    var parts := Split(full, tag);
    if |parts| >= 2 then Some(parts[1]) else None
  }

  /** `full.split("</think>")[1]`: the text between the first and the second
      closing tag, or up to the end when there is only one. */
  function AfterClose(full: string): (r: Option<string>)
    ensures r.Some? <==> Contains(full, Close)
    ensures r.Some? ==> r.value == Before(full[IndexOf(full, Close).value + |Close|..], Close)
  {
    SecondPiece(full, Close)
  }

  /** A reply with reasoning `t` and answer `a`. */
  function Tagged(t: string, a: string): string {
    Open + t + Close + a
  }

  /** A tag: it starts with `<` and has no other `<`, so one occurrence of it
      cannot start inside another tag. */
  predicate IsTag(p: string) {
    |p| >= 2 && p[0] == '<' && forall i | 1 <= i < |p| :: p[i] != '<'
  }

  lemma BothAreTags()
    ensures IsTag(Open) && IsTag(Close) && Open[1] != Close[1]
  {
  }

  /** The text contains neither tag. */
  predicate TagFree(s: string) {
    !Contains(s, Open) && !Contains(s, Close)
  }

  /** An occurrence of `p` at `j` spells out `p` from `j` on. */
  lemma Inside(s: string, p: string, j: nat, i: nat)
    requires i < |p|
    ensures OccursAt(s, p, j) ==> j + i < |s| && s[j + i] == p[i]
  {
    if j + |p| <= |s| {
      assert s[j..j + |p|][i] == s[j + i];
    }
  }

  /** Occurrences in `y` are the occurrences in `x + y` shifted by `|x|`. */
  lemma Shift(x: string, y: string, p: string, k: nat)
    ensures OccursAt(x + y, p, |x| + k) <==> OccursAt(y, p, k)
  {
    if |x| + k + |p| <= |x + y| {
      assert (x + y)[|x| + k..|x| + k + |p|] == y[k..k + |p|];
    }
  }

  /** An occurrence that ends inside `x` is an occurrence in `x`. */
  lemma Within(x: string, y: string, p: string, j: nat)
    requires j + |p| <= |x|
    ensures OccursAt(x + y, p, j) <==> OccursAt(x, p, j)
  {
    assert (x + y)[j..j + |p|] == x[j..j + |p|];
  }

  /** The first occurrence is the one at `k` when none comes before it. */
  lemma FirstAt(s: string, p: string, k: nat)
    requires OccursAt(s, p, k)
    requires forall j: nat | j < k :: !OccursAt(s, p, j)
    ensures IndexOf(s, p) == Some(k)
  {
  }

  /** A tag `p` cannot start inside a text `x` free of it when a `<` follows
      `x`: it would have to end inside `x`, or have a second `<`. */
  lemma NoneBefore(x: string, y: string, p: string)
    requires IsTag(p) && !Contains(x, p) && y != [] && y[0] == '<'
    ensures forall j: nat | j < |x| :: !OccursAt(x + y, p, j)
  {
    forall j: nat | j < |x| ensures !OccursAt(x + y, p, j) {
      if j + |p| <= |x| {
        Within(x, y, p, j);
      } else {
        Inside(x + y, p, j, |x| - j);
        assert (x + y)[|x|] == y[0];
      }
    }
  }

  /** Joining two texts free of tag `p`, the second starting with `<`, gives
      no occurrence of `p` either. */
  lemma NoneInJoin(x: string, y: string, p: string)
    requires IsTag(p) && !Contains(x, p) && !Contains(y, p) && y != [] && y[0] == '<'
    ensures !Contains(x + y, p)
  {
    NoneBefore(x, y, p);
    forall j: nat | |x| <= j ensures !OccursAt(x + y, p, j) {
      Shift(x, y, p, j - |x|);
    }
  }

  /** A tag `q` followed by a text free of tag `p` contains no `p` when the
      two tags differ in their second character. */
  lemma NoneAfterTag(q: string, t: string, p: string)
    requires IsTag(q) && IsTag(p) && q[1] != p[1] && !Contains(t, p)
    ensures !Contains(q + t, p)
  {
    forall j: nat ensures !OccursAt(q + t, p, j) {
      Inside(q + t, p, j, 0);
      Inside(q + t, p, j, 1);
      if j < |q| {
        assert (q + t)[j] == q[j];
      } else {
        Shift(q, t, p, j - |q|);
      }
    }
  }

  /** A tag contains itself at the start and no other, different tag. */
  lemma TagAlone(q: string, p: string)
    requires IsTag(q) && IsTag(p) && q[1] != p[1]
    ensures !Contains(q, p) && IndexOf(q, q) == Some(0)
  {
    assert q + [] == q;
    NoneAfterTag(q, [], p);
    assert q[0..|q|] == q;
  }

  /** The opening tag of a tagged reply is its first, at the very start. */
  lemma OpensTagged(t: string, a: string)
    ensures IndexOf(Tagged(t, a), Open) == Some(0)
    ensures Tagged(t, a)[|Open|..] == t + Close + a
  {
    var full := Tagged(t, a);
    assert full[0..|Open|] == Open;
    FirstAt(full, Open, 0);
  }

  /** The first closing tag of a tagged reply comes right after reasoning
      free of it. */
  lemma ClosesTagged(t: string, a: string)
    requires !Contains(t, Close)
    ensures IndexOf(Tagged(t, a), Close) == Some(|Open| + |t|)
  {
    var full := Tagged(t, a);
    BothAreTags();
    NoneAfterTag(Open, t, Close);
    assert full == (Open + t) + (Close + a);
    NoneBefore(Open + t, Close + a, Close);
    assert full[|Open| + |t|..|Open| + |t| + |Close|] == Close;
    FirstAt(full, Close, |Open| + |t|);
  }

  /** Composing a tagged reply and cutting it apart again: the opening tag is
      at the start, the closing tag right after the reasoning, and the piece
      after it is the answer, for any reasoning and answer that contain
      neither tag. */
  lemma TaggedParts(t: string, a: string)
    requires TagFree(t) && TagFree(a)
    ensures IndexOf(Tagged(t, a), Open) == Some(0)
    ensures Tagged(t, a)[|Open|..] == t + Close + a
    ensures IndexOf(Tagged(t, a), Close) == Some(|Open| + |t|)
    ensures AfterClose(Tagged(t, a)) == Some(a)
  {
    OpensTagged(t, a);
    ClosesTagged(t, a);
    assert Tagged(t, a)[|Open| + |t| + |Close|..] == a;
  }

  /** The body of a tagged reply, `t + </think> + a`, has no opening tag and
      its first closing tag ends the reasoning. */
  lemma TaggedBody(t: string, a: string)
    requires TagFree(t) && TagFree(a)
    ensures !Contains(t + Close + a, Open)
    ensures IndexOf(t + Close + a, Close) == Some(|t|)
  {
    BothAreTags();
    var body := t + (Close + a);
    assert t + Close + a == body;
    NoneAfterTag(Close, a, Open);
    NoneInJoin(t, Close + a, Open);
    NoneBefore(t, Close + a, Close);
    assert body[|t|..|t| + |Close|] == Close;
    FirstAt(body, Close, |t|);
  }
}

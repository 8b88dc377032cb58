/** The per-chat admission guard around a reply: a chat that is already being
    answered, or that was answered less than 30 seconds ago, drops the new
    trigger; otherwise the chat is marked active, the reply callback runs, the
    reply time is recorded if the callback completed, and the active flag is
    cleared on every exit path. The asynchronous steps are modelled as a
    `Begin` step, the callback's outcome, and a `Finish` step. */
module MessageManager {

  /** Quiet period after a reply, in milliseconds. */
  const CacheExpiryMs: nat := 30000

  type ChatId = string

  /** `activeChats` and `replyCache` of the singleton manager. */
  datatype Guard = Guard(active: map<ChatId, bool>, replyCache: map<ChatId, int>)

  const EmptyGuard := Guard(map[], map[])

  /** Everything the guard records about one chat. */
  datatype ChatView = ChatView(active: bool, activeKnown: bool, lastReply: int, replied: bool)

  function View(g: Guard, id: ChatId): ChatView {
    ChatView(
      id in g.active && g.active[id], id in g.active,
      if id in g.replyCache then g.replyCache[id] else 0, id in g.replyCache)
  }

  predicate IsActive(g: Guard, id: ChatId) {
    id in g.active && g.active[id]
  }

  /** The JavaScript test `lastReplyTime && now - lastReplyTime < 30000`:
      a recorded time of 0 is falsy and never blocks. */
  predicate RecentlyReplied(g: Guard, id: ChatId, now: int) {
    id in g.replyCache && g.replyCache[id] != 0 && now - g.replyCache[id] < CacheExpiryMs
  }

  datatype Admission = Admission(admitted: bool, guard: Guard)

  /** Entry of `handleMessageWithTyping`: drop the trigger or mark the chat active. */
  function Begin(g: Guard, id: ChatId, now: int): (r: Admission)
    ensures IsActive(g, id) ==> !r.admitted && r.guard == g
    ensures RecentlyReplied(g, id, now) ==> !r.admitted && r.guard == g
    ensures !IsActive(g, id) && !RecentlyReplied(g, id, now) ==> r.admitted
    ensures r.admitted ==> IsActive(r.guard, id) && r.guard.replyCache == g.replyCache
    ensures forall other | other != id :: View(r.guard, other) == View(g, other)
  {
    if IsActive(g, id) || RecentlyReplied(g, id, now) then
      Admission(false, g)
    else
      Admission(true, g.(active := g.active[id := true]))
  }

  /** How the guarded part ended: the callback resolved (the reply time is
      then recorded), or the typing signal, the delay or the callback threw. */
  datatype Exit = Completed | Threw

  /** The tail of the `try` and the `finally` block. */
  function Finish(g: Guard, id: ChatId, exit: Exit, now: int): (r: Guard)
    ensures !IsActive(r, id) && id in r.active
    ensures exit == Completed ==> id in r.replyCache && r.replyCache[id] == now
    ensures exit == Threw ==> r.replyCache == g.replyCache
    ensures forall other | other != id :: View(r, other) == View(g, other)
  {
    var recorded := if exit == Completed then g.replyCache[id := now] else g.replyCache;
    Guard(g.active[id := false], recorded)
  }

  /** One whole call: whether the callback ran, and the guard afterwards.
      `exit` is the callback's outcome and `tEnd` the time it finished; both
      only matter when the trigger is admitted. */
  function Handle(g: Guard, id: ChatId, tStart: int, exit: Exit, tEnd: int): (r: Admission)
    ensures r.admitted <==> !IsActive(g, id) && !RecentlyReplied(g, id, tStart)
    ensures !r.admitted ==> r.guard == g
    ensures r.admitted ==> !IsActive(r.guard, id)
    ensures r.admitted && exit == Completed ==> id in r.guard.replyCache && r.guard.replyCache[id] == tEnd
    ensures r.admitted && exit == Threw ==> r.guard.replyCache == g.replyCache
    ensures forall other | other != id :: View(r.guard, other) == View(g, other)
  {
    var b := Begin(g, id, tStart);
    if b.admitted then Admission(true, Finish(b.guard, id, exit, tEnd)) else b
  }

  /** `clearCache(chatId)`: forget the chat's reply time and nothing else. */
  function ClearCache(g: Guard, id: ChatId): (r: Guard)
    ensures id !in r.replyCache
    ensures r.active == g.active
    ensures forall other | other != id :: View(r, other) == View(g, other)
  {
    g.(replyCache := g.replyCache - {id})
  }

  /** `cleanupCache`: drop exactly the reply times older than the quiet period. */
  function CleanupCache(g: Guard, now: int): (r: Guard)
    ensures r.active == g.active
    ensures forall id :: id in r.replyCache <==> id in g.replyCache && now - g.replyCache[id] <= CacheExpiryMs
    ensures forall id | id in r.replyCache :: r.replyCache[id] == g.replyCache[id]
  {
    g.(replyCache := map id | id in g.replyCache && now - g.replyCache[id] <= CacheExpiryMs :: g.replyCache[id])
  }

  /** The periodic cleanup only forgets reply times that no longer block: a
      trigger at the cleanup time or later is admitted or dropped as it
      would have been without it. */
  lemma CleanupKeepsAdmission(g: Guard, id: ChatId, now: int, later: int)
    requires now <= later
    ensures Begin(CleanupCache(g, now), id, later).admitted == Begin(g, id, later).admitted
  {
  }

  /** Single flight: once a trigger is admitted, a second trigger for the same
      chat is dropped until the first one finishes, whatever the time. */
  lemma SecondTriggerDropped(g: Guard, id: ChatId, t1: int, t2: int)
    requires Begin(g, id, t1).admitted
    ensures !Begin(Begin(g, id, t1).guard, id, t2).admitted
  {
  }

  /** The quiet period after a completed reply at `t` (a non-zero time):
      a trigger `d` milliseconds later is admitted exactly when `d >= 30000`. */
  lemma QuietPeriodAfterReply(g: Guard, id: ChatId, t0: int, t: int, d: int)
    requires Begin(g, id, t0).admitted
    requires t != 0
    ensures var after := Handle(g, id, t0, Completed, t).guard;
      Begin(after, id, t + d).admitted <==> d >= CacheExpiryMs
  {
  }

  /** A callback that throws never starts the quiet period: the chat is
      admitted again straight away unless an earlier reply still blocks it. */
  lemma FailedReplyDoesNotBlock(g: Guard, id: ChatId, t0: int, t: int)
    requires Begin(g, id, t0).admitted
    requires !RecentlyReplied(g, id, t)
    ensures Begin(Handle(g, id, t0, Threw, t).guard, id, t).admitted
  {
  }
}

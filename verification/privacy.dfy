/** The consent store: which senders have been shown the privacy notice,
    keyed by a digest of the phone number so that the raw number is never
    stored. */
module Privacy {
  import opened Hashing

  /** One stored record; `timestamp` is the ISO time of acceptance. */
  datatype Record = Record(policyAccepted: bool, timestamp: string)

  type Store = map<string, Record>

  /** What reading the store's file produced. */
  datatype StoreFile = Missing | Unreadable | Parsed(data: Store)

  /** `initializeData`: a parsed file is taken as is; a missing file starts
      empty, and a file that cannot be read or parsed also gives an empty store. */
  function Initialize(file: StoreFile): (s: Store)
    ensures file.Parsed? ==> s == file.data
    ensures !file.Parsed? ==> s == map[]
  {
    match file
    case Parsed(data) => data
    case _ => map[]
  }

  /** `hasAcceptedPolicy`: `data[hash]?.policyAccepted || false`. */
  function HasAcceptedPolicy(h: Hash, s: Store, phone: string): (r: bool)
    ensures r <==> h(phone) in s && s[h(phone)].policyAccepted
  {
    var key := h(phone);
    if key in s then s[key].policyAccepted else false
  }

  /** `markPolicyAccepted`: record acceptance under the number's digest,
      replacing any earlier record for it. */
  function MarkPolicyAccepted(h: Hash, s: Store, phone: string, now: string): (r: Store)
    ensures r.Keys == s.Keys + {h(phone)}
    ensures r[h(phone)] == Record(true, now)
    ensures forall k | k in s && k != h(phone) :: r[k] == s[k]
  {
    s[h(phone) := Record(true, now)]
  }

  /** Every key of the store is the digest of some number in `seen`. */
  ghost predicate KeysAreDigests(h: Hash, s: Store, seen: set<string>) {
    forall k | k in s :: exists p | p in seen :: k == h(p)
  }

  /** What the message handler does first: a sender who has not accepted
      is sent the notice and nothing else happens for that message. The
      sender is recorded as having accepted only after the notice was
      delivered; a failed send throws before the record is made. */
  datatype Gate = ShowNotice(store: Store) | Proceed(store: Store)

  function ConsentGate(h: Hash, s: Store, sender: string, now: string, delivered: bool): (r: Gate)
    ensures r.ShowNotice? <==> !HasAcceptedPolicy(h, s, sender)
    ensures r.Proceed? ==> r.store == s
    ensures delivered ==> HasAcceptedPolicy(h, r.store, sender)
    ensures !delivered ==> r.store == s
    ensures forall k | k in s && k != h(sender) :: k in r.store && r.store[k] == s[k]
    ensures r.store.Keys <= s.Keys + {h(sender)}
  {
    if !HasAcceptedPolicy(h, s, sender) then
      ShowNotice(if delivered then MarkPolicyAccepted(h, s, sender, now) else s)
    else Proceed(s)
  }

  /** The store after marking each of `phones` in turn, all at time `now`. */
  function MarkAll(h: Hash, s: Store, phones: seq<string>, now: string): (r: Store)
    ensures forall p | p in phones :: HasAcceptedPolicy(h, r, p)
    ensures forall p | HasAcceptedPolicy(h, s, p) :: HasAcceptedPolicy(h, r, p)
    decreases |phones|
  {
    if phones == [] then s
    else MarkAll(h, MarkPolicyAccepted(h, s, phones[0], now), phones[1..], now)
  }

  /** Starting from a store that could not be loaded, a number that was never
      marked has not accepted, however many other numbers were marked. */
  lemma {:induction false} NeverMarkedNotAccepted(h: Hash, file: StoreFile, phones: seq<string>, phone: string, now: string)
    requires Injective(h)
    requires !file.Parsed?
    requires phone !in phones
    ensures !HasAcceptedPolicy(h, MarkAll(h, Initialize(file), phones, now), phone)
  {
    MarkAllKeepsOthers(h, Initialize(file), phones, phone, now);
  }

  lemma {:induction false} MarkAllKeepsOthers(h: Hash, s: Store, phones: seq<string>, phone: string, now: string)
    requires Injective(h)
    requires phone !in phones
    ensures HasAcceptedPolicy(h, MarkAll(h, s, phones, now), phone) == HasAcceptedPolicy(h, s, phone)
    decreases |phones|
  {
    if phones != [] {
      MarkIsLocal(h, s, phones[0], phone, now);
      assert phone !in phones[1..];
      MarkAllKeepsOthers(h, MarkPolicyAccepted(h, s, phones[0], now), phones[1..], phone, now);
    }
  }

  /** After marking, the number has accepted. */
  lemma MarkThenHas(h: Hash, s: Store, phone: string, now: string)
    ensures HasAcceptedPolicy(h, MarkPolicyAccepted(h, s, phone, now), phone)
  {
  }

  /** Marking one number does not change the answer for any other number,
      given that distinct numbers have distinct digests. */
  lemma MarkIsLocal(h: Hash, s: Store, phone: string, other: string, now: string)
    requires Injective(h)
    requires other != phone
    ensures HasAcceptedPolicy(h, MarkPolicyAccepted(h, s, phone, now), other)
        == HasAcceptedPolicy(h, s, other)
  {
    assert h(other) != h(phone);
  }

  /** Stored keys are digests: marking keeps every key the digest of a number
      seen so far, now including the marked one. */
  lemma MarkKeepsDigestKeys(h: Hash, s: Store, seen: set<string>, phone: string, now: string)
    requires KeysAreDigests(h, s, seen)
    ensures KeysAreDigests(h, MarkPolicyAccepted(h, s, phone, now), seen + {phone})
  {
    var r := MarkPolicyAccepted(h, s, phone, now);
    forall k | k in r ensures exists p | p in seen + {phone} :: k == h(p) {
      if k == h(phone) {
        assert phone in seen + {phone};
      } else {
        var p :| p in seen && k == h(p);
        assert p in seen + {phone};
      }
    }
  }

  /** Marking twice answers every query as marking once does. */
  lemma MarkTwiceSameAnswer(h: Hash, s: Store, phone: string, t1: string, t2: string, q: string)
    ensures HasAcceptedPolicy(h, MarkPolicyAccepted(h, MarkPolicyAccepted(h, s, phone, t1), phone, t2), q)
        == HasAcceptedPolicy(h, MarkPolicyAccepted(h, s, phone, t1), q)
  {
  }

  /** The first message from a new sender only produces the notice; once it
      was delivered, the next message from the same sender goes through with
      the store unchanged. */
  lemma NoticeShownOnce(h: Hash, s: Store, sender: string, t1: string, t2: string, d2: bool)
    requires !HasAcceptedPolicy(h, s, sender)
    ensures var first := ConsentGate(h, s, sender, t1, true);
      && first.ShowNotice?
      && ConsentGate(h, first.store, sender, t2, d2) == Proceed(first.store)
  {
  }

  /** A notice that could not be delivered is sent again with the next
      message: nothing was recorded. */
  lemma UndeliveredNoticeRepeats(h: Hash, s: Store, sender: string, t1: string, t2: string, d2: bool)
    requires !HasAcceptedPolicy(h, s, sender)
    ensures var first := ConsentGate(h, s, sender, t1, false);
      && first == ShowNotice(s)
      && ConsentGate(h, first.store, sender, t2, d2).ShowNotice?
  {
  }
}

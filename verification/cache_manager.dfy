/** The media-analysis cache: transcriptions and image analyses keyed by a
    digest of `kind + ":" + input`, with a 24-hour lifetime, lazy removal of
    expired entries on lookup and a periodic sweep. Time is in milliseconds. */
module CacheManager {
  import opened Wrappers
  import opened Hashing

  /** Entries older than this many milliseconds are expired. */
  const ExpirationMs: nat := 24 * 60 * 60 * 1000

  datatype Kind = Transcription | Image

  function KindName(k: Kind): string {
    match k
    case Transcription => "transcription"
    case Image => "image"
  }

  /** A stored analysis with the time it was written. */
  datatype Entry = Entry(kind: Kind, data: string, originalInput: string, timestamp: int)

  type Cache = map<string, Entry>

  /** The storage key of an input of a given kind. */
  function Key(h: Hash, input: string, kind: Kind): string {
    h(KindName(kind) + ":" + input)
  }

  /** Expiry is strict: an entry exactly `ExpirationMs` old is still live. */
  predicate IsExpired(timestamp: int, now: int) {
    now - timestamp > ExpirationMs
  }

  /** The result of a lookup together with the cache it leaves behind. */
  datatype Lookup = Lookup(value: Option<string>, cache: Cache)

  /** `get(input, type)`: a live entry's data, or nothing; an expired entry
      is deleted, and a missing key changes nothing. */
  function Get(h: Hash, c: Cache, input: string, kind: Kind, now: int): (r: Lookup)
    ensures var key := Key(h, input, kind);
      && (r.value.Some? <==> key in c && !IsExpired(c[key].timestamp, now))
      && (r.value.Some? ==> r.value.value == c[key].data && r.cache == c)
      && (r.value.None? && key in c ==> r.cache.Keys == c.Keys - {key})
      && (r.value.None? && key !in c ==> r.cache == c)
      && (forall k | k in r.cache :: k in c && r.cache[k] == c[k])
  {
    var key := Key(h, input, kind);
    if key !in c || IsExpired(c[key].timestamp, now) then
      Lookup(None, c - {key})
    else
      Lookup(Some(c[key].data), c)
  }

  /** `set(input, data, type)`: last write wins for the input's key and every
      other key keeps its entry. */
  function Set(h: Hash, c: Cache, input: string, data: string, kind: Kind, now: int): (r: Cache)
    ensures var key := Key(h, input, kind);
      && r.Keys == c.Keys + {key}
      && r[key] == Entry(kind, data, input, now)
      && (forall k | k in c && k != key :: r[k] == c[k])
  {
    c[Key(h, input, kind) := Entry(kind, data, input, now)]
  }

  /** `cleanExpiredEntries`: the sweep keeps exactly the live entries, unchanged. */
  function CleanExpired(c: Cache, now: int): (r: Cache)
    ensures forall k :: k in r <==> k in c && !IsExpired(c[k].timestamp, now)
    ensures forall k | k in r :: r[k] == c[k]
  {
    map k | k in c && !IsExpired(c[k].timestamp, now) :: c[k]
  }

  /** What reading the snapshot file produced. */
  datatype Snapshot = Missing | Unreadable | Parsed(entries: Cache)

  /** `initializeCache`: a parsed snapshot is swept; a missing file starts
      empty and an unreadable or unparsable one degrades to empty. */
  function Initialize(snap: Snapshot, now: int): (c: Cache)
    ensures !snap.Parsed? ==> c == map[]
    ensures snap.Parsed? ==> c.Keys <= snap.entries.Keys
    ensures forall k | k in c :: !IsExpired(c[k].timestamp, now)
    ensures snap.Parsed? ==> forall k | k in snap.entries && !IsExpired(snap.entries[k].timestamp, now) ::
      k in c && c[k] == snap.entries[k]
  {
    match snap
    case Parsed(entries) => CleanExpired(entries, now)
    case _ => map[]
  }

  /** Transcriptions and image analyses never share a key, whatever the inputs. */
  lemma KindsNeverCollide(h: Hash, audio: string, image: string)
    requires Injective(h)
    ensures Key(h, audio, Transcription) != Key(h, image, Image)
  {
    var a := KindName(Transcription) + ":" + audio;
    var b := KindName(Image) + ":" + image;
    assert a[0] == 't' && b[0] == 'i';
  }

  /** Within one kind, distinct inputs get distinct keys. */
  lemma KeyDeterminesInput(h: Hash, x: string, y: string, kind: Kind)
    requires Injective(h)
    requires Key(h, x, kind) == Key(h, y, kind)
    ensures x == y
  {
    var p := KindName(kind) + ":";
    assert p + x == p + y;
    assert x == (p + x)[|p|..];
    assert y == (p + y)[|p|..];
  }

  /** A value stored at `t` is returned by a lookup at any `t'` no more than
      24 hours later, and the lookup leaves the cache as it was. */
  lemma SetThenGetWithinTtl(h: Hash, c: Cache, x: string, d: string, kind: Kind, t: int, t': int)
    requires t' - t <= ExpirationMs
    ensures Get(h, Set(h, c, x, d, kind, t), x, kind, t') == Lookup(Some(d), Set(h, c, x, d, kind, t))
  {
  }

  /** Past the lifetime the stored value is gone: the lookup misses and
      removes exactly that key, restoring every other entry. */
  lemma SetThenGetAfterTtl(h: Hash, c: Cache, x: string, d: string, kind: Kind, t: int, t': int)
    requires t' - t > ExpirationMs
    ensures Get(h, Set(h, c, x, d, kind, t), x, kind, t') == Lookup(None, c - {Key(h, x, kind)})
  {
    var key := Key(h, x, kind);
    var s := Set(h, c, x, d, kind, t);
    assert s - {key} == c - {key};
  }

  /** Storing a transcription does not change what an image lookup returns,
      even for the same input text. */
  lemma StoreDoesNotLeakAcrossKinds(h: Hash, c: Cache, x: string, d: string, t: int, t': int)
    requires Injective(h)
    ensures Get(h, Set(h, c, x, d, Transcription, t), x, Image, t').value
         == Get(h, c, x, Image, t').value
  {
    KindsNeverCollide(h, x, x);
  }

  /** Loading a snapshot loses nothing a lookup could still return: from the
      load on, every lookup answers as it would on the file's entries. */
  lemma InitializeKeepsLookups(h: Hash, entries: Cache, x: string, kind: Kind, now: int, later: int)
    requires now <= later
    ensures Get(h, Initialize(Parsed(entries), now), x, kind, later).value == Get(h, entries, x, kind, later).value
  {
  }

  /** Sweeping twice at the same time is the same as sweeping once. */
  lemma CleanExpiredIdempotent(c: Cache, now: int)
    ensures CleanExpired(CleanExpired(c, now), now) == CleanExpired(c, now)
  {
  }
}

/** Usage counters: totals per message type and the same counters per
    country. A country is the ISO code of the given calling code when the
    lookup finds one, otherwise the given string itself. */
module Stats {
  import opened Wrappers
  import Country

  datatype CountryStats = CountryStats(messages: nat, audios: nat, images: nat)

  datatype Stats = Stats(totalMessages: nat, totalAudios: nat, totalImages: nat,
                         byCountry: map<string, CountryStats>)

  const ZeroCounts := CountryStats(0, 0, 0)

  /** `defaultStats`. */
  const DefaultStats := Stats(0, 0, 0, map[])

  /** The country key under which an event is counted. */
  function CountryKey(code: string): string {
    Country.GetCountryCodeFromPhone(code).GetOr(code)
  }

  /** One more event of `kind` in a country's counters; other kinds leave
      them as they are. */
  function Bump(c: CountryStats, kind: string): CountryStats {
    CountryStats(
      c.messages + (if kind == "message" then 1 else 0),
      c.audios + (if kind == "audio" then 1 else 0),
      c.images + (if kind == "image" then 1 else 0))
  }

  /** `updateStats(countryCode, messageType)` on the loaded statistics. */
  function UpdateStats(s: Stats, code: string, kind: string): (r: Stats)
    ensures r.totalMessages == s.totalMessages + (if kind == "message" then 1 else 0)
    ensures r.totalAudios == s.totalAudios + (if kind == "audio" then 1 else 0)
    ensures r.totalImages == s.totalImages + (if kind == "image" then 1 else 0)
    ensures var key := CountryKey(code);
      && r.byCountry.Keys == s.byCountry.Keys + {key}
      && (key !in s.byCountry ==> r.byCountry[key] == Bump(ZeroCounts, kind))
      && (key in s.byCountry ==> r.byCountry[key] == Bump(s.byCountry[key], kind))
      && (forall other | other in s.byCountry && other != key :: r.byCountry[other] == s.byCountry[other])
  {
    var key := CountryKey(code);
    var before := if key in s.byCountry then s.byCountry[key] else ZeroCounts;
    Stats(
      s.totalMessages + (if kind == "message" then 1 else 0),
      s.totalAudios + (if kind == "audio" then 1 else 0),
      s.totalImages + (if kind == "image" then 1 else 0),
      s.byCountry[key := Bump(before, kind)])
  }

  /** The statistics file as read: parsed, or unreadable. */
  datatype StatsFile = Readable(stats: Stats) | Unreadable

  /** `loadStats`: the file's contents, or the module's shared default
      object when reading or parsing fails. */
  function LoadStats(file: StatsFile, shared: Stats): (r: Stats)
    ensures file.Readable? ==> r == file.stats
    ensures file.Unreadable? ==> r == shared
  {
    match file
    case Readable(s) => s
    case Unreadable => shared
  }

  /** The statistics saved by one `updateStats` call and the shared default
      object afterwards: on a failed read the update is applied to the shared
      default object itself, so it no longer holds zeros. */
  datatype Recorded = Recorded(saved: Stats, shared: Stats)

  function RecordEvent(file: StatsFile, shared: Stats, code: string, kind: string): (r: Recorded)
    ensures r.saved == UpdateStats(LoadStats(file, shared), code, kind)
    ensures file.Readable? ==> r.shared == shared
    ensures file.Unreadable? ==> r.shared == r.saved
  {
    var s := UpdateStats(LoadStats(file, shared), code, kind);
    Recorded(s, if file.Unreadable? then s else shared)
  }

  /** A kind outside message/audio/image (the caller passes "sticker" and
      "document") changes no counter, yet creates the country's entry. */
  lemma OtherKindsOnlyCreateEntry(s: Stats, code: string, kind: string)
    requires kind != "message" && kind != "audio" && kind != "image"
    ensures var r := UpdateStats(s, code, kind);
      && r.totalMessages == s.totalMessages && r.totalAudios == s.totalAudios
      && r.totalImages == s.totalImages
      && CountryKey(code) in r.byCountry
      && (CountryKey(code) in s.byCountry ==> r.byCountry == s.byCountry)
  {
  }

  /** While the file cannot be read, counts still accumulate across calls in
      the shared default object: two messages in a row save a total of 2. */
  lemma UnreadableFileAccumulates(code: string)
    ensures var first := RecordEvent(Unreadable, DefaultStats, code, "message");
      RecordEvent(Unreadable, first.shared, code, "message").saved.totalMessages == 2
  {
  }
}

/** Reminders: parsing of durations such as `30m`, the human-readable time
    left, and the reminder list with its add, clear-by-user and periodic
    delivery operations. Time is in milliseconds. */
module Reminders {
  import opened Wrappers
  import opened Text

  const MinuteMs: nat := 60 * 1000
  const HourMs: nat := 60 * 60 * 1000
  const DayMs: nat := 24 * 60 * 60 * 1000

  const InvalidFormat := "Invalid duration format. Use format like 1d, 2h, 30m"
  const FailurePrefix := "Failed to set reminder: "

  datatype Reminder = Reminder(id: string, phone: string, message: string, dueTime: int, notified: bool)

  // ---------------------------------------------------------------------
  // Durations

  datatype Unit = Days | Hours | Minutes

  function UnitMs(u: Unit): nat {
    match u
    case Days => DayMs
    case Hours => HourMs
    case Minutes => MinuteMs
  }

  /** The unit letters of `[dhm]`. */
  function UnitOf(c: char): Option<Unit> {
    match c
    case 'd' => Some(Days)
    case 'h' => Some(Hours)
    case 'm' => Some(Minutes)
    case _ => None
  }

  /** `parseDuration`: `^(\d+)([dhm])$` on the lower-cased text, then the
      amount times the unit's length. */
  function ParseDuration(duration: string): (r: Result<nat>)
    ensures r.Success? <==>
      |duration| >= 2 && AllDigits(duration[..|duration| - 1])
      && UnitOf(LowerChar(duration[|duration| - 1])).Some?
    ensures r.Success? ==>
      r.value == DecimalValue(duration[..|duration| - 1]) * UnitMs(UnitOf(LowerChar(duration[|duration| - 1])).value)
    ensures r.Failure? ==> r.error == InvalidFormat
  {
    var s := ToLower(duration);
    if |s| >= 2 && AllDigits(s[..|s| - 1]) && UnitOf(s[|s| - 1]).Some? then
      assert s[..|s| - 1] == duration[..|duration| - 1] by {
        LowerDigits(duration[..|duration| - 1]);
        assert ToLower(duration[..|duration| - 1]) == s[..|s| - 1];
      }
      Success(DecimalValue(s[..|s| - 1]) * UnitMs(UnitOf(s[|s| - 1]).value))
    else
      assert |s| >= 2 && AllDigits(duration[..|duration| - 1]) ==> AllDigits(s[..|s| - 1]) by {
        if |s| >= 2 && AllDigits(duration[..|duration| - 1]) {
          LowerDigits(duration[..|duration| - 1]);
          assert ToLower(duration[..|duration| - 1]) == s[..|s| - 1];
        }
      }
      Failure(InvalidFormat)
  }

  /** Lower-casing leaves digits alone. */
  lemma LowerDigits(s: string)
    requires AllDigits(s)
    ensures ToLower(s) == s
  {
  }

  /** Writing an amount and a unit letter (either case) and parsing it gives
      the amount in milliseconds. */
  lemma ParseWritten(n: nat, letter: char)
    requires UnitOf(LowerChar(letter)).Some?
    ensures ParseDuration(NatToString(n) + [letter]) == Success(n * UnitMs(UnitOf(LowerChar(letter)).value))
  {
    var s := NatToString(n) + [letter];
    assert s[..|s| - 1] == NatToString(n);
    DecimalRoundTrip(n);
  }

  // ---------------------------------------------------------------------
  // Time left

  /** A span split into whole days, hours and minutes. */
  datatype Span = Span(days: nat, hours: nat, minutes: nat)

  function SpanMs(s: Span): nat {
    s.days * DayMs + s.hours * HourMs + s.minutes * MinuteMs
  }

  /** The floor divisions of `formatTimeLeft`: the largest span of whole
      units that fits into `ms`, with under a minute left over. */
  function Decompose(ms: nat): (r: Span)
    ensures SpanMs(r) <= ms < SpanMs(r) + MinuteMs
    ensures r.hours < 24 && r.minutes < 60
  {
    var days := ms / DayMs;
    var rest := ms % DayMs;
    Span(days, rest / HourMs, (rest % HourMs) / MinuteMs)
  }

  /** The decomposition is the only one with those bounds. */
  lemma DecomposeUnique(ms: nat, s: Span)
    requires SpanMs(s) <= ms < SpanMs(s) + MinuteMs
    requires s.hours < 24 && s.minutes < 60
    ensures s == Decompose(ms)
  {
    var rest := s.hours * HourMs + s.minutes * MinuteMs;
    assert rest <= 23 * HourMs + 59 * MinuteMs;
    assert s.days == ms / DayMs;
    assert ms % DayMs == ms - s.days * DayMs;
    assert s.hours == (ms % DayMs) / HourMs;
    assert s.minutes == (ms % DayMs % HourMs) / MinuteMs;
  }

  /** `"<n> <unit>"` with an `s` for more than one. */
  function Part(n: nat, unit: string): string {
    NatToString(n) + " " + unit + (if n > 1 then "s" else "")
  }

  /** The number of non-zero units of a span. */
  function NonZeroUnits(s: Span): nat {
    (if s.days > 0 then 1 else 0) + (if s.hours > 0 then 1 else 0) + (if s.minutes > 0 then 1 else 0)
  }

  /** The non-zero parts, largest unit first: days, then hours, then
      minutes, each present exactly when its count is positive. */
  function Parts(s: Span): (r: seq<string>)
    ensures |r| == NonZeroUnits(s)
    ensures r == [] <==> s.days == 0 && s.hours == 0 && s.minutes == 0
    ensures s.days > 0 ==> r[0] == Part(s.days, "day")
    ensures s.hours > 0 ==> r[if s.days > 0 then 1 else 0] == Part(s.hours, "hour")
    ensures s.minutes > 0 ==> r[|r| - 1] == Part(s.minutes, "minute")
  {
    (if s.days > 0 then [Part(s.days, "day")] else [])
    + (if s.hours > 0 then [Part(s.hours, "hour")] else [])
    + (if s.minutes > 0 then [Part(s.minutes, "minute")] else [])
  }

  /** `formatTimeLeft`: the parts joined with `", "`; empty under a minute. */
  function FormatTimeLeft(ms: nat): (r: string)
    ensures r == "" <==> ms < MinuteMs
  {
    var parts := Parts(Decompose(ms));
    JoinNonEmpty(parts, ", ");
    Join(parts, ", ")
  }

  /** Any span with fewer than 24 hours and 60 minutes prints as its
      non-zero parts, largest first, separated by `", "`. */
  lemma FormatSpan(s: Span)
    requires s.hours < 24 && s.minutes < 60
    ensures FormatTimeLeft(SpanMs(s)) == Join(Parts(s), ", ")
  {
    DecomposeUnique(SpanMs(s), s);
  }

  /** A day and five minutes print without the missing hours. */
  lemma DayAndFiveMinutes()
    ensures FormatTimeLeft(DayMs + 5 * MinuteMs) == "1 day, 5 minutes"
  {
    var s := Span(1, 0, 5);
    assert SpanMs(s) == DayMs + 5 * MinuteMs;
    FormatSpan(s);
    assert NatToString(1) == "1" && NatToString(5) == "5";
    assert Part(1, "day") == "1 day";
    assert Part(5, "minute") == "5 minutes";
    assert Parts(s) == ["1 day", "5 minutes"];
    assert Join(Parts(s), ", ") == "1 day" + ", " + Join(["5 minutes"], ", ");
  }

  /** Joining a non-empty list of non-empty strings is not empty. */
  lemma JoinNonEmpty(parts: seq<string>, sep: string)
    requires forall i | 0 <= i < |parts| :: parts[i] != ""
    ensures Join(parts, sep) == "" <==> parts == []
  {
    if |parts| >= 2 {
      assert Join(parts, sep) == parts[0] + sep + Join(parts[1..], sep);
    }
  }

  /** Whole days print as days only. */
  lemma FormatDays(n: nat)
    requires n > 0
    ensures FormatTimeLeft(n * DayMs) == NatToString(n) + " day" + (if n > 1 then "s" else "")
  {
    DecomposeUnique(n * DayMs, Span(n, 0, 0));
  }

  /** A reminder of `n` days is announced as `n` day(s) away. */
  lemma ParseThenFormatDays(n: nat, letter: char)
    requires n > 0
    requires letter == 'd' || letter == 'D'
    ensures ParseDuration(NatToString(n) + [letter]).Success?
    ensures FormatTimeLeft(ParseDuration(NatToString(n) + [letter]).value)
         == NatToString(n) + " day" + (if n > 1 then "s" else "")
  {
    assert LowerChar(letter) == 'd';
    ParseWritten(n, letter);
    assert ParseDuration(NatToString(n) + [letter]) == Success(n * DayMs);
    FormatDays(n);
  }

  /** Less than a day with whole hours and minutes prints both parts. */
  lemma FormatHoursMinutes(h: nat, m: nat)
    requires 0 < h < 24 && 0 < m < 60
    ensures FormatTimeLeft(h * HourMs + m * MinuteMs) == Part(h, "hour") + ", " + Part(m, "minute")
  {
    DecomposeUnique(h * HourMs + m * MinuteMs, Span(0, h, m));
    var parts := [Part(h, "hour"), Part(m, "minute")];
    assert Parts(Span(0, h, m)) == parts;
    assert Join(parts[1..], ", ") == Part(m, "minute");
  }

  /** `"90m"` parses to ninety minutes... */
  lemma NinetyMinutesParse()
    ensures ParseDuration("90m") == Success(90 * MinuteMs)
  {
    assert NatToString(90) + ['m'] == "90m";
    ParseWritten(90, 'm');
  }

  /** ...which are announced as an hour and thirty minutes. */
  lemma NinetyMinutesFormat()
    ensures FormatTimeLeft(90 * MinuteMs) == "1 hour, 30 minutes"
  {
    assert 90 * MinuteMs == 1 * HourMs + 30 * MinuteMs;
    FormatHoursMinutes(1, 30);
    assert NatToString(1) == "1";
    assert NatToString(30) == NatToString(3) + "0";
    assert Part(1, "hour") == "1 hour";
    assert Part(30, "minute") == "30 minutes";
  }

  // ---------------------------------------------------------------------
  // The reminder list

  /** What `client.sendMessage` did: there is no client, or it resolved, or
      it threw with a message. */
  datatype Delivery = Delivered | SendFailed(reason: string)

  /** The two messages this module sends: the confirmation of a new reminder
      (with the time left) and the reminder itself. */
  datatype Outgoing = Confirmation(message: string, timeLeft: string) | ReminderNote(message: string)

  /** The text WhatsApp receives for each outgoing message. */
  function Render(o: Outgoing): string {
    match o
    case Confirmation(message, timeLeft) =>
      "\U{23F0} Reminder set! I'll remind you about: \"" + message + "\" in " + timeLeft + "\n\n"
      + "Note: Your phone number will be temporarily stored until the reminder is completed. Use /clear_reminders to remove all your reminders."
    case ReminderNote(message) => "\U{23F0} *Reminder*\n" + message
  }

  /** A WhatsApp send as a function of recipient and message. */
  type Sender = (string, Outgoing) -> Delivery

  function ChatIdOf(phone: string): string {
    phone + "@c.us"
  }

  /** The list after `addReminder` and what the call returned: the new id, or
      the error it threw. */
  datatype Added = Added(reminders: seq<Reminder>, result: Result<string>)

  /** The confirmation step of `addReminder`: with a client, `text` is sent
      to `to` and a failed send becomes the call's error. */
  function Confirm(id: string, to: string, text: Outgoing, hasClient: bool, send: Sender): (r: Result<string>)
    ensures r.Success? <==> (!hasClient || send(to, text).Delivered?)
    ensures r.Success? ==> r.value == id
    ensures r.Failure? ==> FailurePrefix <= r.error
  {
    if !hasClient then Success(id)
    else match send(to, text)
      case Delivered => Success(id)
      case SendFailed(reason) => Failure(FailurePrefix + reason)
  }

  /** `addReminder`: a valid duration appends one un-notified reminder due
      `now` plus the duration, then sends a confirmation when a client is
      set. The reminder is appended before the confirmation is sent, so it
      stays even when that send fails and the call throws. */
  function AddReminder(list: seq<Reminder>, phone: string, message: string, duration: string,
                       now: int, id: string, hasClient: bool, send: Sender): (r: Added)
    ensures var p := ParseDuration(duration);
      && (p.Failure? ==> r.reminders == list && r.result == Failure(FailurePrefix + InvalidFormat))
      && (p.Success? ==> r.reminders == list + [Reminder(id, phone, message, now + p.value, false)])
      && (p.Success? ==> r.result == Confirm(id, ChatIdOf(phone), Confirmation(message, FormatTimeLeft(p.value)), hasClient, send))
  {
    var p := ParseDuration(duration);
    if p.Failure? then Added(list, Failure(FailurePrefix + p.error))
    else Added(list + [Reminder(id, phone, message, now + p.value, false)],
               Confirm(id, ChatIdOf(phone), Confirmation(message, FormatTimeLeft(p.value)), hasClient, send))
  }

  /** The life of an added reminder: it waits in the list until its time,
      is delivered and dropped by the first pass at or after that time whose
      send succeeds, and clearing its phone's reminders removes it. */
  lemma AddedReminderLifecycle(list: seq<Reminder>, phone: string, message: string, duration: string,
                               now: int, id: string, hasClient: bool, send: Sender,
                               t: int, send2: Sender)
    requires ParseDuration(duration).Success?
    ensures var due := now + ParseDuration(duration).value;
      var x := Reminder(id, phone, message, due, false);
      var added := AddReminder(list, phone, message, duration, now, id, hasClient, send).reminders;
      && x in added
      && (t < due ==> x in CheckReminders(added, t, true, send2).reminders)
      && (due <= t && Sent(x, send2) ==>
            x in CheckReminders(added, t, true, send2).delivered
            && x !in CheckReminders(added, t, true, send2).reminders)
      && x !in ClearUserReminders(added, phone)
  {
    var due := now + ParseDuration(duration).value;
    var x := Reminder(id, phone, message, due, false);
    var added := AddReminder(list, phone, message, duration, now, id, hasClient, send).reminders;
    assert added[|added| - 1] == x;
  }

  /** `clearUserReminders`: drop the reminders of `phone`, keep the rest in order. */
  function ClearUserReminders(list: seq<Reminder>, phone: string): (r: seq<Reminder>)
    ensures |r| <= |list|
    ensures forall x :: x in r <==> x in list && x.phone != phone
    decreases |list|
  {
    if list == [] then []
    else (if list[0].phone == phone then [] else [list[0]]) + ClearUserReminders(list[1..], phone)
  }

  /** Clearing works piecewise, so the kept reminders keep their order. */
  lemma {:induction false} ClearUserRemindersAppend(a: seq<Reminder>, b: seq<Reminder>, phone: string)
    ensures ClearUserReminders(a + b, phone) == ClearUserReminders(a, phone) + ClearUserReminders(b, phone)
    decreases |a|
  {
    if a != [] {
      assert (a + b)[0] == a[0];
      assert (a + b)[1..] == a[1..] + b;
      ClearUserRemindersAppend(a[1..], b, phone);
    } else {
      assert a + b == b;
    }
  }

  /** A reminder that is due: not yet notified and its time has come. */
  predicate IsDue(x: Reminder, now: int) {
    !x.notified && x.dueTime <= now
  }

  /** Whether delivering `x` succeeds. */
  predicate Sent(x: Reminder, send: Sender) {
    send(ChatIdOf(x.phone), ReminderNote(x.message)).Delivered?
  }

  /** The list after one `checkReminders` pass and the reminders delivered in it. */
  datatype Pass = Pass(reminders: seq<Reminder>, delivered: seq<Reminder>)

  /** `checkReminders` at time `now`: without a client nothing happens;
      otherwise every due reminder is sent, the ones whose send succeeded are
      marked notified, and every notified reminder is then dropped. */
  function CheckReminders(list: seq<Reminder>, now: int, hasClient: bool, send: Sender): (r: Pass)
    ensures !hasClient ==> r == Pass(list, [])
    ensures hasClient ==> forall x :: x in r.reminders <==>
      x in list && !x.notified && !(x.dueTime <= now && Sent(x, send))
    ensures hasClient ==> forall x :: x in r.delivered <==> x in list && IsDue(x, now) && Sent(x, send)
    ensures hasClient ==> |r.reminders| + |r.delivered| <= |list|
  {
    if !hasClient then Pass(list, [])
    else
      SweepMembers(list, now, send);
      Sweep(list, now, send)
  }

  /** The pass with a client, reminder by reminder in list order. */
  function Sweep(list: seq<Reminder>, now: int, send: Sender): Pass
    decreases |list|
  {
    if list == [] then Pass([], [])
    else
      var x := list[0];
      var rest := Sweep(list[1..], now, send);
      if x.notified then rest
      else if IsDue(x, now) && Sent(x, send) then Pass(rest.reminders, [x] + rest.delivered)
      else Pass([x] + rest.reminders, rest.delivered)
  }

  /** What a pass keeps and what it delivers. */
  lemma {:induction false} SweepMembers(list: seq<Reminder>, now: int, send: Sender)
    ensures forall x :: x in Sweep(list, now, send).reminders <==>
      x in list && !x.notified && !(x.dueTime <= now && Sent(x, send))
    ensures forall x :: x in Sweep(list, now, send).delivered <==> x in list && IsDue(x, now) && Sent(x, send)
    ensures |Sweep(list, now, send).reminders| + |Sweep(list, now, send).delivered| <= |list|
    decreases |list|
  {
    if list != [] {
      SweepMembers(list[1..], now, send);
      assert list == [list[0]] + list[1..];
    }
  }

  /** A pass works piecewise: the kept reminders and the delivered ones keep
      their order and multiplicity, and are sent in list order. */
  lemma {:induction false} CheckRemindersAppend(a: seq<Reminder>, b: seq<Reminder>, now: int, send: Sender)
    ensures CheckReminders(a + b, now, true, send).reminders
         == CheckReminders(a, now, true, send).reminders + CheckReminders(b, now, true, send).reminders
    ensures CheckReminders(a + b, now, true, send).delivered
         == CheckReminders(a, now, true, send).delivered + CheckReminders(b, now, true, send).delivered
  {
    SweepAppend(a, b, now, send);
  }

  lemma {:induction false} SweepAppend(a: seq<Reminder>, b: seq<Reminder>, now: int, send: Sender)
    ensures Sweep(a + b, now, send).reminders == Sweep(a, now, send).reminders + Sweep(b, now, send).reminders
    ensures Sweep(a + b, now, send).delivered == Sweep(a, now, send).delivered + Sweep(b, now, send).delivered
    decreases |a|
  {
    if a != [] {
      assert (a + b)[0] == a[0];
      assert (a + b)[1..] == a[1..] + b;
      SweepAppend(a[1..], b, now, send);
    } else {
      assert a + b == b;
    }
  }

  /** After a pass, no reminder in the list is marked notified. */
  lemma NoNotifiedAfterPass(list: seq<Reminder>, now: int, send: Sender)
    ensures forall x | x in CheckReminders(list, now, true, send).reminders :: !x.notified
  {
  }

  /** A reminder that is not yet due survives the pass. */
  lemma NotDueKept(list: seq<Reminder>, x: Reminder, now: int, hasClient: bool, send: Sender)
    requires x in list && !x.notified && x.dueTime > now
    ensures x in CheckReminders(list, now, hasClient, send).reminders
  {
  }

  /** A second pass at the same time, with sends behaving the same, changes
      nothing: what survived the first pass either is not due or failed. */
  lemma {:induction false} CheckRemindersIdempotent(list: seq<Reminder>, now: int, send: Sender)
    ensures var first := CheckReminders(list, now, true, send).reminders;
      CheckReminders(first, now, true, send) == Pass(first, [])
    decreases |list|
  {
    if list != [] {
      CheckRemindersIdempotent(list[1..], now, send);
      var rest := CheckReminders(list[1..], now, true, send).reminders;
      var x := list[0];
      if !x.notified && !(IsDue(x, now) && Sent(x, send)) {
        assert ([x] + rest)[1..] == rest;
      }
    }
  }
}

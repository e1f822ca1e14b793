/**
 * QuartzReminder.formatInstant, up to the call to DateTimeFormatter: the null
 * checks, the choice of the date-time to format, and the rewriting of the
 * pattern at noon. The formatting itself is not modelled; the result names
 * the pattern and the local date-time the formatter would be given.
 */
module Formatting {
  import opened Results
  import opened Calendar
  import opened Instants

  /** What formatInstant hands on: nothing (it returns ""), or a pattern and a local date-time. */
  datatype Rendering = Blank | Rendered(pattern: string, time: DateTime)

  const NOON: string := "'NOON'"

  function Occurrences(s: string, c: char): nat {
    if s == [] then 0 else (if s[0] == c then 1 else 0) + Occurrences(s[1..], c)
  }

  /** What String.replace("a", "'NOON'") makes of one character. */
  function Replacement(c: char): string {
    if c == 'a' then NOON else [c]
  }

  /**
   * String.replace("a", "'NOON'"): every `a` becomes the quoted literal NOON,
   * every other character stays, in order.
   */
  function ReplaceA(s: string): (r: string)
    ensures 'a' !in r
    ensures |r| == |s| + 5 * Occurrences(s, 'a')
    ensures 'a' !in s ==> r == s
  {
    if s == [] then [] else Replacement(s[0]) + ReplaceA(s[1..])
  }

  /** A single `a` becomes 'NOON'; any other character stays as it is. */
  lemma ReplaceASingle(c: char)
    ensures ReplaceA([c]) == if c == 'a' then NOON else [c]
  {
    assert [c][1..] == [];
  }

  /** Replacement works piecewise: the pieces of a string are replaced independently. */
  lemma {:induction false} ReplaceAAppend(s: string, t: string)
    ensures ReplaceA(s + t) == ReplaceA(s) + ReplaceA(t)
  {
    if s == [] {
      assert s + t == t;
    } else {
      var st := s + t;
      assert st[0] == s[0];
      assert st[1..] == s[1..] + t;
      ReplaceAAppend(s[1..], t);
      calc {
        ReplaceA(st);
        Replacement(st[0]) + ReplaceA(st[1..]);
        Replacement(s[0]) + ReplaceA(s[1..] + t);
        Replacement(s[0]) + (ReplaceA(s[1..]) + ReplaceA(t));
        (Replacement(s[0]) + ReplaceA(s[1..])) + ReplaceA(t);
        ReplaceA(s) + ReplaceA(t);
      }
    }
  }

  /** Replacing twice is replacing once. */
  lemma ReplaceAIdempotent(s: string)
    ensures ReplaceA(ReplaceA(s)) == ReplaceA(s)
  {
  }

  /** The pattern formatInstant formats with, given the hour and minute it checks. */
  function ProcessedPattern(pattern: string, hour: int, minute: int): (r: string)
    ensures hour == 12 && minute == 0 ==> r == ReplaceA(pattern) && 'a' !in r
    ensures !(hour == 12 && minute == 0) ==> r == pattern
    ensures 'a' !in pattern ==> r == pattern
  {
    if hour == 12 && minute == 0 then ReplaceA(pattern) else pattern
  }

  /**
   * formatInstant as written: after the null checks it formats the current
   * date-time in the zone, `nowInZone` (the clock and the time-zone database
   * are outside the model), and the noon test looks at that, not at `instant`.
   */
  function FormatInstantAsWritten(instant: Option<Instant>, timeZone: Option<string>, pattern: Option<string>, nowInZone: DateTime): (r: Rendering)
    ensures r.Blank? <==> instant.None? || timeZone.None? || pattern.None?
    ensures r.Rendered? ==> r.time == nowInZone
    ensures r.Rendered? && nowInZone.hour == 12 && nowInZone.minute == 0 ==> r.pattern == ReplaceA(pattern.value) && 'a' !in r.pattern
    ensures r.Rendered? && !(nowInZone.hour == 12 && nowInZone.minute == 0) ==> r.pattern == pattern.value
  {
    if instant.None? || timeZone.None? || pattern.None? then Blank
    else Rendered(ProcessedPattern(pattern.value, nowInZone.hour, nowInZone.minute), nowInZone)
  }

  /**
   * formatInstant as its documentation describes it: the instant itself is
   * formatted, at the zone's UTC offset for that instant (`offsetSeconds`,
   * which the time-zone database supplies), and the noon test looks at it.
   */
  function FormatInstant(instant: Option<Instant>, timeZone: Option<string>, pattern: Option<string>, offsetSeconds: int): (r: Rendering)
    ensures r.Blank? <==> instant.None? || timeZone.None? || pattern.None?
    ensures r.Rendered? ==> Valid(r.time) && ToEpochSecond(r.time) == instant.value + offsetSeconds
    ensures r.Rendered? && r.time.hour == 12 && r.time.minute == 0 ==> r.pattern == ReplaceA(pattern.value) && 'a' !in r.pattern
    ensures r.Rendered? && !(r.time.hour == 12 && r.time.minute == 0) ==> r.pattern == pattern.value
  {
    if instant.None? || timeZone.None? || pattern.None? then Blank
    else
      var local := FromEpochSecond(instant.value + offsetSeconds);
      Rendered(ProcessedPattern(pattern.value, local.hour, local.minute), local)
  }

  /**
   * The two disagree for any instant at local noon formatted while the clock
   * is not at noon, with any pattern that holds an `a` (such as "h:mm a"): as
   * written the pattern is left as it is, the documented behaviour writes
   * NOON in place of every `a`.
   */
  lemma NoonOfInstantIgnoredAsWritten(instant: Instant, offsetSeconds: int, nowInZone: DateTime, timeZone: string, pattern: string)
    requires FromEpochSecond(instant + offsetSeconds).hour == 12
    requires FromEpochSecond(instant + offsetSeconds).minute == 0
    requires nowInZone.hour != 12
    requires 'a' in pattern
    ensures FormatInstantAsWritten(Some(instant), Some(timeZone), Some(pattern), nowInZone).pattern == pattern
    ensures 'a' !in FormatInstant(Some(instant), Some(timeZone), Some(pattern), offsetSeconds).pattern
  {
  }
}

/**
 * Decoding the date and time embedded in a file name. Two layouts are recognised anywhere in the path:
 * format A, `YYYY-MM-DD_HH-MM-SS-AM` (12-hour clock, written by the 2D test program), and
 * format B, `HH_MM_SS_DD-MM-YYYY` (24-hour clock, written by the navigation program).
 */
module Timestamps {
  import opened Common

  /** A calendar date and time; compared field by field, year first. */
  datatype Stamp = Stamp(year: int, month: int, day: int, hour: int, minute: int, second: int)

  /** Chronological order of two stamps (the order of their "%Y %m %d %H %M %S" renderings). */
  predicate StampLe(a: Stamp, b: Stamp)
  {
    if a.year != b.year then a.year < b.year
    else if a.month != b.month then a.month < b.month
    else if a.day != b.day then a.day < b.day
    else if a.hour != b.hour then a.hour < b.hour
    else if a.minute != b.minute then a.minute < b.minute
    else a.second <= b.second
  }

  lemma StampLeTotal(a: Stamp, b: Stamp)
    ensures StampLe(a, b) || StampLe(b, a)
    ensures StampLe(a, b) && StampLe(b, a) ==> a == b
  {
  }

  lemma StampLeTransitive(a: Stamp, b: Stamp, c: Stamp)
    requires StampLe(a, b) && StampLe(b, c)
    ensures StampLe(a, c)
  {
  }

  predicate IsDigit(c: char) { '0' <= c <= '9' }

  /** Template characters: 'D' a digit, '?' the A or P of AM/PM, anything else itself. */
  predicate CharMatches(c: char, t: char)
  {
    if t == 'D' then IsDigit(c) else if t == '?' then c == 'A' || c == 'P' else c == t
  }

  /** The regular expression of format A, `\d\d\d\d-\d\d-\d\d_\d\d-\d\d-\d\d-[AP]M`. */
  const PatternA: string := "DDDD-DD-DD_DD-DD-DD-?M"
  /** The regular expression of format B, `\d\d_\d\d_\d\d_\d\d-\d\d-\d\d\d\d`. */
  const PatternB: string := "DD_DD_DD_DD-DD-DDDD"

  predicate MatchesAt(p: string, pattern: string, i: int)
  {
    0 <= i && i + |pattern| <= |p| && forall k :: 0 <= k < |pattern| ==> CharMatches(p[i + k], pattern[k])
  }

  /** `re.search`: the leftmost position, at or after `from`, where the pattern matches. */
  function FirstMatch(p: string, pattern: string, from: nat): (r: Option<nat>)
    ensures r.Some? ==> from <= r.value && MatchesAt(p, pattern, r.value)
    ensures r.Some? ==> forall j :: from <= j < r.value ==> !MatchesAt(p, pattern, j)
    ensures r.None? ==> forall j :: from <= j ==> !MatchesAt(p, pattern, j)
    decreases |p| - from
  {
    if from + |pattern| > |p| then None
    else if MatchesAt(p, pattern, from) then Some(from)
    else FirstMatch(p, pattern, from + 1)
  }

  function DigitValue(c: char): (d: nat)
    requires IsDigit(c)
    ensures d < 10
  {
    c as int - '0' as int
  }

  /** The decimal value of a run of digits. */
  function Number(s: string): nat
    requires forall k :: 0 <= k < |s| ==> IsDigit(s[k])
  {
    if s == [] then 0 else Number(s[..|s| - 1]) * 10 + DigitValue(s[|s| - 1])
  }

  /** The decimal value of the digits p[i + lo .. i + hi] of a match of `pattern` at `i`. */
  function Field(p: string, pattern: string, i: nat, lo: nat, hi: nat): nat
    requires MatchesAt(p, pattern, i) && lo <= hi <= |pattern|
    requires forall k :: lo <= k < hi ==> pattern[k] == 'D'
  {
    var digits := p[i + lo..i + hi];
    FieldDigits(p, pattern, i, lo, hi, digits);
    Number(digits)
  }

  lemma FieldDigits(p: string, pattern: string, i: nat, lo: nat, hi: nat, digits: string)
    requires MatchesAt(p, pattern, i) && lo <= hi <= |pattern|
    requires forall k :: lo <= k < hi ==> pattern[k] == 'D'
    requires digits == p[i + lo..i + hi]
    ensures forall k :: 0 <= k < |digits| ==> IsDigit(digits[k])
  {
    forall k | 0 <= k < |digits|
      ensures IsDigit(digits[k])
    {
      assert CharMatches(p[i + (lo + k)], pattern[lo + k]);
    }
  }

  /** `%I` with `%p`: 12 AM is hour 0, 12 PM is hour 12, other PM hours add 12. */
  function Hour24(hour12: int, pm: bool): int
  {
    if pm then (if hour12 == 12 then 12 else hour12 + 12)
    else (if hour12 == 12 then 0 else hour12)
  }

  /** Decoding a format-A match at `i` with "%Y-%m-%d_%I-%M-%S-%p". */
  function DecodeA(p: string, i: nat): Stamp
    requires MatchesAt(p, PatternA, i)
  {
    Stamp(Field(p, PatternA, i, 0, 4), Field(p, PatternA, i, 5, 7), Field(p, PatternA, i, 8, 10),
          Hour24(Field(p, PatternA, i, 11, 13), p[i + 20] == 'P'),
          Field(p, PatternA, i, 14, 16), Field(p, PatternA, i, 17, 19))
  }

  /** Decoding a format-B match at `i` with "%H_%M_%S_%d-%m-%Y". */
  function DecodeB(p: string, i: nat): Stamp
    requires MatchesAt(p, PatternB, i)
  {
    Stamp(Field(p, PatternB, i, 15, 19), Field(p, PatternB, i, 12, 14), Field(p, PatternB, i, 9, 11),
          Field(p, PatternB, i, 0, 2), Field(p, PatternB, i, 3, 5), Field(p, PatternB, i, 6, 8))
  }

  /** Some timestamp layout occurs in the path; without one the decoder fails. */
  predicate HasTimestamp(p: string)
  {
    FirstMatch(p, PatternA, 0).Some? || FirstMatch(p, PatternB, 0).Some?
  }

  /**
   * extract_date_time_from_filename_custom: format A is tried first and format B second, so when
   * both occur the leftmost format-B match decides; otherwise the leftmost format-A match does.
   */
  function ExtractDateTime(p: string): Stamp
    requires HasTimestamp(p)
  {
    var b := FirstMatch(p, PatternB, 0);
    if b.Some? then DecodeB(p, b.value)
    else
      var a := FirstMatch(p, PatternA, 0);
      DecodeA(p, a.value)
  }

  /**
   * Which match decides: when format B occurs anywhere its leftmost match is decoded, whatever format-A
   * text precedes it; otherwise the leftmost format-A match is.
   */
  lemma ExtractDateTimeDecides(p: string)
    requires HasTimestamp(p)
    ensures (exists i :: MatchesAt(p, PatternB, i)) ==>
      exists i :: MatchesAt(p, PatternB, i) && (forall j :: 0 <= j < i ==> !MatchesAt(p, PatternB, j)) &&
        ExtractDateTime(p) == DecodeB(p, i)
    ensures (forall i :: !MatchesAt(p, PatternB, i)) ==>
      exists i :: MatchesAt(p, PatternA, i) && (forall j :: 0 <= j < i ==> !MatchesAt(p, PatternA, j)) &&
        ExtractDateTime(p) == DecodeA(p, i)
  {
    var b := FirstMatch(p, PatternB, 0);
    if b.Some? {
      assert MatchesAt(p, PatternB, b.value) && ExtractDateTime(p) == DecodeB(p, b.value);
    } else {
      var a := FirstMatch(p, PatternA, 0);
      assert forall i :: !MatchesAt(p, PatternB, i);
      assert MatchesAt(p, PatternA, a.value) && ExtractDateTime(p) == DecodeA(p, a.value);
    }
  }

  /** A stamp whose fields are in the ranges the layouts can write. */
  predicate InRange(st: Stamp)
  {
    0 <= st.year < 10000 && 0 <= st.month < 100 && 0 <= st.day < 100 &&
    0 <= st.hour < 24 && 0 <= st.minute < 100 && 0 <= st.second < 100
  }

  function Digit(d: int): (c: char)
    requires 0 <= d < 10
    ensures IsDigit(c) && DigitValue(c) == d
  {
    ('0' as int + d) as char
  }

  function Two(n: int): (s: string)
    requires 0 <= n < 100
    ensures |s| == 2 && IsDigit(s[0]) && IsDigit(s[1]) && Number(s) == n
  {
    var s := [Digit(n / 10), Digit(n % 10)];
    assert s[..1][..0] == [];
    assert Number(s[..1]) == n / 10;
    s
  }

  function Four(n: int): (s: string)
    requires 0 <= n < 10000
    ensures |s| == 4 && (forall k :: 0 <= k < 4 ==> IsDigit(s[k])) && Number(s) == n
  {
    var hi := Two(n / 100);
    var lo := Two(n % 100);
    var s := hi + lo;
    assert s[..3][..2] == hi && s[..3] == s[..2] + [s[2]] && s[..2] == hi;
    assert Number(s[..3]) == Number(hi) * 10 + DigitValue(s[2]);
    s
  }

  /** The 12-hour clock reading and the AM/PM letter of a 24-hour hour. */
  function Hour12(hour: int): int
    requires 0 <= hour < 24
  {
    if hour == 0 then 12 else if hour <= 12 then hour else hour - 12
  }

  /** The file-name text format A gives a stamp. */
  function RenderA(st: Stamp): (s: string)
    requires InRange(st)
  {
    Four(st.year) + "-" + Two(st.month) + "-" + Two(st.day) + "_" + Two(Hour12(st.hour)) + "-" +
    Two(st.minute) + "-" + Two(st.second) + "-" + (if st.hour < 12 then "AM" else "PM")
  }

  /** The file-name text format B gives a stamp. */
  function RenderB(st: Stamp): (s: string)
    requires InRange(st)
  {
    Two(st.hour) + "_" + Two(st.minute) + "_" + Two(st.second) + "_" + Two(st.day) + "-" +
    Two(st.month) + "-" + Four(st.year)
  }

  /** Decoding a format-B name gives back the stamp it was written from. */
  lemma RoundTripB(st: Stamp)
    requires InRange(st)
    ensures HasTimestamp(RenderB(st)) && ExtractDateTime(RenderB(st)) == st
  {
    var s := RenderB(st);
    assert MatchesAt(s, PatternB, 0);
    assert s[0..2] == Two(st.hour) && s[3..5] == Two(st.minute) && s[6..8] == Two(st.second);
    assert s[9..11] == Two(st.day) && s[12..14] == Two(st.month) && s[15..19] == Four(st.year);
  }

  /** Decoding a format-A name, 12-hour clock and all, gives back the stamp it was written from. */
  lemma RoundTripA(st: Stamp)
    requires InRange(st)
    ensures HasTimestamp(RenderA(st)) && ExtractDateTime(RenderA(st)) == st
  {
    RenderAHasNoB(st);
    DecodeRenderA(st);
  }

  /** A format-A name contains no format-B match: format B needs '_' two characters in, format A has digits or '-' at positions 2 to 5. */
  lemma RenderAHasNoB(st: Stamp)
    requires InRange(st)
    ensures forall i :: !MatchesAt(RenderA(st), PatternB, i)
  {
    var s := RenderA(st);
    forall i | true
      ensures !MatchesAt(s, PatternB, i)
    {
      if 0 <= i && i + 19 <= |s| {
        assert !CharMatches(s[i + 2], PatternB[2]);
      }
    }
  }

  lemma DecodeRenderA(st: Stamp)
    requires InRange(st)
    ensures MatchesAt(RenderA(st), PatternA, 0) && DecodeA(RenderA(st), 0) == st
  {
    RenderAMatches(st);
    RenderADate(st);
    RenderATime(st);
  }

  lemma RenderAMatches(st: Stamp)
    requires InRange(st)
    ensures MatchesAt(RenderA(st), PatternA, 0)
  {
  }

  lemma RenderADate(st: Stamp)
    requires InRange(st) && MatchesAt(RenderA(st), PatternA, 0)
    ensures var s := RenderA(st);
      Field(s, PatternA, 0, 0, 4) == st.year && Field(s, PatternA, 0, 5, 7) == st.month &&
      Field(s, PatternA, 0, 8, 10) == st.day
  {
    var s := RenderA(st);
    var year, month, day := Four(st.year), Two(st.month), Two(st.day);
    assert s[0] == year[0] && s[1] == year[1] && s[2] == year[2] && s[3] == year[3];
    assert s[0..4] == year;
    assert s[5] == month[0] && s[6] == month[1];
    assert s[5..7] == month;
    assert s[8] == day[0] && s[9] == day[1];
    assert s[8..10] == day;
  }

  lemma RenderATime(st: Stamp)
    requires InRange(st) && MatchesAt(RenderA(st), PatternA, 0)
    ensures var s := RenderA(st);
      Hour24(Field(s, PatternA, 0, 11, 13), s[20] == 'P') == st.hour &&
      Field(s, PatternA, 0, 14, 16) == st.minute && Field(s, PatternA, 0, 17, 19) == st.second
  {
    var s := RenderA(st);
    var hour, minute, second := Two(Hour12(st.hour)), Two(st.minute), Two(st.second);
    assert s[11] == hour[0] && s[12] == hour[1];
    assert s[11..13] == hour;
    assert s[14] == minute[0] && s[15] == minute[1];
    assert s[14..16] == minute;
    assert s[17] == second[0] && s[18] == second[1];
    assert s[17..19] == second;
  }
}

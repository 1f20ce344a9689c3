/** `to_iso` and `parse_iso`: whole-second UTC timestamps in the profile of section 5.6 of RFC 3339. */
module Timestamps {
  import opened Wrappers
  import opened Calendar
  import opened Decimal

  const SECOND_MICROS := 1_000_000

  /** `t` without its fraction of a second. */
  function Truncate(t: DateTime): DateTime {
    t.(micros := t.micros - t.micros % SECOND_MICROS)
  }

  datatype Clock = Clock(hour: int, minute: int, second: int)

  function ClockOf(t: DateTime): Clock {
    var seconds := t.micros / SECOND_MICROS;
    Clock(seconds / 3600, seconds / 60 % 60, seconds % 60)
  }

  function MicrosOf(c: Clock): int {
    ((c.hour * 60 + c.minute) * 60 + c.second) * SECOND_MICROS
  }

  predicate ValidClock(c: Clock) {
    0 <= c.hour < 24 && 0 <= c.minute < 60 && 0 <= c.second < 60
  }

  // ---- Printing ----

  /** The datetimes Python has: years of up to four digits, which are printed as four. */
  predicate Printable(t: DateTime) {
    Valid(t) && t.date.year <= 9999
  }

  predicate TwoDigit(n: int) {
    0 <= n <= 99
  }

  predicate AllTwoDigit(ns: seq<int>) {
    forall n :: n in ns ==> TwoDigit(n)
  }

  function PrintTwo(n: int): string
    requires TwoDigit(n)
  {
    [Digit(n / 10), Digit(n % 10)]
  }

  /** Two-digit numbers, each followed by its separator. */
  function PrintAll(ns: seq<int>, separators: seq<string>): string
    requires AllTwoDigit(ns) && |ns| == |separators|
  {
    if ns == [] then "" else PrintTwo(ns[0]) + separators[0] + PrintAll(ns[1..], separators[1..])
  }

  /** What follows the century, the year in it, month, day, hour, minute and second. */
  function Separators(): seq<string> {
    ["", "-", "-", "T", ":", ":", ""]
  }

  function NumbersOf(d: Date, c: Clock): seq<int> {
    [d.year / 100, d.year % 100, d.month, d.day, c.hour, c.minute, c.second]
  }

  /** `to_iso`. */
  function ToIso(t: DateTime): string
    requires Printable(t)
  {
    PrintAll(NumbersOf(t.date, ClockOf(t)), Separators()) + "Z"
  }

  // ---- Parsing ----

  function ParseTwo(a: char, b: char): Option<int> {
    match (DigitValue(a), DigitValue(b))
    case (Some(x), Some(y)) => Some(x * 10 + y)
    case _ => None
  }

  /** The numbers of a text that is nothing but two-digit numbers with these separators. */
  function ParseAll(s: string, separators: seq<string>): Option<seq<int>>
    decreases |s|
  {
    if separators == [] then (if s == "" then Some([]) else None)
    else if |s| < 2 || !(separators[0] <= s[2..]) then None
    else
      var n, rest := ParseTwo(s[0], s[1]), ParseAll(s[2 + |separators[0]|..], separators[1..]);
      if n.Some? && rest.Some? then Some([n.value] + rest.value) else None
  }

  /** The datetime seven numbers stand for, if it exists. */
  function Assemble(ns: seq<int>): Option<DateTime>
    requires |ns| == 7
  {
    var d, c := Date(ns[0] * 100 + ns[1], ns[2], ns[3]), Clock(ns[4], ns[5], ns[6]);
    if ValidDate(d) && ValidClock(c) then Some(DateTime(d, MicrosOf(c))) else None
  }

  /** `YYYY-MM-DDTHH:MM:SS`. */
  function ParseCore(s: string): Option<DateTime> {
    var ns := ParseAll(s, Separators());
    if ns.Some? && |ns.value| == 7 then Assemble(ns.value) else None
  }

  const OFFSET := "+00:00"

  /** `parse_iso`: a final `Z` means UTC, and so does no offset at all. */
  function ParseIso(s: string): Option<DateTime> {
    var text := if |s| > 0 && s[|s| - 1] == 'Z' then s[..|s| - 1] + OFFSET else s;
    if |text| == 25 && text[19..] == OFFSET then ParseCore(text[..19])
    else if |text| == 19 then ParseCore(text)
    else None
  }

  // ---- Round trips ----

  lemma TwoRoundTrip(n: int)
    requires TwoDigit(n)
    ensures ParseTwo(PrintTwo(n)[0], PrintTwo(n)[1]) == Some(n)
  {
  }

  lemma {:induction false} AllRoundTrip(ns: seq<int>, separators: seq<string>)
    requires AllTwoDigit(ns) && |ns| == |separators|
    ensures ParseAll(PrintAll(ns, separators), separators) == Some(ns)
  {
    if ns != [] {
      var s, rest := PrintAll(ns, separators), PrintAll(ns[1..], separators[1..]);
      TwoRoundTrip(ns[0]);
      AllRoundTrip(ns[1..], separators[1..]);
      assert s[2..] == separators[0] + rest;
      assert s[2 + |separators[0]|..] == rest;
      assert [ns[0]] + ns[1..] == ns;
    }
  }

  function Length(separators: seq<string>): nat {
    if separators == [] then 0 else 2 + |separators[0]| + Length(separators[1..])
  }

  lemma {:induction false} PrintedLength(ns: seq<int>, separators: seq<string>)
    requires AllTwoDigit(ns) && |ns| == |separators|
    ensures |PrintAll(ns, separators)| == Length(separators)
  {
    if ns != [] {
      PrintedLength(ns[1..], separators[1..]);
    }
  }

  lemma ClockOfMicros(d: Date, c: Clock)
    requires ValidDate(d) && ValidClock(c)
    ensures Valid(DateTime(d, MicrosOf(c))) && ClockOf(DateTime(d, MicrosOf(c))) == c
  {
    var s := (c.hour * 60 + c.minute) * 60 + c.second;
    assert MicrosOf(c) / SECOND_MICROS == s;
    assert s / 60 == c.hour * 60 + c.minute;
    assert s / 3600 == c.hour;
  }

  /** Printing and parsing back drops the fraction of a second and nothing else. */
  lemma IsoRoundTrip(t: DateTime)
    requires Printable(t)
    ensures ParseIso(ToIso(t)) == Some(Truncate(t))
  {
    CoreRoundTrip(NumbersOf(t.date, ClockOf(t)), Separators());
    NumbersAssemble(t, NumbersOf(t.date, ClockOf(t)));
  }

  lemma CoreRoundTrip(ns: seq<int>, separators: seq<string>)
    requires AllTwoDigit(ns) && |ns| == |separators| && Length(separators) == 19
    ensures var core := PrintAll(ns, separators);
      |core| == 19 && ParseAll(core, separators) == Some(ns)
  {
    AllRoundTrip(ns, separators);
    PrintedLength(ns, separators);
  }

  lemma NumbersAssemble(t: DateTime, ns: seq<int>)
    requires Printable(t) && ns == NumbersOf(t.date, ClockOf(t))
    ensures Assemble(ns) == Some(Truncate(t))
  {
  }

  lemma {:induction false} AllCanonical(s: string, separators: seq<string>, ns: seq<int>)
    requires ParseAll(s, separators) == Some(ns)
    ensures |ns| == |separators| && AllTwoDigit(ns) && PrintAll(ns, separators) == s
    decreases |separators|
  {
    if separators != [] {
      var tail := s[2 + |separators[0]|..];
      var rest := ns[1..];
      assert ParseAll(tail, separators[1..]) == Some(rest);
      AllCanonical(tail, separators[1..], rest);
      assert ns == [ns[0]] + rest;
    }
  }

  /** Numbers that stand for a datetime are the numbers it prints. */
  lemma AssembledNumbers(ns: seq<int>)
    requires |ns| == 7 && AllTwoDigit(ns) && Assemble(ns).Some?
    ensures Printable(Assemble(ns).value) && NumbersOf(Assemble(ns).value.date, ClockOf(Assemble(ns).value)) == ns
  {
    ClockOfMicros(Assemble(ns).value.date, Clock(ns[4], ns[5], ns[6]));
    assert ns[0] in ns && ns[1] in ns;
    YearSplits(ns[0], ns[1]);
  }

  lemma YearSplits(century: int, year: int)
    requires TwoDigit(century) && TwoDigit(year)
    ensures (century * 100 + year) / 100 == century && (century * 100 + year) % 100 == year
  {
  }

  /** A timestamp of the printed form that parses is the only one that prints its value. */
  lemma IsoCanonical(s: string)
    requires |s| == 20 && s[19] == 'Z' && ParseIso(s).Some?
    ensures Printable(ParseIso(s).value) && ToIso(ParseIso(s).value) == s
  {
    var core := s[..19];
    assert s == core + "Z";
    var ns := ParseAll(core, Separators()).value;
    AllCanonical(core, Separators(), ns);
    AssembledNumbers(ns);
  }

  /** A final Z, the offset +00:00 and no offset at all mean the same. */
  lemma OffsetsAlike(core: string)
    requires |core| == 19 && core[18] != 'Z'
    ensures ParseIso(core + "Z") == ParseIso(core + "+00:00") == ParseIso(core) == ParseCore(core)
  {
    assert (core + "Z")[..19] == core && (core + OFFSET)[..19] == core && (core + OFFSET)[19..] == OFFSET;
  }

  /** The number that the two digits at `i` print. */
  predicate Shows(s: string, i: nat, n: int) {
    i + 2 <= |s| && ParseTwo(s[i], s[i + 1]) == Some(n)
  }

  lemma {:induction false} LengthFrom(separators: seq<string>, i: nat)
    requires i < |separators|
    ensures Length(separators[..i + 1]) == Length(separators[..i]) + 2 + |separators[i]|
  {
    if i > 0 {
      LengthFrom(separators[1..], i - 1);
      assert separators[..i + 1][1..] == separators[1..][..i] && separators[..i][1..] == separators[1..][..i - 1];
    } else {
      assert separators[..1][1..] == [] && separators[..0] == [];
    }
  }

  /** The `i`-th number stands behind the numbers and separators before it, and before its own separator. */
  lemma {:induction false} PrintedAt(ns: seq<int>, separators: seq<string>, i: nat)
    requires AllTwoDigit(ns) && |ns| == |separators| && i < |ns|
    ensures var s, at := PrintAll(ns, separators), Length(separators[..i]);
      && Shows(s, at, ns[i]) && at + 2 + |separators[i]| <= |s|
      && s[at + 2..at + 2 + |separators[i]|] == separators[i]
  {
    var s, rest := PrintAll(ns, separators), PrintAll(ns[1..], separators[1..]);
    TwoRoundTrip(ns[0]);
    if i == 0 {
      assert separators[..0] == [];
      assert s[2..2 + |separators[0]|] == separators[0];
    } else {
      var at := Length(separators[1..][..i - 1]);
      PrintedAt(ns[1..], separators[1..], i - 1);
      assert separators[..i][1..] == separators[1..][..i - 1];
      assert s[2 + |separators[0]|..] == rest;
      Shifted(s, rest, 2 + |separators[0]|, at, |separators[i]|);
    }
  }

  lemma Shifted(s: string, rest: string, off: nat, at: nat, n: nat)
    requires off <= |s| && s[off..] == rest && at + 2 + n <= |rest|
    ensures off + at + 2 + n <= |s|
    ensures s[off + at] == rest[at] && s[off + at + 1] == rest[at + 1]
    ensures s[off + at + 2..off + at + 2 + n] == rest[at + 2..at + 2 + n]
  {
    assert s[off..][at] == rest[at] && s[off..][at + 1] == rest[at + 1];
    assert s[off..][at + 2..at + 2 + n] == s[off + at + 2..off + at + 2 + n];
  }

  lemma Offsets(separators: seq<string>)
    requires separators == Separators()
    ensures Length(separators[..0]) == 0 && Length(separators[..1]) == 2 && Length(separators[..2]) == 5
    ensures Length(separators[..3]) == 8 && Length(separators[..4]) == 11 && Length(separators[..5]) == 14
    ensures Length(separators[..6]) == 17
  {
    LengthFrom(separators, 0);
    LengthFrom(separators, 1);
    LengthFrom(separators, 2);
    LengthFrom(separators, 3);
    LengthFrom(separators, 4);
    LengthFrom(separators, 5);
  }

  lemma FieldsShow(ns: seq<int>, separators: seq<string>)
    requires |ns| == 7 && AllTwoDigit(ns) && separators == Separators()
    ensures var s := PrintAll(ns, separators);
      && |s| == 19
      && Shows(s, 0, ns[0]) && Shows(s, 2, ns[1]) && Shows(s, 5, ns[2]) && Shows(s, 8, ns[3])
      && Shows(s, 11, ns[4]) && Shows(s, 14, ns[5]) && Shows(s, 17, ns[6])
      && s[4..5] == s[7..8] == "-" && s[10..11] == "T" && s[13..14] == s[16..17] == ":"
  {
    Offsets(separators);
    PrintedLength(ns, separators);
    PrintedAt(ns, separators, 0);
    PrintedAt(ns, separators, 1);
    PrintedAt(ns, separators, 2);
    PrintedAt(ns, separators, 3);
    PrintedAt(ns, separators, 4);
    PrintedAt(ns, separators, 5);
    PrintedAt(ns, separators, 6);
  }

  lemma ClockTells(t: DateTime)
    requires Valid(t)
    ensures var c := ClockOf(t);
      ValidClock(c) && c.hour * 3600 + c.minute * 60 + c.second == t.micros / 1_000_000
  {
  }

  /** A printed timestamp reads YYYY-MM-DDTHH:MM:SSZ, its time being the whole seconds since midnight. */
  lemma IsoFields(t: DateTime) returns (hour: int, minute: int, second: int)
    requires Printable(t)
    ensures var s := ToIso(t);
      && |s| == 20
      && Shows(s, 0, t.date.year / 100) && Shows(s, 2, t.date.year % 100)
      && Shows(s, 5, t.date.month) && Shows(s, 8, t.date.day)
      && Shows(s, 11, hour) && Shows(s, 14, minute) && Shows(s, 17, second)
      && s[4] == s[7] == '-' && s[10] == 'T' && s[13] == s[16] == ':' && s[19] == 'Z'
    ensures 0 <= minute < 60 && 0 <= second < 60 && hour * 3600 + minute * 60 + second == t.micros / 1_000_000
  {
    var c := ClockOf(t);
    ClockTells(t);
    hour, minute, second := c.hour, c.minute, c.second;
    var core := PrintAll(NumbersOf(t.date, c), Separators());
    FieldsShow(NumbersOf(t.date, c), Separators());
    assert core[4] == core[4..5][0] && core[7] == core[7..8][0] && core[10] == core[10..11][0];
    assert core[13] == core[13..14][0] && core[16] == core[16..17][0];
  }
}

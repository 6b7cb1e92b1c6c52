/** Identifiers of automation occurrences: decimal numerals, padding and separators as text. */
module OccurrenceIds {
  import opened Prelude

  // -------------------------------------------------------------- numerals

  function Digit(n: nat): char
    requires n < 10
  {
    ['0', '1', '2', '3', '4', '5', '6', '7', '8', '9'][n]
  }

  predicate IsDigit(c: char) {
    '0' <= c <= '9'
  }

  function Digits(n: nat): string {
    if n < 10 then [Digit(n)] else Digits(n / 10) + [Digit(n % 10)]
  }

  /** The number a string of digits stands for. */
  function ValueOf(s: string): int {
    if s == [] then 0 else 10 * ValueOf(Init(s)) + (Last(s) as int - '0' as int)
  }

  function Text(i: int): string {
    if i < 0 then "-" + Digits(-i) else Digits(i)
  }

  /** The integer a numeral stands for, padded or not. */
  function NumberOf(s: string): int {
    if s != [] && s[0] == '-' then -ValueOf(s[1..]) else ValueOf(s)
  }

  function Pad(s: string, width: nat): string
    decreases width - |s|
  {
    if |s| >= width then s else Pad("0" + s, width)
  }

  lemma {:induction false} DigitsStandForNumber(n: nat)
    ensures ValueOf(Digits(n)) == n
    ensures Digits(n) != [] && forall c | c in Digits(n) :: IsDigit(c)
  {
    if n >= 10 {
      DigitsStandForNumber(n / 10);
      assert Init(Digits(n)) == Digits(n / 10);
    }
  }

  lemma {:induction false} LeadingZero(s: string)
    ensures ValueOf("0" + s) == ValueOf(s)
  {
    if s == [] {
      assert Init("0" + s) == [];
    } else {
      assert Init("0" + s) == "0" + Init(s);
      LeadingZero(Init(s));
    }
  }

  lemma {:induction false} PaddingKeepsValue(s: string, width: nat)
    ensures ValueOf(Pad(s, width)) == ValueOf(s)
    ensures forall c | c in Pad(s, width) :: c in s || c == '0'
    ensures |Pad(s, width)| == if |s| < width then width else |s|
    decreases width - |s|
  {
    if |s| < width {
      LeadingZero(s);
      PaddingKeepsValue("0" + s, width);
    }
  }

  /** Padding a numeral to two places does not change the number; a negative numeral is never padded. */
  lemma TextStandsForNumber(i: int, width: nat)
    requires 0 <= i || width <= 2
    ensures NumberOf(Pad(Text(i), width)) == i
    ensures forall c | c in Pad(Text(i), width) :: IsDigit(c) || (c == '-' && i < 0)
  {
    if i < 0 {
      DigitsStandForNumber(-i);
      assert Text(i)[1..] == Digits(-i);
    } else {
      DigitsStandForNumber(i);
      PaddingKeepsValue(Digits(i), width);
      assert Pad(Text(i), width)[0] != '-' by {
        assert Pad(Text(i), width)[0] in Pad(Text(i), width);
      }
    }
  }

  lemma SeparatorIsLast(a: string, b: string, c: char)
    requires c !in b
    ensures (a + [c] + b)[|a|] == c && forall k | |a| < k < |a + [c] + b| :: (a + [c] + b)[k] != c
  {}

  /** What follows the last separator, and what precedes it, can be told apart. */
  lemma LastSeparator(a: string, b: string, a': string, b': string, c: char)
    requires a + [c] + b == a' + [c] + b'
    requires c !in b && c !in b'
    ensures a == a' && b == b'
  {
    var s := a + [c] + b;
    SeparatorIsLast(a, b, c);
    SeparatorIsLast(a', b', c);
    assert |a| == |a'|;
    assert a == s[..|a|] && b == s[|a| + 1..];
  }

  lemma {:induction false} PaddingIsInFront(s: string, width: nat) returns (zeros: string)
    ensures Pad(s, width) == zeros + s && forall c | c in zeros :: c == '0'
    decreases width - |s|
  {
    if |s| >= width {
      zeros := "";
    } else {
      var more := PaddingIsInFront("0" + s, width);
      zeros := more + "0";
    }
  }

  /** A negative numeral has its sign after the padding. */
  lemma SignIsLast(i: int, width: nat) returns (zeros: string)
    requires i < 0
    ensures Pad(Text(i), width) == zeros + ['-'] + Digits(-i)
    ensures '-' !in Digits(-i) && ValueOf(Digits(-i)) == -i
  {
    hide Pad, Digits, ValueOf;
    zeros := PaddingIsInFront(Text(i), width);
    DigitsStandForNumber(-i);
    assert zeros + ("-" + Digits(-i)) == zeros + ['-'] + Digits(-i);
  }

  lemma OnlyNegativesHaveSigns(i: int, width: nat)
    ensures '-' in Pad(Text(i), width) <==> i < 0
  {
    hide Pad, Digits, ValueOf, Text;
    if i < 0 {
      var zeros := SignIsLast(i, width);
      assert (zeros + ['-'] + Digits(-i))[|zeros|] == '-';
    } else {
      TextStandsForNumber(i, width);
    }
  }

  /** A padded numeral determines its number, though padding goes in front of the sign. */
  lemma PaddedIsInjective(i: int, j: int, width: nat)
    requires Pad(Text(i), width) == Pad(Text(j), width)
    ensures i == j
  {
    hide Pad, Digits, ValueOf, Text, NumberOf;
    OnlyNegativesHaveSigns(i, width);
    OnlyNegativesHaveSigns(j, width);
    if i < 0 {
      var a := SignIsLast(i, width);
      var b := SignIsLast(j, width);
      LastSeparator(a, Digits(-i), b, Digits(-j), '-');
    } else {
      TextStandsForNumber(i, width);
      TextStandsForNumber(j, width);
    }
  }

  // ------------------------------------------------------- identifiers

  /** The remainder with the sign of the dividend. */
  function Remainder(i: int, n: nat): int
    requires n > 0
  {
    if i >= 0 then i % n else -((-i) % n)
  }

  function Hour(minuteOfDay: int): string {
    Pad(Text(minuteOfDay / 60), 2)
  }

  function Minute(minuteOfDay: int): string {
    Pad(Text(Remainder(minuteOfDay, 60)), 2)
  }

  function OccurrenceId(automationId: string, revision: int, localDate: string, minuteOfDay: int): string {
    automationId + [':'] + Text(revision) + [':'] + localDate + [':'] + Hour(minuteOfDay) + [':'] + Minute(minuteOfDay)
  }

  lemma HourAndMinuteTellTime(m: int, m': int)
    requires Hour(m) == Hour(m') && Minute(m) == Minute(m')
    ensures m == m'
  {
    TextStandsForNumber(m / 60, 2);
    TextStandsForNumber(m' / 60, 2);
    TextStandsForNumber(Remainder(m, 60), 2);
    TextStandsForNumber(Remainder(m', 60), 2);
    RemainderIsExact(m);
    RemainderIsExact(m');
  }

  lemma RemainderIsExact(m: int)
    ensures var r := Remainder(m, 60); m - 60 * (m / 60) == if m < 0 && r != 0 then 60 + r else r
  {}

  /** Identifiers agree only if automation, revision, date and minute agree, whatever the automation is called. */
  lemma IdsAreInjective(id: string, revision: int, date: string, minute: int, id': string, revision': int,
                        date': string, minute': int)
    requires ':' !in date && ':' !in date'
    ensures OccurrenceId(id, revision, date, minute) == OccurrenceId(id', revision', date', minute') <==>
      id == id' && revision == revision' && date == date' && minute == minute'
  {
    if OccurrenceId(id, revision, date, minute) == OccurrenceId(id', revision', date', minute') {
      NoColons(revision, minute);
      NoColons(revision', minute');
      var a, a' := id + [':'] + Text(revision), id' + [':'] + Text(revision');
      LastSeparator(a + [':'] + date + [':'] + Hour(minute), Minute(minute),
                    a' + [':'] + date' + [':'] + Hour(minute'), Minute(minute'), ':');
      LastSeparator(a + [':'] + date, Hour(minute), a' + [':'] + date', Hour(minute'), ':');
      LastSeparator(a, date, a', date', ':');
      LastSeparator(id, Text(revision), id', Text(revision'), ':');
      HourAndMinuteTellTime(minute, minute');
      TextStandsForNumber(revision, 0);
      TextStandsForNumber(revision', 0);
    }
  }

  lemma NoColons(revision: int, minute: int)
    ensures ':' !in Text(revision) && ':' !in Hour(minute) && ':' !in Minute(minute)
  {
    TextStandsForNumber(revision, 0);
    TextStandsForNumber(minute / 60, 2);
    TextStandsForNumber(Remainder(minute, 60), 2);
  }

  /** With colons in the date two different occurrences can share an identifier. */
  lemma ColonsInDatesCollide(minute: int)
    ensures OccurrenceId("a", 1, "2:d", minute) == OccurrenceId("a:1", 2, "d", minute)
  {}
}

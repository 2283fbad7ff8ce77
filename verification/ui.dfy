/**
  Display helpers of the browser client: relative-time buckets, the falsy
  guards of the calendar-day helpers, and initials for an avatar. A timestamp
  is a `Wire.Stamp`: `new Date(ts)` of it is its time in milliseconds, or an
  Invalid Date, whose every comparison fails and whose every rendering is
  "Invalid Date". The local calendar and locale formatting are parameters.
*/
module Ui {
  import opened Wrappers
  import opened JsText
  import opened Wire

  const MinuteMs := 60000
  const HourMs := 3600000
  const DayMs := 86400000

  /** A truthy timestamp that parses to a time. */
  predicate Parsed(ts: Stamp) {
    StampTruthy(ts) && TimeOf(ts).Some?
  }

  /** The decimal digits of `n`, as a template literal prints it. */
  function Decimal(n: nat): (s: string)
    ensures |s| >= 1 && forall i :: 0 <= i < |s| ==> '0' <= s[i] <= '9'
  {
    if n < 10 then [('0' as int + n) as char]
    else Decimal(n / 10) + [('0' as int + n % 10) as char]
  }

  /** The printed digits read back as `n`. */
  lemma {:induction false} DecimalValue(n: nat)
    ensures DigitsValue(Decimal(n), 10) == n
    decreases n
  {
    var s := Decimal(n);
    if n < 10 {
      assert s[..0] == "";
    } else {
      DecimalValue(n / 10);
      assert s[..|s| - 1] == Decimal(n / 10);
    }
  }

  /**
    `formatTime(ts)` at the clock reading `now`. Minutes, hours and days are
    floors of the elapsed milliseconds; a timestamp a week or more back is
    shown as `calendarDate`, its locale short date. An Invalid Date fails
    every bucket and prints as "Invalid Date".
  */
  function FormatTime(ts: Stamp, now: int, calendarDate: string): (r: string)
    ensures !StampTruthy(ts) ==> r == ""
    ensures StampTruthy(ts) && TimeOf(ts).None? ==> r == InvalidDate
    ensures Parsed(ts) && now - TimeOf(ts).value < MinuteMs ==> r == "Just now"
    ensures Parsed(ts) && MinuteMs <= now - TimeOf(ts).value < HourMs ==>
      1 <= (now - TimeOf(ts).value) / MinuteMs < 60 && r == Decimal((now - TimeOf(ts).value) / MinuteMs) + "m ago"
    ensures Parsed(ts) && HourMs <= now - TimeOf(ts).value < DayMs ==>
      1 <= (now - TimeOf(ts).value) / HourMs < 24 && r == Decimal((now - TimeOf(ts).value) / HourMs) + "h ago"
    ensures Parsed(ts) && DayMs <= now - TimeOf(ts).value < 2 * DayMs ==> r == "Yesterday"
    ensures Parsed(ts) && 2 * DayMs <= now - TimeOf(ts).value < 7 * DayMs ==>
      2 <= (now - TimeOf(ts).value) / DayMs < 7 && r == Decimal((now - TimeOf(ts).value) / DayMs) + "d ago"
    ensures Parsed(ts) && 7 * DayMs <= now - TimeOf(ts).value ==> r == calendarDate
  {
    if !StampTruthy(ts) then ""
    else match TimeOf(ts)
      case None => InvalidDate
      case Some(t) =>
        var diffMs := now - t;
        var diffMins := diffMs / MinuteMs;
        var diffHours := diffMs / HourMs;
        var diffDays := diffMs / DayMs;
        if diffMins < 1 then "Just now"
        else if diffMins < 60 then Decimal(diffMins) + "m ago"
        else if diffHours < 24 then Decimal(diffHours) + "h ago"
        else if diffDays == 1 then "Yesterday"
        else if diffDays < 7 then Decimal(diffDays) + "d ago"
        else calendarDate
  }

  /** A timestamp in the future reads "Just now". */
  lemma FutureIsJustNow(ts: Stamp, now: int, calendarDate: string)
    requires Parsed(ts) && TimeOf(ts).value > now
    ensures FormatTime(ts, now, calendarDate) == "Just now"
  {
  }

  /**
    The `toDateString()` of a timestamp, up to the local calendar: `day` of
    its time, and `None` for the "Invalid Date" every unparsable one prints.
  */
  function DayKey(ts: Stamp, day: int -> int): Option<int> {
    match TimeOf(ts)
    case None => None
    case Some(t) => Some(day(t))
  }

  /** `isDifferentDay(ts1, ts2)`: false when either is falsy; `day` is the local calendar day of a time. */
  function IsDifferentDay(ts1: Stamp, ts2: Stamp, day: int -> int): (r: bool)
    ensures !StampTruthy(ts1) || !StampTruthy(ts2) ==> !r
    ensures Parsed(ts1) && Parsed(ts2) ==> (r <==> day(TimeOf(ts1).value) != day(TimeOf(ts2).value))
    ensures StampTruthy(ts1) && StampTruthy(ts2) && TimeOf(ts1).None? && TimeOf(ts2).None? ==> !r
    ensures StampTruthy(ts1) && StampTruthy(ts2) && TimeOf(ts1).None? != TimeOf(ts2).None? ==> r
  {
    if !StampTruthy(ts1) || !StampTruthy(ts2) then false
    else DayKey(ts1, day) != DayKey(ts2, day)
  }

  /**
    `formatDateSeparator(ts)`: empty for a falsy timestamp, then "Today",
    "Yesterday", or `calendarDate`, the locale long date; an Invalid Date
    matches neither day and prints as "Invalid Date".
  */
  function FormatDateSeparator(ts: Stamp, now: int, day: int -> int, calendarDate: string): (r: string)
    ensures !StampTruthy(ts) ==> r == ""
    ensures StampTruthy(ts) && TimeOf(ts).None? ==> r == InvalidDate
    ensures Parsed(ts) && day(TimeOf(ts).value) == day(now) ==> r == "Today"
    ensures Parsed(ts) && day(TimeOf(ts).value) == day(now) - 1 ==> r == "Yesterday"
    ensures Parsed(ts) && day(TimeOf(ts).value) != day(now) && day(TimeOf(ts).value) != day(now) - 1 ==> r == calendarDate
  {
    if !StampTruthy(ts) then ""
    else match TimeOf(ts)
      case None => InvalidDate
      case Some(t) =>
        if day(t) == day(now) then "Today"
        else if day(t) == day(now) - 1 then "Yesterday"
        else calendarDate
  }

  /**
    `isDifferentDay` is symmetric, and two truthy timestamps that print the
    same day string, both on one day or both unparsable, never get a separator.
  */
  lemma SameDayNoSeparator(ts1: Stamp, ts2: Stamp, day: int -> int)
    ensures IsDifferentDay(ts1, ts2, day) == IsDifferentDay(ts2, ts1, day)
    ensures StampTruthy(ts1) && StampTruthy(ts2) ==>
      (IsDifferentDay(ts1, ts2, day) <==> DayKey(ts1, day) != DayKey(ts2, day))
  {
  }

  /** The epoch as a number is falsy, but as the ISO text the server sends it is a real day. */
  lemma EpochStamps(day: int -> int)
    ensures FormatTime(Millis(0), 0, "Jan 1") == ""
    ensures FormatTime(Iso(0), 0, "Jan 1") == "Just now"
    ensures IsDifferentDay(Iso(0), Iso(DayMs), day) <==> day(0) != day(DayMs)
  {
  }

  // ---------------------------------------------------------------------------
  // Initials
  // ---------------------------------------------------------------------------

  /** The separators of `/[\s@]/`. */
  predicate IsNameSeparator(c: char) {
    IsJsWhitespace(c) || c == '@'
  }

  /** A part's first character, or JavaScript's `undefined` when the part is empty. */
  datatype Initial = Char(c: char) | Undefined

  function FirstOf(part: string): Initial {
    if |part| == 0 then Undefined else Char(part[0])
  }

  /**
    `a + b` on two initials: text when either is a character (an `undefined`
    operand prints as "undefined"), and `None` for `undefined + undefined`,
    which is the number `NaN` and has no `toUpperCase`.
  */
  function Concat(a: Initial, b: Initial): Option<string> {
    match (a, b)
    case (Char(x), Char(y)) => Some([x, y])
    case (Char(x), Undefined) => Some([x] + "undefined")
    case (Undefined, Char(y)) => Some("undefined" + [y])
    case (Undefined, Undefined) => None
  }

  /** `s.substring(0, 2)`. */
  function FirstTwo(s: string): string {
    if |s| <= 2 then s else s[..2]
  }

  /**
    `getInitials(emailOrName)` as written: "?" for a falsy input; with two or
    more parts, the first characters of the first two parts, uppercased; else
    the first two characters of the untrimmed input. `Failure` is the
    `TypeError` thrown when both of the first two parts are empty.
  */
  function GetInitials(emailOrName: Option<string>): (r: Result<string, string>)
    ensures !Truthy(emailOrName) ==> r == Success("?")
    ensures Truthy(emailOrName) && |SplitBy(Trim(emailOrName.value), IsNameSeparator)| < 2 ==>
      r == Success(ToUpper(FirstTwo(emailOrName.value)))
    ensures r.Failure? <==>
      Truthy(emailOrName) &&
      var parts := SplitBy(Trim(emailOrName.value), IsNameSeparator);
      |parts| >= 2 && parts[0] == "" && parts[1] == ""
    ensures Truthy(emailOrName) ==>
      var parts := SplitBy(Trim(emailOrName.value), IsNameSeparator);
      |parts| >= 2 && parts[0] != "" && parts[1] != "" ==>
        r == Success([UpperChar(parts[0][0]), UpperChar(parts[1][0])])
  {
    if !Truthy(emailOrName) then Success("?")
    else
      var parts := SplitBy(Trim(emailOrName.value), IsNameSeparator);
      if |parts| >= 2 then
        match Concat(FirstOf(parts[0]), FirstOf(parts[1]))
        case None => Failure("TypeError")
        case Some(pair) =>
          if parts[0] != "" && parts[1] != "" then UpperPair(parts[0][0], parts[1][0]); Success(ToUpper(pair))
          else Success(ToUpper(pair))
      else Success(ToUpper(FirstTwo(emailOrName.value)))
  }

  lemma SplitSpaceSpace()
    ensures SplitBy("a  b", IsNameSeparator) == ["a", "", "b"]
  {
    assert "a  b" == "a" + [' '] + " b";
    assert " b" == "" + [' '] + "b";
    SplitByAppend("a", ' ', " b", IsNameSeparator);
    SplitByAppend("", ' ', "b", IsNameSeparator);
    SplitByNoSeparator("b", IsNameSeparator);
  }

  lemma SplitAt()
    ensures SplitBy("@", IsNameSeparator) == ["", ""]
  {
    assert "@" == "" + ['@'] + "";
    SplitByAppend("", '@', "", IsNameSeparator);
    SplitByNoSeparator("", IsNameSeparator);
  }

  /** A doubled space reaches an empty part: "a  b" gives "AUNDEFINED" instead of "AB". */
  lemma DoubledSpaceInitials()
    ensures GetInitials(Some("a  b")) == Success("AUNDEFINED")
  {
    assert NoEdgeWhitespace("a  b");
    TrimOfTrimmed("a  b");
    SplitSpaceSpace();
    assert ['a'] + "undefined" == "aundefined";
    assert Concat(FirstOf("a"), FirstOf("")) == Some("aundefined");
    UpperUndefined();
  }

  lemma UpperUndefined()
    ensures ToUpper("aundefined") == "AUNDEFINED"
  {
  }

  /** A lone "@" splits into two empty parts and throws instead of returning an initial. */
  lemma LoneAtThrows()
    ensures GetInitials(Some("@")).Failure?
  {
    assert NoEdgeWhitespace("@");
    TrimOfTrimmed("@");
    SplitAt();
  }

  /**
    `getInitials` with empty parts skipped: the first characters of the first
    two words, or the first two characters when there are fewer than two.
  */
  function Initials(emailOrName: Option<string>): (r: string)
    ensures !Truthy(emailOrName) ==> r == "?"
    ensures |r| <= 2
    ensures Truthy(emailOrName) ==>
      var words := DropEmpty(SplitBy(Trim(emailOrName.value), IsNameSeparator));
      |words| >= 2 ==> r == [UpperChar(words[0][0]), UpperChar(words[1][0])]
  {
    if !Truthy(emailOrName) then "?"
    else
      var words := DropEmpty(SplitBy(Trim(emailOrName.value), IsNameSeparator));
      if |words| >= 2 then
        [UpperChar(words[0][0]), UpperChar(words[1][0])]
      else ToUpper(FirstTwo(emailOrName.value))
  }

  lemma UpperPair(a: char, b: char)
    ensures ToUpper([a, b]) == [UpperChar(a), UpperChar(b)]
  {
    assert ToUpper([a, b])[0] == UpperChar(a) && ToUpper([a, b])[1] == UpperChar(b);
  }

  /** Where the first two parts are not empty, or there are fewer than two parts, the two agree. */
  lemma {:induction false} InitialsAgree(emailOrName: Option<string>)
    requires Truthy(emailOrName)
    requires var parts := SplitBy(Trim(emailOrName.value), IsNameSeparator);
      |parts| < 2 || (parts[0] != "" && parts[1] != "")
    ensures GetInitials(emailOrName) == Success(Initials(emailOrName))
  {
    var parts := SplitBy(Trim(emailOrName.value), IsNameSeparator);
    if |parts| >= 2 {
      LeadingWords(parts);
      var words := DropEmpty(parts);
      assert Initials(emailOrName) == [UpperChar(words[0][0]), UpperChar(words[1][0])];
    }
  }

  /** Two non-empty leading parts are the first two words. */
  lemma LeadingWords(parts: seq<string>)
    requires |parts| >= 2 && parts[0] != "" && parts[1] != ""
    ensures |DropEmpty(parts)| >= 2 && DropEmpty(parts)[0] == parts[0] && DropEmpty(parts)[1] == parts[1]
  {
    assert parts[1..][0] == parts[1];
  }

  /** The corrected helper gives "AB" for "a  b". */
  lemma InitialsOfDoubledSpace()
    ensures Initials(Some("a  b")) == "AB"
  {
    assert NoEdgeWhitespace("a  b");
    TrimOfTrimmed("a  b");
    SplitSpaceSpace();
    assert DropEmpty(["a", "", "b"]) == ["a", "b"] by {
      assert ["a", "", "b"][1..] == ["", "b"];
      assert ["", "b"][1..] == ["b"];
      assert ["b"][1..] == [];
    }
  }

  /** The corrected helper gives an initial for "@", where the original throws. */
  lemma InitialsOfLoneAt()
    ensures Initials(Some("@")) == "@"
  {
    assert NoEdgeWhitespace("@");
    TrimOfTrimmed("@");
    SplitAt();
    assert DropEmpty(["", ""]) == [] by {
      assert ["", ""][1..] == [""];
      assert [""][1..] == [];
    }
  }
}

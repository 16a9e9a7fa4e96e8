/** The request validators: each is an ordered chain of guards whose first
    failure decides the message, with no state touched. The clock readings in
    `app/utils/validators.py` (`utcnow()`, `now().year`) are parameters here. */
module Validators {
  import opened Wrappers
  import opened Clock
  import Queries

  // ---------------------------------------------------------------- time slot

  datatype TimeSlotError =
    | StartNotBeforeEnd
    | InPast
    | OutsideBusinessHours(open: int, close: int)
    | OnWeekend

  /** The rules a booking window must meet, as a whole: it is non-empty, not in
      the past, starts at or after the opening hour and ends in an hour no later
      than the closing hour (hours only, minutes ignored), on a weekday. */
  ghost predicate Bookable(start: int, end: int, now: int, cfg: Config) {
    && start < end
    && now <= start
    && cfg.businessHoursStart <= HourOf(start)
    && HourOf(end) <= cfg.businessHoursEnd
    && Weekday(start) < 5
  }

  /** `validate_time_slot`: ordering, then the past, then business hours, then
      the weekend; the first rule broken is the one reported. */
  function ValidateTimeSlot(start: int, end: int, now: int, cfg: Config): (r: Outcome<TimeSlotError>)
    ensures r.Pass? <==> Bookable(start, end, now, cfg)
    ensures r == Fail(StartNotBeforeEnd) <==> start >= end
    ensures r == Fail(InPast) <==> start < end && start < now
    ensures r.Fail? && r.error.OutsideBusinessHours? <==>
      start < end && now <= start &&
      (HourOf(start) < cfg.businessHoursStart || HourOf(end) > cfg.businessHoursEnd)
    ensures r.Fail? && r.error.OutsideBusinessHours? ==>
      r.error == OutsideBusinessHours(cfg.businessHoursStart, cfg.businessHoursEnd)
    ensures r == Fail(OnWeekend) <==>
      start < end && now <= start && cfg.businessHoursStart <= HourOf(start) &&
      HourOf(end) <= cfg.businessHoursEnd && Weekday(start) >= 5
  {
    if start >= end then Fail(StartNotBeforeEnd)
    else if start < now then Fail(InPast)
    else if HourOf(start) < cfg.businessHoursStart || HourOf(end) > cfg.businessHoursEnd then
      Fail(OutsideBusinessHours(cfg.businessHoursStart, cfg.businessHoursEnd))
    else if Weekday(start) >= 5 then Fail(OnWeekend)
    else Pass
  }

  /** The business-hours rule reads only the hour of the end: under the shipped
      configuration a Monday window 17:00-18:59 passes, and so does a window that
      runs overnight from Monday 17:30 to Tuesday 08:30. */
  lemma EndHourIsTruncated()
    ensures ValidateTimeSlot(17 * 60, 18 * 60 + 59, 0, Shipped) == Pass
    ensures ValidateTimeSlot(17 * 60 + 30, MinutesPerDay + 8 * 60 + 30, 0, Shipped) == Pass
    ensures ValidateTimeSlot(17 * 60, 19 * 60, 0, Shipped) == Fail(OutsideBusinessHours(8, 18))
  {
  }

  // ----------------------------------------------------------------- password

  datatype PasswordError = TooShort | NoUppercase | NoLowercase | NoDigit

  /** `re.search('[lo-hi]', s)` for a character class that is one range. */
  predicate HasCharIn(s: string, lo: char, hi: char) {
    exists i :: 0 <= i < |s| && lo <= s[i] <= hi
  }

  /** `validate_password`: at least eight characters, then an upper-case letter,
      a lower-case letter and a digit, reported in that order. */
  function ValidatePassword(password: string): (r: Outcome<PasswordError>)
    ensures r.Pass? <==>
      |password| >= 8 && HasCharIn(password, 'A', 'Z') && HasCharIn(password, 'a', 'z') &&
      HasCharIn(password, '0', '9')
    ensures r == Fail(TooShort) <==> |password| < 8
    ensures r == Fail(NoUppercase) <==> |password| >= 8 && !HasCharIn(password, 'A', 'Z')
    ensures r == Fail(NoLowercase) <==>
      |password| >= 8 && HasCharIn(password, 'A', 'Z') && !HasCharIn(password, 'a', 'z')
    ensures r == Fail(NoDigit) <==>
      |password| >= 8 && HasCharIn(password, 'A', 'Z') && HasCharIn(password, 'a', 'z') &&
      !HasCharIn(password, '0', '9')
  {
    if |password| < 8 then Fail(TooShort)
    else if !HasCharIn(password, 'A', 'Z') then Fail(NoUppercase)
    else if !HasCharIn(password, 'a', 'z') then Fail(NoLowercase)
    else if !HasCharIn(password, '0', '9') then Fail(NoDigit)
    else Pass
  }

  // -------------------------------------------------------------------- phone

  predicate IsSeparator(c: char) { c == '-' || c == ' ' }

  /** `phone.replace('-', '').replace(' ', '')`. */
  function Compact(phone: string): (r: string)
    ensures forall i :: 0 <= i < |r| ==> !IsSeparator(r[i])
  {
    Queries.Filter(phone, c => !IsSeparator(c))
  }

  predicate AllDigits(s: string) {
    forall i :: 0 <= i < |s| ==> '0' <= s[i] <= '9'
  }

  /** The part of the pattern before the digits: `\+?1?`. */
  predicate PhonePrefix(p: string) {
    p == "" || p == "+" || p == "1" || p == "+1"
  }

  /** `\d{9,15}`. */
  predicate DigitRun(d: string) {
    9 <= |d| <= 15 && AllDigits(d)
  }

  /** Where Python's `$` matches: the end of the string, or a final newline. */
  predicate LineEnd(t: string) {
    t == "" || t == "\n"
  }

  /** What `re.match(r'^\+?1?\d{9,15}$', s)` accepts, read off the pattern. */
  ghost predicate PhonePattern(s: string) {
    exists i, j :: 0 <= i <= j <= |s| && PhonePrefix(s[..i]) && DigitRun(s[i..j]) && LineEnd(s[j..])
  }

  /** 1 when the string opens with a plus sign. */
  function PlusLen(s: string): nat {
    if |s| > 0 && s[0] == '+' then 1 else 0
  }

  /** 1 when a final newline follows something other than that plus sign. */
  function EolLen(s: string): nat {
    if |s| > PlusLen(s) && s[|s| - 1] == '\n' then 1 else 0
  }

  /** The pattern decided without backtracking: an optional plus sign, then
      nine to fifteen digits, or sixteen digits of which the first is a one,
      then an optional newline. */
  predicate PhoneShape(s: string) {
    var d := s[PlusLen(s)..|s| - EolLen(s)];
    AllDigits(d) && (9 <= |d| <= 15 || (|d| == 16 && d[0] == '1'))
  }

  /** `validate_phone`: the pattern, after the separators are removed. */
  function ValidatePhone(phone: string): (r: bool)
    ensures r <==> PhonePattern(Compact(phone))
  {
    PhoneShapeIsPattern(Compact(phone));
    PhoneShape(Compact(phone))
  }

  /** The direct check accepts exactly what the regular expression accepts. */
  lemma PhoneShapeIsPattern(s: string)
    ensures PhoneShape(s) <==> PhonePattern(s)
  {
    if PhoneShape(s) {
      ShapeToPattern(s);
    }
    if PhonePattern(s) {
      var i, j :| 0 <= i <= j <= |s| && PhonePrefix(s[..i]) && DigitRun(s[i..j]) && LineEnd(s[j..]);
      PatternToShape(s, i, j);
    }
  }

  lemma ShapeToPattern(s: string)
    requires PhoneShape(s)
    ensures PhonePattern(s)
  {
    var plus, j := PlusLen(s), |s| - EolLen(s);
    var d := s[plus..j];
    assert LineEnd(s[j..]) by {
      if j < |s| {
        assert s[j..] == [s[|s| - 1]];
      }
    }
    if 9 <= |d| <= 15 {
      assert PhonePrefix(s[..plus]) by {
        if plus == 1 {
          assert s[..plus] == [s[0]];
        }
      }
      PatternWitness(s, plus, j);
    } else {
      assert s[plus] == d[0];
      assert PhonePrefix(s[..plus + 1]) by {
        if plus == 1 {
          assert s[..plus + 1] == [s[0], s[1]];
        } else {
          assert s[..plus + 1] == [s[0]];
        }
      }
      assert s[plus + 1..j] == d[1..];
      PatternWitness(s, plus + 1, j);
    }
  }

  /** The two cut points the pattern needs, given outright. */
  lemma PatternWitness(s: string, i: int, j: int)
    requires 0 <= i <= j <= |s| && PhonePrefix(s[..i]) && DigitRun(s[i..j]) && LineEnd(s[j..])
    ensures PhonePattern(s)
  {
  }

  lemma PatternToShape(s: string, i: int, j: int)
    requires 0 <= i <= j <= |s| && PhonePrefix(s[..i]) && DigitRun(s[i..j]) && LineEnd(s[j..])
    ensures PhoneShape(s)
  {
    var p, d := s[..i], s[i..j];
    var plus := if p == "+" || p == "+1" then 1 else 0;
    // The string opens with a plus sign exactly when the prefix has one.
    assert PlusLen(s) == plus by {
      if i > 0 {
        assert s[0] == p[0];
      } else {
        assert s[0] == d[0];
      }
    }
    // It ends in a newline exactly when `$` matched one.
    assert EolLen(s) == |s| - j by {
      if j < |s| {
        assert s[j..] == [s[|s| - 1]];
      } else {
        assert s[|s| - 1] == d[|d| - 1];
      }
    }
    if i - plus == 1 {
      assert s[plus] == p[plus];
      assert s[plus..j] == [s[plus]] + d;
    } else {
      assert s[plus..j] == d;
    }
  }

  /** Removing separators from a string that has none changes nothing. */
  lemma {:induction false} CompactWithoutSeparators(s: string)
    requires forall i :: 0 <= i < |s| ==> !IsSeparator(s[i])
    ensures Compact(s) == s
  {
    if s != [] {
      CompactWithoutSeparators(s[1..]);
      assert Compact(s) == [s[0]] + Compact(s[1..]);
    }
  }

  /** Removing separators works character by character: a separator goes and
      any other character stays. */
  lemma CompactChar(c: char)
    ensures Compact([c]) == if IsSeparator(c) then [] else [c]
  {
    assert [c][1..] == [];
  }

  /** Removing separators keeps the order of what remains: the compacted halves
      of a string, joined, are the compacted string. */
  lemma {:induction false} CompactAppend(a: string, b: string)
    ensures Compact(a + b) == Compact(a) + Compact(b)
  {
    if a == [] {
      assert a + b == b;
    } else {
      assert (a + b)[1..] == a[1..] + b;
      CompactAppend(a[1..], b);
      assert (a + b)[0] == a[0];
    }
  }

  /** A trailing newline survives the separator removal and is accepted by `$`:
      any run of nine to fifteen digits passes with or without one. */
  lemma PhoneAcceptsTrailingNewline(d: string)
    requires DigitRun(d)
    ensures ValidatePhone(d)
    ensures ValidatePhone(d + "\n")
  {
    var s := d + "\n";
    assert '0' <= d[0] <= '9' && '0' <= d[|d| - 1] <= '9';
    assert PlusLen(d) == 0 && EolLen(d) == 0;
    assert d[0..|d|] == d;
    DigitsAreShaped(d);
    assert s[0] == d[0] && s[|s| - 1] == '\n';
    assert PlusLen(s) == 0 && EolLen(s) == 1;
    assert s[0..|s| - 1] == d;
    DigitsAreShaped(s);
  }

  /** A string without separators whose shape is right passes the check. */
  lemma DigitsAreShaped(s: string)
    requires forall i :: 0 <= i < |s| ==> !IsSeparator(s[i])
    requires PhoneShape(s)
    ensures ValidatePhone(s)
  {
    CompactWithoutSeparators(s);
  }

  // ------------------------------------------------------------- vehicle year

  datatype YearError = YearOutOfRange(latest: int)

  /** `validate_vehicle_year`: from 1900 to next year, both included. */
  function ValidateVehicleYear(year: int, currentYear: int): (r: Outcome<YearError>)
    ensures r.Pass? <==> 1900 <= year <= currentYear + 1
    ensures r.Fail? ==> r.error == YearOutOfRange(currentYear + 1)
  {
    if year < 1900 || year > currentYear + 1 then Fail(YearOutOfRange(currentYear + 1))
    else Pass
  }
}

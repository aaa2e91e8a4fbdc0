/**
 * Two handlers of the admin web service: the log-file name normalisation
 * of `GET /logs/{log_file}` and the single-key update of
 * `PATCH /config/enabled`.
 *
 * The clock is a parameter (the local date at the time of the request),
 * the log directory is a map from path to file kind, and `config.json` is
 * a field of `ConfigStore`.
 */
module Webservice {
  import opened Common
  import opened JsonValue

  // ---------------------------------------------------------------------
  // Calendar dates (proleptic Gregorian, as Python's `datetime`)

  datatype Date = Date(year: int, month: int, day: int)

  predicate IsLeapYear(year: int) {
    year % 4 == 0 && (year % 100 != 0 || year % 400 == 0)
  }

  function DaysInMonth(year: int, month: int): int
    requires 1 <= month <= 12
  {
    if month == 2 then (if IsLeapYear(year) then 29 else 28)
    else if month == 4 || month == 6 || month == 9 || month == 11 then 30
    else 31
  }

  /** A date `datetime` can represent: years 1 to 9999. */
  predicate ValidDate(d: Date) {
    1 <= d.year <= 9999 && 1 <= d.month <= 12 && 1 <= d.day <= DaysInMonth(d.year, d.month)
  }

  function DaysBeforeYear(year: int): int
    requires year >= 1
  {
    var y := year - 1;
    365 * y + y / 4 - y / 100 + y / 400
  }

  function DaysBeforeMonth(year: int, month: int): (days: int)
    requires 1 <= month <= 12
    ensures days >= 0 && (month > 1 ==> days >= 31)
  {
    if month == 1 then 0 else DaysBeforeMonth(year, month - 1) + DaysInMonth(year, month - 1)
  }

  /** The day number of a date, 0001-01-01 being day 1 (`date.toordinal`). */
  function Ordinal(d: Date): (n: int)
    requires ValidDate(d)
    ensures n >= 1
  {
    DaysBeforeYear(d.year) + DaysBeforeMonth(d.year, d.month) + d.day
  }

  /** Day 1 is 0001-01-01 and no other date. */
  lemma FirstOrdinal(d: Date)
    requires ValidDate(d)
    ensures Ordinal(d) == 1 <==> d == Date(1, 1, 1)
  {
    if d.year > 1 {
      assert DaysBeforeYear(d.year) >= 365;
    }
  }

  lemma DaysBeforeDecember(year: int)
    ensures DaysBeforeMonth(year, 12) == if IsLeapYear(year) then 335 else 334
  {
    var leap := if IsLeapYear(year) then 1 else 0;
    assert DaysBeforeMonth(year, 2) == 31;
    assert DaysBeforeMonth(year, 3) == 59 + leap;
    assert DaysBeforeMonth(year, 4) == 90 + leap;
    assert DaysBeforeMonth(year, 5) == 120 + leap;
    assert DaysBeforeMonth(year, 6) == 151 + leap;
    assert DaysBeforeMonth(year, 7) == 181 + leap;
    assert DaysBeforeMonth(year, 8) == 212 + leap;
    assert DaysBeforeMonth(year, 9) == 243 + leap;
    assert DaysBeforeMonth(year, 10) == 273 + leap;
    assert DaysBeforeMonth(year, 11) == 304 + leap;
  }

  /** A year adds 366 days when it is a leap year and 365 otherwise. */
  lemma YearLength(year: int)
    requires year >= 2
    ensures DaysBeforeYear(year) == DaysBeforeYear(year - 1) + DaysBeforeMonth(year - 1, 12) + 31
  {
    DaysBeforeDecember(year - 1);
    var y, p := year - 1, year - 2;
    assert y / 4 - p / 4 == (if y % 4 == 0 then 1 else 0);
    assert y / 100 - p / 100 == (if y % 100 == 0 then 1 else 0);
    assert y / 400 - p / 400 == (if y % 400 == 0 then 1 else 0);
  }

  /** `d - timedelta(days=1)`; there is no day before 0001-01-01. */
  function PreviousDay(d: Date): (prev: Result<Date>)
    requires ValidDate(d)
    ensures prev.Err? <==> d == Date(1, 1, 1)
    ensures prev.Err? ==> prev.error == OverflowError
    ensures prev.Ok? ==> ValidDate(prev.value) && Ordinal(prev.value) == Ordinal(d) - 1
  {
    if d.day > 1 then
      EarlierDay(d);
      Ok(Date(d.year, d.month, d.day - 1))
    else if d.month > 1 then
      EndOfPreviousMonth(d);
      Ok(Date(d.year, d.month - 1, DaysInMonth(d.year, d.month - 1)))
    else if d.year > 1 then
      EndOfPreviousYear(d);
      Ok(Date(d.year - 1, 12, 31))
    else Err(OverflowError)
  }

  lemma EarlierDay(d: Date)
    requires ValidDate(d) && d.day > 1
    ensures ValidDate(Date(d.year, d.month, d.day - 1))
    ensures Ordinal(Date(d.year, d.month, d.day - 1)) == Ordinal(d) - 1
  {
  }

  lemma EndOfPreviousMonth(d: Date)
    requires ValidDate(d) && d.day == 1 && d.month > 1
    ensures ValidDate(Date(d.year, d.month - 1, DaysInMonth(d.year, d.month - 1)))
    ensures Ordinal(Date(d.year, d.month - 1, DaysInMonth(d.year, d.month - 1))) == Ordinal(d) - 1
  {
  }

  lemma EndOfPreviousYear(d: Date)
    requires ValidDate(d) && d.day == 1 && d.month == 1 && d.year > 1
    ensures ValidDate(Date(d.year - 1, 12, 31))
    ensures Ordinal(Date(d.year - 1, 12, 31)) == Ordinal(d) - 1
  {
    YearLength(d.year);
  }

  // ---------------------------------------------------------------------
  // `strftime("%Y-%m-%d")` and its inverse

  function Pad2(n: int): (s: string)
    requires 0 <= n < 100
    ensures |s| == 2 && IsDigit(s[0]) && IsDigit(s[1])
  {
    [DigitChar(n / 10), DigitChar(n % 10)]
  }

  function Pad4(n: int): (s: string)
    requires 0 <= n < 10000
    ensures |s| == 4 && forall k | 0 <= k < 4 :: IsDigit(s[k])
  {
    [DigitChar(n / 1000), DigitChar(n / 100 % 10), DigitChar(n / 10 % 10), DigitChar(n % 10)]
  }

  function FormatDate(d: Date): (s: string)
    requires ValidDate(d)
    ensures |s| == 10 && s[4] == '-' && s[7] == '-'
    ensures forall k | 0 <= k < 10 && k != 4 && k != 7 :: IsDigit(s[k])
  {
    Pad4(d.year) + "-" + Pad2(d.month) + "-" + Pad2(d.day)
  }

  function DigitValue(c: char): int
    requires IsDigit(c)
  {
    c as int - '0' as int
  }

  /** `datetime.strptime(s, "%Y-%m-%d")` restricted to the fixed-width form. */
  function ParseDate(s: string): Option<Date> {
    if |s| == 10 && s[4] == '-' && s[7] == '-'
       && forall k | 0 <= k < 10 && k != 4 && k != 7 :: IsDigit(s[k])
    then
      var d := Date(DigitValue(s[0]) * 1000 + DigitValue(s[1]) * 100 + DigitValue(s[2]) * 10 + DigitValue(s[3]),
                    DigitValue(s[5]) * 10 + DigitValue(s[6]),
                    DigitValue(s[8]) * 10 + DigitValue(s[9]));
      if ValidDate(d) then Some(d) else None
    else None
  }

  lemma DigitRoundTrip(d: int)
    requires 0 <= d < 10
    ensures DigitValue(DigitChar(d)) == d
  {
  }

  lemma Pad2RoundTrip(n: int)
    requires 0 <= n < 100
    ensures DigitValue(Pad2(n)[0]) * 10 + DigitValue(Pad2(n)[1]) == n
  {
    DigitRoundTrip(n / 10);
    DigitRoundTrip(n % 10);
  }

  lemma Pad4RoundTrip(n: int)
    requires 0 <= n < 10000
    ensures DigitValue(Pad4(n)[0]) * 1000 + DigitValue(Pad4(n)[1]) * 100
            + DigitValue(Pad4(n)[2]) * 10 + DigitValue(Pad4(n)[3]) == n
  {
    var s := Pad4(n);
    DigitRoundTrip(n / 1000);
    DigitRoundTrip(n / 100 % 10);
    DigitRoundTrip(n / 10 % 10);
    DigitRoundTrip(n % 10);
    var q := n / 10;
    assert n == q * 10 + n % 10;
    assert q == (n / 100) * 10 + q % 10;
    assert n / 100 == (n / 1000) * 10 + n / 100 % 10;
  }

  /** The date in a formatted name reads back as that date. */
  lemma FormatParseRoundTrip(d: Date)
    requires ValidDate(d)
    ensures ParseDate(FormatDate(d)) == Some(d)
  {
    Pad4RoundTrip(d.year);
    Pad2RoundTrip(d.month);
    Pad2RoundTrip(d.day);
    var s := FormatDate(d);
    assert s[..4] == Pad4(d.year) && s[5..7] == Pad2(d.month) && s[8..] == Pad2(d.day);
  }

  /** Different dates give different names. */
  lemma FormatDateInjective(a: Date, b: Date)
    requires ValidDate(a) && ValidDate(b)
    ensures FormatDate(a) == FormatDate(b) <==> a == b
  {
    FormatParseRoundTrip(a);
    FormatParseRoundTrip(b);
  }

  // ---------------------------------------------------------------------
  // Log names

  predicate EndsWith(s: string, suffix: string) {
    |suffix| <= |s| && s[|s| - |suffix|..] == suffix
  }

  /** Append `.log` unless the name already ends with it. */
  function WithLogSuffix(name: string): (r: string)
    ensures EndsWith(r, ".log")
    ensures r == name || r == name + ".log"
  {
    if EndsWith(name, ".log") then name
    else
      assert (name + ".log")[|name|..] == ".log";
      name + ".log"
  }

  /** A name that already has the suffix is left as it is. */
  lemma WithLogSuffixIdempotent(name: string)
    ensures WithLogSuffix(WithLogSuffix(name)) == WithLogSuffix(name)
  {
  }

  /** The file name `read_log` looks for, given the local date `today`:
      `today` and `yesterday` become dates, and `.log` is appended when
      missing. */
  function LogName(name: string, today: Date): (r: Result<string>)
    requires ValidDate(today)
    ensures r.Err? <==> name == "yesterday" && today == Date(1, 1, 1)
    ensures r.Err? ==> r.error == OverflowError
    ensures r.Ok? ==> EndsWith(r.value, ".log")
    ensures name != "today" && name != "yesterday" ==> r == Ok(WithLogSuffix(name))
  {
    if name == "today" then Ok(WithLogSuffix(FormatDate(today)))
    else if name == "yesterday" then
      match PreviousDay(today)
      case Err(e) => Err(e)
      case Ok(prev) => Ok(WithLogSuffix(FormatDate(prev)))
    else Ok(WithLogSuffix(name))
  }

  /** A formatted date never ends with `.log`, so the suffix is always added. */
  lemma DateNameGetsSuffix(d: Date)
    requires ValidDate(d)
    ensures WithLogSuffix(FormatDate(d)) == FormatDate(d) + ".log"
  {
    var s := FormatDate(d);
    assert s[|s| - 1] == s[9] && IsDigit(s[9]);
    assert !EndsWith(s, ".log") by {
      assert s[|s| - 4..][3] == s[9];
    }
  }

  /** `today` names today's file. */
  lemma TodayNamesToday(today: Date)
    requires ValidDate(today)
    ensures var r := LogName("today", today);
            r.Ok? && |r.value| == 14 && r.value[10..] == ".log"
            && ParseDate(r.value[..10]) == Some(today)
  {
    DateNameGetsSuffix(today);
    FormatParseRoundTrip(today);
    var r := FormatDate(today) + ".log";
    assert r[..10] == FormatDate(today);
  }

  /** `yesterday` names the file of the day before today. */
  lemma YesterdayNamesPreviousDay(today: Date)
    requires ValidDate(today) && today != Date(1, 1, 1)
    ensures var r := LogName("yesterday", today);
            r.Ok? && |r.value| == 14 && r.value[10..] == ".log"
            && ParseDate(r.value[..10]).Some?
            && ValidDate(ParseDate(r.value[..10]).value)
            && Ordinal(ParseDate(r.value[..10]).value) == Ordinal(today) - 1
  {
    var prev := PreviousDay(today).value;
    DateNameGetsSuffix(prev);
    FormatParseRoundTrip(prev);
    var r := FormatDate(prev) + ".log";
    assert r[..10] == FormatDate(prev);
  }

  /** Normalising a normalised name changes nothing. */
  lemma LogNameIdempotent(name: string, today: Date)
    requires ValidDate(today) && LogName(name, today).Ok?
    ensures LogName(LogName(name, today).value, today) == LogName(name, today)
  {
    var r := LogName(name, today).value;
    assert r != "today" && r != "yesterday" by {
      assert EndsWith(r, ".log") && r[|r| - 1] == 'g';
    }
  }

  /** What a path in the log directory refers to. */
  datatype FileKind = Regular | NotRegular

  const LogDir: string := "logs"

  function LogPath(name: string): string {
    LogDir + "/" + name
  }

  /** `read_log`: the path of the file served, or 404 when that path is
      missing or not a regular file; `yesterday` on 0001-01-01 overflows
      before any path is formed. */
  function ReadLog(name: string, today: Date, files: map<string, FileKind>): (r: Result<string>)
    requires ValidDate(today)
    ensures r.Ok? <==> LogName(name, today).Ok? && LogPath(LogName(name, today).value) in files
                       && files[LogPath(LogName(name, today).value)] == Regular
    ensures r.Ok? ==> r.value == LogPath(LogName(name, today).value) && EndsWith(r.value, ".log")
    ensures r.Err? && LogName(name, today).Ok? ==> r.error == NotFound
    ensures name == "yesterday" && today == Date(1, 1, 1) ==> r == Err(OverflowError)
  {
    match LogName(name, today)
    case Err(e) => Err(e)
    case Ok(logName) =>
      var path := LogPath(logName);
      if path in files && files[path] == Regular then
        assert path[|path| - 4..] == logName[|logName| - 4..];
        Ok(path)
      else Err(NotFound)
  }

  // ---------------------------------------------------------------------
  // The `enabled` flag

  /** The content of `config.json`. */
  datatype ConfigFile = Missing | Malformed | Parsed(content: Json)

  /** `config["enabled"] = enabled`: only a dict supports item assignment. */
  function WithEnabled(config: Json, enabled: bool): (r: Result<Json>)
    ensures r.Err? <==> !config.JObj?
    ensures r.Err? ==> r.error == TypeError
    ensures r.Ok? ==> r.value.JObj? && Get(r.value.fields, "enabled") == Some(JBool(enabled))
    ensures r.Ok? && "enabled" in Keys(config.fields) ==> Keys(r.value.fields) == Keys(config.fields)
    ensures r.Ok? && "enabled" !in Keys(config.fields) ==> Keys(r.value.fields) == Keys(config.fields) + ["enabled"]
  {
    if config.JObj? then Ok(JObj(Set(config.fields, "enabled", JBool(enabled)))) else Err(TypeError)
  }

  /** Every key but `enabled` reads as before. */
  lemma WithEnabledKeepsOtherKeys(config: Json, enabled: bool, key: string)
    requires config.JObj? && key != "enabled"
    ensures Get(WithEnabled(config, enabled).value.fields, key) == Get(config.fields, key)
  {
    SetKeepsOtherKeys(config.fields, "enabled", JBool(enabled), key);
  }

  /** Setting the flag twice is setting it once. */
  lemma WithEnabledIdempotent(config: Json, enabled: bool)
    requires config.JObj?
    ensures WithEnabled(WithEnabled(config, enabled).value, enabled) == WithEnabled(config, enabled)
  {
    SetTwice(config.fields, "enabled", JBool(enabled));
  }

  lemma {:induction false} SetTwice(fields: seq<(string, Json)>, key: string, value: Json)
    ensures Set(Set(fields, key, value), key, value) == Set(fields, key, value)
  {
    if |fields| > 0 && fields[0].0 != key {
      SetTwice(fields[1..], key, value);
    }
  }

  /** The reply's message, with Python's rendering of the bool. */
  function EnabledMessage(enabled: bool): (message: string)
    ensures |message| > 17 && message[..17] == "'enabled' set to "
    ensures message == "'enabled' set to True" <==> enabled
    ensures message == "'enabled' set to False" <==> !enabled
  {
    "'enabled' set to " + Str(JBool(enabled))
  }

  class ConfigStore {
    var file: ConfigFile

    constructor (file: ConfigFile)
      ensures this.file == file
    {
      this.file := file;
    }

    /** `update_enabled`: 404 before any read when the file is missing; a
        file that is not JSON, or JSON that is not an object, raises and is
        left as it was; otherwise only `enabled` is set and the file
        rewritten. */
    method UpdateEnabled(enabled: bool) returns (message: Result<string>)
      modifies this
      ensures old(file).Missing? ==> message == Err(NotFound) && file == old(file)
      ensures old(file).Malformed? ==> message == Err(JsonDecodeError) && file == old(file)
      ensures old(file).Parsed? ==>
                match WithEnabled(old(file).content, enabled)
                case Err(e) => message == Err(e) && file == old(file)
                case Ok(updated) => message == Ok(EnabledMessage(enabled)) && file == Parsed(updated)
    {
      match file
      case Missing =>
        return Err(NotFound);
      case Malformed =>
        return Err(JsonDecodeError);
      case Parsed(config) =>
        var updated := WithEnabled(config, enabled);
        if updated.Err? {
          return Err(updated.error);
        }
        file := Parsed(updated.value);
        message := Ok(EnabledMessage(enabled));
    }
  }
}

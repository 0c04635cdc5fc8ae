/** Operating-hours entries and the two checks every entry has to pass,
    shared by the site configuration and the locations schema: the day is
    one of the seven day names, and the times match
    `/^([01]\d|2[0-3]):[0-5]\d$/`. */
module Hours {

  import opened Strings

  /** Days of the week, in Schema.org order. */
  const ValidDays: seq<string> :=
    ["Monday", "Tuesday", "Wednesday", "Thursday", "Friday", "Saturday", "Sunday"]

  predicate IsValidDay(day: string) {
    day in ValidDays
  }

  /** One entry; the day is kept as the text the data holds so that the
      day check has something to reject. */
  datatype OperatingHoursEntry = OperatingHoursEntry(dayOfWeek: string, open: string, close: string)

  /** The day names a day of the week and both times are `HH:MM` times. */
  predicate ValidEntry(e: OperatingHoursEntry) {
    IsValidDay(e.dayOfWeek) && IsValidTime(e.open) && IsValidTime(e.close)
  }

  /** `/^([01]\d|2[0-3]):[0-5]\d$/` */
  predicate IsValidTime(t: string) {
    && |t| == 5
    && (('0' <= t[0] <= '1' && IsDigit(t[1])) || (t[0] == '2' && '0' <= t[1] <= '3'))
    && t[2] == ':'
    && '0' <= t[3] <= '5' && IsDigit(t[4])
  }

  /** `Number(hh)` of the part before the colon. */
  function Hour(t: string): (h: nat)
    requires IsValidTime(t)
    ensures h == 10 * (t[0] as int - '0' as int) + (t[1] as int - '0' as int)
    ensures h < 24
  {
    var hh := t[..2];
    assert hh[..1] == [t[0]] && [t[0]][..0] == [];
    assert DecimalValue(hh) == 10 * DecimalValue([t[0]]) + (t[1] as int - '0' as int);
    assert DecimalValue([t[0]]) == 10 * DecimalValue([]) + (t[0] as int - '0' as int);
    DecimalValue(hh)
  }

  /** `Number(mm)` of the part after the colon. */
  function Minute(t: string): (m: nat)
    requires IsValidTime(t)
    ensures m == 10 * (t[3] as int - '0' as int) + (t[4] as int - '0' as int)
    ensures m < 60
  {
    var mm := t[3..];
    assert mm[..1] == [t[3]] && [t[3]][..0] == [];
    assert DecimalValue(mm) == 10 * DecimalValue([t[3]]) + (t[4] as int - '0' as int);
    assert DecimalValue([t[3]]) == 10 * DecimalValue([]) + (t[3] as int - '0' as int);
    DecimalValue(mm)
  }

  function TwoDigits(n: nat): (r: string)
    requires n < 100
    ensures |r| == 2 && AllDigits(r)
  {
    [DigitChar(n / 10), DigitChar(n % 10)]
  }

  /** `HH:MM` for an hour and a minute, both zero-padded. */
  function TimeString(h: nat, m: nat): string
    requires h < 24 && m < 60
  {
    TwoDigits(h) + ":" + TwoDigits(m)
  }

  /** A valid time denotes an hour below 24 and a minute below 60, and is
      exactly their zero-padded rendering. */
  lemma ValidTimeParts(t: string)
    requires IsValidTime(t)
    ensures t == TimeString(Hour(t), Minute(t))
  {
    var h := Hour(t);
    var m := Minute(t);
    assert TimeString(h, m)[0] == t[0] && TimeString(h, m)[1] == t[1];
    assert TimeString(h, m)[3] == t[3] && TimeString(h, m)[4] == t[4];
  }

  /** A time string is accepted exactly when it is `HH:MM` for an hour in
      00-23 and a minute in 00-59. */
  lemma TimeGrammar(t: string)
    ensures IsValidTime(t) <==> exists h: nat, m: nat :: h < 24 && m < 60 && t == TimeString(h, m)
  {
    if IsValidTime(t) {
      ValidTimeParts(t);
    }
    if exists h: nat, m: nat :: h < 24 && m < 60 && t == TimeString(h, m) {
      var h: nat, m: nat :| h < 24 && m < 60 && t == TimeString(h, m);
      assert t[0] == DigitChar(h / 10) && t[1] == DigitChar(h % 10);
      assert t[3] == DigitChar(m / 10) && t[4] == DigitChar(m % 10);
    }
  }
}

/** The receive time of an AIS message.  AIS-catcher writes it as `YYYYMMDDHHMMSS`; the
    station decoder reads it with chrono's `NaiveDateTime::parse_from_str` and the format
    `%Y%m%d%H%M%S`, places it at UTC offset 0, and the station query writes it back with
    `%Y-%m-%dT%H:%M:%SZ`. */
module RxTime {
  import opened Wrappers
  import opened Decimal

  /** A calendar date and time of day at UTC offset 0.  `second == 60` is chrono's
      leap second. */
  datatype DateTime = DateTime(year: nat, month: nat, day: nat, hour: nat, minute: nat, second: nat)

  predicate IsLeapYear(y: nat) {
    y % 4 == 0 && (y % 100 != 0 || y % 400 == 0)
  }

  /** Days of a month in the proleptic Gregorian calendar. */
  function DaysInMonth(y: nat, m: nat): (d: nat)
    requires 1 <= m <= 12
    ensures 28 <= d <= 31
    ensures d == 29 <==> m == 2 && IsLeapYear(y)
  {
    if m == 2 then (if IsLeapYear(y) then 29 else 28)
    else if m == 4 || m == 6 || m == 9 || m == 11 then 30
    else 31
  }

  /** The ranges chrono checks when it turns the scanned fields into a date and a time. */
  predicate ValidDateTime(dt: DateTime) {
    && 1 <= dt.month <= 12
    && 1 <= dt.day <= DaysInMonth(dt.year, dt.month)
    && dt.hour <= 23
    && dt.minute <= 59
    && dt.second <= 60
  }

  /** How many characters from position `from` on a numeric field of at most `max` digits
      takes: chrono scans digits greedily and stops at `max` or at the first non-digit. */
  function LeadingDigits(s: string, from: nat, max: nat): (n: nat)
    requires from <= |s|
    ensures n <= max && from + n <= |s|
    ensures forall i :: from <= i < from + n ==> IsDigit(s[i])
    ensures n < max && from + n < |s| ==> !IsDigit(s[from + n])
    decreases max
  {
    if max == 0 || from == |s| || !IsDigit(s[from]) then 0 else 1 + LeadingDigits(s, from + 1, max - 1)
  }

  /** Reads consecutive numeric fields of the given maximum widths from position `from` on;
      each field needs at least one digit, and the whole input must be consumed. */
  function ScanFields(s: string, from: nat, widths: seq<nat>): (r: Option<seq<nat>>)
    requires from <= |s|
    ensures r.Some? ==> |r.value| == |widths| && forall i :: from <= i < |s| ==> IsDigit(s[i])
    decreases widths
  {
    if widths == [] then
      if from == |s| then Some([]) else None
    else
      var n := LeadingDigits(s, from, widths[0]);
      if n == 0 then None
      else
        match ScanFields(s, from + n, widths[1..])
        case None => None
        case Some(rest) => Some([DigitsValue(s[from..from + n])] + rest)
  }

  /** The field widths of `%Y%m%d%H%M%S`. */
  const RxTimeWidths: seq<nat> := [4, 2, 2, 2, 2, 2]

  /** `NaiveDateTime::parse_from_str(text, "%Y%m%d%H%M%S")`, with `None` for its error. */
  function ParseRxTime(text: string): (r: Option<DateTime>)
    ensures r.Some? ==> ValidDateTime(r.value) && AllDigits(text)
  {
    match ScanFields(text, 0, RxTimeWidths)
    case None => None
    case Some(f) =>
      var dt := DateTime(f[0], f[1], f[2], f[3], f[4], f[5]);
      if ValidDateTime(dt) then Some(dt) else None
  }

  /** chrono's `%Y`: four zero-padded digits for years 0 to 9999, a sign before wider years. */
  function YearText(y: nat): string {
    if y <= 9999 then ZeroPad(y, 4) else "+" + NatToString(y)
  }

  /** `format("%Y-%m-%dT%H:%M:%SZ")` of the time at UTC offset 0.  For a valid time in a
      four-digit year it is twenty characters: digits, with the separators of
      `YYYY-MM-DDTHH:MM:SSZ` at their fixed places; a wider year starts with a sign. */
  function FormatIso(dt: DateTime): (r: string)
    ensures ValidDateTime(dt) && dt.year <= 9999 ==>
      && |r| == 20
      && r[4] == '-' && r[7] == '-' && r[10] == 'T' && r[13] == ':' && r[16] == ':' && r[19] == 'Z'
      && AllDigits(r[0..4]) && AllDigits(r[5..7]) && AllDigits(r[8..10])
      && AllDigits(r[11..13]) && AllDigits(r[14..16]) && AllDigits(r[17..19])
    ensures dt.year > 9999 ==> 0 < |r| && r[0] == '+'
  {
    var y, mo, d := YearText(dt.year), ZeroPad(dt.month, 2), ZeroPad(dt.day, 2);
    var h, mi, se := ZeroPad(dt.hour, 2), ZeroPad(dt.minute, 2), ZeroPad(dt.second, 2);
    var r := y + "-" + mo + "-" + d + "T" + h + ":" + mi + ":" + se + "Z";
    if ValidDateTime(dt) && dt.year <= 9999 then
      NatToStringLength(dt.year, 4);
      NatToStringLength(dt.month, 2);
      NatToStringLength(dt.day, 2);
      NatToStringLength(dt.hour, 2);
      NatToStringLength(dt.minute, 2);
      NatToStringLength(dt.second, 2);
      IsoLayout(y, mo, d, h, mi, se);
      r
    else r
  }

  /** Where the pieces of `YYYY-MM-DDTHH:MM:SSZ` stand once they have their widths. */
  lemma IsoLayout(y: string, mo: string, d: string, h: string, mi: string, se: string)
    requires |y| == 4 && |mo| == 2 && |d| == 2 && |h| == 2 && |mi| == 2 && |se| == 2
    ensures var r := y + "-" + mo + "-" + d + "T" + h + ":" + mi + ":" + se + "Z";
      && |r| == 20
      && r[4] == '-' && r[7] == '-' && r[10] == 'T' && r[13] == ':' && r[16] == ':' && r[19] == 'Z'
      && r[0..4] == y && r[5..7] == mo && r[8..10] == d
      && r[11..13] == h && r[14..16] == mi && r[17..19] == se
  {
    var r := y + "-" + mo + "-" + d + "T" + h + ":" + mi + ":" + se + "Z";
    assert r == y + ("-" + mo + "-" + d + "T" + h + ":" + mi + ":" + se + "Z");
  }

  /** The date and time written by the digit positions of a fourteen-digit text. */
  function FieldsOf14(s: string): DateTime
    requires |s| == 14 && AllDigits(s)
  {
    DateTime(DigitsValue(s[0..4]), DigitsValue(s[4..6]), DigitsValue(s[6..8]),
             DigitsValue(s[8..10]), DigitsValue(s[10..12]), DigitsValue(s[12..14]))
  }

  /** The ISO form of a fourteen-character compact time: the same digits with the
      separators of `YYYY-MM-DDTHH:MM:SSZ` inserted. */
  function IsoOf14(s: string): string
    requires |s| == 14
  {
    s[0..4] + "-" + s[4..6] + "-" + s[6..8] + "T" + s[8..10] + ":" + s[10..12] + ":" + s[12..14] + "Z"
  }

  function Sum(ws: seq<nat>): nat {
    if ws == [] then 0 else ws[0] + Sum(ws[1..])
  }

  lemma LeadingDigitsOfDigits(s: string, from: nat, max: nat)
    requires from <= |s| && forall i :: from <= i < |s| ==> IsDigit(s[i])
    ensures LeadingDigits(s, from, max) == if |s| - from < max then |s| - from else max
  {
  }

  /** On a digit-only input, greedy scanning succeeds exactly when the input is longer than
      all fields but the last and no longer than all fields together. */
  lemma {:induction false} ScanFieldsOfDigits(s: string, from: nat, ws: seq<nat>)
    requires from <= |s| && forall i :: from <= i < |s| ==> IsDigit(s[i])
    requires 1 <= |ws| && forall i :: 0 <= i < |ws| ==> ws[i] >= 1
    ensures ScanFields(s, from, ws).Some? <==> Sum(ws) - ws[|ws| - 1] < |s| - from <= Sum(ws)
    decreases ws
  {
    LeadingDigitsOfDigits(s, from, ws[0]);
    var n := LeadingDigits(s, from, ws[0]);
    var tail := ws[1..];
    assert Sum(ws) == ws[0] + Sum(tail);
    if |ws| == 1 {
      assert tail == [];
    } else {
      assert tail[|tail| - 1] == ws[|ws| - 1];
      SumAtLeastLast(tail);
      if n > 0 {
        ScanFieldsOfDigits(s, from + n, tail);
        if |s| - from < ws[0] {
          assert from + n == |s|;
          assert !ScanFields(s, from, ws).Some?;
        } else {
          assert n == ws[0];
        }
      }
    }
  }

  lemma {:induction false} SumAtLeastLast(ws: seq<nat>)
    requires 1 <= |ws|
    ensures Sum(ws) >= ws[|ws| - 1]
  {
    if |ws| > 1 {
      SumAtLeastLast(ws[1..]);
    }
  }

  /** Only thirteen- or fourteen-digit texts can be read: greedy scanning gives the year
      four digits and every other field two, except that the seconds may have one. */
  lemma ParseRxTimeShape(text: string)
    requires ParseRxTime(text).Some?
    ensures AllDigits(text) && 13 <= |text| <= 14
  {
    RxTimeWidthsFit();
    ScanFieldsOfDigits(text, 0, RxTimeWidths);
  }

  /** The values of consecutive fields of exactly the given widths from position `from` on,
      as far as the input reaches. */
  function FieldValues(s: string, from: nat, ws: seq<nat>): seq<nat>
    requires from <= |s| && forall i :: from <= i < |s| ==> IsDigit(s[i])
    decreases ws
  {
    if ws == [] || from + ws[0] > |s| then []
    else [DigitsValue(s[from..from + ws[0]])] + FieldValues(s, from + ws[0], ws[1..])
  }

  /** A digit-only input exactly as long as all fields together scans as those fields. */
  lemma {:induction false} ScanFieldsExact(s: string, from: nat, ws: seq<nat>)
    requires from <= |s| && forall i :: from <= i < |s| ==> IsDigit(s[i])
    requires |s| - from == Sum(ws) && forall i :: 0 <= i < |ws| ==> ws[i] >= 1
    ensures ScanFields(s, from, ws) == Some(FieldValues(s, from, ws))
    decreases ws
  {
    if ws != [] {
      assert Sum(ws) == ws[0] + Sum(ws[1..]);
      LeadingDigitsOfDigits(s, from, ws[0]);
      ScanFieldsExact(s, from + ws[0], ws[1..]);
    }
  }

  /** `%Y%m%d%H%M%S` takes fourteen characters, each field at least one. */
  lemma RxTimeWidthsFit()
    ensures Sum(RxTimeWidths) == 14 && forall i :: 0 <= i < |RxTimeWidths| ==> RxTimeWidths[i] >= 1
  {
    var w := RxTimeWidths;
    assert w[1..][1..][1..][1..][1..][1..] == [];
    assert Sum(w[1..][1..][1..][1..][1..]) == 2;
    assert Sum(w[1..][1..][1..][1..]) == 4;
    assert Sum(w[1..][1..][1..]) == 6;
    assert Sum(w[1..][1..]) == 8;
    assert Sum(w[1..]) == 10;
  }

  lemma FieldValuesCons(s: string, from: nat, w: nat, ws: seq<nat>)
    requires from + w <= |s| && forall i :: from <= i < |s| ==> IsDigit(s[i])
    ensures FieldValues(s, from, [w] + ws) == [DigitsValue(s[from..from + w])] + FieldValues(s, from + w, ws)
  {
    assert ([w] + ws)[1..] == ws;
  }

  lemma FieldValues14(s: string)
    requires |s| == 14 && AllDigits(s)
    ensures FieldValues(s, 0, RxTimeWidths) == [DigitsValue(s[0..4]), DigitsValue(s[4..6]), DigitsValue(s[6..8]),
                                                DigitsValue(s[8..10]), DigitsValue(s[10..12]), DigitsValue(s[12..14])]
  {
    var d0, d1, d2 := DigitsValue(s[0..4]), DigitsValue(s[4..6]), DigitsValue(s[6..8]);
    var d3, d4, d5 := DigitsValue(s[8..10]), DigitsValue(s[10..12]), DigitsValue(s[12..14]);
    var w5: seq<nat> := [2] + [];
    var w4: seq<nat> := [2] + w5;
    var w3: seq<nat> := [2] + w4;
    var w2: seq<nat> := [2] + w3;
    var w1: seq<nat> := [2] + w2;
    assert RxTimeWidths == [4] + w1;
    assert FieldValues(s, 14, []) == [];
    FieldValuesCons(s, 12, 2, []);
    FieldValuesCons(s, 10, 2, w5);
    FieldValuesCons(s, 8, 2, w4);
    FieldValuesCons(s, 6, 2, w3);
    FieldValuesCons(s, 4, 2, w2);
    FieldValuesCons(s, 0, 4, w1);
    SixFields(d0, d1, d2, d3, d4, d5);
  }

  lemma SixFields(a: nat, b: nat, c: nat, d: nat, e: nat, f: nat)
    ensures [a] + ([b] + ([c] + ([d] + ([e] + ([f] + []))))) == [a, b, c, d, e, f]
  {
  }

  /** The six fields of a fourteen-digit text, read at their digit positions. */
  lemma Scan14(s: string)
    requires |s| == 14 && AllDigits(s)
    ensures ScanFields(s, 0, RxTimeWidths) == Some(FieldValues(s, 0, RxTimeWidths))
  {
    RxTimeWidthsFit();
    ScanFieldsExact(s, 0, RxTimeWidths);
  }

  /** A fourteen-digit text is read field by field at its digit positions, and is accepted
      exactly when those fields form a valid date and time. */
  lemma ParseRxTime14(s: string)
    requires |s| == 14 && AllDigits(s)
    ensures ParseRxTime(s) == if ValidDateTime(FieldsOf14(s)) then Some(FieldsOf14(s)) else None
  {
    Scan14(s);
    FieldValues14(s);
  }

  /** The ISO rendering of the fields at the digit positions of a fourteen-digit text
      repeats those digits. */
  lemma FormatFields14(s: string)
    requires |s| == 14 && AllDigits(s)
    ensures FormatIso(FieldsOf14(s)) == IsoOf14(s)
  {
    var dt := FieldsOf14(s);
    var y, mo, d, h, mi, se := s[0..4], s[4..6], s[6..8], s[8..10], s[10..12], s[12..14];
    DigitsValueBound(y);
    assert Pow10(4) == 10000;
    ZeroPadDigitsValue(y);
    assert YearText(dt.year) == y;
    ZeroPadDigitsValue(mo);
    ZeroPadDigitsValue(d);
    ZeroPadDigitsValue(h);
    ZeroPadDigitsValue(mi);
    ZeroPadDigitsValue(se);
  }

  /** A fourteen-digit receive time that chrono accepts is written back as
      `YYYY-MM-DDTHH:MM:SSZ` with the very same digits. */
  lemma RxTimeRoundTrip(s: string)
    requires |s| == 14 && AllDigits(s) && ValidDateTime(FieldsOf14(s))
    ensures ParseRxTime(s).Some? && FormatIso(ParseRxTime(s).value) == IsoOf14(s)
  {
    ParseRxTime14(s);
    FormatFields14(s);
  }

  /** Where the `i`-th digit of a compact time stands in its ISO form. */
  function IsoPosition(i: nat): nat
    requires i < 14
  {
    if i < 4 then i else if i < 6 then i + 1 else if i < 8 then i + 2
    else if i < 10 then i + 3 else if i < 12 then i + 4 else i + 5
  }

  lemma IsoOf14Digit(s: string, i: nat)
    requires |s| == 14 && i < 14
    ensures |IsoOf14(s)| == 20 && IsoOf14(s)[IsoPosition(i)] == s[i]
  {
  }

  /** Distinct fourteen-digit receive times that chrono accepts never print the same. */
  lemma RxTimeFormatInjective(s: string, t: string)
    requires |s| == 14 && AllDigits(s) && ValidDateTime(FieldsOf14(s))
    requires |t| == 14 && AllDigits(t) && ValidDateTime(FieldsOf14(t))
    requires FormatIso(FieldsOf14(s)) == FormatIso(FieldsOf14(t))
    ensures s == t
  {
    RxTimeRoundTrip(s);
    RxTimeRoundTrip(t);
    ParseRxTime14(s);
    ParseRxTime14(t);
    forall i | 0 <= i < 14
      ensures s[i] == t[i]
    {
      IsoOf14Digit(s, i);
      IsoOf14Digit(t, i);
    }
  }
}

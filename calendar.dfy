/**
 * The "add to calendar" link (src/components/AddToCalendar.tsx): a UTC
 * instant rendered as the fixed-width DATE-TIME form of section 3.3.5 of
 * RFC 5545 (form #2, UTC time), the VCALENDAR/VEVENT content lines joined
 * with CRLF as section 3.1 of RFC 5545 requires, and the placeholder link
 * used when the event time is missing or cannot be parsed.
 *
 * Instants are integer milliseconds since the epoch. Reading the UTC
 * calendar fields of an instant and parsing the configured date-time
 * string are the platform's, so both are function parameters.
 */
module Calendar {
  import opened Wrappers

  // ------------------------------------------------------------------
  // Decimal rendering

  function Digit(d: int): (c: char)
    requires 0 <= d < 10
    ensures '0' <= c <= '9'
  {
    ('0' as int + d) as char
  }

  predicate IsDigit(c: char) {
    '0' <= c <= '9'
  }

  predicate AllDigits(s: string) {
    forall i :: 0 <= i < |s| ==> IsDigit(s[i])
  }

  /** `String(n)` for a non-negative integer: its decimal digits, without leading zeros. */
  function DecimalString(n: nat): (s: string)
    ensures 1 <= |s| && AllDigits(s)
    ensures |s| > 1 ==> s[0] != '0'
    decreases n
  {
    if n < 10 then [Digit(n)] else DecimalString(n / 10) + [Digit(n % 10)]
  }

  /** `String(n)` for any integer: a minus sign before the digits of a negative one. */
  function NumberString(n: int): (s: string)
    ensures n >= 0 ==> s == DecimalString(n)
    ensures n < 0 ==> |s| >= 2 && s[0] == '-' && s[1..] == DecimalString(-n)
  {
    if n < 0 then "-" + DecimalString(-n) else DecimalString(n)
  }

  /** The value of a string of decimal digits. */
  function ParseDecimal(s: string): int
    decreases |s|
  {
    if s == [] then 0 else ParseDecimal(s[..|s| - 1]) * 10 + (s[|s| - 1] as int - '0' as int)
  }

  /** Reading the digits back gives the number. */
  lemma {:induction false} DecimalRoundTrip(n: nat)
    ensures ParseDecimal(DecimalString(n)) == n
    decreases n
  {
    if n >= 10 {
      DecimalRoundTrip(n / 10);
      var s := DecimalString(n);
      assert s[..|s| - 1] == DecimalString(n / 10);
    }
  }

  /** Numbers from 1000 to 9999 have four digits. */
  lemma FourDigits(n: nat)
    requires 1000 <= n <= 9999
    ensures |DecimalString(n)| == 4
  {
    assert |DecimalString(n / 1000)| == 1;
    assert |DecimalString(n / 100)| == 2;
    assert |DecimalString(n / 10)| == 3;
  }

  /** `pad`: `String(n).padStart(2, '0')`. */
  function Pad(n: nat): (s: string)
    ensures AllDigits(s)
    ensures n <= 99 ==> |s| == 2 && ParseDecimal(s) == n
    ensures n > 99 ==> s == DecimalString(n)
  {
    var t := DecimalString(n);
    DecimalRoundTrip(n);
    if |t| >= 2 then t
    else
      assert ParseDecimal("0" + t) == n by {
        assert ("0" + t)[..1] == "0";
      }
      "0" + t
  }

  // ------------------------------------------------------------------
  // DATE-TIME

  /** The UTC calendar fields of an instant, with the month counted from 0. */
  datatype UtcFields = UtcFields(year: int, month0: nat, day: nat, hours: nat, minutes: nat, seconds: nat)

  predicate ValidFields(f: UtcFields) {
    f.month0 < 12 && 1 <= f.day <= 31 && f.hours < 24 && f.minutes < 60 && f.seconds < 60
  }

  /** `formatICSDate`: year, month, day, `T`, hours, minutes, seconds, `Z`. */
  function FormatICSDate(f: UtcFields): (r: string)
    ensures 1000 <= f.year <= 9999 && ValidFields(f) ==>
              |r| == 16 && r[8] == 'T' && r[15] == 'Z'
              && AllDigits(r[..8]) && AllDigits(r[9..15])
  {
    if 1000 <= f.year <= 9999 then FourDigits(f.year); DateTimeText(f) else DateTimeText(f)
  }

  function DateTimeText(f: UtcFields): string {
    NumberString(f.year) + Pad(f.month0 + 1) + Pad(f.day) + "T"
      + Pad(f.hours) + Pad(f.minutes) + Pad(f.seconds) + "Z"
  }

  /** Where each part of a DATE-TIME with a four-character year sits. */
  lemma DateTimeSlices(y: string, mo: string, d: string, h: string, mi: string, sec: string)
    requires |y| == 4 && |mo| == 2 && |d| == 2 && |h| == 2 && |mi| == 2 && |sec| == 2
    ensures var r := y + mo + d + "T" + h + mi + sec + "Z";
            r[..4] == y && r[4..6] == mo && r[6..8] == d && r[9..11] == h && r[11..13] == mi && r[13..15] == sec
  {
  }

  /** Each field of a four-digit-year DATE-TIME reads back from its fixed position. */
  lemma FormatICSDateFields(f: UtcFields)
    requires 1000 <= f.year <= 9999 && ValidFields(f)
    ensures var r := FormatICSDate(f);
            ParseDecimal(r[..4]) == f.year && ParseDecimal(r[4..6]) == f.month0 + 1
            && ParseDecimal(r[6..8]) == f.day && ParseDecimal(r[9..11]) == f.hours
            && ParseDecimal(r[11..13]) == f.minutes && ParseDecimal(r[13..15]) == f.seconds
  {
    FourDigits(f.year);
    DecimalRoundTrip(f.year);
    DateTimeSlices(NumberString(f.year), Pad(f.month0 + 1), Pad(f.day), Pad(f.hours), Pad(f.minutes), Pad(f.seconds));
  }

  /** Distinct valid fields with four-digit years render differently. */
  lemma FormatICSDateInjective(f: UtcFields, g: UtcFields)
    requires 1000 <= f.year <= 9999 && ValidFields(f)
    requires 1000 <= g.year <= 9999 && ValidFields(g)
    requires FormatICSDate(f) == FormatICSDate(g)
    ensures f == g
  {
    FormatICSDateFields(f);
    FormatICSDateFields(g);
  }

  // ------------------------------------------------------------------
  // Content lines

  /** `replace(/\n/g, ' ')`: every line feed becomes a space. */
  function ReplaceLF(s: string): (r: string)
    ensures |r| == |s| && NoLineFeed(r)
    ensures forall i :: 0 <= i < |s| && s[i] != '\n' ==> r[i] == s[i]
    ensures forall i :: 0 <= i < |s| && s[i] == '\n' ==> r[i] == ' '
  {
    seq(|s|, i requires 0 <= i < |s| => if s[i] == '\n' then ' ' else s[i])
  }

  /** `lines.join('\r\n')`. */
  function JoinCRLF(lines: seq<string>): string
    decreases |lines|
  {
    if lines == [] then ""
    else if |lines| == 1 then lines[0]
    else lines[0] + "\r\n" + JoinCRLF(lines[1..])
  }

  /** The inverse of joining: the pieces of `s` between occurrences of CR LF. */
  function SplitCRLF(s: string): (lines: seq<string>)
    ensures |lines| >= 1
    decreases |s|
  {
    if s == [] then [""]
    else if |s| >= 2 && s[0] == '\r' && s[1] == '\n' then [""] + SplitCRLF(s[2..])
    else
      var rest := SplitCRLF(s[1..]);
      [[s[0]] + rest[0]] + rest[1..]
  }

  lemma {:induction false} SplitLine(line: string)
    requires NoLineFeed(line)
    ensures SplitCRLF(line) == [line]
    decreases |line|
  {
    if line != [] {
      SplitLine(line[1..]);
      assert [line[0]] + line[1..] == line;
    }
  }

  lemma {:induction false} SplitFirstLine(line: string, rest: string)
    requires NoLineFeed(line)
    ensures SplitCRLF(line + "\r\n" + rest) == [line] + SplitCRLF(rest)
    decreases |line|
  {
    var s := line + "\r\n" + rest;
    if line == [] {
      assert s[2..] == rest;
    } else {
      assert s[1..] == line[1..] + "\r\n" + rest;
      SplitFirstLine(line[1..], rest);
      assert [line[0]] + line[1..] == line;
    }
  }

  /** Lines without a line feed are recovered exactly from their CRLF-joined text. */
  lemma {:induction false} SplitJoin(lines: seq<string>)
    requires |lines| >= 1
    requires forall k :: 0 <= k < |lines| ==> NoLineFeed(lines[k])
    ensures SplitCRLF(JoinCRLF(lines)) == lines
    decreases |lines|
  {
    if |lines| == 1 {
      SplitLine(lines[0]);
    } else {
      SplitFirstLine(lines[0], JoinCRLF(lines[1..]));
      SplitJoin(lines[1..]);
    }
  }

  lemma {:induction false} JoinAppend(lines: seq<string>, last: string)
    requires |lines| >= 1
    ensures JoinCRLF(lines + [last]) == JoinCRLF(lines) + "\r\n" + last
    decreases |lines|
  {
    if |lines| > 1 {
      assert (lines + [last])[1..] == lines[1..] + [last];
      JoinAppend(lines[1..], last);
    }
  }

  /** The event's identifier: its start instant in milliseconds at the site's domain. */
  function Uid(startMs: int): (uid: string)
    ensures |uid| == |NumberString(startMs)| + |"@gender-reveal-invite.local"|
    ensures uid[..|NumberString(startMs)|] == NumberString(startMs)
    ensures uid[|NumberString(startMs)|..] == "@gender-reveal-invite.local"
  {
    NumberString(startMs) + "@gender-reveal-invite.local"
  }

  /** The end instant: the start plus the duration in minutes. */
  function EndMs(startMs: int, durationMinutes: int): (endMs: int)
    ensures endMs >= startMs <==> durationMinutes >= 0
    ensures endMs - startMs == durationMinutes * 60000
  {
    startMs + durationMinutes * 60 * 1000
  }

  /** A string with no line feed in it. */
  predicate NoLineFeed(s: string) {
    forall i :: 0 <= i < |s| ==> s[i] != '\n'
  }

  /** A content line `name:value`. */
  function Property(name: string, value: string): (line: string)
    requires name != []
    ensures |line| > |name| && line[0] == name[0]
    ensures NoLineFeed(name) && NoLineFeed(value) ==> NoLineFeed(line)
  {
    name + ":" + value
  }

  /** The lines before the event's properties. */
  const Header: seq<string> := [
    "BEGIN:VCALENDAR",
    "VERSION:2.0",
    "PRODID:-//gender-reveal-invite//EN",
    "CALSCALE:GREGORIAN",
    "METHOD:PUBLISH",
    "BEGIN:VEVENT"]

  /** The lines after the event's properties; the empty last one makes the text end with CR LF. */
  const Footer: seq<string> := ["END:VEVENT", "END:VCALENDAR", ""]

  lemma HeaderShape()
    ensures forall k :: 0 <= k < |Header| ==> NoLineFeed(Header[k])
    ensures forall k :: 0 <= k < |Header| ==> (Header[k] == "BEGIN:VEVENT" <==> k == 5)
    ensures forall k :: 0 <= k < |Header| ==> Header[k] != "END:VEVENT"
  {
    assert NoLineFeed(Header[2]);
  }

  lemma FooterShape()
    ensures forall k :: 0 <= k < |Footer| ==> NoLineFeed(Footer[k])
    ensures forall k :: 0 <= k < |Footer| ==> (Footer[k] == "END:VEVENT" <==> k == 0)
    ensures forall k :: 0 <= k < |Footer| ==> Footer[k] != "BEGIN:VEVENT"
  {
  }

  lemma NamesShape()
    ensures NoLineFeed("UID") && NoLineFeed("DTSTAMP") && NoLineFeed("DTSTART") && NoLineFeed("DTEND")
    ensures NoLineFeed("SUMMARY") && NoLineFeed("DESCRIPTION") && NoLineFeed("LOCATION")
  {
  }

  /** The event's properties: identifier, time stamp, start, end, summary, description and location. */
  function EventProperties(uid: string, stamp: string, start: string, end: string,
                           title: string, description: string, address: string): (props: seq<string>)
    ensures |props| == 7
    ensures props[0] == Property("UID", uid)
    ensures props[1] == Property("DTSTAMP", stamp)
    ensures props[2] == Property("DTSTART", start) && props[3] == Property("DTEND", end)
    ensures props[4] == Property("SUMMARY", ReplaceLF(title))
    ensures props[5] == Property("DESCRIPTION", ReplaceLF(description))
    ensures props[6] == Property("LOCATION", ReplaceLF(address))
    ensures forall k :: 0 <= k < 7 ==> props[k] != [] && props[k][0] != 'B' && props[k][0] != 'E'
    ensures NoLineFeed(uid) && NoLineFeed(stamp) && NoLineFeed(start) && NoLineFeed(end) ==>
              forall k :: 0 <= k < 7 ==> NoLineFeed(props[k])
  {
    NamesShape();
    var p0 := Property("UID", uid);
    var p1 := Property("DTSTAMP", stamp);
    var p2 := Property("DTSTART", start);
    var p3 := Property("DTEND", end);
    var p4 := Property("SUMMARY", ReplaceLF(title));
    var p5 := Property("DESCRIPTION", ReplaceLF(description));
    var p6 := Property("LOCATION", ReplaceLF(address));
    assert p0[0] == 'U' && p1[0] == 'D' && p2[0] == 'D' && p3[0] == 'D';
    assert p4[0] == 'S' && p5[0] == 'D' && p6[0] == 'L';
    [p0, p1, p2, p3, p4, p5, p6]
  }

  /**
   * The content lines of the calendar file: one VCALENDAR holding exactly
   * one VEVENT, and an empty last line.
   */
  function IcsLines(uid: string, stamp: string, start: string, end: string,
                    title: string, description: string, address: string): (lines: seq<string>)
    ensures |lines| == 16
    ensures lines[0] == "BEGIN:VCALENDAR" && lines[14] == "END:VCALENDAR" && lines[15] == ""
    ensures forall k :: 0 <= k < |lines| ==> (lines[k] == "BEGIN:VEVENT" <==> k == 5)
    ensures forall k :: 0 <= k < |lines| ==> (lines[k] == "END:VEVENT" <==> k == 13)
    ensures lines[6..13] == EventProperties(uid, stamp, start, end, title, description, address)
    ensures NoLineFeed(uid) && NoLineFeed(stamp) && NoLineFeed(start) && NoLineFeed(end) ==>
              forall k :: 0 <= k < |lines| ==> NoLineFeed(lines[k])
  {
    var props := EventProperties(uid, stamp, start, end, title, description, address);
    HeaderShape();
    FooterShape();
    var lines := Header + props + Footer;
    assert forall k :: 0 <= k < 6 ==> lines[k] == Header[k];
    assert forall k :: 6 <= k < 13 ==> lines[k] == props[k - 6];
    assert forall k :: 13 <= k < 16 ==> lines[k] == Footer[k - 13];
    assert lines[6..13] == props;
    assert forall k :: 6 <= k < 13 ==> lines[k] != "BEGIN:VEVENT" && lines[k] != "END:VEVENT" by {
      forall k | 6 <= k < 13 ensures lines[k] != "BEGIN:VEVENT" && lines[k] != "END:VEVENT" {
        assert lines[k][0] != "BEGIN:VEVENT"[0] && lines[k][0] != "END:VEVENT"[0];
      }
    }
    lines
  }

  lemma UidLineFeedFree(startMs: int)
    ensures NoLineFeed(Uid(startMs))
  {
    var n := NumberString(startMs);
    assert NoLineFeed(n) by {
      if startMs < 0 {
        assert forall i :: 1 <= i < |n| ==> n[i] == n[1..][i - 1];
      }
    }
    assert NoLineFeed("@gender-reveal-invite.local");
  }

  lemma NoLineFeedConcat(a: string, b: string)
    requires NoLineFeed(a) && NoLineFeed(b)
    ensures NoLineFeed(a + b)
  {
  }

  lemma DateTimeLineFeedFree(f: UtcFields)
    ensures NoLineFeed(FormatICSDate(f))
  {
    var y := NumberString(f.year);
    assert NoLineFeed(y) by {
      if f.year < 0 {
        assert forall i :: 1 <= i < |y| ==> y[i] == y[1..][i - 1];
      }
    }
    var mo, d, h, mi, sec := Pad(f.month0 + 1), Pad(f.day), Pad(f.hours), Pad(f.minutes), Pad(f.seconds);
    NoLineFeedConcat(y, mo);
    NoLineFeedConcat(y + mo, d);
    NoLineFeedConcat(y + mo + d, "T");
    NoLineFeedConcat(y + mo + d + "T", h);
    NoLineFeedConcat(y + mo + d + "T" + h, mi);
    NoLineFeedConcat(y + mo + d + "T" + h + mi, sec);
    NoLineFeedConcat(y + mo + d + "T" + h + mi + sec, "Z");
  }

  /** The joined text opens with the first line and CR LF. */
  lemma JoinStartsWith(lines: seq<string>)
    requires |lines| >= 2
    ensures var text := JoinCRLF(lines);
            |text| >= |lines[0]| + 2 && text[..|lines[0]| + 2] == lines[0] + "\r\n"
  {
  }

  /** With an empty last line, the joined text ends with the line before it and CR LF. */
  lemma JoinEndsWith(lines: seq<string>)
    requires |lines| >= 3 && lines[|lines| - 1] == ""
    ensures var text := JoinCRLF(lines);
            var closing := lines[|lines| - 2];
            |text| >= |closing| + 2 && text[|text| - |closing| - 2..] == closing + "\r\n"
  {
    var n := |lines|;
    assert lines == lines[..n - 1] + [""];
    JoinAppend(lines[..n - 1], "");
    assert lines[..n - 1] == lines[..n - 2] + [lines[n - 2]];
    JoinAppend(lines[..n - 2], lines[n - 2]);
  }

  /**
   * The text of the calendar file: the lines joined with CR LF. It opens
   * with the VCALENDAR line, ends with CR LF after the closing line, and
   * splitting it at CR LF gives back its lines.
   */
  function IcsText(uid: string, stamp: string, start: string, end: string,
                   title: string, description: string, address: string): (text: string)
    ensures |text| >= 17 && text[..17] == "BEGIN:VCALENDAR" + "\r\n"
    ensures |text| >= 15 && text[|text| - 15..] == "END:VCALENDAR" + "\r\n"
    ensures NoLineFeed(uid) && NoLineFeed(stamp) && NoLineFeed(start) && NoLineFeed(end) ==>
              SplitCRLF(text) == IcsLines(uid, stamp, start, end, title, description, address)
  {
    var lines := IcsLines(uid, stamp, start, end, title, description, address);
    assert NoLineFeed(uid) && NoLineFeed(stamp) && NoLineFeed(start) && NoLineFeed(end) ==>
             SplitCRLF(JoinCRLF(lines)) == lines by {
      if NoLineFeed(uid) && NoLineFeed(stamp) && NoLineFeed(start) && NoLineFeed(end) {
        SplitJoin(lines);
      }
    }
    JoinStartsWith(lines);
    JoinEndsWith(lines);
    JoinCRLF(lines)
  }

  /** The calendar text for an event from `startMs` to `endMs`, stamped at `nowMs`. */
  function EventIcs(startMs: int, endMs: int, nowMs: int, utc: int -> UtcFields,
                    title: string, description: string, address: string): (text: string)
    ensures |SplitCRLF(text)| == 16
    ensures SplitCRLF(text)[8] == Property("DTSTART", FormatICSDate(utc(startMs)))
    ensures SplitCRLF(text)[9] == Property("DTEND", FormatICSDate(utc(endMs)))
    ensures SplitCRLF(text)[6] == Property("UID", Uid(startMs))
    ensures SplitCRLF(text) == IcsLines(Uid(startMs), FormatICSDate(utc(nowMs)), FormatICSDate(utc(startMs)),
                                        FormatICSDate(utc(endMs)), title, description, address)
  {
    var uid := Uid(startMs);
    var stamp := FormatICSDate(utc(nowMs));
    var start := FormatICSDate(utc(startMs));
    var end := FormatICSDate(utc(endMs));
    UidLineFeedFree(startMs);
    DateTimeLineFeedFree(utc(nowMs));
    DateTimeLineFeedFree(utc(startMs));
    DateTimeLineFeedFree(utc(endMs));
    var lines := IcsLines(uid, stamp, start, end, title, description, address);
    assert lines[8] == lines[6..13][2] && lines[9] == lines[6..13][3] && lines[6] == lines[6..13][0];
    IcsText(uid, stamp, start, end, title, description, address)
  }

  // ------------------------------------------------------------------
  // The download link

  /** The environment the link is built from; absent entries are `undefined`. */
  datatype EventConfig = EventConfig(
    dateTime: Option<string>,
    address: Option<string>,
    title: Option<string>,
    durationMinutes: Option<int>)

  /** The link's target: the placeholder `#`, or an object URL holding the calendar text. */
  datatype Href = Placeholder | ObjectUrl(ics: string)

  datatype Download = Download(href: Href, name: string)

  const DefaultDurationMinutes := 120

  /**
   * The link: the placeholder named `event.ics` when the date-time is
   * missing, empty or unparseable; otherwise the calendar text for the
   * parsed start, named `gender-reveal.ics`.
   */
  function CalendarLink(config: EventConfig, parse: string -> Option<int>, nowMs: int,
                        utc: int -> UtcFields, defaultTitle: string, intro: string): (link: Download)
    ensures link.href == Placeholder <==>
              config.dateTime.None? || config.dateTime.value == "" || parse(config.dateTime.value).None?
    ensures link.href == Placeholder ==> link.name == "event.ics"
    ensures Disabled(link) <==>
              config.dateTime.None? || config.dateTime.value == "" || parse(config.dateTime.value).None?
    ensures link.href != Placeholder ==>
              var startMs := parse(config.dateTime.value).value;
              var duration := if config.durationMinutes.Some? then config.durationMinutes.value else DefaultDurationMinutes;
              link.name == "gender-reveal.ics" && |SplitCRLF(link.href.ics)| == 16
              && SplitCRLF(link.href.ics)[8] == Property("DTSTART", FormatICSDate(utc(startMs)))
              && SplitCRLF(link.href.ics)[9] == Property("DTEND", FormatICSDate(utc(EndMs(startMs, duration))))
    ensures link.href != Placeholder ==>
              var startMs := parse(config.dateTime.value).value;
              var duration := if config.durationMinutes.Some? then config.durationMinutes.value else DefaultDurationMinutes;
              var title := if config.title.Some? then config.title.value else defaultTitle;
              var address := if config.address.Some? then config.address.value else "";
              link.href.ics == EventIcs(startMs, EndMs(startMs, duration), nowMs, utc, title, intro, address)
  {
    if config.dateTime.None? || config.dateTime.value == "" then Download(Placeholder, "event.ics")
    else
      match parse(config.dateTime.value)
      case None => Download(Placeholder, "event.ics")
      case Some(startMs) =>
        var duration := if config.durationMinutes.Some? then config.durationMinutes.value else DefaultDurationMinutes;
        var title := if config.title.Some? then config.title.value else defaultTitle;
        var address := if config.address.Some? then config.address.value else "";
        Download(ObjectUrl(EventIcs(startMs, EndMs(startMs, duration), nowMs, utc, title, intro, address)), "gender-reveal.ics")
  }

  /** `disabled`: the link is the placeholder, so there is no file to download. */
  predicate Disabled(link: Download): (disabled: bool)
    ensures disabled <==> !link.href.ObjectUrl?
  {
    link.href == Placeholder
  }
}

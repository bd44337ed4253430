/** The watch page of a long-form video: chapter timestamps in the description, the
    player's time display, the download file name, the like/dislike buttons and the
    comment section (submit, per-comment likes, Top/Newest ordering). */
module Watch {
  import opened Text
  import opened Records
  import opened Collections
  import Votes
  import Playlists

  // ---------------------------------------------------------------------------
  // Chapter timestamps: `parseTimestamp`

  lemma {:induction false} NumberOfTwo(ds: string)
    requires |ds| == 2 && AllDigits(ds)
    ensures Number(ds) == 10 * DigitValue(ds[0]) + DigitValue(ds[1])
  {
    var one := ds[..1];
    assert one[..0] == [] && one[0] == ds[0];
    assert Number(one) == DigitValue(ds[0]);
  }

  /** The regex piece `\d{1,2}:` at the start of `s`: the value of the digits and the
      text after the colon. At most one of the two widths can be followed by a colon,
      so the greedy order of the regex does not matter. */
  function DigitsColon(s: string): (r: Option<(nat, string)>)
    ensures r.Some? ==> var k := |s| - |r.value.1| - 1;
      && 1 <= k <= 2 && AllDigits(s[..k]) && s[k] == ':' && r.value.1 == s[k + 1..]
      && r.value.0 == Number(s[..k])
    ensures r.Some? ==> r.value.0 <= 99
  {
    if |s| > 2 && IsDigit(s[0]) && IsDigit(s[1]) && s[2] == ':' then
      NumberOfTwo(s[..2]);
      Some((10 * DigitValue(s[0]) + DigitValue(s[1]), s[3..]))
    else if |s| > 1 && IsDigit(s[0]) && s[1] == ':' then
      assert s[..1][..0] == [];
      Some((DigitValue(s[0]), s[2..]))
    else None
  }

  /** Exactly two digits (`\d{2}`) at the start of `s`, as their value. */
  function TwoDigits(s: string): (r: Option<nat>)
    ensures r.Some? <==> |s| >= 2 && AllDigits(s[..2])
    ensures r.Some? ==> r.value == Number(s[..2])
    ensures r.Some? ==> r.value <= 99
  {
    if |s| >= 2 && IsDigit(s[0]) && IsDigit(s[1]) then
      NumberOfTwo(s[..2]);
      Some(10 * DigitValue(s[0]) + DigitValue(s[1]))
    else None
  }

  /** `(\d{1,2}):(\d{2})` at the start of `s`, as minutes * 60 + seconds. */
  function MinSec(s: string): (r: Option<nat>)
    ensures r.Some? ==> r.value <= 99 * 60 + 99
  {
    match DigitsColon(s)
    case None => None
    case Some((m, after)) =>
      match TwoDigits(after)
      case None => None
      case Some(sec) => Some(m * 60 + sec)
  }

  /** `(?:(\d{1,2}):)?(\d{1,2}):(\d{2})` at the start of `s`, with the regex engine's
      backtracking: the optional hours group is tried first and dropped when the rest
      does not match after it. */
  function ReadStamp(s: string): (r: Option<nat>)
    ensures r.Some? ==> r.value <= MaxStamp
  {
    match DigitsColon(s)
    case Some((h, after)) =>
      (match MinSec(after)
       case Some(ms) => Some(h * 3600 + ms)
       case None => MinSec(s))
    case None => MinSec(s)
  }

  /** The largest value a stamp can spell: 99:99:99. */
  const MaxStamp := 99 * 3600 + 99 * 60 + 99

  /** `parseTimestamp`: the pattern `^(?:\[)?(?:(\d{1,2}):)?(\d{1,2}):(\d{2})(?:\])?`
      — an optional opening bracket and then a stamp; whatever follows the match is
      ignored. The value is hours * 3600 + minutes * 60 + seconds, or none when the line
      does not start with a timestamp. */
  function ParseTimestamp(text: string): (r: Option<nat>)
    ensures r.Some? ==> r.value <= MaxStamp
    ensures r.Some? ==> |text| >= 4
  {
    ReadStamp(if |text| > 0 && text[0] == '[' then text[1..] else text)
  }

  /** A timestamp as a person writes it at the start of a description line: an optional
      opening bracket, optional hours of one or two digits, minutes of one or two digits
      and seconds of exactly two digits. */
  datatype Stamp = Stamp(bracket: bool, hours: Option<string>, minutes: string, seconds: string)

  predicate WellFormed(st: Stamp) {
    && (st.hours.Some? ==> 1 <= |st.hours.value| <= 2 && AllDigits(st.hours.value))
    && 1 <= |st.minutes| <= 2 && AllDigits(st.minutes)
    && |st.seconds| == 2 && AllDigits(st.seconds)
  }

  function HoursPart(st: Stamp): string {
    if st.hours.Some? then st.hours.value + ":" else ""
  }

  /** The stamp without its bracket. */
  function Clock(st: Stamp): string {
    HoursPart(st) + st.minutes + ":" + st.seconds
  }

  function Layout(st: Stamp): string {
    (if st.bracket then "[" else "") + Clock(st)
  }

  function StampValue(st: Stamp): nat
    requires WellFormed(st)
  {
    (if st.hours.Some? then Number(st.hours.value) * 3600 else 0)
    + Number(st.minutes) * 60 + Number(st.seconds)
  }

  /** Text after a minutes:seconds stamp that makes the regex read that stamp as
      hours:minutes followed by seconds: a colon and two more digits. */
  predicate SecondsFollow(rest: string) {
    |rest| >= 3 && rest[0] == ':' && IsDigit(rest[1]) && IsDigit(rest[2])
  }

  lemma {:induction false} DigitsColonOf(ds: string, tail: string)
    requires 1 <= |ds| <= 2 && AllDigits(ds)
    ensures DigitsColon(ds + ":" + tail) == Some((Number(ds), tail))
  {
    var s := ds + ":" + tail;
    assert s[0] == ds[0];
    if |ds| == 2 {
      assert s[1] == ds[1] && s[2] == ':';
      assert s[..2] == ds && s[3..] == tail;
    } else {
      assert s[1] == ':';
      assert s[..1] == ds && s[2..] == tail;
    }
  }

  lemma {:induction false} MinSecOf(mm: string, ss: string, rest: string)
    requires 1 <= |mm| <= 2 && AllDigits(mm) && |ss| == 2 && AllDigits(ss)
    ensures MinSec(mm + ":" + ss + rest) == Some(Number(mm) * 60 + Number(ss))
  {
    var after := ss + rest;
    assert mm + ":" + ss + rest == mm + ":" + after;
    DigitsColonOf(mm, after);
    TwoDigitsOf(ss, rest);
    MinSecStep(mm + ":" + after, Number(mm), after, Number(ss));
  }

  lemma {:induction false} TwoDigitsOf(ss: string, rest: string)
    requires |ss| == 2 && AllDigits(ss)
    ensures TwoDigits(ss + rest) == Some(Number(ss))
  {
    assert (ss + rest)[..2] == ss;
  }

  lemma {:induction false} MinSecStep(s: string, m: nat, after: string, sec: nat)
    requires DigitsColon(s) == Some((m, after))
    requires TwoDigits(after) == Some(sec)
    ensures MinSec(s) == Some(m * 60 + sec)
  {
  }

  /** With no hours written, the hours group fails on `mm:ss` unless a colon and two
      digits follow. */
  lemma {:induction false} NoHoursReading(mm: string, ss: string, rest: string)
    requires 1 <= |mm| <= 2 && AllDigits(mm) && |ss| == 2 && AllDigits(ss)
    requires !SecondsFollow(rest)
    ensures ReadStamp(mm + ":" + ss + rest) == Some(Number(mm) * 60 + Number(ss))
  {
    var s := mm + ":" + ss + rest;
    assert s == mm + ":" + (ss + rest);
    DigitsColonOf(mm, ss + rest);
    MinSecOf(mm, ss, rest);
    var after := ss + rest;
    assert after[..2] == ss;
  }

  /** Every well-formed stamp at the start of a line is read with its own value,
      whatever follows it, except that a minutes:seconds stamp followed by a colon and
      two digits is read as hours:minutes:seconds (that case is the stamp with hours). */
  lemma {:induction false} ParseLayout(st: Stamp, rest: string)
    requires WellFormed(st)
    requires st.hours.None? ==> !SecondsFollow(rest)
    ensures ParseTimestamp(Layout(st) + rest) == Some(StampValue(st))
  {
    BracketIsSkipped(st, rest);
    ReadClock(st, rest, ParseTimestamp(Layout(st) + rest));
  }

  /** The optional bracket is consumed and the stamp is read from what follows it. */
  lemma {:induction false} BracketIsSkipped(st: Stamp, rest: string)
    requires WellFormed(st)
    ensures ParseTimestamp(Layout(st) + rest) == ReadStamp(Clock(st) + rest)
  {
    var text := Layout(st) + rest;
    var body := Clock(st) + rest;
    if st.bracket {
      assert text == "[" + body;
      assert text[0] == '[' && text[1..] == body;
    } else {
      assert text == body;
      if st.hours.Some? {
        assert body[0] == st.hours.value[0];
      } else {
        assert body[0] == st.minutes[0];
      }
    }
  }

  /** A well-formed stamp without its bracket reads as its value. The result is passed
      in as `x` so that the proof does not unfold the reader twice. */
  lemma {:induction false} ReadClock(st: Stamp, rest: string, x: Option<nat>)
    requires WellFormed(st)
    requires st.hours.None? ==> !SecondsFollow(rest)
    requires x == ReadStamp(Clock(st) + rest)
    ensures x == Some(StampValue(st))
  {
    if st.hours.Some? {
      ReadClockWithHours(st, rest, x);
    } else {
      ReadClockPlain(st, rest, x);
    }
  }

  lemma {:induction false} ReadClockWithHours(st: Stamp, rest: string, x: Option<nat>)
    requires WellFormed(st) && st.hours.Some?
    requires x == ReadStamp(Clock(st) + rest)
    ensures x == Some(StampValue(st))
  {
    var tail := st.minutes + ":" + st.seconds + rest;
    var y := ReadStamp(st.hours.value + ":" + tail);
    ClockWithHours(st, rest);
    DigitsColonOf(st.hours.value, tail);
    MinSecOf(st.minutes, st.seconds, rest);
    HoursStep(st.hours.value + ":" + tail, Number(st.hours.value), tail, Number(st.minutes) * 60 + Number(st.seconds));
  }

  lemma {:induction false} ClockWithHours(st: Stamp, rest: string)
    requires st.hours.Some?
    ensures ReadStamp(Clock(st) + rest) == ReadStamp(st.hours.value + ":" + (st.minutes + ":" + st.seconds + rest))
  {
    assert Clock(st) + rest == st.hours.value + ":" + (st.minutes + ":" + st.seconds + rest);
  }

  lemma {:induction false} ReadClockPlain(st: Stamp, rest: string, x: Option<nat>)
    requires WellFormed(st) && st.hours.None?
    requires !SecondsFollow(rest)
    requires x == ReadStamp(Clock(st) + rest)
    ensures x == Some(StampValue(st))
  {
    ClockPlain(st, rest);
    NoHoursReading(st.minutes, st.seconds, rest);
  }

  lemma {:induction false} ClockPlain(st: Stamp, rest: string)
    requires st.hours.None?
    ensures ReadStamp(Clock(st) + rest) == ReadStamp(st.minutes + ":" + st.seconds + rest)
  {
    assert Clock(st) + rest == st.minutes + ":" + st.seconds + rest;
  }

  lemma {:induction false} HoursStep(s: string, h: nat, after: string, ms: nat)
    requires DigitsColon(s) == Some((h, after))
    requires MinSec(after) == Some(ms)
    ensures ReadStamp(s) == Some(h * 3600 + ms)
  {
  }

  /** Conversely, a line that yields a value starts with a well-formed stamp of exactly
      that value. */
  lemma {:induction false} ParseSound(text: string)
    requires ParseTimestamp(text).Some?
    ensures exists st: Stamp, rest: string ::
      && WellFormed(st) && text == Layout(st) + rest && ParseTimestamp(text) == Some(StampValue(st))
  {
    var st, rest := Recognised(text, ParseTimestamp(text));
    ParseLayout(st, rest);
  }

  /** The stamp a successful parse has read, and the text after it. */
  lemma {:induction false} Recognised(text: string, x: Option<nat>) returns (st: Stamp, rest: string)
    requires x == ParseTimestamp(text) && x.Some?
    ensures WellFormed(st) && text == Layout(st) + rest
    ensures st.hours.None? ==> !SecondsFollow(rest)
  {
    var bracket, body := BracketGroup(text, x);
    var hours, s := HoursGroup(body, x);
    var mm, ss;
    mm, ss, rest := SplitMinSec(s);
    st := Stamp(bracket, hours, mm, ss);
    if hours.None? {
      NoHoursRest(body, mm, ss, rest);
    }
    Reassemble(st, rest, body, s, text);
  }

  lemma {:induction false} BracketGroup(text: string, x: Option<nat>) returns (bracket: bool, body: string)
    requires x == ParseTimestamp(text)
    ensures x == ReadStamp(body) && text == (if bracket then "[" else "") + body
  {
    bracket := |text| > 0 && text[0] == '[';
    body := if bracket then text[1..] else text;
    assert text == (if bracket then "[" else "") + body;
  }

  lemma {:induction false} NoHoursRest(body: string, mm: string, ss: string, rest: string)
    requires 1 <= |mm| <= 2 && AllDigits(mm) && |ss| == 2 && AllDigits(ss)
    requires body == mm + ":" + ss + rest
    requires DigitsColon(body).None? || MinSec(DigitsColon(body).value.1).None?
    ensures !SecondsFollow(rest)
  {
    if SecondsFollow(rest) {
      HoursWouldMatch(mm, ss, rest, body);
    }
  }

  lemma {:induction false} Reassemble(st: Stamp, rest: string, body: string, s: string, text: string)
    requires text == (if st.bracket then "[" else "") + body
    requires st.hours.Some? ==> body == st.hours.value + ":" + s
    requires st.hours.None? ==> body == s
    requires s == st.minutes + ":" + st.seconds + rest
    ensures text == Layout(st) + rest
  {
  }

  /** What the optional hours group leaves: the hours digits when the reading with hours
      succeeds, and the text the minutes and seconds are read from. */
  lemma {:induction false} HoursGroup(body: string, x: Option<nat>) returns (hours: Option<string>, s: string)
    requires x == ReadStamp(body) && x.Some?
    ensures MinSec(s).Some?
    ensures hours.Some? ==> 1 <= |hours.value| <= 2 && AllDigits(hours.value) && body == hours.value + ":" + s
    ensures hours.None? ==> body == s && (DigitsColon(body).None? || MinSec(DigitsColon(body).value.1).None?)
  {
    if DigitsColon(body).Some? && MinSec(DigitsColon(body).value.1).Some? {
      s := DigitsColon(body).value.1;
      var k := |body| - |s| - 1;
      hours := Some(body[..k]);
      assert body == body[..k] + ":" + s;
    } else {
      hours := None;
      s := body;
    }
  }

  lemma {:induction false} SplitMinSec(s: string) returns (mm: string, ss: string, rest: string)
    requires MinSec(s).Some?
    ensures 1 <= |mm| <= 2 && AllDigits(mm) && |ss| == 2 && AllDigits(ss)
    ensures s == mm + ":" + ss + rest
  {
    var after := DigitsColon(s).value.1;
    var k := |s| - |after| - 1;
    mm := s[..k];
    ss := after[..2];
    rest := after[2..];
    assert after == ss + rest;
    assert s == mm + ":" + after;
  }

  /** `mm:ss` followed by a colon and two digits does match with hours. */
  lemma {:induction false} HoursWouldMatch(mm: string, ss: string, rest: string, body: string)
    requires 1 <= |mm| <= 2 && AllDigits(mm) && |ss| == 2 && AllDigits(ss)
    requires SecondsFollow(rest) && body == mm + ":" + ss + rest
    ensures DigitsColon(body) == Some((Number(mm), ss + rest)) && MinSec(ss + rest).Some?
  {
    assert body == mm + ":" + (ss + rest);
    DigitsColonOf(mm, ss + rest);
    var ss2 := rest[1..3];
    assert ss + rest == ss + ":" + ss2 + rest[3..];
    MinSecOf(ss, ss2, rest[3..]);
  }

  /** A line that does not start with a digit, after an optional opening bracket, has
      no timestamp: plain prose and lines with leading white space are left as text. */
  lemma {:induction false} NoDigitNoStamp(text: string)
    requires var b := if |text| > 0 && text[0] == '[' then 1 else 0;
      |text| <= b || !IsDigit(text[b])
    ensures ParseTimestamp(text).None?
  {
  }

  /** Three digits before the first colon are not a timestamp. */
  lemma {:induction false} ThreeDigitsNoStamp(text: string)
    requires |text| >= 3 && IsDigit(text[0]) && IsDigit(text[1]) && IsDigit(text[2])
    ensures ParseTimestamp(text).None?
  {
    assert text[0] != '[';
  }

  /** "1:23 Intro" links to 83 seconds. */
  lemma ParseExampleMinutes()
    ensures ParseTimestamp("1:23 Intro") == Some(83)
  {
    assert Number("1") == 1 by { assert "1"[..0] == []; }
    NumberOfTwo("23");
    assert "1" + ":" + "23" + " Intro" == "1:23 Intro";
    NoHoursReading("1", "23", " Intro");
  }

  /** "[01:02:03] Recap" links to 3723 seconds. */
  lemma ParseExampleHours()
    ensures ParseTimestamp("[01:02:03] Recap") == Some(3723)
  {
    NumberOfTwo("01");
    NumberOfTwo("02");
    NumberOfTwo("03");
    var st := Stamp(true, Some("01"), "02", "03");
    assert HoursPart(st) == "01:";
    assert Clock(st) == "01:02:03";
    assert Layout(st) == "[01:02:03";
    assert Layout(st) + "] Recap" == "[01:02:03] Recap";
    assert WellFormed(st) && StampValue(st) == 3723;
    ParseLayout(st, "] Recap");
  }

  // ---------------------------------------------------------------------------
  // The time display: `formatDuration`

  /** The first second of the year 10000: from there on `toISOString` writes a six-digit
      signed year and the fixed slice positions no longer select the clock. */
  const IsoYear10000: nat := 253402300800

  /** `n` as two digits with a leading zero. */
  function Two(n: nat): (r: string)
    requires n < 100
    ensures |r| == 2 && AllDigits(r) && Number(r) == n
  {
    var r := [DigitChar(n / 10), DigitChar(n % 10)];
    NumberOfTwo(r);
    r
  }

  /** `new Date(time * 1000).toISOString().slice(time >= 3600 ? 11 : 14, 19)`: the UTC
      clock `HH:mm:ss` of the instant `time` seconds after the epoch, or its `mm:ss` part
      below one hour. The date's millisecond value is truncated, so the clock shows whole
      seconds, and hours wrap at a day. */
  function FormatDuration(time: real): (r: string)
    requires 0.0 <= time < IsoYear10000 as real
    ensures |r| == (if time >= 3600.0 then 8 else 5)
    ensures r[|r| - 3] == ':' && AllDigits(r[|r| - 2..]) && (time >= 3600.0 ==> r[2] == ':')
  {
    var clock := ClockText((time * 1000.0).Floor / 1000 % 86400);
    if time >= 3600.0 then clock else clock[3..]
  }

  /** `HH:mm:ss` of a second of the day. */
  function ClockText(day: nat): (r: string)
    requires day < 86400
    ensures |r| == 8 && r[2] == ':' && r[5] == ':' && AllDigits(r[6..])
  {
    Two(day / 3600) + ":" + Two(day / 60 % 60) + ":" + Two(day % 60)
  }

  lemma {:induction false} ClockArithmetic(day: nat)
    requires day < 86400
    ensures day / 3600 < 24 && day / 60 % 60 < 60 && day % 60 < 60
    ensures day / 3600 * 3600 + day / 60 % 60 * 60 + day % 60 == day
    ensures day < 3600 ==> day / 60 % 60 * 60 + day % 60 == day
  {
  }

  lemma {:induction false} WholeSeconds(t: nat)
    ensures ((t as real) * 1000.0).Floor / 1000 == t
  {
    assert (t as real) * 1000.0 == (t * 1000) as real;
  }

  /** The display is `HH:MM:SS` from one hour on and `MM:SS` below it. */
  lemma {:induction false} FormatShape(t: nat)
    requires t < IsoYear10000
    ensures var r := FormatDuration(t as real);
      && |r| == (if t >= 3600 then 8 else 5)
      && r[|r| - 3] == ':' && (t >= 3600 ==> r[2] == ':')
  {
    WholeSeconds(t);
  }

  lemma {:induction false} FormatWhole(t: nat)
    requires t < IsoYear10000
    ensures FormatDuration(t as real)
      == if t >= 3600 then ClockText(t % 86400) else ClockText(t % 86400)[3..]
  {
    WholeSeconds(t);
  }

  lemma {:induction false} ClockTextParses(day: nat)
    requires day < 86400
    ensures ParseTimestamp(ClockText(day)) == Some(day)
  {
    ClockArithmetic(day);
    var st := Stamp(false, Some(Two(day / 3600)), Two(day / 60 % 60), Two(day % 60));
    assert Layout(st) + "" == ClockText(day);
    ParseLayout(st, "");
  }

  lemma {:induction false} ShortClockTextParses(day: nat)
    requires day < 3600
    ensures ParseTimestamp(ClockText(day)[3..]) == Some(day)
  {
    ClockArithmetic(day);
    var st := Stamp(false, None, Two(day / 60 % 60), Two(day % 60));
    assert Layout(st) + "" == ClockText(day)[3..];
    ParseLayout(st, "");
  }

  /** The time display is a chapter timestamp: reading it back gives the time of day in
      seconds, which is the time itself below 24 hours. */
  lemma {:induction false} FormatThenParse(t: nat)
    requires t < IsoYear10000
    ensures ParseTimestamp(FormatDuration(t as real)) == Some(t % 86400)
    ensures t < 86400 ==> ParseTimestamp(FormatDuration(t as real)) == Some(t)
  {
    if t >= 3600 {
      LongFormatParses(t);
    } else {
      ShortFormatParses(t);
    }
    WithinDay(t);
  }

  lemma {:induction false} WithinDay(t: nat)
    ensures t < 86400 ==> t % 86400 == t
  {
  }

  lemma {:induction false} LongFormatParses(t: nat)
    requires 3600 <= t < IsoYear10000
    ensures ParseTimestamp(FormatDuration(t as real)) == Some(t % 86400)
  {
    var day := t % 86400;
    FormatWhole(t);
    ClockTextParses(day);
    ReadBack(FormatDuration(t as real), ClockText(day), day);
  }

  lemma {:induction false} ShortFormatParses(t: nat)
    requires t < 3600
    ensures ParseTimestamp(FormatDuration(t as real)) == Some(t % 86400)
  {
    FormatWhole(t);
    assert t % 86400 == t;
    ShortClockTextParses(t);
    ReadBack(FormatDuration(t as real), ClockText(t)[3..], t);
  }

  lemma {:induction false} ReadBack(f: string, g: string, v: nat)
    requires f == g && ParseTimestamp(g) == Some(v)
    ensures ParseTimestamp(f) == Some(v)
  {
  }

  // ---------------------------------------------------------------------------
  // The download file name

  /** The characters the class `[a-z0-9._-\s]` with the `i` flag accepts: ASCII letters
      of either case, digits, '.', '_', '-' and white space. */
  predicate FileNameSafe(c: char) {
    ('a' <= c <= 'z') || ('A' <= c <= 'Z') || ('0' <= c <= '9') || c == '.' || c == '_' || c == '-' || IsSpace(c)
  }

  /** `title.replace(/[^a-z0-9._-\s]/gi, '_')`: every character outside the class becomes
      an underscore and the others stay, so the result has the title's length and only
      safe characters. */
  function Sanitise(title: string): (r: string)
    ensures |r| == |title|
    ensures forall i :: 0 <= i < |r| ==> FileNameSafe(r[i])
    ensures forall i :: 0 <= i < |title| && FileNameSafe(title[i]) ==> r[i] == title[i]
    ensures forall i :: 0 <= i < |title| && !FileNameSafe(title[i]) ==> r[i] == '_'
  {
    seq(|title|, i requires 0 <= i < |title| => if FileNameSafe(title[i]) then title[i] else '_')
  }

  /** Sanitising twice is sanitising once. */
  lemma {:induction false} SanitiseIdempotent(title: string)
    ensures Sanitise(Sanitise(title)) == Sanitise(title)
  {
  }

  /** A title made of safe characters is used unchanged. */
  lemma {:induction false} SanitiseKeepsSafeTitle(title: string)
    requires forall i :: 0 <= i < |title| ==> FileNameSafe(title[i])
    ensures Sanitise(title) == title
  {
  }

  /** The name the download link offers: the sanitised title with the ".mp4" extension. */
  function DownloadFileName(title: string): (r: string)
    ensures |r| == |title| + 4 && r[|title|..] == ".mp4"
    ensures r[..|title|] == Sanitise(title)
  {
    Sanitise(title) + ".mp4"
  }

  // ---------------------------------------------------------------------------
  // Comment ordering: `sortedComments`

  datatype SortOrder = Top | Newest

  /** Puts `c` before the first comment with at most its likes; comments with more likes
      stay in front of it. */
  function Insert(c: Comment, sorted: seq<Comment>, likes: Comment -> int): (r: seq<Comment>)
    ensures multiset(r) == multiset(sorted) + multiset{c}
    decreases |sorted|
  {
    if sorted == [] then [c]
    else if likes(sorted[0]) <= likes(c) then [c] + sorted
    else
      assert sorted == [sorted[0]] + sorted[1..];
      [sorted[0]] + Insert(c, sorted[1..], likes)
  }

  /** The `Top` order: `[...comments].sort((a, b) => likes(b) - likes(a))`, a stable
      sort by likes, most liked first. */
  function SortTop(cs: seq<Comment>, likes: Comment -> int): (r: seq<Comment>)
    ensures multiset(r) == multiset(cs)
    decreases |cs|
  {
    if cs == [] then []
    else
      assert cs == [cs[0]] + cs[1..];
      Insert(cs[0], SortTop(cs[1..], likes), likes)
  }

  /** The comments as shown: by likes under `Top`, in stored order (newest first) under
      `Newest`. */
  function SortedComments(cs: seq<Comment>, order: SortOrder, likes: Comment -> int): (r: seq<Comment>)
    ensures multiset(r) == multiset(cs)
    ensures order == Top ==> Descending(r, likes) && forall k :: WithLikes(r, likes, k) == WithLikes(cs, likes, k)
    ensures order == Newest ==> r == cs
  {
    if order == Top then
      SortTopDescending(cs, likes);
      assert forall k :: WithLikes(SortTop(cs, likes), likes, k) == WithLikes(cs, likes, k) by {
        forall k { SortTopStable(cs, likes, k); }
      }
      SortTop(cs, likes)
    else cs
  }

  predicate Descending(cs: seq<Comment>, likes: Comment -> int) {
    forall i, j :: 0 <= i < j < |cs| ==> likes(cs[i]) >= likes(cs[j])
  }

  /** The comments with exactly `k` likes, in order. */
  function WithLikes(cs: seq<Comment>, likes: Comment -> int, k: int): seq<Comment> {
    if cs == [] then [] else (if likes(cs[0]) == k then [cs[0]] else []) + WithLikes(cs[1..], likes, k)
  }

  lemma {:induction false} InsertDescending(c: Comment, sorted: seq<Comment>, likes: Comment -> int)
    requires Descending(sorted, likes)
    ensures Descending(Insert(c, sorted, likes), likes)
    decreases |sorted|
  {
    if sorted != [] && likes(sorted[0]) > likes(c) {
      InsertDescending(c, sorted[1..], likes);
      var rest := Insert(c, sorted[1..], likes);
      assert multiset(rest) == multiset(sorted[1..]) + multiset{c};
      forall j | 0 <= j < |rest| ensures likes(sorted[0]) >= likes(rest[j]) {
        assert rest[j] in multiset(rest);
        if rest[j] != c {
          assert rest[j] in multiset(sorted[1..]);
          var m :| 0 <= m < |sorted[1..]| && sorted[1..][m] == rest[j];
          assert sorted[m + 1] == rest[j];
        }
      }
    }
  }

  /** The Top order is most-liked first. */
  lemma {:induction false} SortTopDescending(cs: seq<Comment>, likes: Comment -> int)
    ensures Descending(SortTop(cs, likes), likes)
    decreases |cs|
  {
    if cs != [] {
      SortTopDescending(cs[1..], likes);
      InsertDescending(cs[0], SortTop(cs[1..], likes), likes);
    }
  }

  /** Inserting `c` puts it in front of every comment with its own number of likes. */
  lemma {:induction false} InsertWithLikes(c: Comment, sorted: seq<Comment>, likes: Comment -> int, k: int)
    ensures WithLikes(Insert(c, sorted, likes), likes, k)
      == (if likes(c) == k then [c] else []) + WithLikes(sorted, likes, k)
    decreases |sorted|
  {
    if sorted == [] {
    } else if likes(sorted[0]) <= likes(c) {
      assert ([c] + sorted)[1..] == sorted;
    } else {
      InsertWithLikes(c, sorted[1..], likes, k);
      assert ([sorted[0]] + Insert(c, sorted[1..], likes))[1..] == Insert(c, sorted[1..], likes);
    }
  }

  /** The sort is stable: comments with equal likes keep their stored order. */
  lemma {:induction false} SortTopStable(cs: seq<Comment>, likes: Comment -> int, k: int)
    ensures WithLikes(SortTop(cs, likes), likes, k) == WithLikes(cs, likes, k)
    decreases |cs|
  {
    if cs != [] {
      SortTopStable(cs[1..], likes, k);
      InsertWithLikes(cs[0], SortTop(cs[1..], likes), likes, k);
    }
  }

  // ---------------------------------------------------------------------------
  // Saving to Watch Later

  /** The identifier under which the watch page looks for the Watch Later playlist. */
  const WatchLaterId := "pl1"

  /** `isSavedToWatchLater`: the video is in the first playlist with the Watch Later
      identifier, and false when the user has no such playlist. */
  predicate SavedToWatchLater(playlists: seq<Playlist>, videoId: string) {
    Playlists.SavedIn(playlists, WatchLaterId, videoId)
  }

  /** The Save button toggles the video in that playlist, so the saved state flips when
      the playlist exists and stays false when it does not. */
  lemma {:induction false} SaveButtonFlips(playlists: seq<Playlist>, videoId: string)
    requires forall p :: p in playlists ==> NoDup(p.videoIds)
    ensures var after := Playlists.ToggleVideoInPlaylist(playlists, WatchLaterId, videoId);
      && (Playlists.FindPlaylist(playlists, WatchLaterId).Some? ==>
            SavedToWatchLater(after, videoId) == !SavedToWatchLater(playlists, videoId))
      && (Playlists.FindPlaylist(playlists, WatchLaterId).None? ==> !SavedToWatchLater(after, videoId))
  {
    Playlists.ToggleFlipsSaved(playlists, WatchLaterId, videoId);
  }

  // ---------------------------------------------------------------------------
  // The comment a viewer posts

  /** The identifier of a comment posted at `now` milliseconds since the epoch. */
  function NewCommentId(now: nat): (r: string)
    ensures |r| > 1 && r[0] == 'c'
  {
    "c" + Decimal(now)
  }

  /** Comments posted at different instants get different identifiers. */
  lemma {:induction false} NewCommentIdsDiffer(m: nat, n: nat)
    requires m != n
    ensures NewCommentId(m) != NewCommentId(n)
  {
    DecimalInjective(m, n);
    assert NewCommentId(m)[1..] == Decimal(m) && NewCommentId(n)[1..] == Decimal(n);
  }

  /** The comment built from the draft: written by the signed-in user, with the draft's
      text as typed (not trimmed), no likes and the timestamp "Just now". */
  function NewComment(draft: string, now: nat): (c: Comment)
    ensures c.id == NewCommentId(now) && c.text == draft
    ensures c.author == CurrentUser.name && c.avatarUrl == CurrentUser.avatarUrl
    ensures c.likes == "0" && c.timestamp == "Just now"
  {
    Comment(NewCommentId(now), CurrentUser.name, CurrentUser.avatarUrl, draft, "0", "Just now")
  }

  /** The likes label of a comment after its like button is pressed: the label read as
      a count, moved down by one when the viewer had liked it and up by one otherwise,
      and rendered again. */
  type Recount = (string, bool) -> string

  /** The comment list after pressing the like button of comment `id`: every comment
      with that identifier gets its label recounted, all others stay as they were. */
  function RelabelComments(cs: seq<Comment>, id: string, wasLiked: bool, recount: Recount): (r: seq<Comment>)
    ensures |r| == |cs|
    ensures forall i :: 0 <= i < |cs| ==> r[i].id == cs[i].id
    ensures forall i :: 0 <= i < |cs| && cs[i].id != id ==> r[i] == cs[i]
    ensures forall i :: 0 <= i < |cs| && cs[i].id == id ==>
      r[i] == cs[i].(likes := recount(cs[i].likes, wasLiked))
  {
    seq(|cs|, i requires 0 <= i < |cs| =>
      if cs[i].id == id then cs[i].(likes := recount(cs[i].likes, wasLiked)) else cs[i])
  }

  /** Relabelling never reorders, adds or removes comments, so the identifiers shown
      are the same before and after a comment like. */
  lemma {:induction false} RelabelKeepsIds(cs: seq<Comment>, id: string, wasLiked: bool, recount: Recount)
    ensures var r := RelabelComments(cs, id, wasLiked, recount);
      forall i :: 0 <= i < |cs| ==> r[i].id == cs[i].id && r[i].text == cs[i].text && r[i].author == cs[i].author
  {
  }

  /** When the second press's recount gives back the label the first press started
      from on the pressed comment (as it does for a plain count such as "5", but not
      for "1,234" or "1K"), liking and then unliking that comment restores the list and
      the set of liked comments. */
  lemma {:induction false} CommentLikeTwice(cs: seq<Comment>, liked: set<string>, id: string, recount: Recount)
    requires forall i :: 0 <= i < |cs| && cs[i].id == id ==>
      recount(recount(cs[i].likes, id in liked), id !in liked) == cs[i].likes
    ensures Toggle(Toggle(liked, id), id) == liked
    ensures RelabelComments(RelabelComments(cs, id, id in liked, recount), id, id in Toggle(liked, id), recount) == cs
  {
    var once := RelabelComments(cs, id, id in liked, recount);
    var twice := RelabelComments(once, id, id in Toggle(liked, id), recount);
    forall i | 0 <= i < |cs| ensures twice[i] == cs[i] {
      if cs[i].id == id {
        assert recount(recount(cs[i].likes, id in liked), id !in liked) == cs[i].likes;
      }
    }
  }

  // ---------------------------------------------------------------------------
  // The page state

  /** `Math.floor(parseViews(views) * 0.05)`: the like count a video starts with, from
      its view count as a number. */
  function InitialLikes(views: real): (n: int)
    ensures n as real <= views / 20.0 < n as real + 1.0
  {
    (views * 0.05).Floor
  }

  /** The state of the watch page that its handlers change: the viewer's vote and the
      like count, the comment list and the draft comment, the liked comments and the
      sort order. */
  class WatchPage {
    var title: string
    var description: string
    var isLiked: bool
    var isDisliked: bool
    var likeCount: int
    var comments: seq<Comment>
    var newComment: string
    var isCommentFocused: bool
    var likedComments: set<string>
    var sortOrder: SortOrder
    /** The like count with the viewer's own like taken out, fixed when the video is
        opened. */
    ghost var seed: int

    function Vote(): Votes.Vote
      reads this
    {
      Votes.Vote(isLiked, isDisliked, likeCount)
    }

    /** The vote is never both a like and a dislike, and the count is the seed plus
        the viewer's own like. */
    ghost predicate Valid()
      reads this
    {
      Votes.Exclusive(Vote()) && Votes.Baseline(Vote()) == seed
    }

    /** The comments in the order they are shown. */
    function Shown(likes: Comment -> int): seq<Comment>
      reads this
    {
      SortedComments(comments, sortOrder, likes)
    }

    /** The page opened on `video`, whose views read as `views`: the initial comments,
        an empty draft, no liked comment, Top order, and the state the video-change
        effect sets. */
    constructor(video: Video, views: real, initialComments: seq<Comment>)
      ensures Valid()
      ensures title == video.title && description == video.description
      ensures Vote() == Votes.Vote(false, false, InitialLikes(views))
      ensures comments == initialComments && newComment == "" && !isCommentFocused
      ensures likedComments == {} && sortOrder == Top
    {
      title := video.title;
      description := video.description;
      isLiked := false;
      isDisliked := false;
      likeCount := InitialLikes(views);
      seed := InitialLikes(views);
      comments := initialComments;
      newComment := "";
      isCommentFocused := false;
      likedComments := {};
      sortOrder := Top;
    }

    /** The effect on a change of video: title and description are reloaded, the vote
        is cleared and the like count starts again from the new video's views. The
        comments, the draft and the liked comments are not reset. */
    method VideoChanged(video: Video, views: real)
      modifies this`title, this`description, this`isLiked, this`isDisliked, this`likeCount, this`seed
      ensures Valid()
      ensures title == video.title && description == video.description
      ensures Vote() == Votes.Vote(false, false, InitialLikes(views))
    {
      title := video.title;
      description := video.description;
      isLiked := false;
      isDisliked := false;
      likeCount := InitialLikes(views);
      seed := likeCount;
    }

    /** `handleLike`. */
    method HandleLike()
      requires Valid()
      modifies this`isLiked, this`isDisliked, this`likeCount
      ensures Valid()
      ensures Vote() == Votes.Like(old(Vote()))
    {
      if isLiked {
        isLiked := false;
        likeCount := likeCount - 1;
      } else {
        isLiked := true;
        likeCount := likeCount + 1;
        if isDisliked {
          isDisliked := false;
        }
      }
    }

    /** `handleDislike`. */
    method HandleDislike()
      requires Valid()
      modifies this`isLiked, this`isDisliked, this`likeCount
      ensures Valid()
      ensures Vote() == Votes.Dislike(old(Vote()))
    {
      if isDisliked {
        isDisliked := false;
      } else {
        isDisliked := true;
        if isLiked {
          isLiked := false;
          likeCount := likeCount - 1;
        }
      }
    }

    /** Typing into the comment box. */
    method TypeComment(text: string)
      modifies this`newComment
      ensures newComment == text
    {
      newComment := text;
    }

    /** Focusing the comment box shows the Cancel and Comment buttons. */
    method FocusComment()
      modifies this`isCommentFocused
      ensures isCommentFocused
    {
      isCommentFocused := true;
    }

    /** The Cancel button: the draft is discarded and the buttons are hidden. */
    method CancelComment()
      modifies this`newComment, this`isCommentFocused
      ensures newComment == "" && !isCommentFocused
    {
      newComment := "";
      isCommentFocused := false;
    }

    /** Whether the Comment button is enabled: the draft is not blank. */
    function CanSubmit(): (b: bool)
      reads this
      ensures b <==> !Blank(newComment)
    {
      Trim(newComment) != []
    }

    /** `handleCommentSubmit` at time `now`: a blank draft changes nothing; otherwise
        the draft becomes the newest comment, in front of the others, and the box is
        cleared and unfocused. */
    method HandleCommentSubmit(now: nat)
      modifies this`comments, this`newComment, this`isCommentFocused
      ensures Blank(old(newComment)) ==>
        comments == old(comments) && newComment == old(newComment) && isCommentFocused == old(isCommentFocused)
      ensures !Blank(old(newComment)) ==>
        comments == [NewComment(old(newComment), now)] + old(comments) && newComment == "" && !isCommentFocused
    {
      if Trim(newComment) == [] {
        return;
      }
      var c := NewComment(newComment, now);
      comments := [c] + comments;
      newComment := "";
      isCommentFocused := false;
    }

    /** `handleToggleCommentLike`: the comment's identifier changes membership in the
        liked set and its likes label is recounted, down when it was liked and up
        otherwise. */
    method ToggleCommentLike(id: string, recount: Recount)
      modifies this`likedComments, this`comments
      ensures likedComments == Toggle(old(likedComments), id)
      ensures comments == RelabelComments(old(comments), id, id in old(likedComments), recount)
    {
      var wasLiked := id in likedComments;
      if wasLiked {
        likedComments := likedComments - {id};
      } else {
        likedComments := likedComments + {id};
      }
      comments := RelabelComments(comments, id, wasLiked, recount);
    }

    /** Choosing "Top comments" or "Newest first" in the sort menu. */
    method SetSortOrder(order: SortOrder)
      modifies this`sortOrder
      ensures sortOrder == order
    {
      sortOrder := order;
    }
  }

  /** A submitted comment is shown first under Newest; under Top it is shown in front
      of every other comment with its number of likes. */
  lemma {:induction false} SubmittedCommentShown(draft: string, now: nat, cs: seq<Comment>, likes: Comment -> int)
    ensures SortedComments([NewComment(draft, now)] + cs, Newest, likes)[0] == NewComment(draft, now)
    ensures var c := NewComment(draft, now);
      WithLikes(SortedComments([c] + cs, Top, likes), likes, likes(c))
        == [c] + WithLikes(cs, likes, likes(c))
  {
    var c := NewComment(draft, now);
    SortTopStable([c] + cs, likes, likes(c));
    assert ([c] + cs)[1..] == cs;
  }
}

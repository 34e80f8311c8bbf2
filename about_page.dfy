/**
 * The team settings page of the client (src/components/AboutPage.tsx): the
 * stand-up time display, and the form that is filled from the team and sent
 * back as a patch. Its invite check is the members page's (`StartInvite`).
 */
module AboutPage {
  import opened Wrappers
  import opened Strings
  import opened Records
  import opened Teams

  // parseInt

  predicate Sign(c: char) {
    c == '-' || c == '+'
  }

  /** The number of decimal digits at the start of `s`. */
  function DigitRun(s: string): (n: nat)
    ensures n <= |s|
    ensures forall i :: 0 <= i < n ==> IsDigit(s[i])
    ensures n < |s| ==> !IsDigit(s[n])
  {
    if s == [] || !IsDigit(s[0]) then 0 else 1 + DigitRun(s[1..])
  }

  /** The text after an optional sign. */
  function Unsigned(t: string): (u: string)
    ensures t != [] && Sign(t[0]) ==> u == t[1..]
    ensures t == [] || !Sign(t[0]) ==> u == t
  {
    if t != [] && Sign(t[0]) then t[1..] else t
  }

  /**
   * `parseInt(s)` in base ten: leading whitespace skipped, an optional sign,
   * then the digits that follow; `None` (NaN) when there are none. The value
   * is that of the digit run, negated after a minus sign; whatever follows the
   * run is ignored.
   */
  function ParseInt(s: string): (r: Option<int>)
    ensures s == [] ==> r.None?
    ensures var u := Unsigned(s[LeadingSpaces(s)..]); r.None? <==> DigitRun(u) == 0
    ensures var t := s[LeadingSpaces(s)..]; var u := Unsigned(t);
      r.Some? ==> r.value == (if t[0] == '-' then -1 else 1) * DigitsValue(u[..DigitRun(u)])
  {
    var t := s[LeadingSpaces(s)..];
    var negative := t != [] && t[0] == '-';
    var body := Unsigned(t);
    var n := DigitRun(body);
    if n == 0 then None
    else
      var v: int := DigitsValue(body[..n]);
      Some(if negative then -v else v)
  }

  /** The digit run of digits followed by something else is the digits. */
  lemma {:induction false} DigitRunOfDigits(digits: string, rest: string)
    requires forall i :: 0 <= i < |digits| ==> IsDigit(digits[i])
    requires rest == [] || !IsDigit(rest[0])
    ensures DigitRun(digits + rest) == |digits|
  {
    if digits != [] {
      assert (digits + rest)[1..] == digits[1..] + rest;
      DigitRunOfDigits(digits[1..], rest);
    } else {
      assert digits + rest == rest;
    }
  }

  /** Digits followed by anything that is not a digit read as the digits' value. */
  lemma {:induction false} ParseIntOfDigits(digits: string, rest: string)
    requires digits != [] && forall i :: 0 <= i < |digits| ==> IsDigit(digits[i])
    requires rest == [] || !IsDigit(rest[0])
    ensures ParseInt(digits + rest) == Some(DigitsValue(digits))
  {
    var s := digits + rest;
    assert s[0] == digits[0];
    DigitFirst(s);
    DigitRunOfDigits(digits, rest);
    assert s[..|digits|] == digits;
  }

  /** A text that starts with a digit reads as the value of its digit run. */
  lemma DigitFirst(s: string)
    requires s != [] && IsDigit(s[0])
    ensures DigitRun(s) > 0 && ParseInt(s) == Some(DigitsValue(s[..DigitRun(s)]))
  {
    assert LeadingSpaces(s) == 0;
    assert s[0..] == s && Unsigned(s) == s;
  }

  /** A rendered number followed by anything that is not a digit reads back as the number. */
  lemma ParseIntStopsAtNonDigit(n: nat, rest: string)
    requires rest == [] || !IsDigit(rest[0])
    ensures ParseInt(NatToString(n) + rest) == Some(n)
  {
    ParseIntOfDigits(NatToString(n), rest);
    DigitsValueOfNatToString(n);
  }

  /** A rendered number reads back as itself. */
  lemma ParseIntOfNatToString(n: nat)
    ensures ParseInt(NatToString(n)) == Some(n)
  {
    ParseIntStopsAtNonDigit(n, []);
    assert NatToString(n) + [] == NatToString(n);
  }

  /** A minus sign negates the number. */
  lemma ParseIntNegative(n: nat)
    ensures ParseInt("-" + NatToString(n)) == Some(-(n as int))
  {
    var d := NatToString(n);
    var s := "-" + d;
    assert LeadingSpaces(s) == 0;
    assert s[0..] == s && Unsigned(s) == d;
    DigitRunOfDigits(d, []);
    assert d + [] == d && d[..|d|] == d;
    DigitsValueOfNatToString(n);
  }

  /** A leading space is skipped. */
  lemma ParseIntSkipsSpace(s: string)
    ensures ParseInt(" " + s) == ParseInt(s)
  {
    assert (" " + s)[1..] == s;
    assert LeadingSpaces(" " + s) == 1 + LeadingSpaces(s);
    assert (" " + s)[LeadingSpaces(" " + s)..] == s[LeadingSpaces(s)..];
  }

  // formatTime

  /** `hour % 12 || 12`, with JavaScript's remainder, which takes the sign of `hour`; NaN shows as 12. */
  function DisplayHour(hour: Option<int>): (d: int)
    ensures hour.Some? && hour.value >= 0 ==> 1 <= d <= 12 && d % 12 == hour.value % 12
    ensures hour.None? ==> d == 12
  {
    match hour
    case None => 12
    case Some(h) =>
      var rem := if h >= 0 then h % 12 else -((-h) % 12);
      if rem == 0 then 12 else rem
  }

  /** `hour >= 12`; NaN is never. */
  predicate IsPm(hour: Option<int>) {
    hour.Some? && hour.value >= 12
  }

  /** The hour of the day a 12-hour display stands for. */
  function To24(display: int, pm: bool): int {
    display % 12 + (if pm then 12 else 0)
  }

  /** Every hour of the day is shown as 1 to 12 with a suffix, and reads back as itself. */
  lemma ClockRoundTrip(h: nat)
    requires h < 24
    ensures 1 <= DisplayHour(Some(h)) <= 12
    ensures To24(DisplayHour(Some(h)), IsPm(Some(h))) == h
  {
  }

  /** `timezone?.toUpperCase() || ''`. */
  function ZoneText(timezone: Option<string>): (z: string)
    ensures |z| == if timezone.Some? then |timezone.value| else 0
    ensures timezone.Some? ==> z == ToUpper(timezone.value)
    ensures timezone.None? ==> z == []
  {
    if timezone.Some? then ToUpper(timezone.value) else ""
  }

  /**
   * `formatTime(time, timezone)`: nothing for an empty time; for a time with
   * a colon, the 12-hour form of the part before it, the part after it as it
   * is, AM or PM, and the timezone; otherwise the time and the timezone.
   */
  function FormatTime(time: string, timezone: Option<string>): (text: string)
    ensures time == [] <==> text == []
    ensures time != [] && ':' !in time ==> text == time + " " + ZoneText(timezone)
  {
    if time == [] then ""
    else if ':' in time then
      var parts := Split(time, ':');
      SplitSingle(time, ':');
      var hour := ParseInt(parts[0]);
      var suffix := if IsPm(hour) then "PM" else "AM";
      IntToString(DisplayHour(hour)) + ":" + parts[1] + " " + suffix + " " + ZoneText(timezone)
    else time + " " + ZoneText(timezone)
  }

  /**
   * An `HH:MM` stand-up time, with or without a leading zero in the hour (a
   * time input stores `09:30`), is shown with the hour on the 12-hour clock,
   * the minutes as they are, and the suffix.
   */
  lemma {:induction false} FormatTimeOfClock(hh: string, minutes: string, timezone: Option<string>)
    requires hh != [] && forall i :: 0 <= i < |hh| ==> IsDigit(hh[i])
    requires DigitsValue(hh) < 24 && ':' !in minutes
    ensures FormatTime(hh + ":" + minutes, timezone)
      == NatToString(DisplayHour(Some(DigitsValue(hh)))) + ":" + minutes
         + " " + (if DigitsValue(hh) >= 12 then "PM" else "AM") + " " + ZoneText(timezone)
  {
    var time := hh + ":" + minutes;
    assert ':' !in hh by {
      forall i | 0 <= i < |hh| ensures hh[i] != ':' { assert IsDigit(hh[i]); }
    }
    assert time == hh + [':'] + minutes;
    assert time[|hh|] == ':';
    SplitAt(hh, ':', minutes);
    SplitSingle(minutes, ':');
    ParseIntOfDigits(hh, []);
    assert hh + [] == hh;
    ClockRoundTrip(DigitsValue(hh));
  }

  // The settings form

  /** The team as the client receives it; a missing field is `None`. */
  datatype TeamView = TeamView(
    name: Option<string>,
    description: Option<string>,
    standupTime: Option<string>,
    timezone: Option<string>,
    slackChannel: Option<string>,
    email: Option<string>,
    isPrivate: Option<bool>)

  /** The edit form. */
  datatype EditForm = EditForm(
    name: string,
    description: string,
    standupTime: string,
    timezone: string,
    slackChannel: string,
    email: string,
    isPrivate: bool)

  /** How the server's team reaches the page: every field present. */
  function ViewOf(t: Team): TeamView {
    TeamView(Some(t.name), Some(t.description), Some(t.standupTime), Some(t.timezone),
      Some(t.slackChannel), Some(t.email), Some(t.isPrivate))
  }

  /** `loadTeamData` and `handleCancel`: a missing text is `""`, a missing privacy flag is `true`. */
  function LoadForm(view: TeamView): (form: EditForm)
    ensures view.isPrivate.None? ==> form.isPrivate
    ensures view.isPrivate.Some? ==> form.isPrivate == view.isPrivate.value
    ensures form.name == (if view.name.Some? then view.name.value else [])
    ensures form.description == (if view.description.Some? then view.description.value else [])
    ensures form.standupTime == (if view.standupTime.Some? then view.standupTime.value else [])
    ensures form.timezone == (if view.timezone.Some? then view.timezone.value else [])
    ensures form.slackChannel == (if view.slackChannel.Some? then view.slackChannel.value else [])
    ensures form.email == (if view.email.Some? then view.email.value else [])
  {
    EditForm(view.name.GetOr(""), view.description.GetOr(""), view.standupTime.GetOr(""),
      view.timezone.GetOr(""), view.slackChannel.GetOr(""), view.email.GetOr(""),
      view.isPrivate.GetOr(true))
  }

  /**
   * `handleSave`: the patch sent. The timezone goes lower-cased; an empty
   * Slack channel or e-mail is left undefined, so the server keeps its
   * value; the mission is not part of the form.
   */
  function SavePatch(form: EditForm): (patch: TeamPatch)
    ensures patch.mission.None?
    ensures patch.slackChannel.None? <==> form.slackChannel == []
    ensures patch.email.None? <==> form.email == []
    ensures patch.timezone == Some(ToLower(form.timezone))
    ensures AnnouncesUpdate(patch)
  {
    TeamPatch(
      Some(form.name),
      Some(form.description),
      None,
      Some(form.standupTime),
      Some(ToLower(form.timezone)),
      if form.slackChannel == [] then None else Some(form.slackChannel),
      if form.email == [] then None else Some(form.email),
      Some(form.isPrivate))
  }

  /** Saving the form unedited changes nothing on the server but the case of the timezone. */
  lemma SaveUneditedForm(t: Team)
    ensures ApplyPatch(t, SavePatch(LoadForm(ViewOf(t)))) == t.(timezone := ToLower(t.timezone))
  {
  }

  /** Clearing the Slack channel or the e-mail in the form does not clear it on the server. */
  lemma ClearedFieldsKept(t: Team, form: EditForm)
    requires form.slackChannel == [] && form.email == []
    ensures ApplyPatch(t, SavePatch(form)).slackChannel == t.slackChannel
    ensures ApplyPatch(t, SavePatch(form)).email == t.email
  {
  }
}

/**
 * The documents list of the client (src/components/DocumentsSection.tsx):
 * the "how long ago" text, the tag labels and colours, and who may delete.
 *
 * The clock is left out: `formatRelativeTime` is given the elapsed time in
 * milliseconds (negative for a date in the future), or `None` for a missing
 * date.
 */
module DocumentsSection {
  import opened Wrappers
  import opened Strings
  import opened Records
  import Documents

  const MinuteMs: nat := 60000
  const HourMs: nat := 3600000
  const DayMs: nat := 86400000

  datatype TimeUnit = Minute | Hour | Day | Week | Month | Year

  /** The relative time before it is rendered: nothing, "Just now", or a count of some unit. */
  datatype Relative = NoDate | JustNow | Ago(count: nat, unit: TimeUnit)

  function UnitName(u: TimeUnit): (name: string)
    ensures name != [] && name[|name| - 1] != 's'
  {
    match u
    case Minute => "minute"
    case Hour => "hour"
    case Day => "day"
    case Week => "week"
    case Month => "month"
    case Year => "year"
  }

  /** A word not ending in `s` ends in `s ago` once suffixed exactly when the plural `s` was added. */
  lemma PluralSuffix(w: string, plural: bool)
    requires w != [] && w[|w| - 1] != 's'
    ensures EndsWith(w + (if plural then "s" else "") + " ago", "s ago") <==> plural
  {
    var t := w + (if plural then "s" else "") + " ago";
    assert t[|t| - 5] == if plural then 's' else w[|w| - 1];
    if plural {
      assert t[|t| - 5..] == "s ago";
    }
  }

  /** The text shown: the count, the unit (plural unless the count is 1), then `ago`. */
  function Render(r: Relative): (text: string)
    ensures r.NoDate? <==> text == []
    ensures r.Ago? ==> StartsWith(text, NatToString(r.count) + " " + UnitName(r.unit))
    ensures r.Ago? ==> (EndsWith(text, "s ago") <==> r.count != 1)
    ensures r.Ago? ==> EndsWith(text, " ago")
    ensures r.Ago? ==> |text| == |NatToString(r.count)| + |UnitName(r.unit)| + (if r.count == 1 then 5 else 6)
    ensures r.JustNow? ==> text == "Just now"
  {
    match r
    case NoDate => ""
    case JustNow => "Just now"
    case Ago(n, u) =>
      var head := NatToString(n) + " " + UnitName(u);
      var text := head + (if n == 1 then "" else "s") + " ago";
      assert text[..|head|] == head;
      PluralSuffix(head, n != 1);
      Concatenated(head + (if n == 1 then "" else "s"), " ago");
      text
  }

  /**
   * `formatRelativeTime` as written. Every count is a floor division of the
   * elapsed time; weeks and months are taken from whole days (7 and 30 per
   * unit) and years from 365 days. Each branch is taken when the count of the
   * previous one reaches its limit: 60 minutes, 24 hours, 7 days, 4 weeks,
   * 12 months.
   */
  function RelativeAsWritten(elapsed: Option<int>): (r: Relative)
    ensures r.NoDate? <==> elapsed.None?
    ensures r == JustNow <==> elapsed.Some? && elapsed.value < MinuteMs
    ensures r.Ago? && r.unit in {Minute, Hour, Day} ==> r.count >= 1
  {
    match elapsed
    case None => NoDate
    case Some(ms) =>
      var mins := ms / MinuteMs;
      var hours := ms / HourMs;
      var days := ms / DayMs;
      if mins < 1 then JustNow
      else if mins < 60 then Ago(mins, Minute)
      else if hours < 24 then Ago(hours, Hour)
      else if days < 7 then Ago(days, Day)
      else if days / 7 < 4 then Ago(days / 7, Week)
      else if days / 30 < 12 then Ago(days / 30, Month)
      else Ago(days / 365, Year)
  }

  /** 28 days is four weeks, which falls through to months, of which there are none yet. */
  lemma ZeroMonthsAgo()
    ensures RelativeAsWritten(Some(28 * DayMs)) == Ago(0, Month)
    ensures Render(RelativeAsWritten(Some(28 * DayMs))) == "0 months ago"
  {
    assert NatToString(0) == "0";
  }

  /** 360 days is twelve months, which falls through to years, of which there are none yet. */
  lemma ZeroYearsAgo()
    ensures RelativeAsWritten(Some(360 * DayMs)) == Ago(0, Year)
    ensures Render(RelativeAsWritten(Some(360 * DayMs))) == "0 years ago"
  {
    assert NatToString(0) == "0";
  }

  /**
   * The relative time as evidently intended: the same units and limits, but
   * weeks run up to 30 days and months up to 365 days, so that each unit is
   * reached when the previous one runs out and no count is ever zero.
   */
  function RelativeTime(elapsed: Option<int>): (r: Relative)
    ensures r.NoDate? <==> elapsed.None?
    ensures r == JustNow <==> elapsed.Some? && elapsed.value < MinuteMs
    ensures r.Ago? ==> r.count >= 1
  {
    match elapsed
    case None => NoDate
    case Some(ms) =>
      var mins := ms / MinuteMs;
      var hours := ms / HourMs;
      var days := ms / DayMs;
      if mins < 1 then JustNow
      else if mins < 60 then Ago(mins, Minute)
      else if hours < 24 then Ago(hours, Hour)
      else if days < 7 then Ago(days, Day)
      else if days < 30 then Ago(days / 7, Week)
      else if days < 365 then Ago(days / 30, Month)
      else Ago(days / 365, Year)
  }

  /**
   * The count is the elapsed time in whole units, and stays below the point
   * where the next unit takes over.
   */
  lemma RelativeTimeCounts(ms: int)
    requires ms >= MinuteMs
    ensures var r := RelativeTime(Some(ms));
      && r.Ago?
      && (r.unit == Minute ==> r.count == ms / MinuteMs && r.count < 60)
      && (r.unit == Hour ==> r.count == ms / HourMs && r.count < 24)
      && (r.unit == Day ==> r.count == ms / DayMs && r.count < 7)
      && (r.unit == Week ==> r.count == (ms / DayMs) / 7 && r.count <= 4)
      && (r.unit == Month ==> r.count == (ms / DayMs) / 30 && r.count <= 12)
      && (r.unit == Year ==> r.count == (ms / DayMs) / 365)
  {
  }

  /** Both versions agree on everything except the two gaps: 28 to 29 days and 360 to 364 days. */
  lemma RelativeAgreesOutsideGaps(ms: int)
    requires var days := ms / DayMs; !(28 <= days < 30) && !(360 <= days < 365)
    ensures RelativeAsWritten(Some(ms)) == RelativeTime(Some(ms))
  {
  }

  // Tags

  const TagLabels: map<string, string> := map[
    "design-doc" := "Design Doc",
    "api-spec" := "API Spec",
    "runbook" := "Runbook",
    "guide" := "Guide",
    "reference" := "Reference",
    "other" := "Other"
  ]

  const TagColors: map<string, string> := map[
    "design-doc" := "from-primary to-primary/60",
    "api-spec" := "from-accent to-accent/60",
    "runbook" := "from-success to-success/60",
    "guide" := "from-warning to-warning/60",
    "reference" := "from-destructive to-destructive/60",
    "other" := "from-purple-500 to-purple-400"
  ]

  const OtherLabel: string := "Other"
  const DefaultColor: string := "from-primary to-primary/60"

  /** `getTagDisplayName`: the label of a known tag, an unknown tag as it is, `Other` for no tag. */
  function TagDisplayName(tag: string): (shown: string)
    ensures tag in TagLabels ==> shown == TagLabels[tag]
    ensures tag !in TagLabels && tag != [] ==> shown == tag
    ensures tag == [] ==> shown == OtherLabel
    ensures shown != []
  {
    if tag in TagLabels && TagLabels[tag] != [] then TagLabels[tag]
    else if tag != [] then tag
    else OtherLabel
  }

  /** `getColorClass(tag)`: the colour of a known tag, the primary colour otherwise. */
  function TagColor(tag: string): (color: string)
    ensures tag in TagColors ==> color == TagColors[tag]
    ensures tag !in TagColors ==> color == DefaultColor
  {
    if tag in TagColors && TagColors[tag] != [] then TagColors[tag] else DefaultColor
  }

  /** Every tag with a label has a colour of its own. */
  lemma TagsLabelledAndColoured(tag: string)
    ensures tag in TagLabels <==> tag in TagColors
  {
  }

  /**
   * `isCreator`: the `createdBy` and `currentUserId` the list answer carries
   * are equal; a field missing from the answer is `None`.
   */
  predicate IsCreator<Id(==)>(createdBy: Option<Id>, currentUserId: Option<Id>) {
    createdBy == currentUserId
  }

  /**
   * The list route reports the team's creator and the caller. For every
   * document in its answer, the Remove button shows exactly when the delete
   * route would let the caller delete that document.
   */
  lemma RemoveShownIffDeletable(teams: map<TeamId, Team>, docs: seq<Document>, user: UserId, teamId: TeamId, doc: Document)
    requires Documents.UniqueIds(docs)
    requires Documents.TeamDocuments(teams, docs, user, teamId).Success?
    requires doc in Documents.TeamDocuments(teams, docs, user, teamId).value
    ensures teamId in teams
    ensures IsCreator(Some(teams[teamId].createdBy), Some(user)) <==> Documents.DeleteRejection(teams, docs, user, doc.id).None?
  {
    assert doc in docs && doc.team == teamId;
    Documents.DeleteIffCreator(teams, docs, user, doc.id);
    var k :| 0 <= k < |docs| && docs[k] == doc;
    if Documents.DeleteRejection(teams, docs, user, doc.id).None? {
      var j :| 0 <= j < |docs| && docs[j].id == doc.id && docs[j].team in teams && teams[docs[j].team].createdBy == user;
      assert docs[j] == doc;
    }
  }
}

/**
 * The members page of the client (src/components/MembersPage.tsx): the
 * avatar initials and colours, the search filter, the invite form's check
 * and the rule for showing the remove button.
 */
module MembersPage {
  import opened Wrappers
  import opened Strings
  import opened Seqs
  import opened Records
  import opened Email

  /** A member card as the members route returns it; a missing field is `None`. */
  datatype MemberCard = MemberCard(
    id: UserId,
    name: Option<string>,
    role: Option<string>,
    email: Option<string>,
    timezone: Option<string>)

  // Initials

  /** What `part[0]` contributes to a string concatenation: the first character, or `undefined` for an empty part. */
  function FirstCharText(part: string): string {
    if part == [] then "undefined" else [part[0]]
  }

  /**
   * `getInitials` as written: `U` for an empty name; with two or more
   * space-separated parts, the first characters of the first and last parts;
   * otherwise the first two characters of the name; upper-cased. When both
   * end parts are empty, `undefined + undefined` is `NaN`, a number, and the
   * call to `toUpperCase` on it throws: that outcome is `None`.
   */
  function InitialsAsWritten(name: string): (r: Option<string>)
    ensures name == [] ==> r == Some("U")
    ensures r.None? <==> name != [] && |Split(name, ' ')| >= 2 && Split(name, ' ')[0] == [] && Split(name, ' ')[|Split(name, ' ')| - 1] == []
    ensures r.Some? ==> r.value != []
  {
    if name == [] then Some("U")
    else
      var parts := Split(name, ' ');
      if |parts| >= 2 then
        if parts[0] == [] && parts[|parts| - 1] == [] then None
        else Some(ToUpper(FirstCharText(parts[0]) + FirstCharText(parts[|parts| - 1])))
      else Some(ToUpper(name[..Min(|name|, 2)]))
  }

  /** A name with a trailing space splits into a last part that is empty, whose `[0]` is `undefined`. */
  lemma InitialsAsWrittenTrailingSpace()
    ensures InitialsAsWritten("Ann ") == Some("AUNDEFINED")
    ensures |InitialsAsWritten("Ann ").value| > 2
  {
    SplitTrailingSpace();
    assert FirstCharText("Ann") + FirstCharText("") == "Aundefined";
    assert ToUpper("Aundefined") == "AUNDEFINED";
  }

  lemma SplitTrailingSpace()
    ensures Split("Ann ", ' ') == ["Ann", ""]
  {
    var name := "Ann ";
    assert IndexOfChar(name[3..], ' ') == 0;
    assert IndexOfChar(name[2..], ' ') == 1 by { assert name[2..][1..] == name[3..]; }
    assert IndexOfChar(name[1..], ' ') == 2 by { assert name[1..][1..] == name[2..]; }
    assert IndexOfChar(name, ' ') == 3;
    assert name[4..] == [] && name[..3] == "Ann";
  }

  /** A name that is a single space has two empty parts: the written function throws, the intended one gives `U`. */
  lemma InitialsOfSpace()
    ensures InitialsAsWritten(" ") == None
    ensures Initials(" ") == "U"
  {
    SplitSpace();
    assert !NonEmpty("");
  }

  lemma SplitSpace()
    ensures Split(" ", ' ') == ["", ""]
  {
    var name := " ";
    assert IndexOfChar(name, ' ') == 0;
    assert name[1..] == [] && name[..0] == "";
  }

  predicate NonEmpty(part: string) {
    part != []
  }

  /** The words of a name: its space-separated parts that are not empty. */
  function Words(name: string): (words: seq<string>)
    ensures forall w :: w in words ==> w != [] && ' ' !in w
  {
    Filter(Split(name, ' '), NonEmpty)
  }

  /**
   * The initials as evidently intended: `U` for a name without words; the
   * first letters of the first and last words when there are two or more;
   * otherwise the first two characters of the one word; upper-cased. They are
   * one or two characters long and never contain a space.
   */
  function Initials(name: string): (r: string)
    ensures 1 <= |r| <= 2
    ensures ' ' !in r
  {
    var words := Words(name);
    if |words| >= 2 then
      assert words[0] in words && words[|words| - 1] in words;
      ToUpper([words[0][0], words[|words| - 1][0]])
    else if |words| == 1 then
      assert words[0] in words;
      var w := words[0];
      var r := ToUpper(w[..Min(|w|, 2)]);
      assert forall i :: 0 <= i < |r| ==> r[i] == UpperChar(w[i]);
      r
    else "U"
  }

  /**
   * On a non-empty name whose parts are all non-empty (no leading, trailing
   * or doubled space) the intended initials and the written ones agree.
   */
  lemma InitialsAgreeOnCleanNames(name: string)
    requires name != []
    requires forall p :: p in Split(name, ' ') ==> p != []
    ensures InitialsAsWritten(name) == Some(Initials(name))
  {
    var parts := Split(name, ' ');
    assert forall i :: 0 <= i < |parts| ==> NonEmpty(parts[i]) by {
      forall i | 0 <= i < |parts| ensures NonEmpty(parts[i]) { assert parts[i] in parts; }
    }
    FilterAll(parts, NonEmpty);
    SplitSingle(name, ' ');
    if |parts| >= 2 {
      assert parts[0] in parts && parts[|parts| - 1] in parts;
      InitialsAgreeOnManyParts(name, parts);
    } else {
      InitialsAgreeOnOnePart(name);
    }
  }

  lemma InitialsAgreeOnManyParts(name: string, parts: seq<string>)
    requires name != [] && parts == Split(name, ' ') && Words(name) == parts && |parts| >= 2
    requires parts[0] != [] && parts[|parts| - 1] != []
    ensures InitialsAsWritten(name) == Some(Initials(name))
  {
    IntendedOfManyParts(name, parts);
    WrittenOfManyParts(name, parts);
  }

  lemma IntendedOfManyParts(name: string, parts: seq<string>)
    requires Words(name) == parts && |parts| >= 2
    requires parts[0] != [] && parts[|parts| - 1] != []
    ensures Initials(name) == ToUpper([parts[0][0], parts[|parts| - 1][0]])
  {
  }

  lemma WrittenOfManyParts(name: string, parts: seq<string>)
    requires name != [] && parts == Split(name, ' ') && |parts| >= 2
    requires parts[0] != [] && parts[|parts| - 1] != []
    ensures InitialsAsWritten(name) == Some(ToUpper([parts[0][0], parts[|parts| - 1][0]]))
  {
    var first, last := parts[0], parts[|parts| - 1];
    assert FirstCharText(first) + FirstCharText(last) == [first[0], last[0]];
  }

  lemma InitialsAgreeOnOnePart(name: string)
    requires name != [] && Split(name, ' ') == [name] && Words(name) == [name]
    ensures InitialsAsWritten(name) == Some(Initials(name))
  {
  }

  // Avatar colours

  const Colors: seq<string> := [
    "from-primary to-accent",
    "from-accent to-accent/70",
    "from-success to-success/70",
    "from-warning to-warning/70",
    "from-purple-500 to-purple-400",
    "from-indigo-500 to-indigo-400"
  ]

  /** `getColorClass(index)`: the colours repeat every six cards. */
  function ColorClass(index: nat): (c: string)
    ensures c in Colors
    ensures index < |Colors| ==> c == Colors[index]
  {
    Colors[index % |Colors|]
  }

  lemma ColorClassPeriodic(index: nat)
    ensures ColorClass(index + |Colors|) == ColorClass(index)
  {
    assert (index + |Colors|) % |Colors| == index % |Colors|;
  }

  // Search

  /** `field?.toLowerCase().includes(query)`: a missing field never matches. */
  predicate FieldMatches(field: Option<string>, query: string) {
    field.Some? && Contains(ToLower(field.value), query)
  }

  predicate MatchesQuery(m: MemberCard, query: string) {
    FieldMatches(m.name, query) || FieldMatches(m.role, query) || FieldMatches(m.email, query) || FieldMatches(m.timezone, query)
  }

  function Matching(query: string): MemberCard -> bool {
    m => MatchesQuery(m, query)
  }

  /**
   * `filteredMembers`: the whole list for a blank search; otherwise, in their
   * order, exactly the members with a name, role, e-mail or timezone that
   * contains the lower-cased search text once lower-cased.
   */
  function FilteredMembers(members: seq<MemberCard>, search: string): (r: seq<MemberCard>)
    ensures IsBlank(search) ==> r == members
    ensures !IsBlank(search) ==> forall m :: m in r <==> m in members && MatchesQuery(m, ToLower(search))
    ensures Subsequence(r, members)
  {
    if IsBlank(search) then
      SubsequenceRefl(members);
      members
    else
      var r := Filter(members, Matching(ToLower(search)));
      assert forall m :: m in members && MatchesQuery(m, ToLower(search)) ==> m in r by {
        forall m | m in members && MatchesQuery(m, ToLower(search)) ensures m in r {
          var k :| 0 <= k < |members| && members[k] == m;
        }
      }
      r
  }

  // Inviting

  const InvalidEmail: string := "Please enter a valid email address"

  /** What the invite button does before any request: nothing without a team, an error for a bad address, else a request for that one address. */
  datatype InviteStep = NoTeam | Invalid(error: string) | SendInvite(team: TeamId, emails: seq<string>)

  function StartInvite(teamId: Option<TeamId>, email: string): (step: InviteStep)
    ensures step.SendInvite? <==> teamId.Some? && MatchesEmailPattern(email)
    ensures step.SendInvite? ==> step.team == teamId.value && step.emails == [email]
    ensures step.Invalid? ==> step.error == InvalidEmail
  {
    IsValidEmailMatchesPattern(email);
    if teamId.None? then NoTeam
    else if !IsValidEmail(email) then Invalid(InvalidEmail)
    else SendInvite(teamId.value, [email])
  }

  /** The toast after the add-members answer: success when someone was added, else "not found" when the address was unknown. */
  datatype InviteFeedback = Invited | UserNotFound | NoFeedback

  function FeedbackOf(added: nat, notFound: nat): (f: InviteFeedback)
    ensures f == Invited <==> added > 0
    ensures f == UserNotFound <==> added == 0 && notFound > 0
  {
    if added > 0 then Invited else if notFound > 0 then UserNotFound else NoFeedback
  }

  // Removing

  /**
   * The remove button shows on a card when the viewer created the team and
   * the card is not the viewer's own, which are the two checks the remove
   * route makes before it answers 403 or 400.
   */
  predicate ShowsRemove(createdBy: UserId, viewer: Option<UserId>, member: UserId) {
    var isCreator := viewer == Some(createdBy);
    isCreator && Some(member) != viewer
  }

  lemma ShowsRemoveExactly(createdBy: UserId, viewer: Option<UserId>, member: UserId)
    ensures ShowsRemove(createdBy, viewer, member) <==> viewer == Some(createdBy) && member != createdBy
  {
  }
}

/**
 * The team routes (server/routes/teams.js): creating a team, joining one,
 * adding members by e-mail, patching its details, removing a member, and the
 * public listing.
 *
 * The teams collection is the `teams` field of a `TeamStore`, keyed by id;
 * ids are issued in creation order, so "newest first" is decreasing id.
 */
module Teams {
  import opened Wrappers
  import opened Strings
  import opened Seqs
  import opened Records
  import opened Notifications

  const TeamNameRequired: string := "Team name is required"
  const InvalidInviteCode: string := "Invalid invite code"
  const TeamNotFound: string := "Team not found"
  const TeamIsPrivate: string := "This team is private. Please use an invite code."
  const CodeOrIdRequired: string := "Either inviteCode or teamId is required"
  const AlreadyMember: string := "You are already a member of this team"
  const NotAuthorizedToModify: string := "Not authorized to modify this team"
  const EmailsRequired: string := "emails array is required"
  const OnlyCreatorRemoves: string := "Only team creator can remove members"
  const CannotRemoveSelf: string := "Cannot remove yourself from the team"
  const InternalServerError: string := "Internal server error"

  /** The symbols of an invite code: the capital letters and digits without I, O, 0 and 1. */
  const InviteAlphabet: string := "ABCDEFGHJKLMNPQRSTUVWXYZ23456789"
  const InviteCodeLength: nat := 6

  /** Six symbols of the invite alphabet. */
  predicate IsInviteCode(code: string) {
    |code| == InviteCodeLength && forall i :: 0 <= i < |code| ==> code[i] in InviteAlphabet
  }

  /** The 32 symbols are capital letters and the digits 2 to 9. */
  lemma InviteAlphabetSymbols()
    ensures |InviteAlphabet| == 32
    ensures forall i :: 0 <= i < |InviteAlphabet| ==> ('A' <= InviteAlphabet[i] <= 'Z') || ('2' <= InviteAlphabet[i] <= '9')
  {
  }

  lemma InviteAlphabetLacksI() ensures 'I' !in InviteAlphabet { }
  lemma InviteAlphabetLacksO() ensures 'O' !in InviteAlphabet { }
  lemma InviteAlphabetLacksZero() ensures '0' !in InviteAlphabet { }
  lemma InviteAlphabetLacksOne() ensures '1' !in InviteAlphabet { }

  /** The invite alphabet: 32 capital letters and digits, none of them one of the look-alikes I, O, 0, 1. */
  lemma InviteAlphabetShape()
    ensures |InviteAlphabet| == 32
    ensures forall i :: 0 <= i < |InviteAlphabet| ==> ('A' <= InviteAlphabet[i] <= 'Z') || ('2' <= InviteAlphabet[i] <= '9')
    ensures 'I' !in InviteAlphabet && 'O' !in InviteAlphabet && '0' !in InviteAlphabet && '1' !in InviteAlphabet
  {
    InviteAlphabetSymbols();
    InviteAlphabetLacksI();
    InviteAlphabetLacksO();
    InviteAlphabetLacksZero();
    InviteAlphabetLacksOne();
  }

  /**
   * `generateInviteCode()`, with the random draws as input: `rolls[i]` is
   * `Math.floor(Math.random() * chars.length)` on the `i`-th round, so each is
   * below 32.
   */
  method GenerateInviteCode(rolls: seq<nat>) returns (code: string)
    requires |rolls| == InviteCodeLength
    requires forall i :: 0 <= i < |rolls| ==> rolls[i] < |InviteAlphabet|
    ensures IsInviteCode(code)
    ensures forall i :: 0 <= i < |code| ==> code[i] == InviteAlphabet[rolls[i]]
  {
    code := "";
    for i := 0 to InviteCodeLength
      invariant |code| == i
      invariant forall k :: 0 <= k < i ==> code[k] == InviteAlphabet[rolls[k]]
    {
      code := code + [InviteAlphabet[rolls[i]]];
    }
  }

  /**
   * What every stored team keeps: a name (the schema requires one, and an
   * empty string fails that check), its creator among its members, and no
   * member twice.
   */
  predicate WellFormed(team: Team) {
    team.name != [] && team.createdBy in team.members && NoDup(team.members)
  }

  /** The collection's invariant: ids already issued, teams well formed, invite codes distinct. */
  predicate ValidTeams(teams: map<TeamId, Team>, nextId: TeamId) {
    && (forall t :: t in teams ==> t < nextId && WellFormed(teams[t]))
    && (forall s, t :: s in teams && t in teams && s != t ==> teams[s].inviteCode != teams[t].inviteCode)
  }

  /** Storing a well-formed team under an existing id, with its invite code kept, keeps the collection valid. */
  lemma ReplaceKeepsValid(teams: map<TeamId, Team>, nextId: TeamId, id: TeamId, team: Team)
    requires ValidTeams(teams, nextId) && id in teams
    requires WellFormed(team) && team.inviteCode == teams[id].inviteCode
    ensures ValidTeams(teams[id := team], nextId)
  {
  }

  /** The team carrying `code` among the ids below `bound`: `Team.findOne({ inviteCode })`. */
  function FindByCode(teams: map<TeamId, Team>, code: string, bound: nat): (r: Option<TeamId>)
    ensures r.Some? ==> r.value in teams && teams[r.value].inviteCode == code
    ensures r.None? ==> forall t :: t in teams && t < bound ==> teams[t].inviteCode != code
  {
    if bound == 0 then None
    else if bound - 1 in teams && teams[bound - 1].inviteCode == code then Some(bound - 1)
    else FindByCode(teams, code, bound - 1)
  }

  /** With distinct codes, the team found is the one team holding the code. */
  lemma FindByCodeUnique(teams: map<TeamId, Team>, nextId: TeamId, code: string, t: TeamId)
    requires ValidTeams(teams, nextId)
    requires t in teams && teams[t].inviteCode == code
    ensures FindByCode(teams, code, nextId) == Some(t)
  {
  }

  /** The body of POST `/`; `isPrivate` is `None` when the field is absent. */
  datatype CreateRequest = CreateRequest(
    name: string,
    description: string,
    mission: string,
    standupTime: string,
    timezone: string,
    isPrivate: Option<bool>)

  /** The body of POST `/join`; `inviteCode` is `""` and `teamId` `None` when absent. */
  datatype JoinRequest = JoinRequest(inviteCode: string, teamId: Option<TeamId>)

  /** The body of PATCH `/:id`: `None` for each field the body leaves undefined. */
  datatype TeamPatch = TeamPatch(
    name: Option<string>,
    description: Option<string>,
    mission: Option<string>,
    standupTime: Option<string>,
    timezone: Option<string>,
    slackChannel: Option<string>,
    email: Option<string>,
    isPrivate: Option<bool>)

  /** `Object.assign(team, updateData)` with only the defined fields in `updateData`. */
  function ApplyPatch(team: Team, patch: TeamPatch): (r: Team)
    ensures r.members == team.members && r.inviteCode == team.inviteCode && r.createdBy == team.createdBy
    ensures patch.name.Some? ==> r.name == patch.name.value
    ensures patch.name.None? ==> r.name == team.name
    ensures patch.isPrivate.Some? ==> r.isPrivate == patch.isPrivate.value
    ensures patch.isPrivate.None? ==> r.isPrivate == team.isPrivate
    ensures patch.description.Some? ==> r.description == patch.description.value
    ensures patch.description.None? ==> r.description == team.description
    ensures patch.mission.Some? ==> r.mission == patch.mission.value
    ensures patch.mission.None? ==> r.mission == team.mission
    ensures patch.standupTime.Some? ==> r.standupTime == patch.standupTime.value
    ensures patch.standupTime.None? ==> r.standupTime == team.standupTime
    ensures patch.timezone.Some? ==> r.timezone == patch.timezone.value
    ensures patch.timezone.None? ==> r.timezone == team.timezone
    ensures patch.slackChannel.Some? ==> r.slackChannel == patch.slackChannel.value
    ensures patch.slackChannel.None? ==> r.slackChannel == team.slackChannel
    ensures patch.email.Some? ==> r.email == patch.email.value
    ensures patch.email.None? ==> r.email == team.email
  {
    team.(
      name := patch.name.GetOr(team.name),
      description := patch.description.GetOr(team.description),
      mission := patch.mission.GetOr(team.mission),
      standupTime := patch.standupTime.GetOr(team.standupTime),
      timezone := patch.timezone.GetOr(team.timezone),
      slackChannel := patch.slackChannel.GetOr(team.slackChannel),
      email := patch.email.GetOr(team.email),
      isPrivate := patch.isPrivate.GetOr(team.isPrivate))
  }

  /** The patch with no field defined. */
  const EmptyPatch: TeamPatch := TeamPatch(None, None, None, None, None, None, None, None)

  /** An empty patch changes nothing, and applying a patch twice is applying it once. */
  lemma ApplyPatchLaws(team: Team, patch: TeamPatch)
    ensures ApplyPatch(team, EmptyPatch) == team
    ensures ApplyPatch(ApplyPatch(team, patch), patch) == ApplyPatch(team, patch)
  {
  }

  /** The update is announced only when it defines the name or the description. */
  predicate AnnouncesUpdate(patch: TeamPatch) {
    patch.name.Some? || patch.description.Some?
  }

  /** `inviteCode.trim().toUpperCase()`. */
  function NormalizeCode(code: string): (r: string)
    ensures |r| <= |code|
  {
    ToUpper(Trim(code))
  }

  /** A symbol of the invite alphabet is a capital letter or a digit from 2 to 9. */
  lemma InviteSymbolShape(c: char)
    requires c in InviteAlphabet
    ensures ('A' <= c <= 'Z') || ('2' <= c <= '9')
  {
    InviteAlphabetSymbols();
    var k :| 0 <= k < |InviteAlphabet| && InviteAlphabet[k] == c;
  }

  /** Lower-casing a capital letter or a digit is never whitespace, and upper-casing undoes it. */
  lemma CaseRoundTrip(c: char)
    requires ('A' <= c <= 'Z') || ('2' <= c <= '9')
    ensures UpperChar(LowerChar(c)) == c
    ensures !IsSpace(LowerChar(c))
  {
  }

  /** An invite code typed in lower case still finds its team: it normalises back to the stored code. */
  lemma NormalizeLowerInviteCode(code: string)
    requires IsInviteCode(code)
    ensures NormalizeCode(ToLower(code)) == code
  {
    var lower := ToLower(code);
    forall i | 0 <= i < |code|
      ensures UpperChar(lower[i]) == code[i] && !IsSpace(lower[i])
    {
      InviteSymbolShape(code[i]);
      CaseRoundTrip(code[i]);
    }
    assert Trimmed(lower);
    TrimTrimmed(lower);
    assert ToUpper(lower) == code;
  }

  /** One address of an add-members request that was added, with the account it named. */
  datatype Added = Added(email: string, userId: UserId)

  /** What the add-members loop leaves: the members, the added addresses, the unknown addresses. */
  datatype AddOutcome = AddOutcome(members: seq<UserId>, added: seq<Added>, notFound: seq<string>)

  /**
   * The add-members loop over `emails`, starting from `members`: an address
   * with no account goes to `notFound`; an account not yet a member is
   * appended and the address goes to `added`; an account already a member,
   * including one appended earlier in the loop, is skipped.
   */
  function AddEach(members: seq<UserId>, emails: seq<string>, accounts: map<string, UserId>): AddOutcome {
    if emails == [] then AddOutcome(members, [], [])
    else
      var o := AddEach(members, emails[..|emails| - 1], accounts);
      var email := emails[|emails| - 1];
      if email !in accounts then o.(notFound := o.notFound + [email])
      else if accounts[email] in o.members then o
      else AddOutcome(o.members + [accounts[email]], o.added + [Added(email, accounts[email])], o.notFound)
  }

  /** The user ids of the added entries, in order. */
  function AddedIds(added: seq<Added>): (ids: seq<UserId>)
    ensures |ids| == |added|
    ensures forall k :: 0 <= k < |ids| ==> ids[k] == added[k].userId
  {
    if added == [] then [] else AddedIds(added[..|added| - 1]) + [added[|added| - 1].userId]
  }

  /** The address has no account. */
  function Unknown(accounts: map<string, UserId>): string -> bool {
    e => e !in accounts
  }

  /** The addresses without an account are exactly the `notFound` ones, in order. */
  lemma {:induction false} AddEachNotFound(members: seq<UserId>, emails: seq<string>, accounts: map<string, UserId>)
    ensures AddEach(members, emails, accounts).notFound == Filter(emails, Unknown(accounts))
  {
    if emails != [] {
      var init := emails[..|emails| - 1];
      var email := emails[|emails| - 1];
      AddEachNotFound(members, init, accounts);
      SplitLast(emails);
      FilterAppend(init, [email], Unknown(accounts));
      assert Filter([email], Unknown(accounts)) == if email in accounts then [] else [email] by {
        assert [email][1..] == [];
      }
    }
  }

  /**
   * The members grow by the added accounts, in order, and never hold an
   * account twice; each added address has an account that was not a member
   * before.
   */
  lemma {:induction false} AddEachMembers(members: seq<UserId>, emails: seq<string>, accounts: map<string, UserId>)
    requires NoDup(members)
    ensures var o := AddEach(members, emails, accounts);
      && o.members == members + AddedIds(o.added)
      && NoDup(o.members)
      && (forall a :: a in o.added ==> a.email in emails && a.email in accounts && a.userId == accounts[a.email] && a.userId !in members)
  {
    if emails != [] {
      var init := emails[..|emails| - 1];
      var email := emails[|emails| - 1];
      var o := AddEach(members, init, accounts);
      AddEachMembers(members, init, accounts);
      SplitLast(emails);
      if email in accounts && accounts[email] !in o.members {
        var a := Added(email, accounts[email]);
        assert AddEach(members, emails, accounts) == AddOutcome(o.members + [a.userId], o.added + [a], o.notFound);
        assert AddedIds(o.added + [a]) == AddedIds(o.added) + [a.userId];
        NoDupSnoc(o.members, a.userId);
      }
    }
  }

  /** Every address with an account ends up a member, whether added now or already there. */
  lemma {:induction false} AddEachComplete(members: seq<UserId>, emails: seq<string>, accounts: map<string, UserId>)
    ensures var o := AddEach(members, emails, accounts);
      && members <= o.members
      && (forall e :: e in emails && e in accounts ==> accounts[e] in o.members)
  {
    if emails != [] {
      var init := emails[..|emails| - 1];
      var email := emails[|emails| - 1];
      AddEachComplete(members, init, accounts);
      SplitLast(emails);
    }
  }

  /** Distinct addresses name distinct accounts, as the unique, lower-cased account addresses guarantee. */
  predicate DistinctAccounts(emails: seq<string>, accounts: map<string, UserId>) {
    forall e, f :: e in emails && f in emails && e in accounts && f in accounts && accounts[e] == accounts[f] ==> e == f
  }

  /**
   * With distinct addresses naming distinct accounts, an address is added
   * exactly when its account exists and was not a member before the request.
   */
  lemma {:induction false} AddEachAddsExactlyNew(members: seq<UserId>, emails: seq<string>, accounts: map<string, UserId>)
    requires NoDup(members) && NoDup(emails) && DistinctAccounts(emails, accounts)
    ensures var o := AddEach(members, emails, accounts);
      forall e :: e in emails ==>
        ((exists a :: a in o.added && a.email == e) <==> e in accounts && accounts[e] !in members)
  {
    var o := AddEach(members, emails, accounts);
    AddEachMembers(members, emails, accounts);
    if emails != [] {
      var init := emails[..|emails| - 1];
      var email := emails[|emails| - 1];
      var prev := AddEach(members, init, accounts);
      SplitLast(emails);
      assert NoDup(init) && DistinctAccounts(init, accounts) by {
        assert forall i :: 0 <= i < |init| ==> init[i] == emails[i];
      }
      assert email !in init by {
        assert forall i :: 0 <= i < |init| ==> init[i] == emails[i];
      }
      AddEachAddsExactlyNew(members, init, accounts);
      AddEachMembers(members, init, accounts);
      if email in accounts && accounts[email] !in members {
        forall a | a in prev.added ensures a.userId != accounts[email] {
          assert a.email in init;
        }
        assert accounts[email] !in AddedIds(prev.added) by {
          forall k | 0 <= k < |prev.added| ensures AddedIds(prev.added)[k] != accounts[email] {
            assert prev.added[k] in prev.added;
          }
        }
        assert o.added == prev.added + [Added(email, accounts[email])];
      } else {
        assert o.added == prev.added;
      }
    }
  }

  /** No address is both added and not found. */
  lemma AddedAndNotFoundDisjoint(members: seq<UserId>, emails: seq<string>, accounts: map<string, UserId>)
    requires NoDup(members)
    ensures var o := AddEach(members, emails, accounts);
      forall a :: a in o.added ==> a.email !in o.notFound
  {
    AddEachNotFound(members, emails, accounts);
    AddEachMembers(members, emails, accounts);
  }

  /** The notifications for the added members whose account still exists, in order. */
  function AddedNotices(teamId: TeamId, actor: UserId, added: seq<Added>, users: map<UserId, User>): (notices: seq<Notification>)
    ensures |notices| <= |added|
    ensures forall n :: n in notices ==> n.team == teamId && n.kind == MemberAdded && n.createdBy == actor && n.relatedUser.Some?
  {
    if added == [] then []
    else
      var rest := AddedNotices(teamId, actor, added[..|added| - 1], users);
      var a := added[|added| - 1];
      if a.userId in users then rest + [Notification(teamId, MemberAdded, users[a.userId].fullName + " was added to the team", actor, None, Some(a.userId))]
      else rest
  }

  /** `[...new Set(emails.map(e => e.toLowerCase()))]`. */
  function UniqueEmails(emails: seq<string>): (unique: seq<string>)
    ensures NoDup(unique)
    ensures forall e :: e in unique <==> exists i :: 0 <= i < |emails| && e == ToLower(emails[i])
  {
    var lowered := seq(|emails|, i requires 0 <= i < |emails| => ToLower(emails[i]));
    var unique := Dedup(lowered);
    forall e | e in unique ensures exists i :: 0 <= i < |emails| && e == ToLower(emails[i]) {
      var k :| 0 <= k < |unique| && unique[k] == e;
      assert unique[k] in lowered;
      var i :| 0 <= i < |lowered| && lowered[i] == e;
      assert e == ToLower(emails[i]);
    }
    forall e | exists i :: 0 <= i < |emails| && e == ToLower(emails[i]) ensures e in unique {
      var i :| 0 <= i < |emails| && e == ToLower(emails[i]);
      assert lowered[i] == e;
    }
    unique
  }

  /** The answer of the add-members route. */
  datatype AddResult = AddResult(added: seq<Added>, notFound: seq<string>)

  /** GET `/public`: the public teams among the ids below `bound` that `user` is not in, newest first. */
  function PublicTeams(teams: map<TeamId, Team>, user: UserId, bound: nat): (r: seq<TeamId>)
    ensures forall t :: t in r <==> t < bound && t in teams && !teams[t].isPrivate && !IsMember(teams[t], user)
    ensures forall i, j :: 0 <= i < j < |r| ==> r[i] > r[j]
  {
    if bound == 0 then []
    else
      var t := bound - 1;
      var rest := PublicTeams(teams, user, t);
      assert forall k :: 0 <= k < |rest| ==> rest[k] in rest;
      if t in teams && !teams[t].isPrivate && !IsMember(teams[t], user) then [t] + rest else rest
  }

  class TeamStore {
    /** The teams collection. */
    var teams: map<TeamId, Team>
    /** The id the next team receives. */
    var nextId: TeamId

    ghost predicate Valid()
      reads this
    {
      ValidTeams(teams, nextId)
    }

    constructor ()
      ensures Valid() && teams == map[]
    {
      teams := map[];
      nextId := 0;
    }

    /** The teams listed by GET `/public` for `user`. */
    function PublicFor(user: UserId): (r: seq<TeamId>)
      reads this
      requires Valid()
      ensures forall t :: t in r <==> t in teams && !teams[t].isPrivate && !IsMember(teams[t], user)
    {
      PublicTeams(teams, user, nextId)
    }

    /**
     * POST `/`: a team needs a name (400). `code` is the fresh code
     * `getUniqueInviteCode()` settled on. The new team has the requester as
     * creator and only member, is private unless the body says otherwise,
     * and has no Slack channel or e-mail yet.
     */
    method Create(user: UserId, req: CreateRequest, code: string) returns (response: Result<TeamId, Rejection>)
      requires Valid()
      requires IsInviteCode(code) && forall t :: t in teams ==> teams[t].inviteCode != code
      modifies this
      ensures Valid()
      ensures req.name == [] ==> response == Failure(Rejection(400, TeamNameRequired)) && teams == old(teams) && nextId == old(nextId)
      ensures req.name != [] ==>
        && response == Success(old(nextId))
        && old(nextId) !in old(teams)
        && teams == old(teams)[old(nextId) := Team(req.name, req.description, req.mission, req.standupTime, req.timezone,
                                                  "", "", [user], code, req.isPrivate.GetOr(true), user)]
        && nextId == old(nextId) + 1
    {
      if req.name == [] {
        return Failure(Rejection(400, TeamNameRequired));
      }
      var id := nextId;
      var isPrivate := if req.isPrivate.Some? then req.isPrivate.value else true;
      var team := Team(req.name, req.description, req.mission, req.standupTime, req.timezone, "", "", [user], code, isPrivate, user);
      teams := teams[id := team];
      nextId := nextId + 1;
      response := Success(id);
    }

    /** Which team a join request names, or why it names none. */
    function JoinTarget(req: JoinRequest): (r: Result<TeamId, Rejection>)
      reads this
      requires Valid()
      ensures r.Success? ==> r.value in teams
      ensures r.Success? && req.inviteCode == [] ==> !teams[r.value].isPrivate
      ensures req.inviteCode != [] ==> (r.Success? <==> exists t :: t in teams && teams[t].inviteCode == NormalizeCode(req.inviteCode))
      ensures req.inviteCode != [] && r.Success? ==> teams[r.value].inviteCode == NormalizeCode(req.inviteCode)
      ensures req.inviteCode != [] && r.Failure? ==> r.error == Rejection(404, InvalidInviteCode)
      ensures req.inviteCode == [] && req.teamId.Some? ==>
        && (req.teamId.value !in teams ==> r == Failure(Rejection(404, TeamNotFound)))
        && (req.teamId.value in teams && teams[req.teamId.value].isPrivate ==> r == Failure(Rejection(403, TeamIsPrivate)))
        && (req.teamId.value in teams && !teams[req.teamId.value].isPrivate ==> r == Success(req.teamId.value))
      ensures req.inviteCode == [] && req.teamId.None? ==> r == Failure(Rejection(400, CodeOrIdRequired))
    {
      if req.inviteCode != [] then
        match FindByCode(teams, NormalizeCode(req.inviteCode), nextId)
        case Some(t) => Success(t)
        case None => Failure(Rejection(404, InvalidInviteCode))
      else if req.teamId.Some? then
        if req.teamId.value !in teams then Failure(Rejection(404, TeamNotFound))
        else if teams[req.teamId.value].isPrivate then Failure(Rejection(403, TeamIsPrivate))
        else Success(req.teamId.value)
      else Failure(Rejection(400, CodeOrIdRequired))
    }

    /**
     * Typing a team's invite code in lower case joins that team, whatever id
     * the request also carries: the code is normalised and codes are distinct.
     */
    lemma JoinByLowerInviteCode(t: TeamId, other: Option<TeamId>)
      requires Valid() && t in teams && IsInviteCode(teams[t].inviteCode)
      ensures JoinTarget(JoinRequest(ToLower(teams[t].inviteCode), other)) == Success(t)
    {
      var code := teams[t].inviteCode;
      NormalizeLowerInviteCode(code);
      assert |ToLower(code)| == |code|;
      var r := JoinTarget(JoinRequest(ToLower(code), other));
      assert r.Success? by {
        assert t in teams && teams[t].inviteCode == NormalizeCode(ToLower(code));
      }
    }

    /**
     * POST `/join`: the invite code, when given, takes precedence over the id;
     * a user already in the team gets 400; otherwise the user is appended
     * once, and the join is announced when the user's account exists.
     */
    method Join(user: UserId, req: JoinRequest, users: map<UserId, User>, log: NotificationLog)
      returns (response: Result<TeamId, Rejection>)
      requires Valid()
      modifies this, log
      ensures Valid() && nextId == old(nextId)
      ensures old(JoinTarget(req)).Failure? ==>
        response == old(JoinTarget(req)) && teams == old(teams) && log.entries == old(log.entries)
      ensures old(JoinTarget(req)).Success? ==>
        var t := old(JoinTarget(req)).value;
        if IsMember(old(teams)[t], user) then
          response == Failure(Rejection(400, AlreadyMember)) && teams == old(teams) && log.entries == old(log.entries)
        else
          && response == Success(t)
          && teams == old(teams)[t := old(teams)[t].(members := old(teams)[t].members + [user])]
          && log.entries == old(log.entries) + JoinNotices(t, user, users)
    {
      var target := JoinTarget(req);
      if target.Failure? {
        return target;
      }
      var t := target.value;
      var team := teams[t];
      if IsMember(team, user) {
        return Failure(Rejection(400, AlreadyMember));
      }
      var joined := team.(members := team.members + [user]);
      ReplaceKeepsValid(teams, nextId, t, joined);
      teams := teams[t := joined];
      if user in users {
        log.Create(Notification(t, MemberAdded, users[user].fullName + " joined the team", user, None, Some(user)));
      }
      response := Success(t);
    }

    /**
     * PATCH `/:id`: for a member, overwrites exactly the fields the body
     * defines, and announces it when the name or description is among them.
     * An empty name fails the schema's required-name check when the team is
     * saved: the handler answers 500, and nothing is stored or announced.
     */
    method Patch(user: UserId, id: TeamId, patch: TeamPatch, log: NotificationLog)
      returns (response: Result<Team, Rejection>)
      requires Valid()
      modifies this, log
      ensures Valid() && nextId == old(nextId)
      ensures id !in old(teams) ==> response == Failure(Rejection(404, TeamNotFound)) && teams == old(teams) && log.entries == old(log.entries)
      ensures id in old(teams) && !IsMember(old(teams)[id], user) ==>
        response == Failure(Rejection(403, NotAuthorizedToModify)) && teams == old(teams) && log.entries == old(log.entries)
      ensures id in old(teams) && IsMember(old(teams)[id], user) && patch.name == Some([]) ==>
        response == Failure(Rejection(500, InternalServerError)) && teams == old(teams) && log.entries == old(log.entries)
      ensures id in old(teams) && IsMember(old(teams)[id], user) && patch.name != Some([]) ==>
        && teams == old(teams)[id := ApplyPatch(old(teams)[id], patch)]
        && response == Success(teams[id])
        && log.entries == old(log.entries) + (if AnnouncesUpdate(patch) then [UpdateNotice(id, user)] else [])
    {
      if id !in teams {
        return Failure(Rejection(404, TeamNotFound));
      }
      var team := teams[id];
      if !IsMember(team, user) {
        return Failure(Rejection(403, NotAuthorizedToModify));
      }
      if patch.name == Some([]) {
        return Failure(Rejection(500, InternalServerError));
      }
      var updated := ApplyPatch(team, patch);
      ReplaceKeepsValid(teams, nextId, id, updated);
      teams := teams[id := updated];
      if AnnouncesUpdate(patch) {
        log.Create(UpdateNotice(id, user));
      }
      response := Success(updated);
    }

    /**
     * POST `/:id/members`: `emails` is `None` when the body's field is not an
     * array. A missing or empty list is 400, then 404 and 403 as for a patch.
     * Otherwise the addresses are lower-cased and de-duplicated, each one is
     * looked up in `accounts` (the registered accounts by address), and the
     * loop adds the accounts that are not yet members.
     */
    method AddMembers(user: UserId, id: TeamId, emails: Option<seq<string>>, accounts: map<string, UserId>,
                      users: map<UserId, User>, log: NotificationLog)
      returns (response: Result<AddResult, Rejection>)
      requires Valid()
      modifies this, log
      ensures Valid() && nextId == old(nextId)
      ensures emails.None? || emails == Some([]) ==>
        response == Failure(Rejection(400, EmailsRequired)) && teams == old(teams) && log.entries == old(log.entries)
      ensures emails.Some? && emails.value != [] && id !in old(teams) ==>
        response == Failure(Rejection(404, TeamNotFound)) && teams == old(teams) && log.entries == old(log.entries)
      ensures emails.Some? && emails.value != [] && id in old(teams) && !IsMember(old(teams)[id], user) ==>
        response == Failure(Rejection(403, NotAuthorizedToModify)) && teams == old(teams) && log.entries == old(log.entries)
      ensures emails.Some? && emails.value != [] && id in old(teams) && IsMember(old(teams)[id], user) ==>
        var o := AddEach(old(teams)[id].members, UniqueEmails(emails.value), accounts);
        && response == Success(AddResult(o.added, o.notFound))
        && teams == old(teams)[id := old(teams)[id].(members := o.members)]
        && log.entries == old(log.entries) + AddedNotices(id, user, o.added, users)
    {
      if emails.None? || emails.value == [] {
        return Failure(Rejection(400, EmailsRequired));
      }
      if id !in teams {
        return Failure(Rejection(404, TeamNotFound));
      }
      var team := teams[id];
      if !IsMember(team, user) {
        return Failure(Rejection(403, NotAuthorizedToModify));
      }
      var unique := UniqueEmails(emails.value);
      var outcome := AddAccounts(team.members, unique, accounts);
      AddEachMembers(team.members, unique, accounts);
      var grown := team.(members := outcome.members);
      ReplaceKeepsValid(teams, nextId, id, grown);
      teams := teams[id := grown];
      AnnounceAdded(id, user, outcome.added, users, log);
      response := Success(AddResult(outcome.added, outcome.notFound));
    }

    /**
     * DELETE `/:id/members/:userId`: only the creator may remove (403), and
     * not themselves (400); removal drops every occurrence of the member and
     * keeps the others in order, and is announced when the account exists.
     */
    method RemoveMember(user: UserId, id: TeamId, target: UserId, users: map<UserId, User>, log: NotificationLog)
      returns (response: Result<(), Rejection>)
      requires Valid()
      modifies this, log
      ensures Valid() && nextId == old(nextId)
      ensures id !in old(teams) ==> response == Failure(Rejection(404, TeamNotFound)) && teams == old(teams) && log.entries == old(log.entries)
      ensures id in old(teams) && old(teams)[id].createdBy != user ==>
        response == Failure(Rejection(403, OnlyCreatorRemoves)) && teams == old(teams) && log.entries == old(log.entries)
      ensures id in old(teams) && old(teams)[id].createdBy == user && target == user ==>
        response == Failure(Rejection(400, CannotRemoveSelf)) && teams == old(teams) && log.entries == old(log.entries)
      ensures id in old(teams) && old(teams)[id].createdBy == user && target != user ==>
        && response == Success(())
        && teams == old(teams)[id := old(teams)[id].(members := Filter(old(teams)[id].members, (m: UserId) => m != target))]
        && log.entries == old(log.entries) + RemovalNotices(id, user, target, users)
    {
      if id !in teams {
        return Failure(Rejection(404, TeamNotFound));
      }
      var team := teams[id];
      if team.createdBy != user {
        return Failure(Rejection(403, OnlyCreatorRemoves));
      }
      if target == user {
        return Failure(Rejection(400, CannotRemoveSelf));
      }
      var kept := Filter(team.members, (m: UserId) => m != target);
      FilterNoDup(team.members, (m: UserId) => m != target);
      var shrunk := team.(members := kept);
      ReplaceKeepsValid(teams, nextId, id, shrunk);
      teams := teams[id := shrunk];
      if target in users {
        log.Create(Notification(id, MemberRemoved, users[target].fullName + " was removed from the team", user, None, Some(target)));
      }
      response := Success(());
    }
  }

  /** The join announcement, made only when the user's account exists. */
  function JoinNotices(t: TeamId, user: UserId, users: map<UserId, User>): (r: seq<Notification>)
    ensures |r| <= 1 && (r != [] <==> user in users)
    ensures forall n :: n in r ==>
      && n.team == t && n.kind == MemberAdded && n.createdBy == user && n.relatedUser == Some(user)
      && StartsWith(n.message, users[user].fullName) && EndsWith(n.message, " joined the team")
  {
    if user in users then
      Concatenated(users[user].fullName, " joined the team");
      [Notification(t, MemberAdded, users[user].fullName + " joined the team", user, None, Some(user))]
    else []
  }

  /** The removal announcement, made only when the removed account exists. */
  function RemovalNotices(t: TeamId, actor: UserId, target: UserId, users: map<UserId, User>): (r: seq<Notification>)
    ensures |r| <= 1 && (r != [] <==> target in users)
    ensures forall n :: n in r ==>
      && n.team == t && n.kind == MemberRemoved && n.createdBy == actor && n.relatedUser == Some(target)
      && StartsWith(n.message, users[target].fullName) && EndsWith(n.message, " was removed from the team")
  {
    if target in users then
      Concatenated(users[target].fullName, " was removed from the team");
      [Notification(t, MemberRemoved, users[target].fullName + " was removed from the team", actor, None, Some(target))]
    else []
  }

  /** The update announcement. */
  function UpdateNotice(t: TeamId, actor: UserId): Notification {
    Notification(t, TeamUpdated, "Team details were updated", actor, None, None)
  }

  /** The loop of the add-members route over the unique addresses, pushing onto the members. */
  method AddAccounts(members: seq<UserId>, emails: seq<string>, accounts: map<string, UserId>) returns (outcome: AddOutcome)
    ensures outcome == AddEach(members, emails, accounts)
  {
    var current := members;
    var added: seq<Added> := [];
    var notFound: seq<string> := [];
    for i := 0 to |emails|
      invariant AddEach(members, emails[..i], accounts) == AddOutcome(current, added, notFound)
    {
      assert emails[..i + 1][..i] == emails[..i];
      var email := emails[i];
      if email !in accounts {
        notFound := notFound + [email];
        continue;
      }
      var account := accounts[email];
      if account !in current {
        current := current + [account];
        added := added + [Added(email, account)];
      }
    }
    assert emails[..|emails|] == emails;
    outcome := AddOutcome(current, added, notFound);
  }

  /** The notification loop after the save: one `member_added` notice per added account that still exists. */
  method AnnounceAdded(teamId: TeamId, actor: UserId, added: seq<Added>, users: map<UserId, User>, log: NotificationLog)
    modifies log
    ensures log.entries == old(log.entries) + AddedNotices(teamId, actor, added, users)
  {
    for i := 0 to |added|
      invariant log.entries == old(log.entries) + AddedNotices(teamId, actor, added[..i], users)
    {
      assert added[..i + 1][..i] == added[..i];
      var a := added[i];
      if a.userId in users {
        log.Create(Notification(teamId, MemberAdded, users[a.userId].fullName + " was added to the team", actor, None, Some(a.userId)));
      }
    }
    assert added[..|added|] == added;
  }
}

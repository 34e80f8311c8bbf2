/**
 * The persisted records of the knowledge base (the Mongoose schemas under
 * server/models), as values. Identifiers are numbers; an optional string field
 * is `""` when absent, which is how JavaScript's `||` treats both.
 */
module Records {
  import opened Wrappers

  type UserId = nat
  type TeamId = nat
  type DocId = nat

  /** An embedding vector; its numbers are produced by the embedding service. */
  type Vector = seq<real>

  datatype User = User(fullName: string, email: string, role: string, timezone: string)

  datatype Team = Team(
    name: string,
    description: string,
    mission: string,
    standupTime: string,
    timezone: string,
    slackChannel: string,
    email: string,
    members: seq<UserId>,
    inviteCode: string,
    isPrivate: bool,
    createdBy: UserId)

  datatype Document = Document(
    id: DocId,
    team: TeamId,
    title: string,
    tag: string,
    summary: string,
    fileName: string,
    fileSize: nat,
    uploadedBy: UserId,
    viewCount: nat)

  /** One retrievable piece of a document's text (DocumentChunk). */
  datatype ChunkRecord = ChunkRecord(
    document: DocId,
    team: TeamId,
    text: string,
    embedding: Vector,
    chunkIndex: nat)

  datatype NotificationKind = DocumentUploaded | MemberAdded | MemberRemoved | TeamUpdated

  datatype Notification = Notification(
    team: TeamId,
    kind: NotificationKind,
    message: string,
    createdBy: UserId,
    relatedDocument: Option<DocId>,
    relatedUser: Option<UserId>)

  /** An error answer of a route: the HTTP status and the `error` text. */
  datatype Rejection = Rejection(status: nat, error: string)

  /** `team.members.some(m => m.toString() === userId)`. */
  predicate IsMember(team: Team, user: UserId) {
    user in team.members
  }
}

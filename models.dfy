/**
 * The records the sentiment-analyzer service stores and exchanges:
 * users, uploads and their entries, share grants, identity claims,
 * the five sentiment labels and the HTTP errors the handlers raise.
 */
module Models {
  import opened Wrappers

  /** A stored user, keyed by the identity provider's subject id.
      The organization is optional: a login without an organization claim stores none. */
  datatype User = User(id: string, email: string, organization: Option<string>)

  /** Whether a grant names a single user or a whole organization. */
  datatype RecipientType = USER | ORG

  /** A share grant: access to upload `uploadId` for `recipientId` of kind `recipientType`. */
  datatype UploadAccess = UploadAccess(recipientId: string, recipientType: RecipientType, uploadId: int)

  /** The lifecycle states of an upload. */
  datatype UploadStatus = PENDING | PROCESSING | READY | ERROR

  /** The five labels the sentiment classifier returns. */
  datatype SentimentLevel = VeryNegative | Negative | Neutral | Positive | VeryPositive

  /** An upload, with the owning user's id and its processing status. */
  datatype Upload = Upload(id: int, name: string, createdByUserId: string, status: UploadStatus)

  /** One row of the entry table: entry `id` of upload `uploadId`, its text and,
      once classified, its sentiment. */
  datatype UploadEntry = UploadEntry(uploadId: int, id: nat, text: string, sentiment: Option<SentimentLevel>)

  /** A verified identity-token claim: the subject id, the e-mail and the keys of the
      organization claim in the order the token lists them (the values of that
      dictionary are never read). Being dictionary keys, they are distinct. */
  datatype KeycloakClaim = KeycloakClaim(sub: string, email: string, organizations: seq<string>)

  /** An error raised to the HTTP client: a status code and a detail message. */
  datatype HttpError = HttpError(statusCode: int, detail: string)

  const InvalidAuthToken := HttpError(401, "Invalid auth token")
  const MultipleOrganizations := HttpError(500, "User has more than one organization")
  const UploadNotFound := HttpError(404, "Upload not found")
  const NoAccessToUpload := HttpError(403, "No access to upload")
}

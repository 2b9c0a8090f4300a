/**
 * The access check on an upload named in a request path
 * (`get_upload_from_path` in app/dependencies.py). It only reads the upload
 * table and the grant table, so it is a function of both.
 */
module Access {
  import opened Wrappers
  import opened Models

  /** Python truthiness of the user's organization: neither absent nor empty. */
  predicate HasOrganization(user: User)
  {
    user.organization.Some? && user.organization.value != ""
  }

  /** The reference rule: the owner may access an upload, and so may a user who
      holds a USER grant on it, or whose organization holds an ORG grant on it. */
  ghost predicate MayAccess(upload: Upload, grants: set<UploadAccess>, user: User)
  {
    || upload.createdByUserId == user.id
    || (exists g :: g in grants && g.uploadId == upload.id && g.recipientType == USER && g.recipientId == user.id)
    || (HasOrganization(user) &&
        exists g :: g in grants && g.uploadId == upload.id && g.recipientType == ORG && g.recipientId == user.organization.value)
  }

  /** The grant query of the check: is there a row for this upload, recipient and type? */
  predicate HasGrant(grants: set<UploadAccess>, uploadId: int, recipientId: string, recipientType: RecipientType)
  {
    UploadAccess(recipientId, recipientType, uploadId) in grants
  }

  /** The upload `uploadId` if `user` may see it, first match winning: a missing
      upload is 404; the owner, a USER grant and then an ORG grant (only for a user
      with an organization) allow; anything else is 403. */
  function GetUploadFromPath(uploads: map<int, Upload>, grants: set<UploadAccess>, user: User, uploadId: int)
    : (r: Result<Upload, HttpError>)
    requires KeyedById(uploads)
    ensures r == Failure(UploadNotFound) <==> uploadId !in uploads
    ensures r.Success? <==> uploadId in uploads && MayAccess(uploads[uploadId], grants, user)
    ensures r.Success? ==> r.value == uploads[uploadId]
    ensures r.Failure? ==> r.error == UploadNotFound || r.error == NoAccessToUpload
  {
    if uploadId !in uploads then Failure(UploadNotFound)
    else
      var upload := uploads[uploadId];
      if upload.createdByUserId == user.id then Success(upload)
      else if HasGrant(grants, uploadId, user.id, USER) then Success(upload)
      else if HasOrganization(user) && HasGrant(grants, uploadId, user.organization.value, ORG) then Success(upload)
      else Failure(NoAccessToUpload)
  }

  /** Table invariant: every upload sits under its own id. */
  predicate KeyedById(uploads: map<int, Upload>)
  {
    forall id :: id in uploads ==> uploads[id].id == id
  }

  /** A missing upload is 404 whoever asks and whatever has been granted. */
  lemma NotFoundFirst(uploads: map<int, Upload>, grants: set<UploadAccess>, user: User, uploadId: int)
    requires KeyedById(uploads) && uploadId !in uploads
    ensures GetUploadFromPath(uploads, grants, user, uploadId) == Failure(UploadNotFound)
  {
  }

  /** The owner is allowed whatever the grants are. */
  lemma OwnerAlwaysAllowed(uploads: map<int, Upload>, grants: set<UploadAccess>, user: User, uploadId: int)
    requires KeyedById(uploads) && uploadId in uploads && uploads[uploadId].createdByUserId == user.id
    ensures GetUploadFromPath(uploads, grants, user, uploadId) == Success(uploads[uploadId])
  {
  }

  /** An existing upload is refused with 403, never 404, when access is denied. */
  lemma DeniedIsForbidden(uploads: map<int, Upload>, grants: set<UploadAccess>, user: User, uploadId: int)
    requires KeyedById(uploads) && uploadId in uploads && !MayAccess(uploads[uploadId], grants, user)
    ensures GetUploadFromPath(uploads, grants, user, uploadId) == Failure(NoAccessToUpload)
  {
  }

  /** A grant that is not for this upload, or names a different recipient of its
      type, changes nothing: in particular an ORG grant naming the user's id and a
      USER grant naming the user's organization grant no access. */
  lemma IrrelevantGrantIgnored(uploads: map<int, Upload>, grants: set<UploadAccess>, user: User, uploadId: int, g: UploadAccess)
    requires KeyedById(uploads)
    requires g.uploadId != uploadId
          || (g.recipientType == USER && g.recipientId != user.id)
          || (g.recipientType == ORG && (!HasOrganization(user) || g.recipientId != user.organization.value))
    ensures GetUploadFromPath(uploads, grants + {g}, user, uploadId) == GetUploadFromPath(uploads, grants, user, uploadId)
  {
  }

  /** More grants never take access away. */
  lemma MoreGrantsKeepAccess(uploads: map<int, Upload>, grants: set<UploadAccess>, more: set<UploadAccess>, user: User, uploadId: int)
    requires KeyedById(uploads) && grants <= more
    requires GetUploadFromPath(uploads, grants, user, uploadId).Success?
    ensures GetUploadFromPath(uploads, more, user, uploadId) == GetUploadFromPath(uploads, grants, user, uploadId)
  {
  }

  /** A user without an organization (absent or empty) gains nothing from ORG grants. */
  lemma NoOrganizationNoOrgAccess(uploads: map<int, Upload>, grants: set<UploadAccess>, user: User, uploadId: int)
    requires KeyedById(uploads) && !HasOrganization(user)
    ensures GetUploadFromPath(uploads, grants, user, uploadId)
         == GetUploadFromPath(uploads, (set g | g in grants && g.recipientType == USER), user, uploadId)
  {
  }
}

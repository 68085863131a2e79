/**
 The tables behind the service-request lifecycle and, for every endpoint, the
 store it leaves behind.

 An endpoint reads first and writes later, and other calls may run in between.
 So every endpoint is a function of the stores its reads saw (`seen...`) and of
 the store `s` its write finds. One transaction, or one `updateMany`, is atomic.
 */
module Marketplace {
  import opened Prelude

  /** Row ids: UUIDs in the source, only ever compared. */
  type Id = nat

  datatype RequestStatus = Open | Assigned | InProgress | AwaitingConfirmation | Completed | Cancelled

  datatype ApplicationStatus = Pending | Accepted | Rejected | Withdrawn

  datatype VerificationStatus = Unverified | ProfileComplete | DocumentsSubmitted | Verified | Declined

  datatype Request = Request(
    customer: Id,
    category: Id,
    status: RequestStatus,
    assignee: Option<Id>,
    completedAt: Option<nat>,
    cancelledAt: Option<nat>)

  datatype Application = Application(request: Id, handyman: Id, status: ApplicationStatus)

  datatype Profile = Profile(
    user: Id,
    status: VerificationStatus,
    verifiedAt: Option<nat>,
    reviewedBy: Option<Id>,
    categories: set<Id>)

  datatype Event =
    | RequestCreated(request: Id)
    | RequestAssigned(request: Id, handyman: Id)
    | RequestUnassigned(request: Id, handyman: Id)
    | CompletionSubmitted(request: Id, handyman: Id)
    | RequestCompleted(request: Id, completedBy: Option<Id>)
    | RequestCancelled(request: Id, cancelledFor: Option<Id>)

  datatype Error =
    | NotFound
    | Forbidden
    | BadRequest
    | ProfileNotFound
    | HandymanNotVerified
    | CategoryNotServiced
    | DuplicateApplication
    | RequestNotOpen
    | RequestStatusChanged
    | ApplicationNotPending
    | ApplicationNotWithdrawable
    | InvalidTransition
    | UniqueViolation

  /** The `where` clause of an `updateMany` on applications; an absent field does not restrict. */
  datatype ApplicationWhere = ApplicationWhere(
    id: Option<Id>,
    notId: Option<Id>,
    request: Option<Id>,
    handyman: Option<Id>,
    statusIn: set<ApplicationStatus>)
  {
    predicate Selects(rowId: Id, row: Application) {
      && (id.Some? ==> rowId == id.value)
      && (notId.Some? ==> rowId != notId.value)
      && (request.Some? ==> row.request == request.value)
      && (handyman.Some? ==> row.handyman == handyman.value)
      && row.status in statusIn
    }
  }

  function ById(a: Id, statusIn: set<ApplicationStatus>): ApplicationWhere {
    ApplicationWhere(Some(a), None, None, None, statusIn)
  }

  function OfRequest(r: Id, statusIn: set<ApplicationStatus>): ApplicationWhere {
    ApplicationWhere(None, None, Some(r), None, statusIn)
  }

  type Applications = map<Id, Application>

  function Selected(rows: Applications, w: ApplicationWhere): set<Id> {
    set a | a in rows && w.Selects(a, rows[a])
  }

  /** `updateMany`: every selected row takes the new status, every other row stays. */
  function UpdateMany(rows: Applications, w: ApplicationWhere, status: ApplicationStatus): Applications {
    map a | a in rows :: if w.Selects(a, rows[a]) then rows[a].(status := status) else rows[a]
  }

  /** `profileOf` and `applicationOf` are the unique indexes on (user) and on (request, handyman). */
  datatype Store = Store(
    profiles: map<Id, Profile>,
    profileOf: map<Id, Id>,
    documents: map<Id, Id>,
    requests: map<Id, Request>,
    applications: Applications,
    applicationOf: map<(Id, Id), Id>,
    events: seq<Event>)
  {
    function FindRequest(r: Id): Result<Request, Error> {
      if r in requests then Ok(requests[r]) else Err(NotFound)
    }

    function FindApplication(a: Id): Result<Application, Error> {
      if a in applications then Ok(applications[a]) else Err(NotFound)
    }

    /** `findByUserId`: the profile row of a user. */
    function FindProfileId(user: Id): Result<Id, Error> {
      if user in profileOf then Ok(profileOf[user]) else Err(ProfileNotFound)
    }

    function FindProfile(p: Id): Result<Profile, Error> {
      if p in profiles then Ok(profiles[p]) else Err(NotFound)
    }

    predicate RequestIs(r: Id, status: RequestStatus) {
      r in requests && requests[r].status == status
    }

    predicate HasDocument(p: Id) {
      exists d :: d in documents && documents[d] == p
    }

    predicate Serves(p: Id, category: Id) {
      p in profiles && category in profiles[p].categories
    }
  }

  const EMPTY := Store(map[], map[], map[], map[], map[], map[], [])

  // ---------------------------------------------------------------- customer

  function CreateRequest(s: Store, user: Id, category: Id, newId: Id): Result<Store, Error> {
    var request := Request(user, category, Open, None, None, None);
    :- Need(newId !in s.requests, UniqueViolation);
    Ok(s.(requests := s.requests[newId := request],
          events := s.events + [RequestCreated(newId)]))
  }

  function CancelRequest(seen: Store, s: Store, user: Id, r: Id, now: nat): Result<Store, Error> {
    var request :- seen.FindRequest(r);
    :- Need(request.customer == user, Forbidden);
    :- Need(request.status == Open || request.status == Assigned, Forbidden);
    :- Need(s.RequestIs(r, request.status), RequestStatusChanged);
    Ok(s.(requests := s.requests[r := s.requests[r].(status := Cancelled, cancelledAt := Some(now))],
          applications := UpdateMany(s.applications, OfRequest(r, {Pending, Accepted}), Rejected),
          events := s.events + [RequestCancelled(r, s.requests[r].assignee)]))
  }

  function AcceptApplication(seenRequest: Store, seenApplication: Store, s: Store, user: Id, r: Id, a: Id)
    : Result<Store, Error>
  {
    var request :- seenRequest.FindRequest(r);
    :- Need(request.customer == user, Forbidden);
    :- Need(request.status == Open, RequestNotOpen);
    var application :- seenApplication.FindApplication(a);
    :- Need(application.request == r, NotFound);
    :- Need(application.status == Pending, ApplicationNotPending);
    :- Need(s.RequestIs(r, Open), RequestNotOpen);
    :- Need(Selected(s.applications, ById(a, {Pending})) != {}, ApplicationNotPending);
    var accepted := UpdateMany(s.applications, ById(a, {Pending}), Accepted);
    var others := OfRequest(r, {Pending}).(notId := Some(a));
    Ok(s.(requests := s.requests[r := s.requests[r].(status := Assigned, assignee := Some(application.handyman))],
          applications := UpdateMany(accepted, others, Rejected),
          events := s.events + [RequestAssigned(r, application.handyman)]))
  }

  function RejectApplication(seenRequest: Store, seenApplication: Store, s: Store, user: Id, r: Id, a: Id)
    : Result<Store, Error>
  {
    var request :- seenRequest.FindRequest(r);
    :- Need(request.customer == user, Forbidden);
    var application :- seenApplication.FindApplication(a);
    :- Need(application.request == r, NotFound);
    :- Need(request.status == Open, RequestNotOpen);
    :- Need(application.status == Pending, ApplicationNotPending);
    :- Need(Selected(s.applications, ById(a, {Pending})) != {}, ApplicationNotPending);
    Ok(s.(applications := UpdateMany(s.applications, ById(a, {Pending}), Rejected)))
  }

  /** The completion event names the assignee of the row read, which may be stale (or null) by then. */
  function ConfirmCompletion(seen: Store, s: Store, user: Id, r: Id, now: nat): Result<Store, Error> {
    var request :- seen.FindRequest(r);
    :- Need(request.customer == user, Forbidden);
    :- Need(request.status == AwaitingConfirmation, Forbidden);
    :- Need(s.RequestIs(r, AwaitingConfirmation), Forbidden);
    Ok(s.(requests := s.requests[r := s.requests[r].(status := Completed, completedAt := Some(now))],
          events := s.events + [RequestCompleted(r, request.assignee)]))
  }

  // ---------------------------------------------------------------- handyman

  function ApplyToRequest(seenProfile: Store, seenRequest: Store, seenCategory: Store, seenApplication: Store,
                          s: Store, user: Id, r: Id, newId: Id)
    : Result<Store, Error>
  {
    var p :- seenProfile.FindProfileId(user);
    :- Need(p in seenProfile.profiles && seenProfile.profiles[p].status == Verified, HandymanNotVerified);
    var request :- seenRequest.FindRequest(r);
    :- Need(request.status == Open, RequestNotOpen);
    :- Need(seenCategory.Serves(p, request.category), CategoryNotServiced);
    var existing := if (r, p) in seenApplication.applicationOf then Some(seenApplication.applicationOf[(r, p)]) else None;
    :- Need(existing.Some? && existing.value in seenApplication.applications ==>
              seenApplication.applications[existing.value].status in {Withdrawn, Rejected},
            DuplicateApplication);
    :- Need(s.RequestIs(r, Open), RequestNotOpen);
    match existing
    case Some(a) =>
      :- Need(Selected(s.applications, ById(a, {Withdrawn, Rejected})) != {}, DuplicateApplication);
      Ok(s.(applications := UpdateMany(s.applications, ById(a, {Withdrawn, Rejected}), Pending)))
    case None =>
      :- Need((r, p) !in s.applicationOf && newId !in s.applications, UniqueViolation);
      Ok(s.(applications := s.applications[newId := Application(r, p, Pending)],
            applicationOf := s.applicationOf[(r, p) := newId]))
  }

  function WithdrawApplication(seenProfile: Store, seenApplication: Store, s: Store, user: Id, a: Id)
    : Result<Store, Error>
  {
    var p :- seenProfile.FindProfileId(user);
    var application :- seenApplication.FindApplication(a);
    :- Need(application.handyman == p, NotFound);
    :- Need(Selected(s.applications, ById(a, {Pending})) != {}, ApplicationNotWithdrawable);
    Ok(s.(applications := UpdateMany(s.applications, ById(a, {Pending}), Withdrawn)))
  }

  /** The three reads `startRequest`, `cancelAssignedRequest` and `completeRequest` share. */
  function FindAssignment(seenProfile: Store, seenRequest: Store, user: Id, r: Id, status: RequestStatus)
    : Result<Id, Error>
  {
    var p :- seenProfile.FindProfileId(user);
    var request :- seenRequest.FindRequest(r);
    :- Need(request.assignee == Some(p), NotFound);
    :- Need(request.status == status, InvalidTransition);
    Ok(p)
  }

  /** Guards its write on the status alone, not on the assignee it read. */
  function StartRequest(seenProfile: Store, seenRequest: Store, s: Store, user: Id, r: Id): Result<Store, Error> {
    var _ :- FindAssignment(seenProfile, seenRequest, user, r, Assigned);
    :- Need(s.RequestIs(r, Assigned), InvalidTransition);
    Ok(s.(requests := s.requests[r := s.requests[r].(status := InProgress)]))
  }

  /** Guards its write on the status alone, not on the assignee it read. */
  function CancelAssignedRequest(seenProfile: Store, seenRequest: Store, s: Store, user: Id, r: Id)
    : Result<Store, Error>
  {
    var p :- FindAssignment(seenProfile, seenRequest, user, r, Assigned);
    :- Need(s.RequestIs(r, Assigned), RequestStatusChanged);
    Ok(s.(requests := s.requests[r := s.requests[r].(status := Open, assignee := None)],
          applications := UpdateMany(s.applications, OfRequest(r, {Accepted}).(handyman := Some(p)), Withdrawn),
          events := s.events + [RequestUnassigned(r, p)]))
  }

  function CompleteRequest(seenProfile: Store, seenRequest: Store, s: Store, user: Id, r: Id): Result<Store, Error> {
    var p :- FindAssignment(seenProfile, seenRequest, user, r, InProgress);
    :- Need(s.RequestIs(r, InProgress), InvalidTransition);
    Ok(s.(requests := s.requests[r := s.requests[r].(status := AwaitingConfirmation)],
          events := s.events + [CompletionSubmitted(r, p)]))
  }

  // ------------------------------------------------------------ verification

  function CreateProfile(s: Store, p: Id, row: Profile): Result<Store, Error> {
    if p in s.profiles || row.user in s.profileOf then Err(UniqueViolation)
    else Ok(s.(profiles := s.profiles[p := row], profileOf := s.profileOf[row.user := p]))
  }

  /** `getOrCreate`: the loser of a creation race re-reads the winner's row. */
  function EnsureProfile(seen: Store, s: Store, user: Id, newId: Id): Result<Store, Error> {
    if user in seen.profileOf || user in s.profileOf then Ok(s)
    else CreateProfile(s, newId, Profile(user, Unverified, None, None, {}))
  }

  function ToSet(ids: seq<Id>): set<Id> {
    set i | i in ids
  }

  function CompleteProfile(seen: Store, s: Store, user: Id, newId: Id, categoryIds: seq<Id>): Result<Store, Error> {
    var found := seen.FindProfileId(user);
    :- Need(categoryIds != [], BadRequest);
    match found
    case Ok(p) =>
      var existing :- seen.FindProfile(p);
      :- Need(existing.status == Unverified, InvalidTransition);
      :- Need(Distinct(categoryIds), UniqueViolation);
      var row :- s.FindProfile(p);
      Ok(s.(profiles := s.profiles[p := row.(status := ProfileComplete, categories := ToSet(categoryIds))]))
    case Err(_) =>
      :- Need(Distinct(categoryIds), UniqueViolation);
      CreateProfile(s, newId, Profile(user, ProfileComplete, None, None, ToSet(categoryIds)))
  }

  /** An absent or empty category list leaves the categories alone. */
  function UpdateProfile(seen: Store, s: Store, user: Id, categoryIds: seq<Id>): Result<Store, Error> {
    var p :- seen.FindProfileId(user);
    var row :- s.FindProfile(p);
    if categoryIds == [] then Ok(s)
    else
      :- Need(Distinct(categoryIds), UniqueViolation);
      Ok(s.(profiles := s.profiles[p := row.(categories := ToSet(categoryIds))]))
  }

  function UploadDocument(seen: Store, s: Store, user: Id, newId: Id): Result<Store, Error> {
    var p :- seen.FindProfileId(user);
    :- Need(newId !in s.documents, UniqueViolation);
    Ok(s.(documents := s.documents[newId := p]))
  }

  function DeleteDocument(seen: Store, s: Store, user: Id, d: Id): Result<Store, Error> {
    var p :- seen.FindProfileId(user);
    var profile :- seen.FindProfile(p);
    :- Need(profile.status != DocumentsSubmitted, Forbidden);
    Ok(if d in s.documents && s.documents[d] == p then s.(documents := s.documents - {d}) else s)
  }

  function SubmitDocuments(seenProfile: Store, seenDocuments: Store, s: Store, user: Id): Result<Store, Error> {
    var p :- seenProfile.FindProfileId(user);
    var profile :- seenProfile.FindProfile(p);
    :- Need(profile.status == ProfileComplete || profile.status == Declined, InvalidTransition);
    :- Need(seenDocuments.HasDocument(p), InvalidTransition);
    UpdateVerificationStatus(s, p, DocumentsSubmitted, None, None)
  }

  function ApproveHandyman(seen: Store, s: Store, admin: Id, p: Id, now: nat): Result<Store, Error> {
    var profile :- seen.FindProfile(p);
    :- Need(profile.status == DocumentsSubmitted, InvalidTransition);
    UpdateVerificationStatus(s, p, Verified, Some(admin), Some(now))
  }

  function RejectHandyman(seen: Store, s: Store, admin: Id, p: Id): Result<Store, Error> {
    var profile :- seen.FindProfile(p);
    :- Need(profile.status == DocumentsSubmitted, InvalidTransition);
    UpdateVerificationStatus(s, p, Declined, Some(admin), None)
  }

  /** An absent reviewer or verification time leaves the stored one alone. */
  function UpdateVerificationStatus(s: Store, p: Id, status: VerificationStatus, reviewer: Option<Id>, verifiedAt: Option<nat>)
    : Result<Store, Error>
  {
    var row :- s.FindProfile(p);
    Ok(s.(profiles := s.profiles[p := row.(
                                   status := status,
                                   reviewedBy := if reviewer.Some? then reviewer else row.reviewedBy,
                                   verifiedAt := if verifiedAt.Some? then verifiedAt else row.verifiedAt)]))
  }
}

/**
 The endpoints as the source writes them: rows changed in place by conditional
 updates whose counts decide, inside transactions that roll back. Each is proved
 to do what its function in `Marketplace` says. A `seen...` argument is the
 database as that read found it; passing the current rows makes the call atomic.
 */
module MarketplaceServices {
  import opened Prelude
  import opened Marketplace
  import opened LifecycleTheorems

  /** The `data` of an update on a request; an absent field is left alone. */
  datatype RequestData = RequestData(
    status: RequestStatus,
    assignee: Option<Option<Id>> := None,
    completedAt: Option<nat> := None,
    cancelledAt: Option<nat> := None)
  {
    function Onto(row: Request): Request {
      row.(status := status,
           assignee := if assignee.Some? then assignee.value else row.assignee,
           completedAt := if completedAt.Some? then completedAt else row.completedAt,
           cancelledAt := if cancelledAt.Some? then cancelledAt else row.cancelledAt)
    }
  }

  /** The call answered as `spec` says: on an error nothing is written. */
  ghost predicate Did<T>(spec: Result<Store, Error>, before: Store, after: Store, answer: Result<T, Error>) {
    match spec
    case Ok(t) => answer.Ok? && after == t
    case Err(e) => answer == Err(e) && after == before
  }

  class Database {
    var profiles: map<Id, Profile>
    var profileOf: map<Id, Id>
    var documents: map<Id, Id>
    var requests: map<Id, Request>
    var applications: Applications
    var applicationOf: map<(Id, Id), Id>
    var events: seq<Event>

    function Rows(): Store
      reads this
    {
      Store(profiles, profileOf, documents, requests, applications, applicationOf, events)
    }

    constructor ()
      ensures Rows() == EMPTY
    {
      profiles, profileOf, documents := map[], map[], map[];
      requests, applications, applicationOf, events := map[], map[], map[], [];
    }

    /** Back to where the transaction began. */
    method Rollback(begin: Store)
      modifies this
      ensures Rows() == begin
    {
      profiles, profileOf, documents := begin.profiles, begin.profileOf, begin.documents;
      requests, applications := begin.requests, begin.applications;
      applicationOf, events := begin.applicationOf, begin.events;
    }

    method UpdateRequests(r: Id, status: RequestStatus, data: RequestData) returns (count: nat)
      modifies this`requests
      ensures count == if old(Rows()).RequestIs(r, status) then 1 else 0
      ensures requests == if count == 0 then old(requests) else old(requests)[r := data.Onto(old(requests)[r])]
    {
      count := 0;
      if r in requests && requests[r].status == status {
        requests := requests[r := data.Onto(requests[r])];
        count := 1;
      }
    }

    method UpdateApplications(w: ApplicationWhere, status: ApplicationStatus) returns (count: nat)
      modifies this`applications
      ensures count == |Selected(old(applications), w)|
      ensures applications == UpdateMany(old(applications), w, status)
    {
      count := |Selected(applications, w)|;
      applications := UpdateMany(applications, w, status);
    }

    method CreateApplication(id: Id, r: Id, p: Id) returns (ok: bool)
      modifies this`applications, this`applicationOf
      ensures ok <==> (r, p) !in old(applicationOf) && id !in old(applications)
      ensures ok ==> applications == old(applications)[id := Application(r, p, Pending)]
      ensures ok ==> applicationOf == old(applicationOf)[(r, p) := id]
      ensures !ok ==> applications == old(applications) && applicationOf == old(applicationOf)
    {
      ok := (r, p) !in applicationOf && id !in applications;
      if ok {
        applications := applications[id := Application(r, p, Pending)];
        applicationOf := applicationOf[(r, p) := id];
      }
    }

    method Emit(e: Event)
      modifies this`events
      ensures events == old(events) + [e]
    {
      events := events + [e];
    }
  }

  class ServiceRequestsService {
    const db: Database

    constructor (db: Database)
      ensures this.db == db
    {
      this.db := db;
    }

    method Create(user: Id, category: Id, newId: Id) returns (answer: Result<Request, Error>)
      modifies db
      ensures Did(CreateRequest(old(db.Rows()), user, category, newId), old(db.Rows()), db.Rows(), answer)
      ensures answer.Ok? ==> newId in db.requests && answer.value == db.requests[newId]
    {
      if newId in db.requests {
        return Err(UniqueViolation);
      }
      db.requests := db.requests[newId := Request(user, category, Open, None, None, None)];
      db.Emit(RequestCreated(newId));
      return Ok(db.requests[newId]);
    }

    method Cancel(seen: Store, user: Id, r: Id, now: nat) returns (answer: Result<Request, Error>)
      modifies db
      ensures Did(CancelRequest(seen, old(db.Rows()), user, r, now), old(db.Rows()), db.Rows(), answer)
      ensures answer.Ok? ==> r in db.requests && answer.value == db.requests[r]
    {
      var request :- seen.FindRequest(r);
      if request.customer != user {
        return Err(Forbidden);
      }
      if request.status != Open && request.status != Assigned {
        return Err(Forbidden);
      }
      var count := db.UpdateRequests(r, request.status, RequestData(Cancelled, cancelledAt := Some(now)));
      if count == 0 {
        return Err(RequestStatusChanged);
      }
      var _ := db.UpdateApplications(OfRequest(r, {Pending, Accepted}), Rejected);
      var cancelled := db.requests[r];
      db.Emit(RequestCancelled(r, cancelled.assignee));
      return Ok(cancelled);
    }

    method AcceptApplication(seenRequest: Store, seenApplication: Store, user: Id, r: Id, a: Id)
      returns (answer: Result<Request, Error>)
      modifies db
      ensures Did(Marketplace.AcceptApplication(seenRequest, seenApplication, old(db.Rows()), user, r, a),
                  old(db.Rows()), db.Rows(), answer)
      ensures answer.Ok? ==> r in db.requests && answer.value == db.requests[r]
    {
      var request :- seenRequest.FindRequest(r);
      if request.customer != user {
        return Err(Forbidden);
      }
      if request.status != Open {
        return Err(RequestNotOpen);
      }
      var application :- seenApplication.FindApplication(a);
      if application.request != r {
        return Err(NotFound);
      }
      if application.status != Pending {
        return Err(ApplicationNotPending);
      }
      var begin := db.Rows();
      var count := db.UpdateRequests(r, Open, RequestData(Assigned, assignee := Some(Some(application.handyman))));
      if count == 0 {
        return Err(RequestNotOpen);
      }
      var appCount := db.UpdateApplications(ById(a, {Pending}), Accepted);
      if appCount == 0 {
        db.Rollback(begin);
        return Err(ApplicationNotPending);
      }
      var _ := db.UpdateApplications(OfRequest(r, {Pending}).(notId := Some(a)), Rejected);
      db.Emit(RequestAssigned(r, application.handyman));
      return Ok(db.requests[r]);
    }

    method RejectApplication(seenRequest: Store, seenApplication: Store, user: Id, r: Id, a: Id)
      returns (answer: Result<Application, Error>)
      modifies db
      ensures Did(Marketplace.RejectApplication(seenRequest, seenApplication, old(db.Rows()), user, r, a),
                  old(db.Rows()), db.Rows(), answer)
      ensures answer.Ok? ==> a in db.applications && answer.value == db.applications[a]
    {
      var request :- seenRequest.FindRequest(r);
      if request.customer != user {
        return Err(Forbidden);
      }
      var application :- seenApplication.FindApplication(a);
      if application.request != r {
        return Err(NotFound);
      }
      if request.status != Open {
        return Err(RequestNotOpen);
      }
      if application.status != Pending {
        return Err(ApplicationNotPending);
      }
      var count := db.UpdateApplications(ById(a, {Pending}), Rejected);
      if count == 0 {
        OnlyItself(old(db.applications), a, {Pending}, Rejected);
        return Err(ApplicationNotPending);
      }
      OnlyItself(old(db.applications), a, {Pending}, Rejected);
      return Ok(db.applications[a]);
    }

    method ConfirmCompletion(seen: Store, user: Id, r: Id, now: nat) returns (answer: Result<Request, Error>)
      modifies db
      ensures Did(Marketplace.ConfirmCompletion(seen, old(db.Rows()), user, r, now), old(db.Rows()), db.Rows(), answer)
      ensures answer.Ok? ==> r in db.requests && answer.value == db.requests[r]
    {
      var request :- seen.FindRequest(r);
      if request.customer != user || request.status != AwaitingConfirmation {
        return Err(Forbidden);
      }
      var count := db.UpdateRequests(r, AwaitingConfirmation, RequestData(Completed, completedAt := Some(now)));
      if count == 0 {
        return Err(Forbidden);
      }
      db.Emit(RequestCompleted(r, request.assignee));
      return Ok(db.requests[r]);
    }
  }

  /** An update by id selects that row or none; selecting none changes nothing. */
  lemma OnlyItself(rows: Applications, a: Id, statusIn: set<ApplicationStatus>, status: ApplicationStatus)
    ensures Selected(rows, ById(a, statusIn)) == if a in rows && rows[a].status in statusIn then {a} else {}
    ensures Selected(rows, ById(a, statusIn)) == {} ==> UpdateMany(rows, ById(a, statusIn), status) == rows
  {
    var chosen := Selected(rows, ById(a, statusIn));
    if chosen == {} {
      forall b | b in rows ensures !ById(a, statusIn).Selects(b, rows[b]) {
        assert b !in chosen;
      }
    }
  }

  class HandymanService {
    const db: Database

    constructor (db: Database)
      ensures this.db == db
    {
      this.db := db;
    }

    /** Three counts summed over the ongoing statuses, and one for the completed. */
    method GetDashboard(seen: Store, queries: RequestStatus -> Store, user: Id, newId: Id)
      returns (answer: Result<(nat, nat), Error>)
      modifies db
      ensures Did(Marketplace.EnsureProfile(seen, old(db.Rows()), user, newId), old(db.Rows()), db.Rows(), answer)
      ensures answer.Ok? && user in seen.profileOf ==> answer.value == DashboardOf(queries, seen.profileOf[user])
      ensures answer.Ok? && user !in seen.profileOf ==>
                user in db.profileOf && answer.value == DashboardOf(queries, db.profileOf[user])
    {
      var _ :- EnsureProfile(seen, user, newId);
      var p := if user in seen.profileOf then seen.profileOf[user] else db.profileOf[user];
      var statuses := [Assigned, InProgress, AwaitingConfirmation];
      var ongoing := 0;
      for i := 0 to |statuses|
        invariant ongoing == (if i > 0 then CountByHandymanAndStatus(queries(Assigned), p, Assigned) else 0)
                             + (if i > 1 then CountByHandymanAndStatus(queries(InProgress), p, InProgress) else 0)
                             + (if i > 2 then CountByHandymanAndStatus(queries(AwaitingConfirmation), p, AwaitingConfirmation) else 0)
      {
        ongoing := ongoing + CountByHandymanAndStatus(queries(statuses[i]), p, statuses[i]);
      }
      return Ok((ongoing, CountByHandymanAndStatus(queries(Completed), p, Completed)));
    }

    method EnsureProfile(seen: Store, user: Id, newId: Id) returns (answer: Result<(), Error>)
      modifies db
      ensures Did(Marketplace.EnsureProfile(seen, old(db.Rows()), user, newId), old(db.Rows()), db.Rows(), answer)
    {
      if user in seen.profileOf || user in db.profileOf {
        return Ok(());
      }
      answer := InsertProfile(newId, Profile(user, Unverified, None, None, {}));
    }

    method InsertProfile(p: Id, row: Profile) returns (answer: Result<(), Error>)
      modifies db
      ensures Did(CreateProfile(old(db.Rows()), p, row), old(db.Rows()), db.Rows(), answer)
    {
      if p in db.profiles || row.user in db.profileOf {
        return Err(UniqueViolation);
      }
      db.profiles := db.profiles[p := row];
      db.profileOf := db.profileOf[row.user := p];
      return Ok(());
    }

    method CompleteProfile(seen: Store, user: Id, newId: Id, categoryIds: seq<Id>) returns (answer: Result<(), Error>)
      modifies db
      ensures Did(Marketplace.CompleteProfile(seen, old(db.Rows()), user, newId, categoryIds),
                  old(db.Rows()), db.Rows(), answer)
    {
      if categoryIds == [] {
        return Err(BadRequest);
      }
      if user in seen.profileOf {
        var p := seen.profileOf[user];
        var existing :- seen.FindProfile(p);
        if existing.status != Unverified {
          return Err(InvalidTransition);
        }
        if !Distinct(categoryIds) {
          return Err(UniqueViolation);
        }
        var row :- db.Rows().FindProfile(p);
        db.profiles := db.profiles[p := row.(status := ProfileComplete, categories := ToSet(categoryIds))];
        return Ok(());
      }
      if !Distinct(categoryIds) {
        return Err(UniqueViolation);
      }
      answer := InsertProfile(newId, Profile(user, ProfileComplete, None, None, ToSet(categoryIds)));
    }

    method UpdateProfile(seen: Store, user: Id, categoryIds: seq<Id>) returns (answer: Result<(), Error>)
      modifies db
      ensures Did(Marketplace.UpdateProfile(seen, old(db.Rows()), user, categoryIds), old(db.Rows()), db.Rows(), answer)
    {
      var p :- seen.FindProfileId(user);
      var row :- db.Rows().FindProfile(p);
      if categoryIds != [] {
        if !Distinct(categoryIds) {
          return Err(UniqueViolation);
        }
        db.profiles := db.profiles[p := row.(categories := ToSet(categoryIds))];
      }
      return Ok(());
    }

    method UploadDocument(seen: Store, user: Id, newId: Id) returns (answer: Result<(), Error>)
      modifies db
      ensures Did(Marketplace.UploadDocument(seen, old(db.Rows()), user, newId), old(db.Rows()), db.Rows(), answer)
    {
      var p :- seen.FindProfileId(user);
      if newId in db.documents {
        return Err(UniqueViolation);
      }
      db.documents := db.documents[newId := p];
      return Ok(());
    }

    method DeleteDocument(seen: Store, user: Id, d: Id) returns (answer: Result<(), Error>)
      modifies db
      ensures Did(Marketplace.DeleteDocument(seen, old(db.Rows()), user, d), old(db.Rows()), db.Rows(), answer)
    {
      var p :- seen.FindProfileId(user);
      var profile :- seen.FindProfile(p);
      if profile.status == DocumentsSubmitted {
        return Err(Forbidden);
      }
      if d in db.documents && db.documents[d] == p {
        db.documents := db.documents - {d};
      }
      return Ok(());
    }

    method SubmitDocuments(seenProfile: Store, seenDocuments: Store, user: Id) returns (answer: Result<Profile, Error>)
      modifies db
      ensures Did(Marketplace.SubmitDocuments(seenProfile, seenDocuments, old(db.Rows()), user),
                  old(db.Rows()), db.Rows(), answer)
      ensures answer.Ok? ==>
                var p := seenProfile.profileOf[user];
                p in db.profiles && answer.value == db.profiles[p]
    {
      var p :- seenProfile.FindProfileId(user);
      var profile :- seenProfile.FindProfile(p);
      if profile.status != ProfileComplete && profile.status != Declined {
        return Err(InvalidTransition);
      }
      if !seenDocuments.HasDocument(p) {
        return Err(InvalidTransition);
      }
      answer := WriteVerification(db, p, DocumentsSubmitted, None, None);
    }

    method ApplyToRequest(seenProfile: Store, seenRequest: Store, seenCategory: Store, seenApplication: Store,
                          user: Id, r: Id, newId: Id)
      returns (answer: Result<Application, Error>)
      modifies db
      ensures Did(Marketplace.ApplyToRequest(seenProfile, seenRequest, seenCategory, seenApplication,
                                             old(db.Rows()), user, r, newId),
                  old(db.Rows()), db.Rows(), answer)
      ensures answer.Ok? ==>
                && user in seenProfile.profileOf
                && var k := (r, seenProfile.profileOf[user]);
                   var a := if k in seenApplication.applicationOf then seenApplication.applicationOf[k] else newId;
                   a in db.applications && answer.value == db.applications[a] && answer.value.status == Pending
    {
      var p :- seenProfile.FindProfileId(user);
      if p !in seenProfile.profiles || seenProfile.profiles[p].status != Verified {
        return Err(HandymanNotVerified);
      }
      var request :- seenRequest.FindRequest(r);
      if request.status != Open {
        return Err(RequestNotOpen);
      }
      if !seenCategory.Serves(p, request.category) {
        return Err(CategoryNotServiced);
      }
      if (r, p) in seenApplication.applicationOf {
        var a := seenApplication.applicationOf[(r, p)];
        if a in seenApplication.applications && seenApplication.applications[a].status !in {Withdrawn, Rejected} {
          return Err(DuplicateApplication);
        }
        if r !in db.requests || db.requests[r].status != Open {
          return Err(RequestNotOpen);
        }
        OnlyItself(db.applications, a, {Withdrawn, Rejected}, Pending);
        var count := db.UpdateApplications(ById(a, {Withdrawn, Rejected}), Pending);
        if count == 0 {
          return Err(DuplicateApplication);
        }
        return Ok(db.applications[a]);
      }
      if r !in db.requests || db.requests[r].status != Open {
        return Err(RequestNotOpen);
      }
      var ok := db.CreateApplication(newId, r, p);
      if !ok {
        return Err(UniqueViolation);
      }
      return Ok(db.applications[newId]);
    }

    method WithdrawApplication(seenProfile: Store, seenApplication: Store, user: Id, a: Id)
      returns (answer: Result<Application, Error>)
      modifies db
      ensures Did(Marketplace.WithdrawApplication(seenProfile, seenApplication, old(db.Rows()), user, a),
                  old(db.Rows()), db.Rows(), answer)
      ensures answer.Ok? ==> a in db.applications && answer.value == db.applications[a]
    {
      var p :- seenProfile.FindProfileId(user);
      var application :- seenApplication.FindApplication(a);
      if application.handyman != p {
        return Err(NotFound);
      }
      OnlyItself(db.applications, a, {Pending}, Withdrawn);
      var count := db.UpdateApplications(ById(a, {Pending}), Withdrawn);
      if count == 0 {
        return Err(ApplicationNotWithdrawable);
      }
      return Ok(db.applications[a]);
    }

    method StartRequest(seenProfile: Store, seenRequest: Store, user: Id, r: Id) returns (answer: Result<Request, Error>)
      modifies db
      ensures Did(Marketplace.StartRequest(seenProfile, seenRequest, old(db.Rows()), user, r),
                  old(db.Rows()), db.Rows(), answer)
      ensures answer.Ok? ==> r in db.requests && answer.value == db.requests[r]
    {
      var _ :- FindAssignment(seenProfile, seenRequest, user, r, Assigned);
      var count := db.UpdateRequests(r, Assigned, RequestData(InProgress));
      if count == 0 {
        return Err(InvalidTransition);
      }
      return Ok(db.requests[r]);
    }

    method CancelAssignedRequest(seenProfile: Store, seenRequest: Store, user: Id, r: Id)
      returns (answer: Result<Request, Error>)
      modifies db
      ensures Did(Marketplace.CancelAssignedRequest(seenProfile, seenRequest, old(db.Rows()), user, r),
                  old(db.Rows()), db.Rows(), answer)
      ensures answer.Ok? ==> r in db.requests && answer.value == db.requests[r]
    {
      var p :- FindAssignment(seenProfile, seenRequest, user, r, Assigned);
      var count := db.UpdateRequests(r, Assigned, RequestData(Open, assignee := Some(None)));
      if count == 0 {
        return Err(RequestStatusChanged);
      }
      var _ := db.UpdateApplications(OfRequest(r, {Accepted}).(handyman := Some(p)), Withdrawn);
      db.Emit(RequestUnassigned(r, p));
      return Ok(db.requests[r]);
    }

    method CompleteRequest(seenProfile: Store, seenRequest: Store, user: Id, r: Id)
      returns (answer: Result<Request, Error>)
      modifies db
      ensures Did(Marketplace.CompleteRequest(seenProfile, seenRequest, old(db.Rows()), user, r),
                  old(db.Rows()), db.Rows(), answer)
      ensures answer.Ok? ==> r in db.requests && answer.value == db.requests[r]
    {
      var p :- FindAssignment(seenProfile, seenRequest, user, r, InProgress);
      var count := db.UpdateRequests(r, InProgress, RequestData(AwaitingConfirmation));
      if count == 0 {
        return Err(InvalidTransition);
      }
      db.Emit(CompletionSubmitted(r, p));
      return Ok(db.requests[r]);
    }
  }

  /** `updateVerificationStatus`: an absent field is left alone. */
  method WriteVerification(db: Database, p: Id, status: VerificationStatus, reviewer: Option<Id>, verifiedAt: Option<nat>)
    returns (answer: Result<Profile, Error>)
    modifies db
    ensures Did(UpdateVerificationStatus(old(db.Rows()), p, status, reviewer, verifiedAt), old(db.Rows()), db.Rows(), answer)
    ensures answer.Ok? ==> p in db.profiles && answer.value == db.profiles[p]
  {
    var row :- db.Rows().FindProfile(p);
    row := row.(status := status);
    if reviewer.Some? {
      row := row.(reviewedBy := reviewer);
    }
    if verifiedAt.Some? {
      row := row.(verifiedAt := verifiedAt);
    }
    db.profiles := db.profiles[p := row];
    return Ok(row);
  }

  class AdminVerificationService {
    const db: Database

    constructor (db: Database)
      ensures this.db == db
    {
      this.db := db;
    }

    method ApproveHandyman(seen: Store, admin: Id, p: Id, now: nat) returns (answer: Result<Profile, Error>)
      modifies db
      ensures Did(Marketplace.ApproveHandyman(seen, old(db.Rows()), admin, p, now), old(db.Rows()), db.Rows(), answer)
      ensures answer.Ok? ==> p in db.profiles && answer.value == db.profiles[p]
    {
      var profile :- seen.FindProfile(p);
      if profile.status != DocumentsSubmitted {
        return Err(InvalidTransition);
      }
      answer := WriteVerification(db, p, Verified, Some(admin), Some(now));
    }

    method RejectHandyman(seen: Store, admin: Id, p: Id) returns (answer: Result<Profile, Error>)
      modifies db
      ensures Did(Marketplace.RejectHandyman(seen, old(db.Rows()), admin, p), old(db.Rows()), db.Rows(), answer)
      ensures answer.Ok? ==> p in db.profiles && answer.value == db.profiles[p]
    {
      var profile :- seen.FindProfile(p);
      if profile.status != DocumentsSubmitted {
        return Err(InvalidTransition);
      }
      answer := WriteVerification(db, p, Declined, Some(admin), None);
    }
  }
}

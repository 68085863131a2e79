/**
 What each endpoint demands of the rows it read and of the rows it finds, what it
 refuses with which error, and all it changes. With every `seen...` the current
 store these are the answers to a caller who is alone.
 */
module Endpoints {
  import opened Prelude
  import opened Marketplace
  import opened MarketplaceRuns
  import opened RoundTrips
  import opened Verification

  // ---------------------------------------------------------------- customer

  lemma CreateExactly(s: Store, user: Id, category: Id, newId: Id)
    ensures CreateRequest(s, user, category, newId)
         == if newId in s.requests then Err(UniqueViolation)
            else Ok(s.(requests := s.requests[newId := Request(user, category, Open, None, None, None)],
                       events := s.events + [RequestCreated(newId)]))
  {
  }

  /** The customer's own request, as far as the read shows. */
  predicate Owns(seen: Store, user: Id, r: Id) {
    r in seen.requests && seen.requests[r].customer == user
  }

  lemma CancelAnswers(seen: Store, s: Store, user: Id, r: Id, now: nat)
    ensures var outcome := CancelRequest(seen, s, user, r, now);
            && (outcome.Ok? <==> Owns(seen, user, r) && seen.requests[r].status in {Open, Assigned}
                                 && s.RequestIs(r, seen.requests[r].status))
            && (outcome.Ok? ==>
                  var t := outcome.value;
                  && t == s.(requests := t.requests, applications := t.applications, events := t.events)
                  && t.requests == s.requests[r := s.requests[r].(status := Cancelled, cancelledAt := Some(now))]
                  && t.events == s.events + [RequestCancelled(r, s.requests[r].assignee)])
            && (outcome.Err? ==>
                  outcome.error == if r !in seen.requests then NotFound
                                   else if seen.requests[r].customer == user && seen.requests[r].status in {Open, Assigned}
                                   then RequestStatusChanged else Forbidden)
  {
  }

  lemma AcceptAnswers(seenRequest: Store, seenApplication: Store, s: Store, user: Id, r: Id, a: Id)
    ensures var outcome := AcceptApplication(seenRequest, seenApplication, s, user, r, a);
            && (outcome.Ok? <==> Owns(seenRequest, user, r) && seenRequest.requests[r].status == Open
                                 && IsPending(seenApplication, r, a)
                                 && s.RequestIs(r, Open) && a in s.applications && s.applications[a].status == Pending)
            && (outcome.Ok? ==>
                  var t, h := outcome.value, seenApplication.applications[a].handyman;
                  && t == s.(requests := t.requests, applications := t.applications, events := t.events)
                  && t.requests == s.requests[r := s.requests[r].(status := Assigned, assignee := Some(h))]
                  && t.events == s.events + [RequestAssigned(r, h)])
            && (outcome.Err? ==>
                  outcome.error == if r !in seenRequest.requests then NotFound
                                   else if seenRequest.requests[r].customer != user then Forbidden
                                   else if seenRequest.requests[r].status != Open then RequestNotOpen
                                   else if a !in seenApplication.applications || seenApplication.applications[a].request != r then NotFound
                                   else if !IsPending(seenApplication, r, a) then ApplicationNotPending
                                   else if !s.RequestIs(r, Open) then RequestNotOpen else ApplicationNotPending)
  {
    SelectedById(s.applications, a, {Pending});
  }

  /** Rejecting changes the one application, and only while it is PENDING. */
  lemma RejectAnswers(seenRequest: Store, seenApplication: Store, s: Store, user: Id, r: Id, a: Id)
    ensures var outcome := Marketplace.RejectApplication(seenRequest, seenApplication, s, user, r, a);
            && (outcome.Ok? <==> Owns(seenRequest, user, r) && seenRequest.requests[r].status == Open
                                 && IsPending(seenApplication, r, a) && a in s.applications && s.applications[a].status == Pending)
            && (outcome.Ok? ==>
                  outcome.value == s.(applications := s.applications[a := s.applications[a].(status := Rejected)]))
            && (outcome.Err? ==>
                  outcome.error == if r !in seenRequest.requests then NotFound
                                   else if seenRequest.requests[r].customer != user then Forbidden
                                   else if a !in seenApplication.applications || seenApplication.applications[a].request != r then NotFound
                                   else if seenRequest.requests[r].status != Open then RequestNotOpen
                                   else ApplicationNotPending)
  {
    SelectedById(s.applications, a, {Pending});
    MarksOne(s.applications, a, {Pending}, Rejected);
  }

  lemma MarksOne(rows: Applications, a: Id, statusIn: set<ApplicationStatus>, status: ApplicationStatus)
    ensures a in rows && rows[a].status in statusIn ==>
              UpdateMany(rows, ById(a, statusIn), status) == rows[a := rows[a].(status := status)]
  {
  }

  lemma ConfirmAnswers(seen: Store, s: Store, user: Id, r: Id, now: nat)
    ensures var outcome := ConfirmCompletion(seen, s, user, r, now);
            && (outcome.Ok? <==> Owns(seen, user, r) && seen.requests[r].status == AwaitingConfirmation
                                 && s.RequestIs(r, AwaitingConfirmation))
            && (outcome.Ok? ==>
                  outcome.value == s.(requests := s.requests[r := s.requests[r].(status := Completed, completedAt := Some(now))],
                                      events := s.events + [RequestCompleted(r, seen.requests[r].assignee)]))
            && (outcome.Err? ==> outcome.error == if r !in seen.requests then NotFound else Forbidden)
  {
  }

  /** Alone: exactly the request's customer confirms, exactly while confirmation is awaited. */
  lemma ConfirmExactly(s: Store, user: Id, r: Id, now: nat)
    ensures ConfirmCompletion(s, s, user, r, now).Ok? <==> s.RequestIs(r, AwaitingConfirmation) && s.requests[r].customer == user
  {
  }

  // ---------------------------------------------------------------- handyman

  predicate SeenClosed(seen: Store, k: (Id, Id)) {
    k in seen.applicationOf && seen.applicationOf[k] in seen.applications ==>
      seen.applications[seen.applicationOf[k]].status in {Withdrawn, Rejected}
  }

  lemma ApplyAnswers(seenProfile: Store, seenRequest: Store, seenCategory: Store, seenApplication: Store,
                     s: Store, user: Id, r: Id, newId: Id)
    ensures var outcome := ApplyToRequest(seenProfile, seenRequest, seenCategory, seenApplication, s, user, r, newId);
            if user !in seenProfile.profileOf then outcome == Err(ProfileNotFound)
            else
              var p := seenProfile.profileOf[user]; var k := (r, p);
              if !IsVerified(seenProfile, p) then outcome == Err(HandymanNotVerified)
              else if r !in seenRequest.requests then outcome == Err(NotFound)
              else if seenRequest.requests[r].status != Open then outcome == Err(RequestNotOpen)
              else if p !in seenCategory.profiles || seenRequest.requests[r].category !in seenCategory.profiles[p].categories then
                outcome == Err(CategoryNotServiced)
              else if !SeenClosed(seenApplication, k) then outcome == Err(DuplicateApplication)
              else if !s.RequestIs(r, Open) then outcome == Err(RequestNotOpen)
              else if k in seenApplication.applicationOf then
                var a := seenApplication.applicationOf[k];
                outcome == if a in s.applications && s.applications[a].status in {Withdrawn, Rejected}
                           then Ok(s.(applications := s.applications[a := s.applications[a].(status := Pending)]))
                           else Err(DuplicateApplication)
              else
                outcome == if k in s.applicationOf || newId in s.applications then Err(UniqueViolation)
                           else Ok(s.(applications := s.applications[newId := Application(r, p, Pending)],
                                      applicationOf := s.applicationOf[k := newId]))
  {
    if user in seenProfile.profileOf && (r, seenProfile.profileOf[user]) in seenApplication.applicationOf {
      var a := seenApplication.applicationOf[(r, seenProfile.profileOf[user])];
      SelectedById(s.applications, a, {Withdrawn, Rejected});
      MarksOne(s.applications, a, {Withdrawn, Rejected}, Pending);
    }
  }

  /** Only a verified handyman who services the category applies, to an open request, with no application there that is pending or accepted. */
  lemma ApplyExactly(s: Store, user: Id, r: Id, newId: Id)
    ensures ApplyToRequest(s, s, s, s, s, user, r, newId).Ok? <==>
              && user in s.profileOf && s.profileOf[user] in s.profiles && r in s.requests
              && var p := s.profileOf[user];
              && s.profiles[p].status == Verified && s.requests[r].category in s.profiles[p].categories
              && s.requests[r].status == Open
              && if (r, p) in s.applicationOf
                 then s.applicationOf[(r, p)] in s.applications
                      && s.applications[s.applicationOf[(r, p)]].status in {Withdrawn, Rejected}
                 else newId !in s.applications
  {
    ApplyAnswers(s, s, s, s, s, user, r, newId);
  }

  lemma WithdrawAnswers(seenProfile: Store, seenApplication: Store, s: Store, user: Id, a: Id)
    ensures WithdrawApplication(seenProfile, seenApplication, s, user, a)
         == if user !in seenProfile.profileOf then Err(ProfileNotFound)
            else if a !in seenApplication.applications || seenApplication.applications[a].handyman != seenProfile.profileOf[user]
            then Err(NotFound)
            else if a in s.applications && s.applications[a].status == Pending
            then Ok(s.(applications := s.applications[a := s.applications[a].(status := Withdrawn)]))
            else Err(ApplicationNotWithdrawable)
  {
    SelectedById(s.applications, a, {Pending});
    MarksOne(s.applications, a, {Pending}, Withdrawn);
  }

  /** The request is in the status, under the caller's profile, as far as the reads show. */
  predicate Holds(seenProfile: Store, seenRequest: Store, user: Id, r: Id, status: RequestStatus) {
    && user in seenProfile.profileOf && seenRequest.RequestIs(r, status)
    && seenRequest.requests[r].assignee == Some(seenProfile.profileOf[user])
  }

  /** What a handyman who does not hold the request in that status is told. */
  function NotHeld(seenProfile: Store, seenRequest: Store, user: Id, r: Id): Error {
    if user !in seenProfile.profileOf then ProfileNotFound
    else if r !in seenRequest.requests || seenRequest.requests[r].assignee != Some(seenProfile.profileOf[user]) then NotFound
    else InvalidTransition
  }

  lemma StartAnswers(seenProfile: Store, seenRequest: Store, s: Store, user: Id, r: Id)
    ensures StartRequest(seenProfile, seenRequest, s, user, r)
         == if !Holds(seenProfile, seenRequest, user, r, Assigned) then Err(NotHeld(seenProfile, seenRequest, user, r))
            else if !s.RequestIs(r, Assigned) then Err(InvalidTransition)
            else Ok(s.(requests := s.requests[r := s.requests[r].(status := InProgress)]))
  {
  }

  lemma CancelAssignedAnswers(seenProfile: Store, seenRequest: Store, s: Store, user: Id, r: Id)
    ensures var outcome := CancelAssignedRequest(seenProfile, seenRequest, s, user, r);
            if !Holds(seenProfile, seenRequest, user, r, Assigned) then outcome == Err(NotHeld(seenProfile, seenRequest, user, r))
            else if !s.RequestIs(r, Assigned) then outcome == Err(RequestStatusChanged)
            else
              && outcome.Ok?
              && var t, p := outcome.value, seenProfile.profileOf[user];
                 && t == s.(requests := t.requests, applications := t.applications, events := t.events)
                 && t.requests == s.requests[r := s.requests[r].(status := Open, assignee := None)]
                 && t.events == s.events + [RequestUnassigned(r, p)]
                 && t.applications.Keys == s.applications.Keys
                 && forall a :: a in s.applications ==>
                      t.applications[a] == if s.applications[a] == Application(r, p, Accepted)
                                           then Application(r, p, Withdrawn) else s.applications[a]
  {
  }

  lemma CompleteAnswers(seenProfile: Store, seenRequest: Store, s: Store, user: Id, r: Id)
    ensures CompleteRequest(seenProfile, seenRequest, s, user, r)
         == if !Holds(seenProfile, seenRequest, user, r, InProgress) then Err(NotHeld(seenProfile, seenRequest, user, r))
            else if !s.RequestIs(r, InProgress) then Err(InvalidTransition)
            else Ok(s.(requests := s.requests[r := s.requests[r].(status := AwaitingConfirmation)],
                       events := s.events + [CompletionSubmitted(r, seenProfile.profileOf[user])]))
  {
  }

  // ------------------------------------------------------------ verification

  /** A user who has a profile by the commit keeps it; otherwise an UNVERIFIED one is there. */
  lemma EnsureAnswers(seen: Store, s: Store, user: Id, newId: Id)
    ensures EnsureProfile(seen, s, user, newId)
         == if user in seen.profileOf || user in s.profileOf then Ok(s)
            else if newId in s.profiles then Err(UniqueViolation)
            else Ok(s.(profiles := s.profiles[newId := Profile(user, Unverified, None, None, {})],
                       profileOf := s.profileOf[user := newId]))
  {
  }

  /** Alone: a user without a profile gets a complete one, one with an UNVERIFIED profile has it completed, in the categories named. */
  lemma CompleteProfileExactly(s: Store, user: Id, newId: Id, categoryIds: seq<Id>)
    requires ProfilesLinked(s)
    ensures var outcome := CompleteProfile(s, s, user, newId, categoryIds);
            && (outcome.Ok? <==> categoryIds != [] && Distinct(categoryIds)
                                 && if user in s.profileOf then s.profiles[s.profileOf[user]].status == Unverified
                                    else newId !in s.profiles)
            && (outcome.Ok? ==>
                  var t := outcome.value; var p := if user in s.profileOf then s.profileOf[user] else newId;
                  && t == s.(profiles := s.profiles[p := t.profiles[p]], profileOf := s.profileOf[user := p])
                  && t.profiles[p].user == user && t.profiles[p].status == ProfileComplete
                  && (forall c :: c in t.profiles[p].categories <==> c in categoryIds)
                  && (user in s.profileOf ==> t.profiles[p].verifiedAt == s.profiles[p].verifiedAt
                                              && t.profiles[p].reviewedBy == s.profiles[p].reviewedBy)
                  && (user !in s.profileOf ==> t.profiles[p].verifiedAt == None && t.profiles[p].reviewedBy == None))
            && (outcome.Err? ==>
                  outcome.error == if categoryIds == [] then BadRequest
                                   else if user in s.profileOf && s.profiles[s.profileOf[user]].status != Unverified
                                   then InvalidTransition else UniqueViolation)
  {
    if user in s.profileOf {
      assert s.profileOf[user := s.profileOf[user]] == s.profileOf;
    }
  }

  /** However stale the read, an existing profile is completed only if it was read UNVERIFIED. */
  lemma CompleteProfileSaw(seen: Store, s: Store, user: Id, newId: Id, categoryIds: seq<Id>)
    requires CompleteProfile(seen, s, user, newId, categoryIds).Ok?
    ensures if user in seen.profileOf
            then seen.profileOf[user] in seen.profiles && seen.profiles[seen.profileOf[user]].status == Unverified
                 && seen.profileOf[user] in s.profiles
            else newId !in s.profiles && user !in s.profileOf
  {
  }

  lemma UpdateProfileAnswers(seen: Store, s: Store, user: Id, categoryIds: seq<Id>)
    ensures var outcome := UpdateProfile(seen, s, user, categoryIds);
            if user !in seen.profileOf then outcome == Err(ProfileNotFound)
            else
              var p := seen.profileOf[user];
              if p !in s.profiles then outcome == Err(NotFound)
              else if categoryIds == [] then outcome == Ok(s)
              else if !Distinct(categoryIds) then outcome == Err(UniqueViolation)
              else
                && outcome.Ok?
                && var t := outcome.value;
                   && t == s.(profiles := s.profiles[p := s.profiles[p].(categories := t.profiles[p].categories)])
                   && forall c :: c in t.profiles[p].categories <==> c in categoryIds
  {
  }

  lemma UploadAnswers(seen: Store, s: Store, user: Id, newId: Id)
    ensures UploadDocument(seen, s, user, newId)
         == if user !in seen.profileOf then Err(ProfileNotFound)
            else if newId in s.documents then Err(UniqueViolation)
            else Ok(s.(documents := s.documents[newId := seen.profileOf[user]]))
  {
  }

  lemma DeleteAnswers(seen: Store, s: Store, user: Id, d: Id)
    ensures DeleteDocument(seen, s, user, d)
         == if user !in seen.profileOf then Err(ProfileNotFound)
            else
              var p := seen.profileOf[user];
              if p !in seen.profiles then Err(NotFound)
              else if seen.profiles[p].status == DocumentsSubmitted then Err(Forbidden)
              else Ok(if d in s.documents && s.documents[d] == p then s.(documents := s.documents - {d}) else s)
  {
  }

  /** Alone: exactly a PROFILE_COMPLETE or REJECTED profile with a document can be submitted, the second as often as it is rejected. */
  lemma SubmitExactly(s: Store, user: Id)
    ensures SubmitDocuments(s, s, s, user).Ok? <==>
              && user in s.profileOf && s.profileOf[user] in s.profiles
              && s.profiles[s.profileOf[user]].status in {ProfileComplete, Declined}
              && s.HasDocument(s.profileOf[user])
  {
  }

  lemma SubmitAnswers(seenProfile: Store, seenDocuments: Store, s: Store, user: Id)
    ensures var outcome := SubmitDocuments(seenProfile, seenDocuments, s, user);
            if user !in seenProfile.profileOf then outcome == Err(ProfileNotFound)
            else
              var p := seenProfile.profileOf[user];
              if p !in seenProfile.profiles then outcome == Err(NotFound)
              else if seenProfile.profiles[p].status !in {ProfileComplete, Declined} then outcome == Err(InvalidTransition)
              else if !seenDocuments.HasDocument(p) then outcome == Err(InvalidTransition)
              else if p !in s.profiles then outcome == Err(NotFound)
              else outcome == Ok(s.(profiles := s.profiles[p := s.profiles[p].(status := DocumentsSubmitted)]))
  {
  }

  /** Approval marks reviewer and time, rejection the reviewer alone; both only what was read as submitted. */
  lemma ReviewAnswers(seen: Store, s: Store, admin: Id, p: Id, now: nat)
    ensures ApproveHandyman(seen, s, admin, p, now)
         == if p !in seen.profiles then Err(NotFound)
            else if seen.profiles[p].status != DocumentsSubmitted then Err(InvalidTransition)
            else if p !in s.profiles then Err(NotFound)
            else Ok(s.(profiles := s.profiles[p := s.profiles[p].(status := Verified, reviewedBy := Some(admin), verifiedAt := Some(now))]))
    ensures Marketplace.RejectHandyman(seen, s, admin, p)
         == if p !in seen.profiles then Err(NotFound)
            else if seen.profiles[p].status != DocumentsSubmitted then Err(InvalidTransition)
            else if p !in s.profiles then Err(NotFound)
            else Ok(s.(profiles := s.profiles[p := s.profiles[p].(status := Declined, reviewedBy := Some(admin))]))
  {
  }

  // ------------------------------------------------------------ a second chance

  /** Alone: a rejected profile with a document can be submitted again, and then approved. */
  lemma RejectedMayTryAgain(s: Store, user: Id, p: Id, admin: Id, now: nat)
    requires user in s.profileOf && s.profileOf[user] == p
    requires p in s.profiles && s.profiles[p].status == Declined && s.HasDocument(p)
    ensures SubmitDocuments(s, s, s, user).Ok?
    ensures var t := SubmitDocuments(s, s, s, user).value;
            && ApproveHandyman(t, t, admin, p, now).Ok?
            && ApproveHandyman(t, t, admin, p, now).value.profiles[p]
               == s.profiles[p].(status := Verified, reviewedBy := Some(admin), verifiedAt := Some(now))
  {
    SubmitAnswers(s, s, s, user);
    var t := SubmitDocuments(s, s, s, user).value;
    ReviewAnswers(t, t, admin, p, now);
  }
}

/** Whatever a call of any run changes is its caller's, however stale the rows it read. */
module Ownership {
  import opened Prelude
  import opened Histories
  import opened Marketplace
  import opened MarketplaceRuns
  import opened RunInduction
  import opened Endpoints
  import opened Transitions
  import opened Verification

  predicate ByCustomer(call: Call) {
    call.Cancel? || call.Accept? || call.Reject? || call.Confirm?
  }

  /** The profile is the user's. */
  predicate IsOf(s: Store, p: Id, user: Id) {
    p in s.profiles && s.profiles[p].user == user
  }

  // ------------------------------------------------------------------- requests

  /** A request is written by its customer, or by a handyman who held it when they read it. */
  predicate OwnRequest(h: History, call: Call, r: Id, after: Request) {
    match call
    case Create(u, _, _) => after.customer == u
    case Cancel(u, _, _, _) => after.customer == u
    case Accept(u, _, _, _, _) => after.customer == u
    case Confirm(u, _, _, _) => after.customer == u
    case Start(u, _, pa, ra) => Endpoints.Holds(View(h, pa), View(h, ra), u, r, Assigned)
    case CancelAssigned(u, _, pa, ra) => Endpoints.Holds(View(h, pa), View(h, ra), u, r, Assigned)
    case Complete(u, _, pa, ra) => Endpoints.Holds(View(h, pa), View(h, ra), u, r, InProgress)
    case _ => false
  }

  ghost predicate RequestsOwn(h: History, t: Store, call: Call) {
    forall r :: r in t.requests && (r !in Now(h).requests || t.requests[r] != Now(h).requests[r]) ==>
      OwnRequest(h, call, r, t.requests[r])
  }

  lemma OwnsThen(seen: Store, s: Store, user: Id, r: Id)
    requires Evolves(seen, s) && Owns(seen, user, r)
    ensures r in s.requests && s.requests[r].customer == user
  {
  }

  /** However stale the read, only the request's customer cancels, accepts, rejects and confirms. */
  lemma CustomerOwns(h: History, call: Call)
    requires SoundHistory(h) && ByCustomer(call) && Outcome(h, call).Ok?
    ensures call.request in Now(h).requests && Now(h).requests[call.request].customer == call.user
  {
    CustomerSaw(h, call);
    OwnsThen(View(h, call.requestAge), Now(h), call.user, call.request);
  }

  lemma CustomerSaw(h: History, call: Call)
    requires ByCustomer(call) && Outcome(h, call).Ok?
    ensures Owns(View(h, call.requestAge), call.user, call.request)
  {
    match call
    case Cancel(u, r, ra, now) => CancelAnswers(View(h, ra), Now(h), u, r, now);
    case Accept(u, r, a, ra, aa) => AcceptAnswers(View(h, ra), View(h, aa), Now(h), u, r, a);
    case Reject(u, r, a, ra, aa) => RejectAnswers(View(h, ra), View(h, aa), Now(h), u, r, a);
    case Confirm(u, r, ra, now) => ConfirmAnswers(View(h, ra), Now(h), u, r, now);
  }

  lemma HandymanHeld(h: History, call: Call)
    requires Outcome(h, call).Ok? && (call.Start? || call.CancelAssigned? || call.Complete?)
    ensures Endpoints.Holds(View(h, call.profileAge), View(h, call.requestAge), call.user, call.request,
                            if call.Complete? then InProgress else Assigned)
  {
    match call
    case Start(u, r, pa, ra) => StartAnswers(View(h, pa), View(h, ra), Now(h), u, r);
    case CancelAssigned(u, r, pa, ra) => CancelAssignedAnswers(View(h, pa), View(h, ra), Now(h), u, r);
    case Complete(u, r, pa, ra) => CompleteAnswers(View(h, pa), View(h, ra), Now(h), u, r);
  }

  lemma CreatesOwn(h: History, call: Call)
    requires call.Create? && Outcome(h, call).Ok?
    ensures RequestsOwn(h, Next(h, call), call)
  {
    CreateExactly(Now(h), call.user, call.category, call.newId);
  }

  lemma RequestsAreOwn(h: History, call: Call)
    requires SoundHistory(h) && Outcome(h, call).Ok?
    ensures RequestsOwn(h, Next(h, call), call)
  {
    var s, t := Now(h), Next(h, call);
    if call.Create? {
      CreatesOwn(h, call);
    } else {
      StepIsLegal(h, call);
      StepKeeps(h, call);
      forall r | r in t.requests && (r !in s.requests || t.requests[r] != s.requests[r])
        ensures OwnRequest(h, call, r, t.requests[r])
      {
        assert RequestStep(call, r, s.requests[r], t.requests[r]);
        assert Follows(s.requests[r], t.requests[r]);
        if ByCustomer(call) {
          CustomerOwns(h, call);
        } else {
          HandymanHeld(h, call);
        }
      }
    }
  }

  // --------------------------------------------------------------- applications

  /** An application is written by the customer of its request, or by its handyman. */
  predicate OwnApplication(t: Store, call: Call, row: Application) {
    if ByCustomer(call) then row.request in t.requests && t.requests[row.request].customer == call.user
    else (call.Apply? || call.Withdraw? || call.CancelAssigned?) && IsOf(t, row.handyman, call.user)
  }

  ghost predicate ApplicationsOwn(s: Store, t: Store, call: Call) {
    forall a :: a in t.applications && (a !in s.applications || t.applications[a] != s.applications[a]) ==>
      OwnApplication(t, call, t.applications[a])
  }

  /** The profile read as the caller's is theirs for good. */
  lemma CallersProfile(seen: Store, s: Store, user: Id)
    requires Linked(s) && Evolves(seen, s) && user in seen.profileOf
    ensures IsOf(s, seen.profileOf[user], user)
  {
  }

  lemma MovedByCustomer(h: History, call: Call, a: Id, row: Application, to: ApplicationStatus)
    requires ByCustomer(call) && ApplicationMove(call, Caller(h, call), a, row, to)
    ensures row.request == call.request
  {
  }

  lemma MovedByHandyman(h: History, call: Call, a: Id, row: Application, to: ApplicationStatus)
    requires !ByCustomer(call) && ApplicationMove(call, Caller(h, call), a, row, to)
    ensures (call.Apply? || call.Withdraw? || call.CancelAssigned?) && Caller(h, call) == Some(row.handyman)
  {
  }

  lemma ApplicationsAreOwn(h: History, call: Call)
    requires SoundHistory(h) && Outcome(h, call).Ok?
    ensures ApplicationsOwn(Now(h), Next(h, call), call)
  {
    var s, t := Now(h), Next(h, call);
    StepIsLegal(h, call);
    StepKeeps(h, call);
    forall a | a in t.applications && (a !in s.applications || t.applications[a] != s.applications[a])
      ensures OwnApplication(t, call, t.applications[a])
    {
      OneIsOwn(h, call, a);
    }
  }

  lemma OneIsOwn(h: History, call: Call, a: Id)
    requires SoundHistory(h) && Outcome(h, call).Ok? && a in Next(h, call).applications
    requires ApplicationsStep(Now(h), Next(h, call), call, Caller(h, call)) && Keeps(Now(h), Next(h, call))
    requires a !in Now(h).applications || Next(h, call).applications[a] != Now(h).applications[a]
    ensures OwnApplication(Next(h, call), call, Next(h, call).applications[a])
  {
    var s, t := Now(h), Next(h, call);
    if a in s.applications {
      assert ApplicationStep(call, Caller(h, call), a, s.applications[a], t.applications[a]);
      if ByCustomer(call) {
        MovedByCustomer(h, call, a, s.applications[a], t.applications[a].status);
        CustomerOwns(h, call);
        OwnsThen(s, t, call.user, call.request);
      } else {
        MovedByHandyman(h, call, a, s.applications[a], t.applications[a].status);
        CallerIsOf(h, call, t);
      }
    } else {
      CallerIsOf(h, call, t);
    }
  }

  lemma CallerIsOf(h: History, call: Call, t: Store)
    requires SoundHistory(h) && Caller(h, call).Some? && Keeps(Now(h), t)
    ensures (call.Apply? || call.Withdraw? || call.CancelAssigned?) && IsOf(t, Caller(h, call).value, call.user)
  {
    EvolvesTransitive(View(h, call.profileAge), Now(h), t);
    CallersProfile(View(h, call.profileAge), t, call.user);
  }

  // ------------------------------------------------------- profiles and documents

  /** A profile is written by its user, or by an admin who names it. */
  predicate OwnProfile(call: Call, p: Id, row: Profile) {
    match call
    case OpenProfile(u, _, _) => row.user == u
    case FillProfile(u, _, _, _) => row.user == u
    case EditProfile(u, _, _) => row.user == u
    case Submit(u, _, _) => row.user == u
    case Approve(_, q, _, _) => q == p
    case Decline(_, q, _) => q == p
    case _ => false
  }

  ghost predicate ProfilesOwn(s: Store, t: Store, call: Call) {
    forall p :: p in t.profiles && (p !in s.profiles || t.profiles[p] != s.profiles[p]) ==> OwnProfile(call, p, t.profiles[p])
  }

  lemma FillsOwn(seen: Store, s: Store, user: Id, newId: Id, categoryIds: seq<Id>)
    requires Linked(s) && Evolves(seen, s) && CompleteProfile(seen, s, user, newId, categoryIds).Ok?
    ensures var t := CompleteProfile(seen, s, user, newId, categoryIds).value;
            forall p :: p in t.profiles && (p !in s.profiles || t.profiles[p] != s.profiles[p]) ==> t.profiles[p].user == user
  {
    if user in seen.profileOf {
      CallersProfile(seen, s, user);
    }
  }

  lemma OwnProfileSteps(h: History, call: Call)
    requires SoundHistory(h) && Outcome(h, call).Ok? && (call.OpenProfile? || call.FillProfile? || call.EditProfile?)
    ensures ProfilesOwn(Now(h), Next(h, call), call)
  {
    var s := Now(h);
    var seen := View(h, call.profileAge);
    match call
    case OpenProfile(u, newId, _) => EnsureAnswers(seen, s, u, newId);
    case FillProfile(u, newId, cs, _) => FillsOwn(seen, s, u, newId, cs);
    case EditProfile(u, cs, _) =>
      UpdateProfileAnswers(seen, s, u, cs);
      CallersProfile(seen, s, u);
  }

  lemma SubmitsOwn(seenProfile: Store, seenDocuments: Store, s: Store, user: Id)
    requires Linked(s) && Evolves(seenProfile, s) && SubmitDocuments(seenProfile, seenDocuments, s, user).Ok?
    ensures var t := SubmitDocuments(seenProfile, seenDocuments, s, user).value;
            forall p :: p in t.profiles && (p !in s.profiles || t.profiles[p] != s.profiles[p]) ==> t.profiles[p].user == user
  {
    SubmitAnswers(seenProfile, seenDocuments, s, user);
    CallersProfile(seenProfile, s, user);
  }

  predicate OthersSame(s: Store, t: Store, p: Id) {
    forall q :: q in t.profiles && q != p ==> q in s.profiles && t.profiles[q] == s.profiles[q]
  }

  lemma ReviewsNamed(seen: Store, s: Store, admin: Id, p: Id, now: nat)
    ensures ApproveHandyman(seen, s, admin, p, now).Ok? ==> OthersSame(s, ApproveHandyman(seen, s, admin, p, now).value, p)
    ensures Marketplace.RejectHandyman(seen, s, admin, p).Ok? ==>
              OthersSame(s, Marketplace.RejectHandyman(seen, s, admin, p).value, p)
  {
    ReviewAnswers(seen, s, admin, p, now);
  }

  lemma ReviewSteps(h: History, call: Call)
    requires SoundHistory(h) && Outcome(h, call).Ok? && (call.Submit? || call.Approve? || call.Decline?)
    ensures ProfilesOwn(Now(h), Next(h, call), call)
  {
    var s := Now(h);
    match call
    case Submit(u, pa, da) => SubmitsOwn(View(h, pa), View(h, da), s, u);
    case Approve(admin, p, pa, now) => ReviewsNamed(View(h, pa), s, admin, p, now);
    case Decline(admin, p, pa) => ReviewsNamed(View(h, pa), s, admin, p, 0);
  }

  lemma ProfilesAreOwn(h: History, call: Call)
    requires SoundHistory(h) && Outcome(h, call).Ok?
    ensures ProfilesOwn(Now(h), Next(h, call), call)
  {
    if call.OpenProfile? || call.FillProfile? || call.EditProfile? {
      OwnProfileSteps(h, call);
    } else if call.Submit? || call.Approve? || call.Decline? {
      ReviewSteps(h, call);
    } else {
      LeavesProfiles(h, call);
    }
  }

  /** A document is filed under its uploader's profile and removed only by the user of its own. */
  ghost predicate DocumentsOwn(s: Store, t: Store, call: Call) {
    && (forall d :: d in t.documents && (d !in s.documents || t.documents[d] != s.documents[d]) ==>
          call.Upload? && d == call.newId && IsOf(t, t.documents[d], call.user))
    && (forall d :: d in s.documents && d !in t.documents ==>
          call.Delete? && d == call.document && IsOf(s, s.documents[d], call.user))
  }

  lemma DocumentsAreOwn(h: History, call: Call)
    requires SoundHistory(h) && Outcome(h, call).Ok?
    ensures DocumentsOwn(Now(h), Next(h, call), call)
  {
    if call.Upload? {
      UploadAnswers(View(h, call.profileAge), Now(h), call.user, call.newId);
      CallersProfile(View(h, call.profileAge), Now(h), call.user);
    } else if call.Delete? {
      DeleteAnswers(View(h, call.profileAge), Now(h), call.user, call.document);
      CallersProfile(View(h, call.profileAge), Now(h), call.user);
    } else {
      LeavesDocuments(h, call);
    }
  }

  lemma LeavesDocuments(h: History, call: Call)
    requires SoundHistory(h) && Outcome(h, call).Ok? && !call.Upload? && !call.Delete?
    ensures Next(h, call).documents == Now(h).documents
  {
    if call.OpenProfile? || call.FillProfile? || call.EditProfile? {
      OwnProfileLeavesDocuments(h, call);
    } else if call.Submit? || call.Approve? || call.Decline? {
      ReviewLeavesDocuments(h, call);
    } else {
      LifecycleLeavesProfiles(h, call);
    }
  }

  lemma OwnProfileLeavesDocuments(h: History, call: Call)
    requires Outcome(h, call).Ok? && (call.OpenProfile? || call.FillProfile? || call.EditProfile?)
    ensures Next(h, call).documents == Now(h).documents
  {
    match call
    case OpenProfile(u, newId, pa) => OpenWrites(View(h, pa), Now(h), u, newId);
    case FillProfile(u, newId, cs, pa) => FillWrites(View(h, pa), Now(h), u, newId, cs);
    case EditProfile(u, cs, pa) => EditWrites(View(h, pa), Now(h), u, cs);
  }

  lemma ReviewLeavesDocuments(h: History, call: Call)
    requires Outcome(h, call).Ok? && (call.Submit? || call.Approve? || call.Decline?)
    ensures Next(h, call).documents == Now(h).documents
  {
    match call
    case Submit(u, pa, da) => SubmitMarks(View(h, pa), View(h, da), Now(h), u);
    case Approve(admin, p, pa, now) => ApproveMarks(View(h, pa), Now(h), admin, p, now);
    case Decline(admin, p, pa) => DeclineMarks(View(h, pa), Now(h), admin, p);
  }

  // ---------------------------------------------------------------------- all of it

  ghost predicate TouchesOwn(h: History, t: Store, call: Call) {
    && RequestsOwn(h, t, call)
    && ApplicationsOwn(Now(h), t, call)
    && ProfilesOwn(Now(h), t, call)
    && DocumentsOwn(Now(h), t, call)
  }

  lemma {:induction false} EveryoneTouchesTheirOwn(calls: seq<Call>, call: Call)
    ensures TouchesOwn(Run(calls), Next(Run(calls), call), call)
  {
    RunIsSound(calls);
    var h := Run(calls);
    if Outcome(h, call).Ok? {
      RequestsAreOwn(h, call);
      ApplicationsAreOwn(h, call);
      ProfilesAreOwn(h, call);
      DocumentsAreOwn(h, call);
    }
  }

  /** In particular, over every run and however stale the read, no one but the customer confirms. */
  lemma {:induction false} OnlyTheCustomerConfirms(calls: seq<Call>, user: Id, r: Id, requestAge: nat, now: nat)
    requires Outcome(Run(calls), Confirm(user, r, requestAge, now)).Ok?
    ensures r in Now(Run(calls)).requests && Now(Run(calls)).requests[r].customer == user
  {
    RunIsSound(calls);
    CustomerOwns(Run(calls), Confirm(user, r, requestAge, now));
  }

  /** In every run a rejected profile with a document can be submitted again and then approved. */
  lemma {:induction false} RejectedIsNotFinal(calls: seq<Call>, user: Id, p: Id, admin: Id, now: nat)
    requires var s := Now(Run(calls));
             && user in s.profileOf && s.profileOf[user] == p
             && p in s.profiles && s.profiles[p].status == Declined && s.HasDocument(p)
    ensures Outcome(Run(calls), Submit(user, 0, 0)).Ok?
    ensures var again := calls + [Submit(user, 0, 0)];
            && Outcome(Run(again), Approve(admin, p, 0, now)).Ok?
            && IsVerified(Next(Run(again), Approve(admin, p, 0, now)), p)
  {
    RejectedMayTryAgain(Now(Run(calls)), user, p, admin, now);
    RunExtends(calls, Submit(user, 0, 0));
    assert Next(Run(calls), Submit(user, 0, 0)) == Now(Run(calls + [Submit(user, 0, 0)]));
  }
}

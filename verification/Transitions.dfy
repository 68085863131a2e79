/** The only moves there are: which call may take a row from which status to which. */
module Transitions {
  import opened Prelude
  import opened Histories
  import opened Marketplace
  import opened MarketplaceRuns
  import opened RunInduction
  import opened Agreement
  import opened Verification

  /** The six edges of a request's life, each with the call that takes it. */
  predicate RequestMove(call: Call, r: Id, from: RequestStatus, to: RequestStatus) {
    match call
    case Accept(_, q, _, _, _) => q == r && from == Open && to == Assigned
    case CancelAssigned(_, q, _, _) => q == r && from == Assigned && to == Open
    case Start(_, q, _, _) => q == r && from == Assigned && to == InProgress
    case Complete(_, q, _, _) => q == r && from == InProgress && to == AwaitingConfirmation
    case Confirm(_, q, _, _) => q == r && from == AwaitingConfirmation && to == Completed
    case Cancel(_, q, _, _) => q == r && (from == Open || from == Assigned) && to == Cancelled
    case _ => false
  }

  predicate RequestStep(call: Call, r: Id, before: Request, after: Request) {
    after == before || RequestMove(call, r, before.status, after.status)
  }

  ghost predicate RequestsStep(s: Store, t: Store, call: Call) {
    && (forall r :: r in s.requests ==> r in t.requests && RequestStep(call, r, s.requests[r], t.requests[r]))
    && (forall r :: r in t.requests && r !in s.requests ==> call.Create? && r == call.newId && t.requests[r].status == Open)
  }

  /** The profile the call read as its caller's. */
  function Caller(h: History, call: Call): Option<Id> {
    if (call.Apply? || call.Withdraw? || call.CancelAssigned?) && call.user in View(h, call.profileAge).profileOf
    then Some(View(h, call.profileAge).profileOf[call.user]) else None
  }

  /** An application moves with its request, or by its handyman; only applying makes it PENDING again. */
  predicate ApplicationMove(call: Call, caller: Option<Id>, a: Id, row: Application, to: ApplicationStatus) {
    match call
    case Accept(_, r, b, _, _) => row.request == r && row.status == Pending && to == if a == b then Accepted else Rejected
    case Reject(_, r, b, _, _) => row.request == r && a == b && row.status == Pending && to == Rejected
    case Withdraw(_, b, _, _) => caller == Some(row.handyman) && a == b && row.status == Pending && to == Withdrawn
    case Cancel(_, r, _, _) => row.request == r && (row.status == Pending || row.status == Accepted) && to == Rejected
    case CancelAssigned(_, r, _, _) => row.request == r && caller == Some(row.handyman) && row.status == Accepted && to == Withdrawn
    case Apply(_, r, _, _, _, _, _) =>
      row.request == r && caller == Some(row.handyman) && (row.status == Withdrawn || row.status == Rejected) && to == Pending
    case _ => false
  }

  predicate ApplicationStep(call: Call, caller: Option<Id>, a: Id, before: Application, after: Application) {
    after == before || (after == before.(status := after.status) && ApplicationMove(call, caller, a, before, after.status))
  }

  ghost predicate ApplicationsStep(s: Store, t: Store, call: Call, caller: Option<Id>) {
    && (forall a :: a in s.applications ==>
          a in t.applications && ApplicationStep(call, caller, a, s.applications[a], t.applications[a]))
    && (forall a :: a in t.applications && a !in s.applications ==>
          call.Apply? && a == call.newId && caller.Some? && t.applications[a] == Application(call.request, caller.value, Pending))
  }

  ghost predicate LegalStep(s: Store, t: Store, call: Call, caller: Option<Id>) {
    RequestsStep(s, t, call) && ApplicationsStep(s, t, call, caller)
  }

  // ------------------------------------------------------------------ each endpoint

  lemma CreateIsLegal(s: Store, user: Id, category: Id, newId: Id, call: Call)
    requires CreateRequest(s, user, category, newId).Ok? && call == Create(user, category, newId)
    ensures LegalStep(s, CreateRequest(s, user, category, newId).value, call, None)
  {
  }

  lemma CancelIsLegal(seen: Store, s: Store, user: Id, r: Id, now: nat, call: Call)
    requires CancelRequest(seen, s, user, r, now).Ok? && call.Cancel? && call.request == r
    ensures LegalStep(s, CancelRequest(seen, s, user, r, now).value, call, None)
  {
  }

  lemma AcceptIsLegal(seenRequest: Store, seenApplication: Store, s: Store, user: Id, r: Id, a: Id, call: Call)
    requires AcceptApplication(seenRequest, seenApplication, s, user, r, a).Ok? && Evolves(seenApplication, s)
    requires call.Accept? && call.request == r && call.application == a
    ensures LegalStep(s, AcceptApplication(seenRequest, seenApplication, s, user, r, a).value, call, None)
  {
    AcceptedIsLegal(s, AcceptApplication(seenRequest, seenApplication, s, user, r, a).value, r, a, call);
  }

  lemma AcceptedIsLegal(s: Store, t: Store, r: Id, a: Id, call: Call)
    requires call.Accept? && call.request == r && call.application == a
    requires s.RequestIs(r, Open) && (a in s.applications ==> s.applications[a].request == r)
    requires t.requests.Keys == s.requests.Keys && t.requests == s.requests[r := t.requests[r]] && t.requests[r].status == Assigned
    requires t.applications == UpdateMany(UpdateMany(s.applications, ById(a, {Pending}), Accepted),
                                          OfRequest(r, {Pending}).(notId := Some(a)), Rejected)
    ensures LegalStep(s, t, call, None)
  {
    AcceptDecides(s.applications, r, a);
  }

  /** The winner, the losers of its request, and the rest. */
  lemma AcceptDecides(rows: Applications, r: Id, a: Id)
    ensures var accepted := UpdateMany(rows, ById(a, {Pending}), Accepted);
            var after := UpdateMany(accepted, OfRequest(r, {Pending}).(notId := Some(a)), Rejected);
            && after.Keys == rows.Keys
            && forall b :: b in rows ==>
                 after[b] == if rows[b].status != Pending then rows[b]
                             else if b == a then rows[b].(status := Accepted)
                             else if rows[b].request == r then rows[b].(status := Rejected) else rows[b]
  {
  }

  lemma RejectIsLegal(seenRequest: Store, seenApplication: Store, s: Store, user: Id, r: Id, a: Id, call: Call)
    requires RejectApplication(seenRequest, seenApplication, s, user, r, a).Ok? && Evolves(seenApplication, s)
    requires call.Reject? && call.request == r && call.application == a
    ensures LegalStep(s, RejectApplication(seenRequest, seenApplication, s, user, r, a).value, call, None)
  {
  }

  lemma ConfirmIsLegal(seen: Store, s: Store, user: Id, r: Id, now: nat, call: Call)
    requires ConfirmCompletion(seen, s, user, r, now).Ok? && call.Confirm? && call.request == r
    ensures LegalStep(s, ConfirmCompletion(seen, s, user, r, now).value, call, None)
  {
  }

  lemma ApplyIsLegal(seenProfile: Store, seenRequest: Store, seenCategory: Store, seenApplication: Store,
                     s: Store, user: Id, r: Id, newId: Id, call: Call)
    requires ApplyToRequest(seenProfile, seenRequest, seenCategory, seenApplication, s, user, r, newId).Ok?
    requires Linked(s) && Evolves(seenApplication, s) && user in seenProfile.profileOf
    requires call.Apply? && call.request == r && call.newId == newId
    ensures LegalStep(s, ApplyToRequest(seenProfile, seenRequest, seenCategory, seenApplication, s, user, r, newId).value,
                      call, Some(seenProfile.profileOf[user]))
  {
    ApplyWrites(seenProfile, seenRequest, seenCategory, seenApplication, s, user, r, newId);
    var k := (r, seenProfile.profileOf[user]);
    if k in seenApplication.applicationOf {
      KeepsApplication(seenApplication, s, k);
      ReopenIsLegal(s, seenApplication.applicationOf[k], call, k.1);
    } else {
      InsertIsLegal(s, call, k.1);
    }
  }

  lemma ReopenIsLegal(s: Store, a: Id, call: Call, p: Id)
    requires call.Apply? && a in s.applications && s.applications[a].request == call.request && s.applications[a].handyman == p
    ensures LegalStep(s, s.(applications := UpdateMany(s.applications, ById(a, {Withdrawn, Rejected}), Pending)), call, Some(p))
  {
  }

  lemma InsertIsLegal(s: Store, call: Call, p: Id)
    requires call.Apply? && call.newId !in s.applications
    ensures LegalStep(s, s.(applications := s.applications[call.newId := Application(call.request, p, Pending)],
                            applicationOf := s.applicationOf[(call.request, p) := call.newId]), call, Some(p))
  {
  }

  lemma WithdrawIsLegal(seenProfile: Store, seenApplication: Store, s: Store, user: Id, a: Id, call: Call)
    requires WithdrawApplication(seenProfile, seenApplication, s, user, a).Ok? && Evolves(seenApplication, s)
    requires user in seenProfile.profileOf && call.Withdraw? && call.application == a
    ensures LegalStep(s, WithdrawApplication(seenProfile, seenApplication, s, user, a).value, call, Some(seenProfile.profileOf[user]))
  {
  }

  lemma StartIsLegal(seenProfile: Store, seenRequest: Store, s: Store, user: Id, r: Id, call: Call)
    requires StartRequest(seenProfile, seenRequest, s, user, r).Ok? && call.Start? && call.request == r
    ensures LegalStep(s, StartRequest(seenProfile, seenRequest, s, user, r).value, call, None)
  {
  }

  lemma CancelAssignedIsLegal(seenProfile: Store, seenRequest: Store, s: Store, user: Id, r: Id, call: Call)
    requires CancelAssignedRequest(seenProfile, seenRequest, s, user, r).Ok?
    requires user in seenProfile.profileOf && call.CancelAssigned? && call.request == r
    ensures LegalStep(s, CancelAssignedRequest(seenProfile, seenRequest, s, user, r).value, call, Some(seenProfile.profileOf[user]))
  {
  }

  lemma CompleteIsLegal(seenProfile: Store, seenRequest: Store, s: Store, user: Id, r: Id, call: Call)
    requires CompleteRequest(seenProfile, seenRequest, s, user, r).Ok? && call.Complete? && call.request == r
    ensures LegalStep(s, CompleteRequest(seenProfile, seenRequest, s, user, r).value, call, None)
  {
  }

  lemma ProfileIsLegal(s: Store, t: Store, call: Call)
    requires t.requests == s.requests && t.applications == s.applications
    ensures LegalStep(s, t, call, None)
  {
  }

  // ------------------------------------------------------------------ each call

  lemma CustomerSteps(h: History, call: Call)
    requires SoundHistory(h) && Outcome(h, call).Ok?
    requires call.Create? || call.Cancel? || call.Accept? || call.Reject? || call.Confirm?
    ensures LegalStep(Now(h), Next(h, call), call, Caller(h, call))
  {
    var s := Now(h);
    match call
    case Create(u, c, newId) => CreateIsLegal(s, u, c, newId, call);
    case Cancel(u, r, ra, now) => CancelIsLegal(View(h, ra), s, u, r, now, call);
    case Accept(u, r, a, ra, aa) => AcceptIsLegal(View(h, ra), View(h, aa), s, u, r, a, call);
    case Reject(u, r, a, ra, aa) => RejectIsLegal(View(h, ra), View(h, aa), s, u, r, a, call);
    case Confirm(u, r, ra, now) => ConfirmIsLegal(View(h, ra), s, u, r, now, call);
  }

  lemma HandymanSteps(h: History, call: Call)
    requires SoundHistory(h) && Outcome(h, call).Ok?
    requires call.Withdraw? || call.Start? || call.CancelAssigned? || call.Complete?
    ensures LegalStep(Now(h), Next(h, call), call, Caller(h, call))
  {
    var s := Now(h);
    match call
    case Withdraw(u, a, pa, aa) => WithdrawIsLegal(View(h, pa), View(h, aa), s, u, a, call);
    case Start(u, r, pa, ra) => StartIsLegal(View(h, pa), View(h, ra), s, u, r, call);
    case CancelAssigned(u, r, pa, ra) => CancelAssignedIsLegal(View(h, pa), View(h, ra), s, u, r, call);
    case Complete(u, r, pa, ra) => CompleteIsLegal(View(h, pa), View(h, ra), s, u, r, call);
  }

  lemma ApplySteps(h: History, call: Call)
    requires SoundHistory(h) && Outcome(h, call).Ok? && call.Apply?
    ensures LegalStep(Now(h), Next(h, call), call, Caller(h, call))
  {
    ApplyIsLegal(View(h, call.profileAge), View(h, call.requestAge), View(h, call.categoryAge), View(h, call.applicationAge),
                 Now(h), call.user, call.request, call.newId, call);
  }

  /** No call of any run, however stale its reads, takes a request or an application anywhere else. */
  lemma OnlyLegalMoves(calls: seq<Call>, call: Call)
    ensures var h := Run(calls); LegalStep(Now(h), Next(h, call), call, Caller(h, call))
  {
    RunIsSound(calls);
    StepIsLegal(Run(calls), call);
  }

  lemma StepIsLegal(h: History, call: Call)
    requires SoundHistory(h)
    ensures LegalStep(Now(h), Next(h, call), call, Caller(h, call))
  {
    if Outcome(h, call).Ok? {
      if OnProfiles(call) {
        ProfileCallWrites(h, call);
        ProfileIsLegal(Now(h), Next(h, call), call);
      } else if call.Create? || call.Cancel? || call.Accept? || call.Reject? || call.Confirm? {
        CustomerSteps(h, call);
      } else if call.Apply? {
        ApplySteps(h, call);
      } else {
        HandymanSteps(h, call);
      }
    }
  }

  // ------------------------------------------------------------------ verification

  /** The verification ladder, each rung with the call that takes it. */
  predicate ProfileMove(call: Call, from: VerificationStatus, to: VerificationStatus) {
    match call
    case FillProfile(_, _, _, _) => from == Unverified && to == ProfileComplete
    case Submit(_, _, _) => (from == ProfileComplete || from == Declined) && to == DocumentsSubmitted
    case Approve(_, _, _, _) => from == DocumentsSubmitted && to == Verified
    case Decline(_, _, _) => from == DocumentsSubmitted && to == Declined
    case _ => false
  }

  predicate ProfileStep(call: Call, before: Profile, after: Profile) {
    after.user == before.user && (after.status == before.status || ProfileMove(call, before.status, after.status))
  }

  ghost predicate ProfilesStep(s: Store, t: Store, call: Call) {
    && (forall p :: p in s.profiles ==> p in t.profiles && ProfileStep(call, s.profiles[p], t.profiles[p]))
    && (forall p :: p in t.profiles && p !in s.profiles ==>
          (call.FillProfile? && t.profiles[p].status == ProfileComplete) || (call.OpenProfile? && t.profiles[p].status == Unverified))
  }

  /** The row's status at the commit is neither one the call moves from nor the one it moves to. */
  predicate SkipsRung(s: Store, p: Id, call: Call, to: VerificationStatus) {
    p in s.profiles && s.profiles[p].status != to && !ProfileMove(call, s.profiles[p].status, to)
  }

  /** The call commits on a status other than the one it checked, and that makes a difference. */
  predicate OffLadder(h: History, call: Call) {
    Outcome(h, call).Ok? &&
    match call
    case FillProfile(u, _, _, pa) =>
      u in View(h, pa).profileOf && SkipsRung(Now(h), View(h, pa).profileOf[u], call, ProfileComplete)
    case Submit(u, pa, _) =>
      u in View(h, pa).profileOf && SkipsRung(Now(h), View(h, pa).profileOf[u], call, DocumentsSubmitted)
    case Approve(_, p, _, _) => SkipsRung(Now(h), p, call, Verified)
    case Decline(_, p, _) => SkipsRung(Now(h), p, call, Declined)
    case _ => false
  }

  lemma RowSteps(s: Store, t: Store, p: Id, call: Call)
    requires WritesRow(s, t, p) && p in s.profiles && t.profiles[p].user == s.profiles[p].user
    ensures ProfilesStep(s, t, call) <==> !SkipsRung(s, p, call, t.profiles[p].status)
  {
    assert ProfilesStep(s, t, call) ==> ProfileStep(call, s.profiles[p], t.profiles[p]);
  }

  lemma OwnProfileSteps(h: History, call: Call)
    requires Outcome(h, call).Ok? && (call.OpenProfile? || call.FillProfile? || call.EditProfile?)
    ensures ProfilesStep(Now(h), Next(h, call), call) <==> !OffLadder(h, call)
  {
    var s, t := Now(h), Next(h, call);
    match call
    case OpenProfile(u, newId, pa) => OpenWrites(View(h, pa), s, u, newId);
    case FillProfile(u, newId, cs, pa) =>
      FillWrites(View(h, pa), s, u, newId, cs);
      if u in View(h, pa).profileOf {
        RowSteps(s, t, View(h, pa).profileOf[u], call);
      }
    case EditProfile(u, cs, pa) =>
      EditWrites(View(h, pa), s, u, cs);
      if t != s {
        RowSteps(s, t, View(h, pa).profileOf[u], call);
      }
  }

  lemma ReviewSteps(h: History, call: Call)
    requires Outcome(h, call).Ok? && (call.Submit? || call.Approve? || call.Decline?)
    ensures ProfilesStep(Now(h), Next(h, call), call) <==> !OffLadder(h, call)
  {
    var s, t := Now(h), Next(h, call);
    match call
    case Submit(u, pa, da) =>
      SubmitMarks(View(h, pa), View(h, da), s, u);
      RowSteps(s, t, View(h, pa).profileOf[u], call);
    case Approve(admin, p, pa, now) =>
      ApproveMarks(View(h, pa), s, admin, p, now);
      RowSteps(s, t, p, call);
    case Decline(admin, p, pa) =>
      DeclineMarks(View(h, pa), s, admin, p);
      RowSteps(s, t, p, call);
  }

  lemma SameProfilesStep(s: Store, t: Store, call: Call)
    requires t.profiles == s.profiles
    ensures ProfilesStep(s, t, call)
  {
  }

  /** Exactly a call off the ladder moves a profile otherwise than one rung, by its own kind of call. */
  lemma StepOnLadder(h: History, call: Call)
    requires SoundHistory(h)
    ensures ProfilesStep(Now(h), Next(h, call), call) <==> !OffLadder(h, call)
  {
    SameProfilesStep(Now(h), Now(h), call);
    if Outcome(h, call).Ok? {
      if call.OpenProfile? || call.FillProfile? || call.EditProfile? {
        OwnProfileSteps(h, call);
      } else if call.Submit? || call.Approve? || call.Decline? {
        ReviewSteps(h, call);
      } else {
        LeavesProfiles(h, call);
        SameProfilesStep(Now(h), Next(h, call), call);
      }
    }
  }

  /** Each write of each run moves profiles one rung at a time, each by one kind of call, if and only if it is not off the ladder. */
  lemma OnlyLegalReviews(calls: seq<Call>, call: Call)
    ensures var h := Run(calls); ProfilesStep(Now(h), Next(h, call), call) <==> !OffLadder(h, call)
    ensures Atomic(call) ==> !OffLadder(Run(calls), call)
  {
    RunIsSound(calls);
    StepOnLadder(Run(calls), call);
    if Atomic(call) {
      AtomicOnLadder(Run(calls), call);
    }
  }

  lemma AtomicOnLadder(h: History, call: Call)
    requires Atomic(call)
    ensures !OffLadder(h, call)
  {
    var s := Now(h);
    if call.FillProfile? && OffLadder(h, call) {
      FillsOnlyUnverified(s, s, call.user, call.newId, call.categoryIds);
    } else if call.Submit? && Outcome(h, call).Ok? {
      SubmitMarks(s, s, s, call.user);
    } else if call.Approve? && Outcome(h, call).Ok? {
      ApproveMarks(s, s, call.admin, call.profile, call.now);
    } else if call.Decline? && Outcome(h, call).Ok? {
      DeclineMarks(s, s, call.admin, call.profile);
    }
  }

  lemma FillsOnlyUnverified(seen: Store, s: Store, user: Id, newId: Id, categoryIds: seq<Id>)
    requires CompleteProfile(seen, s, user, newId, categoryIds).Ok? && user in seen.profileOf
    ensures seen.profileOf[user] in seen.profiles && seen.profiles[seen.profileOf[user]].status == Unverified
  {
  }

  // ------------------------------------------------------------------ histories

  function Before(status: RequestStatus): RequestStatus {
    match status
    case InProgress => Assigned
    case AwaitingConfirmation => InProgress
    case Completed => AwaitingConfirmation
    case _ => Open
  }

  predicate IsIn(calls: seq<Call>, r: Id, status: RequestStatus) {
    Now(Run(calls)).RequestIs(r, status)
  }

  lemma LastMove(init: seq<Call>, call: Call)
    ensures LegalStep(Now(Run(init)), Now(Run(init + [call])), call, Caller(Run(init), call))
  {
    RunExtends(init, call);
    OnlyLegalMoves(init, call);
  }

  /** A status is reached only from the one before it: some shorter run leaves the request there. */
  lemma {:induction false} CameFrom(calls: seq<Call>, r: Id, status: RequestStatus) returns (earlier: seq<Call>)
    requires IsIn(calls, r, status) && status != Open && status != Cancelled
    ensures earlier < calls && IsIn(earlier, r, Before(status))
  {
    var init, call := calls[..|calls| - 1], calls[|calls| - 1];
    assert calls == init + [call];
    LastMove(init, call);
    earlier := init;
    if IsIn(init, r, status) {
      earlier := CameFrom(init, r, status);
    }
  }

  /** No shortcut: a COMPLETED request was OPEN, ASSIGNED, IN_PROGRESS and AWAITING_CONFIRMATION, in that order. */
  lemma CompletedTheLongWay(calls: seq<Call>, r: Id)
    requires IsIn(calls, r, Completed)
    ensures exists a, b, c, d :: a < b < c < d < calls
              && IsIn(a, r, Open) && IsIn(b, r, Assigned) && IsIn(c, r, InProgress) && IsIn(d, r, AwaitingConfirmation)
  {
    var d := CameFrom(calls, r, Completed);
    var c := CameFrom(d, r, AwaitingConfirmation);
    var b := CameFrom(c, r, InProgress);
    var a := CameFrom(b, r, Assigned);
  }
}

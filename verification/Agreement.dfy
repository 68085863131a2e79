/**
 The request row and the application rows tell the same story: a request being
 worked on has exactly one ACCEPTED application, its assignee's; any other
 request has none. Two guards in the source test the status alone, so this holds
 of a run exactly as long as no `cancelAssignedRequest` reopens a request whose
 assignee is not the one it read.
 */
module Agreement {
  import opened Prelude
  import opened Histories
  import opened Marketplace
  import opened MarketplaceRuns
  import opened RunInduction

  predicate Engaged(status: RequestStatus) {
    status == Assigned || Started(status)
  }

  predicate IsAccepted(rows: Applications, r: Id, a: Id) {
    a in rows && rows[a].request == r && rows[a].status == Accepted
  }

  ghost predicate Agrees(s: Store, r: Id) {
    r in s.requests ==>
      if Engaged(s.requests[r].status) then
        exists a :: IsAccepted(s.applications, r, a) && OnlyAccepted(s, r, a)
      else
        forall a :: !IsAccepted(s.applications, r, a)
  }

  ghost predicate OnlyAccepted(s: Store, r: Id, a: Id)
    requires r in s.requests && a in s.applications
  {
    && s.requests[r].assignee == Some(s.applications[a].handyman)
    && forall b :: IsAccepted(s.applications, r, b) ==> b == a
  }

  ghost predicate AllAgree(s: Store) {
    forall r :: r in s.requests ==> Agrees(s, r)
  }

  /** A reopening whose caller is no longer the assignee. */
  predicate StaleReopen(h: History, call: Call) {
    && call.CancelAssigned?
    && Outcome(h, call).Ok?
    && Now(h).requests[call.request].assignee != Some(View(h, call.profileAge).profileOf[call.user])
  }

  predicate StaleReopenOf(h: History, call: Call, r: Id) {
    StaleReopen(h, call) && call.request == r
  }

  // --------------------------------------------------------------- one write

  /** Application rows of other requests keep their status, and no row moves. */
  ghost predicate OnlyTouches(xs: Applications, ys: Applications, r: Id) {
    && SameRows(xs, ys)
    && forall a :: a in xs && xs[a].request != r ==> ys[a] == xs[a]
  }

  lemma OtherAgrees(s: Store, t: Store, r: Id, q: Id)
    requires Agrees(s, q) && q != r && r in t.requests
    requires t.requests == s.requests[r := t.requests[r]]
    requires OnlyTouches(s.applications, t.applications, r)
    ensures Agrees(t, q)
  {
    if q in s.requests && Engaged(s.requests[q].status) {
      var a :| IsAccepted(s.applications, q, a) && OnlyAccepted(s, q, a);
      assert IsAccepted(t.applications, q, a);
      forall b | IsAccepted(t.applications, q, b) ensures b == a {
        assert IsAccepted(s.applications, q, b);
      }
    } else if q in s.requests {
      forall b ensures !IsAccepted(t.applications, q, b) {
        assert !IsAccepted(s.applications, q, b);
      }
    }
  }

  /** Cancelling a request even settles it if it did not agree before. */
  lemma CancelAgrees(seen: Store, s: Store, user: Id, r: Id, now: nat, q: Id)
    requires CancelRequest(seen, s, user, r, now).Ok? && (q != r ==> Agrees(s, q))
    ensures Agrees(CancelRequest(seen, s, user, r, now).value, q)
  {
    if q != r {
      OtherAgrees(s, CancelRequest(seen, s, user, r, now).value, r, q);
    }
  }

  lemma AcceptAgrees(seenRequest: Store, seenApplication: Store, s: Store, user: Id, r: Id, a: Id, q: Id)
    requires Agrees(s, q) && Evolves(seenApplication, s)
    requires AcceptApplication(seenRequest, seenApplication, s, user, r, a).Ok?
    ensures Agrees(AcceptApplication(seenRequest, seenApplication, s, user, r, a).value, q)
  {
    var t := AcceptApplication(seenRequest, seenApplication, s, user, r, a).value;
    AcceptedAlone(s.applications, r, a);
    if q != r {
      OtherAgrees(s, t, r, q);
    } else {
      assert IsAccepted(t.applications, r, a);
      forall b | IsAccepted(t.applications, r, b) ensures b == a {
        assert !IsAccepted(s.applications, r, b);
      }
    }
  }

  /** The two updates of an acceptance touch the rows of the request only, and accept none but the one. */
  lemma AcceptedAlone(rows: Applications, r: Id, a: Id)
    requires Selected(rows, ById(a, {Pending})) != {}
    ensures var accepted := UpdateMany(rows, ById(a, {Pending}), Accepted);
            var after := UpdateMany(accepted, OfRequest(r, {Pending}).(notId := Some(a)), Rejected);
            && a in rows && after.Keys == rows.Keys
            && after[a] == rows[a].(status := Accepted)
            && (rows[a].request == r ==> OnlyTouches(rows, after, r))
            && forall b :: b in rows && b != a ==> (after[b].status == Accepted <==> rows[b].status == Accepted)
  {
    var x :| x in Selected(rows, ById(a, {Pending}));
    assert x == a;
  }

  /** Confirm, start and complete: the request moves on under the same assignee. */
  lemma AdvanceAgrees(s: Store, t: Store, r: Id, q: Id)
    requires Agrees(s, q) && r in s.requests && r in t.requests
    requires t.requests == s.requests[r := t.requests[r]] && t.applications == s.applications
    requires Engaged(s.requests[r].status) && Engaged(t.requests[r].status)
    requires t.requests[r].assignee == s.requests[r].assignee
    ensures Agrees(t, q)
  {
    if q != r {
      OtherAgrees(s, t, r, q);
    } else {
      var a :| IsAccepted(s.applications, r, a) && OnlyAccepted(s, r, a);
      assert IsAccepted(t.applications, r, a);
    }
  }

  /** The exact condition: reopening keeps agreement just when the caller still is the assignee. */
  lemma CancelAssignedAgrees(seenProfile: Store, seenRequest: Store, s: Store, user: Id, r: Id, q: Id)
    requires Agrees(s, q) && CancelAssignedRequest(seenProfile, seenRequest, s, user, r).Ok?
    ensures Agrees(CancelAssignedRequest(seenProfile, seenRequest, s, user, r).value, q)
       <==> q != r || s.requests[r].assignee == Some(seenProfile.profileOf[user])
  {
    var t := CancelAssignedRequest(seenProfile, seenRequest, s, user, r).value;
    if q != r {
      OtherAgrees(s, t, r, q);
    } else {
      var a :| IsAccepted(s.applications, r, a) && OnlyAccepted(s, r, a);
      if s.requests[r].assignee == Some(seenProfile.profileOf[user]) {
        forall b ensures !IsAccepted(t.applications, r, b) {
          assert !IsAccepted(s.applications, r, b) || b == a;
        }
      } else {
        assert IsAccepted(t.applications, r, a);
      }
    }
  }

  /** No row enters or leaves ACCEPTED, and a request only appears as OPEN. */
  ghost predicate QuietWrite(s: Store, t: Store) {
    && (forall r :: r in s.requests ==> r in t.requests && t.requests[r] == s.requests[r])
    && (forall r :: r in t.requests && r !in s.requests ==> t.requests[r].status == Open)
    && (forall r, a :: IsAccepted(t.applications, r, a) <==> IsAccepted(s.applications, r, a))
    && (forall a :: a in s.applications ==> a in t.applications && t.applications[a].handyman == s.applications[a].handyman)
  }

  lemma QuietAgrees(s: Store, t: Store, q: Id)
    requires Linked(s) && Agrees(s, q) && QuietWrite(s, t)
    ensures Agrees(t, q)
  {
    if q in s.requests && Engaged(s.requests[q].status) {
      var a :| IsAccepted(s.applications, q, a) && OnlyAccepted(s, q, a);
      assert IsAccepted(t.applications, q, a);
    } else if q in t.requests {
      forall b ensures !IsAccepted(t.applications, q, b) {
        assert IsAccepted(s.applications, q, b) ==> LinkedApplication(s, b, s.applications[b]);
      }
    }
  }

  lemma RemarkIsQuiet(s: Store, w: ApplicationWhere, status: ApplicationStatus)
    requires Accepted !in w.statusIn && status != Accepted
    ensures QuietWrite(s, s.(applications := UpdateMany(s.applications, w, status)))
  {
  }

  lemma CreateIsQuiet(s: Store, user: Id, category: Id, newId: Id)
    requires CreateRequest(s, user, category, newId).Ok?
    ensures QuietWrite(s, CreateRequest(s, user, category, newId).value)
  {
  }

  lemma ApplyIsQuiet(seenProfile: Store, seenRequest: Store, seenCategory: Store, seenApplication: Store,
                     s: Store, user: Id, r: Id, newId: Id)
    requires ApplyToRequest(seenProfile, seenRequest, seenCategory, seenApplication, s, user, r, newId).Ok?
    ensures QuietWrite(s, ApplyToRequest(seenProfile, seenRequest, seenCategory, seenApplication, s, user, r, newId).value)
  {
    var p := seenProfile.profileOf[user];
    if (r, p) in seenApplication.applicationOf {
      RemarkIsQuiet(s, ById(seenApplication.applicationOf[(r, p)], {Withdrawn, Rejected}), Pending);
    }
  }

  lemma StepIsQuiet(h: History, call: Call)
    requires OnProfiles(call) || call.Create? || call.Reject? || call.Withdraw? || call.Apply?
    ensures QuietWrite(Now(h), Next(h, call))
  {
    var s := Now(h);
    if OnProfiles(call) {
      ProfileCallWrites(h, call);
    } else if Outcome(h, call).Ok? {
      match call
      case Create(u, c, newId) => CreateIsQuiet(s, u, c, newId);
      case Reject(u, r, a, ra, aa) =>
        RejectWrites(View(h, ra), View(h, aa), s, u, r, a);
        RemarkIsQuiet(s, ById(a, {Pending}), Rejected);
      case Withdraw(u, a, pa, aa) =>
        WithdrawWrites(View(h, pa), View(h, aa), s, u, a);
        RemarkIsQuiet(s, ById(a, {Pending}), Withdrawn);
      case Apply(u, r, newId, pa, ra, ca, aa) =>
        ApplyIsQuiet(View(h, pa), View(h, ra), View(h, ca), View(h, aa), s, u, r, newId);
    }
  }

  lemma StepAdvances(h: History, call: Call, q: Id)
    requires Agrees(Now(h), q)
    requires (call.Confirm? || call.Start? || call.Complete?) && Outcome(h, call).Ok?
    ensures Agrees(Next(h, call), q)
  {
    match call
    case Confirm(u, r, ra, now) => ConfirmAgrees(View(h, ra), Now(h), u, r, now, q);
    case Start(u, r, pa, ra) => StartAgrees(View(h, pa), View(h, ra), Now(h), u, r, q);
    case Complete(u, r, pa, ra) => CompleteAgrees(View(h, pa), View(h, ra), Now(h), u, r, q);
  }

  lemma ConfirmAgrees(seen: Store, s: Store, user: Id, r: Id, now: nat, q: Id)
    requires Agrees(s, q) && ConfirmCompletion(seen, s, user, r, now).Ok?
    ensures Agrees(ConfirmCompletion(seen, s, user, r, now).value, q)
  {
    AdvanceAgrees(s, ConfirmCompletion(seen, s, user, r, now).value, r, q);
  }

  lemma StartAgrees(seenProfile: Store, seenRequest: Store, s: Store, user: Id, r: Id, q: Id)
    requires Agrees(s, q) && StartRequest(seenProfile, seenRequest, s, user, r).Ok?
    ensures Agrees(StartRequest(seenProfile, seenRequest, s, user, r).value, q)
  {
    AdvanceAgrees(s, StartRequest(seenProfile, seenRequest, s, user, r).value, r, q);
  }

  lemma CompleteAgrees(seenProfile: Store, seenRequest: Store, s: Store, user: Id, r: Id, q: Id)
    requires Agrees(s, q) && CompleteRequest(seenProfile, seenRequest, s, user, r).Ok?
    ensures Agrees(CompleteRequest(seenProfile, seenRequest, s, user, r).value, q)
  {
    AdvanceAgrees(s, CompleteRequest(seenProfile, seenRequest, s, user, r).value, r, q);
  }

  /** Each write keeps the agreement of each request, unless it is a stale reopening of it: then it breaks it. */
  lemma StepAgrees(h: History, call: Call, q: Id)
    requires SoundHistory(h) && Agrees(Now(h), q)
    ensures Agrees(Next(h, call), q) <==> !StaleReopenOf(h, call, q)
  {
    if Outcome(h, call).Ok? {
      if call.Confirm? || call.Start? || call.Complete? {
        StepAdvances(h, call, q);
      } else if call.Cancel? {
        CancelAgrees(View(h, call.requestAge), Now(h), call.user, call.request, call.now, q);
      } else if call.Accept? {
        AcceptAgrees(View(h, call.requestAge), View(h, call.applicationAge), Now(h), call.user, call.request, call.application, q);
      } else if call.CancelAssigned? {
        CancelAssignedAgrees(View(h, call.profileAge), View(h, call.requestAge), Now(h), call.user, call.request, q);
      } else {
        StepIsQuiet(h, call);
        QuietAgrees(Now(h), Next(h, call), q);
      }
    }
  }

  // ------------------------------------------------------------------ runs

  ghost predicate AgreesThroughout(calls: seq<Call>, r: Id) {
    forall s :: s in Run(calls) ==> Agrees(s, r)
  }

  ghost predicate NeverStaleOn(calls: seq<Call>, r: Id) {
    forall k :: 0 <= k < |calls| ==> !StaleReopenOf(Run(calls[..k]), calls[k], r)
  }

  ghost predicate AlwaysAgrees(calls: seq<Call>) {
    forall s :: s in Run(calls) ==> AllAgree(s)
  }

  ghost predicate NeverStale(calls: seq<Call>) {
    forall k :: 0 <= k < |calls| ==> !StaleReopen(Run(calls[..k]), calls[k])
  }

  /** A request agrees in every store of a run if and only if no call of the run was a stale reopening of it. */
  lemma RequestAgreement(calls: seq<Call>, r: Id)
    ensures AgreesThroughout(calls, r) <==> NeverStaleOn(calls, r)
  {
    var good := (s: Store) => Agrees(s, r);
    var bad := (h: History, call: Call) => StaleReopenOf(h, call, r);
    forall init, call | AllGood(Run(init), good) && Never(init, bad)
      ensures good(Next(Run(init), call)) <==> !bad(Run(init), call)
    {
      RunIsSound(init);
      assert good(Now(Run(init)));
      StepAgrees(Run(init), call, r);
    }
    AlwaysIffNever(calls, good, bad);
    assert AgreesThroughout(calls, r) <==> AllGood(Run(calls), good);
    assert NeverStaleOn(calls, r) <==> Never(calls, bad);
  }

  /** Every store of a run agrees if and only if no call of the run was a stale reopening. */
  lemma AgreementTheorem(calls: seq<Call>)
    ensures AlwaysAgrees(calls) <==> NeverStale(calls)
  {
    var good := (s: Store) => AllAgree(s);
    var bad := (h: History, call: Call) => StaleReopen(h, call);
    forall init, call | AllGood(Run(init), good) && Never(init, bad)
      ensures good(Next(Run(init), call)) <==> !bad(Run(init), call)
    {
      RunIsSound(init);
      assert good(Now(Run(init)));
      StepAgreesOnAll(Run(init), call);
    }
    AlwaysIffNever(calls, good, bad);
    assert AlwaysAgrees(calls) <==> AllGood(Run(calls), good);
    assert NeverStale(calls) <==> Never(calls, bad);
  }

  lemma StepAgreesOnAll(h: History, call: Call)
    requires SoundHistory(h) && AllAgree(Now(h))
    ensures AllAgree(Next(h, call)) <==> !StaleReopen(h, call)
  {
    forall r ensures Agrees(Next(h, call), r) <==> !StaleReopenOf(h, call, r) {
      assert Agrees(Now(h), r);
      StepAgrees(h, call, r);
    }
    if StaleReopen(h, call) {
      assert StaleReopenOf(h, call, call.request) && !Agrees(Next(h, call), call.request);
    }
  }

  // ------------------------------------------------------------ call-atomic runs

  /** Every read of the call sees the store its write finds. */
  predicate Atomic(call: Call) {
    match call
    case Create(_, _, _) => true
    case Cancel(_, _, ra, _) => ra == 0
    case Accept(_, _, _, ra, aa) => ra == aa == 0
    case Reject(_, _, _, ra, aa) => ra == aa == 0
    case Confirm(_, _, ra, _) => ra == 0
    case Apply(_, _, _, pa, ra, ca, aa) => pa == ra == ca == aa == 0
    case Withdraw(_, _, pa, aa) => pa == aa == 0
    case Start(_, _, pa, ra) => pa == ra == 0
    case CancelAssigned(_, _, pa, ra) => pa == ra == 0
    case Complete(_, _, pa, ra) => pa == ra == 0
    case OpenProfile(_, _, pa) => pa == 0
    case FillProfile(_, _, _, pa) => pa == 0
    case EditProfile(_, _, pa) => pa == 0
    case Upload(_, _, pa) => pa == 0
    case Delete(_, _, pa) => pa == 0
    case Submit(_, pa, da) => pa == da == 0
    case Approve(_, _, pa, _) => pa == 0
    case Decline(_, _, pa) => pa == 0
  }

  predicate AllAtomic(calls: seq<Call>) {
    forall k :: 0 <= k < |calls| ==> Atomic(calls[k])
  }

  lemma AtomicNeverStale(calls: seq<Call>)
    requires AllAtomic(calls)
    ensures NeverStale(calls)
  {
    forall k | 0 <= k < |calls| ensures !StaleReopen(Run(calls[..k]), calls[k]) {
      AtomicIsFresh(Run(calls[..k]), calls[k]);
    }
  }

  lemma AtomicIsFresh(h: History, call: Call)
    requires Atomic(call)
    ensures !StaleReopen(h, call)
  {
  }

  /** Without interleaving, agreement needs no hypothesis at all. */
  lemma AtomicRunsAgree(calls: seq<Call>)
    requires AllAtomic(calls)
    ensures AlwaysAgrees(calls)
  {
    AtomicNeverStale(calls);
    AgreementTheorem(calls);
  }
}

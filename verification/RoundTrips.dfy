/** What one call undoes of another, and what stays of it: calls that read what they write. */
module RoundTrips {
  import opened Prelude
  import opened Marketplace
  import opened MarketplaceRuns
  import opened Agreement

  /** The application is PENDING, and on that request. */
  predicate IsPending(s: Store, r: Id, a: Id) {
    a in s.applications && s.applications[a].request == r && s.applications[a].status == Pending
  }

  lemma SelectedById(rows: Applications, a: Id, statusIn: set<ApplicationStatus>)
    ensures Selected(rows, ById(a, statusIn)) != {} <==> a in rows && rows[a].status in statusIn
  {
    if a in rows && rows[a].status in statusIn {
      assert a in Selected(rows, ById(a, statusIn));
    }
    if x :| x in Selected(rows, ById(a, statusIn)) {
      assert x == a;
    }
  }

  /**
   Accepting succeeds exactly for the customer's own OPEN request and one of its
   PENDING applications; that one wins, the other PENDING ones of the request lose.
   */
  lemma AcceptExactly(s: Store, user: Id, r: Id, a: Id)
    ensures var outcome := AcceptApplication(s, s, s, user, r, a);
            && (outcome.Ok? <==> s.RequestIs(r, Open) && s.requests[r].customer == user && IsPending(s, r, a))
            && (outcome.Ok? ==>
                  var t := outcome.value;
                  && t.requests == s.requests[r := s.requests[r].(status := Assigned, assignee := Some(s.applications[a].handyman))]
                  && t.applications.Keys == s.applications.Keys
                  && forall b :: b in s.applications ==>
                       t.applications[b] == if b == a then s.applications[a].(status := Accepted)
                                            else if IsPending(s, r, b) then s.applications[b].(status := Rejected)
                                            else s.applications[b])
  {
    SelectedById(s.applications, a, {Pending});
  }

  /** Backing out succeeds exactly for the assignee of an ASSIGNED request; it withdraws the one ACCEPTED application. */
  lemma CancelAssignedExactly(s: Store, user: Id, r: Id)
    requires Agrees(s, r)
    ensures var outcome := CancelAssignedRequest(s, s, s, user, r);
            && (outcome.Ok? <==> user in s.profileOf && s.RequestIs(r, Assigned) && s.requests[r].assignee == Some(s.profileOf[user]))
            && (outcome.Ok? ==>
                  var t := outcome.value;
                  && t.requests == s.requests[r := s.requests[r].(status := Open, assignee := None)]
                  && t.applications.Keys == s.applications.Keys
                  && (exists a :: IsAccepted(s.applications, r, a))
                  && forall b :: b in s.applications ==>
                       t.applications[b] == if IsAccepted(s.applications, r, b) then s.applications[b].(status := Withdrawn)
                                            else s.applications[b])
  {
    if CancelAssignedRequest(s, s, s, user, r).Ok? {
      assert Agrees(s, r);
      var a :| IsAccepted(s.applications, r, a) && OnlyAccepted(s, r, a);
      assert forall b :: IsAccepted(s.applications, r, b) ==> b == a;
    }
  }

  /** Cancelling leaves nothing PENDING or ACCEPTED behind, and touches no other request. */
  lemma CancelExactly(s: Store, user: Id, r: Id, now: nat)
    ensures var outcome := CancelRequest(s, s, user, r, now);
            && (outcome.Ok? <==> (s.RequestIs(r, Open) || s.RequestIs(r, Assigned)) && s.requests[r].customer == user)
            && (outcome.Ok? ==>
                  var t := outcome.value;
                  && t.requests == s.requests[r := s.requests[r].(status := Cancelled, cancelledAt := Some(now))]
                  && t.applications.Keys == s.applications.Keys
                  && forall b :: b in s.applications ==>
                       t.applications[b] == if IsPending(s, r, b) || IsAccepted(s.applications, r, b)
                                            then s.applications[b].(status := Rejected) else s.applications[b])
  {
  }

  /** Withdrawing succeeds exactly for the handyman's own PENDING application, and changes that one row. */
  lemma WithdrawExactly(s: Store, user: Id, a: Id)
    ensures var outcome := WithdrawApplication(s, s, s, user, a);
            && (outcome.Ok? <==> user in s.profileOf && a in s.applications && s.applications[a].handyman == s.profileOf[user]
                                 && s.applications[a].status == Pending)
            && (outcome.Ok? ==>
                  outcome.value == s.(applications := s.applications[a := s.applications[a].(status := Withdrawn)]))
  {
    SelectedById(s.applications, a, {Pending});
    if WithdrawApplication(s, s, s, user, a).Ok? {
      assert UpdateMany(s.applications, ById(a, {Pending}), Withdrawn)
          == s.applications[a := s.applications[a].(status := Withdrawn)];
    }
  }

  /** The handyman may apply to the request, whatever became of an earlier application. */
  predicate MayApply(s: Store, user: Id, r: Id) {
    && user in s.profileOf && s.profileOf[user] in s.profiles
    && s.profiles[s.profileOf[user]].status == Verified
    && s.RequestIs(r, Open) && s.Serves(s.profileOf[user], s.requests[r].category)
  }

  /** Reapplying undoes a withdrawal: the store is what it was, to the last row. */
  lemma ReapplyingUndoesWithdrawing(s: Store, user: Id, a: Id, newId: Id)
    requires Sound(s) && WithdrawApplication(s, s, s, user, a).Ok?
    requires MayApply(s, user, s.applications[a].request)
    ensures var t := WithdrawApplication(s, s, s, user, a).value;
            ApplyToRequest(t, t, t, t, t, user, s.applications[a].request, newId) == Ok(s)
  {
    WithdrawExactly(s, user, a);
    var r := s.applications[a].request;
    assert LinkedApplication(s, a, s.applications[a]);
    var t := WithdrawApplication(s, s, s, user, a).value;
    SelectedById(t.applications, a, {Withdrawn, Rejected});
    assert UpdateMany(t.applications, ById(a, {Withdrawn, Rejected}), Pending) == s.applications;
  }

  /** Withdrawing undoes a first application, but for its row, which stays as WITHDRAWN. */
  lemma WithdrawingUndoesApplying(s: Store, user: Id, r: Id, newId: Id)
    requires Sound(s) && MayApply(s, user, r) && (r, s.profileOf[user]) !in s.applicationOf && newId !in s.applications
    ensures var applied := ApplyToRequest(s, s, s, s, s, user, r, newId);
            && applied.Ok?
            && var withdrawn := WithdrawApplication(applied.value, applied.value, applied.value, user, newId);
               && withdrawn.Ok?
               && withdrawn.value.applications == s.applications[newId := Application(r, s.profileOf[user], Withdrawn)]
               && withdrawn.value.requests == s.requests && withdrawn.value.events == s.events
  {
    var applied := ApplyToRequest(s, s, s, s, s, user, r, newId);
    WithdrawExactly(applied.value, user, newId);
  }

  /** The applications of `t` are those of `s` after `a` won and lost its request again. */
  ghost predicate WonAndLeft(s: Store, t: Store, r: Id, a: Id, winner: ApplicationStatus)
    requires a in s.applications
  {
    && t.applications.Keys == s.applications.Keys
    && forall b :: b in s.applications ==>
         t.applications[b] == if b == a then s.applications[a].(status := winner)
                              else if IsPending(s, r, b) then s.applications[b].(status := Rejected)
                              else s.applications[b]
  }

  lemma NoOtherAccepted(s: Store, t: Store, r: Id, a: Id)
    requires r in s.requests && s.requests[r].status == Open && Agrees(s, r) && IsPending(s, r, a)
    requires WonAndLeft(s, t, r, a, Accepted)
    ensures forall b :: IsAccepted(t.applications, r, b) <==> b == a
  {
    forall b ensures IsAccepted(t.applications, r, b) <==> b == a {
      assert !IsAccepted(s.applications, r, b);
    }
  }

  lemma BackingOutRows(s: Store, t: Store, u: Store, r: Id, a: Id)
    requires a in s.applications && WonAndLeft(s, t, r, a, Accepted)
    requires forall b :: IsAccepted(t.applications, r, b) <==> b == a
    requires u.applications.Keys == t.applications.Keys
    requires forall b :: b in t.applications ==>
               u.applications[b] == if IsAccepted(t.applications, r, b) then t.applications[b].(status := Withdrawn) else t.applications[b]
    ensures WonAndLeft(s, u, r, a, Withdrawn)
  {
  }

  /**
   Backing out undoes an acceptance on the request row and in the event balance;
   on the applications it leaves the winner WITHDRAWN and the losers REJECTED.
   */
  lemma BackingOutUndoesAccepting(s: Store, t: Store, customer: Id, user: Id, r: Id, a: Id)
    requires AllStamped(s) && Agrees(s, r) && AcceptApplication(s, s, s, customer, r, a) == Ok(t)
    requires user in s.profileOf && a in s.applications && s.profileOf[user] == s.applications[a].handyman
    ensures var back := CancelAssignedRequest(t, t, t, user, r);
            && back.Ok?
            && back.value.requests == s.requests
            && back.value.events == s.events + [RequestAssigned(r, s.profileOf[user]), RequestUnassigned(r, s.profileOf[user])]
            && WonAndLeft(s, back.value, r, a, Withdrawn)
  {
    AcceptExactly(s, customer, r, a);
    AcceptAgrees(s, s, s, customer, r, a, r);
    CancelAssignedExactly(t, user, r);
    assert Stamped(s.requests[r]);
    NoOtherAccepted(s, t, r, a);
    BackingOutRows(s, t, CancelAssignedRequest(t, t, t, user, r).value, r, a);
    SameRequestAgain(s.requests, r, s.applications[a].handyman);
  }

  lemma SameRequestAgain(requests: map<Id, Request>, r: Id, p: Id)
    requires r in requests && requests[r].status == Open && requests[r].assignee == None
    ensures var held := requests[r := requests[r].(status := Assigned, assignee := Some(p))];
            held[r := held[r].(status := Open, assignee := None)] == requests
  {
  }
}

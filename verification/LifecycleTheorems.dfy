/** What the endpoints promise over every run, read off the invariants of `MarketplaceRuns`. */
module LifecycleTheorems {
  import opened Prelude
  import opened Histories
  import opened Marketplace
  import opened MarketplaceRuns
  import opened RunInduction
  import opened Agreement

  /** Both are stores of the run, `t` no earlier than `s`. */
  ghost predicate Reaches(calls: seq<Call>, s: Store, t: Store) {
    exists i, j :: 0 <= i <= j <= |calls| && Run(calls)[i] == s && Run(calls)[j] == t
  }

  lemma LaterEvolves(calls: seq<Call>, s: Store, t: Store)
    requires Reaches(calls, s, t)
    ensures Sound(s) && Sound(t) && Evolves(s, t)
  {
    var i, j :| 0 <= i <= j <= |calls| && Run(calls)[i] == s && Run(calls)[j] == t;
    SoundUpTo(calls, i);
    SoundUpTo(calls, j);
    assert Run(calls[..j])[i] == s;
  }

  lemma {:induction false} SoundUpTo(calls: seq<Call>, k: nat)
    requires k <= |calls|
    ensures Run(calls[..k]) == Run(calls)[..k + 1] && SoundHistory(Run(calls)[..k + 1])
    ensures Now(Run(calls)[..k + 1]) == Run(calls)[k]
  {
    RunPrefix(calls, k);
    RunIsSound(calls[..k]);
  }

  lemma EveryStoreIsSound(calls: seq<Call>, s: Store)
    requires s in Run(calls)
    ensures Sound(s)
  {
    var i :| 0 <= i < |Run(calls)| && Run(calls)[i] == s;
    SoundUpTo(calls, i);
  }

  /** COMPLETED and CANCELLED are absorbing, and the whole row is frozen with them. */
  lemma ClosedForGood(calls: seq<Call>, s: Store, t: Store, r: Id)
    requires Reaches(calls, s, t)
    requires r in s.requests && Final(s.requests[r].status)
    ensures r in t.requests && t.requests[r] == s.requests[r]
  {
    LaterEvolves(calls, s, t);
  }

  /** From IN_PROGRESS on the assignee never changes and the status only moves forward. */
  lemma AssigneeFrozen(calls: seq<Call>, s: Store, t: Store, r: Id)
    requires Reaches(calls, s, t)
    requires r in s.requests && Started(s.requests[r].status)
    ensures r in t.requests && t.requests[r].assignee == s.requests[r].assignee != None
    ensures Rank(s.requests[r].status) <= Rank(t.requests[r].status)
  {
    LaterEvolves(calls, s, t);
  }

  /** `completedAt` and `cancelledAt` are set exactly in COMPLETED and in CANCELLED. */
  lemma {:induction false} StampsMatch(calls: seq<Call>, s: Store, r: Id)
    requires s in Run(calls) && r in s.requests
    ensures var row := s.requests[r];
            && (row.completedAt.Some? <==> row.status == Completed)
            && (row.cancelledAt.Some? <==> row.status == Cancelled)
            && (Engaged(row.status) ==> row.assignee.Some?)
            && (row.status == Open ==> row.assignee == None)
  {
    EveryStoreIsSound(calls, s);
  }

  /** However stale the row it read, a completion event names the true assignee. */
  lemma CompletionNamesAssignee(calls: seq<Call>, user: Id, r: Id, requestAge: nat, now: nat)
    requires Outcome(Run(calls), Confirm(user, r, requestAge, now)).Ok?
    ensures var s, t := Now(Run(calls)), Next(Run(calls), Confirm(user, r, requestAge, now));
            && s.requests[r].assignee.Some?
            && t.requests[r] == s.requests[r].(status := Completed, completedAt := Some(now))
            && t.events == s.events + [RequestCompleted(r, s.requests[r].assignee)]
  {
    RunIsSound(calls);
  }

  /** However stale the row it read, the handyman who submits completion is the assignee. */
  lemma {:induction false} SubmitterIsAssignee(calls: seq<Call>, user: Id, r: Id, profileAge: nat, requestAge: nat)
    requires Outcome(Run(calls), Complete(user, r, profileAge, requestAge)).Ok?
    ensures var s := Now(Run(calls));
            user in s.profileOf && r in s.requests && s.requests[r].assignee == Some(s.profileOf[user])
  {
    RunIsSound(calls);
  }

  /** `rejectApplication` re-checks only the application, yet never rejects on a request that left OPEN. */
  lemma RejectsOnlyOnOpen(calls: seq<Call>, user: Id, r: Id, a: Id, requestAge: nat, applicationAge: nat)
    requires Outcome(Run(calls), Reject(user, r, a, requestAge, applicationAge)).Ok?
    ensures Now(Run(calls)).RequestIs(r, Open)
    ensures a in Now(Run(calls)).applications && Now(Run(calls)).applications[a] == Application(r, Now(Run(calls)).applications[a].handyman, Pending)
    ensures Next(Run(calls), Reject(user, r, a, requestAge, applicationAge)).applications
         == Now(Run(calls)).applications[a := Now(Run(calls)).applications[a].(status := Rejected)]
  {
    RunIsSound(calls);
    RejectsPending(View(Run(calls), requestAge), View(Run(calls), applicationAge), Now(Run(calls)), user, r, a);
  }

  lemma RejectsPending(seenRequest: Store, seenApplication: Store, s: Store, user: Id, r: Id, a: Id)
    requires PendingOnlyOnOpen(s) && Evolves(seenApplication, s)
    requires RejectApplication(seenRequest, seenApplication, s, user, r, a).Ok?
    ensures s.RequestIs(r, Open) && a in s.applications
    ensures s.applications[a] == Application(r, s.applications[a].handyman, Pending)
    ensures RejectApplication(seenRequest, seenApplication, s, user, r, a).value.applications
         == s.applications[a := s.applications[a].(status := Rejected)]
  {
    var x :| x in Selected(s.applications, ById(a, {Pending}));
    assert x == a;
    RejectWrites(seenRequest, seenApplication, s, user, r, a);
  }

  /** A PENDING application's request is OPEN, in every store of every run. */
  lemma PendingIsOpen(calls: seq<Call>, s: Store, a: Id)
    requires s in Run(calls) && a in s.applications && s.applications[a].status == Pending
    ensures s.RequestIs(s.applications[a].request, Open)
  {
    EveryStoreIsSound(calls, s);
  }

  /** The log replays to the row: who holds the request, and whether and for whom it closed. */
  lemma {:induction false} LedgerTheorem(calls: seq<Call>, s: Store, r: Id)
    requires s in Run(calls) && r in s.requests
    ensures var row := s.requests[r];
            && Balance(s.events, r) == (if row.assignee.Some? then 1 else 0)
            && Replay(s.events, r) == row.assignee
            && Completions(s.events, r) == (if row.status == Completed then 1 else 0)
            && Cancellations(s.events, r) == (if row.status == Cancelled then 1 else 0)
            && (forall h :: RequestCompleted(r, h) in s.events ==> h == row.assignee && h.Some?)
            && (forall h :: RequestCancelled(r, h) in s.events ==> h == row.assignee)
  {
    EveryStoreIsSound(calls, s);
    assert LedgerOf(s.events, r, RowOf(s, r));
  }

  // ------------------------------------------------------------------ dashboard

  function AssignedTo(s: Store, p: Id, statuses: set<RequestStatus>): set<Id> {
    set r | r in s.requests && s.requests[r].assignee == Some(p) && s.requests[r].status in statuses
  }

  function CountByHandymanAndStatus(s: Store, p: Id, status: RequestStatus): nat {
    |AssignedTo(s, p, {status})|
  }

  function OngoingCount(s: Store, p: Id): nat {
    CountByHandymanAndStatus(s, p, Assigned)
    + CountByHandymanAndStatus(s, p, InProgress)
    + CountByHandymanAndStatus(s, p, AwaitingConfirmation)
  }

  function CompletedCount(s: Store, p: Id): nat {
    CountByHandymanAndStatus(s, p, Completed)
  }

  const ONGOING := {Assigned, InProgress, AwaitingConfirmation}

  /** The total behind a listing of a handyman's requests. */
  function ListingTotal(s: Store, p: Id, statuses: set<RequestStatus>): nat {
    |AssignedTo(s, p, statuses)|
  }

  function AcceptedOf(s: Store, p: Id): set<Id> {
    set a | a in s.applications && s.applications[a].handyman == p && s.applications[a].status == Accepted
  }

  lemma SplitTotal(s: Store, p: Id, some: set<RequestStatus>, others: set<RequestStatus>)
    requires some !! others
    ensures |AssignedTo(s, p, some + others)| == |AssignedTo(s, p, some)| + |AssignedTo(s, p, others)|
  {
    assert AssignedTo(s, p, some + others) == AssignedTo(s, p, some) + AssignedTo(s, p, others);
  }

  /** The dashboard's three counts add up to the total of its `ongoing` listing. */
  lemma OngoingIsListing(s: Store, p: Id)
    ensures OngoingCount(s, p) == ListingTotal(s, p, ONGOING)
  {
    SplitTotal(s, p, {Assigned}, {InProgress});
    SplitTotal(s, p, {Assigned, InProgress}, {AwaitingConfirmation});
    assert {Assigned} + {InProgress} == {Assigned, InProgress};
    assert {Assigned, InProgress} + {AwaitingConfirmation} == ONGOING;
  }

  /** A one-to-one correspondence between two finite sets. */
  lemma {:induction false} SameSize(xs: set<Id>, ys: set<Id>, f: map<Id, Id>)
    requires xs <= f.Keys
    requires forall x :: x in xs ==> f[x] in ys
    requires forall x, x' :: x in xs && x' in xs && f[x] == f[x'] ==> x == x'
    requires forall y :: y in ys ==> exists x :: x in xs && f[x] == y
    ensures |xs| == |ys|
  {
    if xs != {} {
      var x :| x in xs;
      forall y | y in ys - {f[x]} ensures exists x' :: x' in xs - {x} && f[x'] == y {
        var x' :| x' in xs && f[x'] == y;
        assert x' in xs - {x};
      }
      SameSize(xs - {x}, ys - {f[x]}, f);
    } else {
      assert ys == {};
    }
  }

  /** A handyman's ACCEPTED applications correspond to the requests they hold or have completed. */
  lemma AcceptedAreHeld(s: Store, p: Id)
    requires Linked(s) && AllAgree(s)
    ensures |AcceptedOf(s, p)| == |AssignedTo(s, p, ONGOING + {Completed})|
  {
    var held := AssignedTo(s, p, ONGOING + {Completed});
    var f := map a | a in s.applications :: s.applications[a].request;
    forall a | a in AcceptedOf(s, p) ensures f[a] in held {
      HoldsRequest(s, a);
    }
    forall a, b | a in AcceptedOf(s, p) && b in AcceptedOf(s, p) && f[a] == f[b] ensures a == b {
      HoldsRequest(s, a);
      assert IsAccepted(s.applications, f[a], b);
    }
    forall r | r in held ensures exists a :: a in AcceptedOf(s, p) && f[a] == r {
      var a := WinningApplication(s, r);
      assert a in AcceptedOf(s, p) && f[a] == r;
    }
    SameSize(AcceptedOf(s, p), held, f);
  }

  lemma WinningApplication(s: Store, r: Id) returns (a: Id)
    requires AllAgree(s) && r in s.requests && Engaged(s.requests[r].status)
    ensures IsAccepted(s.applications, r, a) && s.requests[r].assignee == Some(s.applications[a].handyman)
  {
    assert Agrees(s, r);
    a :| IsAccepted(s.applications, r, a) && OnlyAccepted(s, r, a);
  }

  lemma HoldsRequest(s: Store, a: Id)
    requires Linked(s) && AllAgree(s) && a in s.applications && s.applications[a].status == Accepted
    ensures var r := s.applications[a].request;
            && r in s.requests && Engaged(s.requests[r].status)
            && s.requests[r].assignee == Some(s.applications[a].handyman)
            && forall b :: IsAccepted(s.applications, r, b) ==> b == a
  {
    var r := s.applications[a].request;
    assert Agrees(s, r) && IsAccepted(s.applications, r, a);
  }

  ghost predicate CountsMatch(s: Store) {
    forall p :: |AcceptedOf(s, p)| == OngoingCount(s, p) + CompletedCount(s, p)
  }

  /**
   For every handyman the ACCEPTED applications number the ongoing and completed
   requests, in every store of a run, if and only if no call was a stale reopening.
   */
  lemma {:induction false} DashboardTheorem(calls: seq<Call>)
    ensures (forall s :: s in Run(calls) ==> CountsMatch(s)) <==> NeverStale(calls)
  {
    var good := (s: Store) => CountsMatch(s);
    var bad := (h: History, call: Call) => StaleReopen(h, call);
    forall init, call | AllGood(Run(init), good) && Never(init, bad)
      ensures good(Next(Run(init), call)) <==> !bad(Run(init), call)
    {
      assert NeverStale(init);
      AgreementTheorem(init);
      RunIsSound(init);
      assert AllAgree(Now(Run(init)));
      StepCounts(Run(init), call);
    }
    EmptyMatches();
    AlwaysIffNever(calls, good, bad);
    assert (forall s :: s in Run(calls) ==> CountsMatch(s)) <==> AllGood(Run(calls), good);
    assert NeverStale(calls) <==> Never(calls, bad);
  }

  lemma EmptyMatches()
    ensures CountsMatch(EMPTY)
  {
    forall p ensures |AcceptedOf(EMPTY, p)| == OngoingCount(EMPTY, p) + CompletedCount(EMPTY, p) {
      CountsAgree(EMPTY, p);
    }
  }

  lemma StepCounts(h: History, call: Call)
    requires SoundHistory(h) && AllAgree(Now(h))
    ensures CountsMatch(Next(h, call)) <==> !StaleReopen(h, call)
  {
    StepAgreesOnAll(h, call);
    StepKeeps(h, call);
    if StaleReopen(h, call) {
      var s, t := Now(h), Next(h, call);
      ReopenWrites(View(h, call.profileAge), View(h, call.requestAge), s, call.user, call.request);
      assert Stamped(s.requests[call.request]);
      Displaced(s, t, call.request, View(h, call.profileAge).profileOf[call.user], s.requests[call.request].assignee.value);
    } else {
      forall p ensures |AcceptedOf(Next(h, call), p)| == OngoingCount(Next(h, call), p) + CompletedCount(Next(h, call), p) {
        CountsAgree(Next(h, call), p);
      }
    }
  }

  lemma ReopenWrites(seenProfile: Store, seenRequest: Store, s: Store, user: Id, r: Id)
    requires CancelAssignedRequest(seenProfile, seenRequest, s, user, r).Ok?
    ensures user in seenProfile.profileOf && s.RequestIs(r, Assigned)
    ensures Reopens(s, CancelAssignedRequest(seenProfile, seenRequest, s, user, r).value, r, seenProfile.profileOf[user])
  {
  }

  predicate Reopens(s: Store, t: Store, r: Id, p: Id) {
    && r in s.requests
    && t.requests == s.requests[r := s.requests[r].(status := Open, assignee := None)]
    && t.applications == UpdateMany(s.applications, OfRequest(r, {Accepted}).(handyman := Some(p)), Withdrawn)
  }

  lemma KeepsAccepted(s: Store, t: Store, r: Id, p: Id, q: Id)
    requires Reopens(s, t, r, p) && p != q
    ensures AcceptedOf(t, q) == AcceptedOf(s, q)
  {
  }

  lemma LosesHeld(s: Store, t: Store, r: Id, p: Id, q: Id)
    requires Reopens(s, t, r, p) && s.requests[r].status == Assigned && s.requests[r].assignee == Some(q)
    ensures |AssignedTo(t, q, ONGOING + {Completed})| == |AssignedTo(s, q, ONGOING + {Completed})| - 1
  {
    assert AssignedTo(t, q, ONGOING + {Completed}) == AssignedTo(s, q, ONGOING + {Completed}) - {r};
  }

  /** The displaced assignee loses the request and keeps the ACCEPTED application. */
  lemma Displaced(s: Store, t: Store, r: Id, p: Id, q: Id)
    requires Linked(s) && AllAgree(s) && Reopens(s, t, r, p) && p != q
    requires s.requests[r].status == Assigned && s.requests[r].assignee == Some(q)
    ensures |AcceptedOf(t, q)| == OngoingCount(t, q) + CompletedCount(t, q) + 1
  {
    KeepsAccepted(s, t, r, p, q);
    LosesHeld(s, t, r, p, q);
    AcceptedAreHeld(s, q);
    OngoingIsListing(t, q);
    SplitTotal(t, q, ONGOING, {Completed});
  }

  lemma CountsAgree(s: Store, p: Id)
    requires Linked(s) && AllAgree(s)
    ensures |AcceptedOf(s, p)| == OngoingCount(s, p) + CompletedCount(s, p)
  {
    AcceptedAreHeld(s, p);
    OngoingIsListing(s, p);
    SplitTotal(s, p, ONGOING, {Completed});
  }

  /** The dashboard's two numbers; each of its four queries, one per status, sees a store of its own. */
  function DashboardOf(queries: RequestStatus -> Store, p: Id): (nat, nat) {
    (CountByHandymanAndStatus(queries(Assigned), p, Assigned)
     + CountByHandymanAndStatus(queries(InProgress), p, InProgress)
     + CountByHandymanAndStatus(queries(AwaitingConfirmation), p, AwaitingConfirmation),
     CountByHandymanAndStatus(queries(Completed), p, Completed))
  }

  // ---------------------------------------------------------------- no trapdoor

  function RowsFor(s: Store, r: Id, p: Id, statuses: set<ApplicationStatus>): set<Id> {
    set a | a in s.applications && s.applications[a].request == r && s.applications[a].handyman == p
            && s.applications[a].status in statuses
  }

  const ANY_STATUS := {Pending, Accepted, Rejected, Withdrawn}

  /** Never more than one row per request and handyman. */
  lemma AtMostOneRow(calls: seq<Call>, s: Store, r: Id, p: Id)
    requires s in Run(calls)
    ensures |RowsFor(s, r, p, ANY_STATUS)| <= 1
  {
    EveryStoreIsSound(calls, s);
    var rows := RowsFor(s, r, p, ANY_STATUS);
    if a :| a in rows {
      assert forall b :: b in rows ==> b == s.applicationOf[(r, p)];
      assert rows == {a};
    }
  }

  /** What applying needs and does, read and written on one store. */
  lemma ApplySucceeds(s: Store, user: Id, p: Id, r: Id, newId: Id)
    requires Linked(s)
    requires user in s.profileOf && s.profileOf[user] == p
    requires p in s.profiles && s.profiles[p].status == Verified
    requires s.RequestIs(r, Open) && s.Serves(p, s.requests[r].category)
    requires newId !in s.applications
    ensures var outcome := ApplyToRequest(s, s, s, s, s, user, r, newId);
            && (outcome.Ok? <==> RowsFor(s, r, p, {Pending, Accepted}) == {})
            && (outcome.Ok? ==> RowsFor(outcome.value, r, p, {Pending}) != {})
            && (outcome.Err? ==> outcome.error == DuplicateApplication)
  {
    if (r, p) in s.applicationOf {
      var a := s.applicationOf[(r, p)];
      if s.applications[a].status == Pending || s.applications[a].status == Accepted {
        assert a in RowsFor(s, r, p, {Pending, Accepted});
      } else {
        assert a in Selected(s.applications, ById(a, {Withdrawn, Rejected}));
        var t := s.(applications := UpdateMany(s.applications, ById(a, {Withdrawn, Rejected}), Pending));
        assert a in RowsFor(t, r, p, {Pending});
      }
    } else {
      var t := s.(applications := s.applications[newId := Application(r, p, Pending)],
                  applicationOf := s.applicationOf[(r, p) := newId]);
      assert newId in RowsFor(t, r, p, {Pending});
    }
  }

  /**
   In every run a serving, verified handyman can apply to an OPEN request exactly
   when none of their applications there is PENDING or ACCEPTED.
   */
  lemma {:induction false} AppliesExactly(calls: seq<Call>, s: Store, user: Id, p: Id, r: Id, newId: Id)
    requires s == Now(Run(calls))
    requires user in s.profileOf && s.profileOf[user] == p
    requires p in s.profiles && s.profiles[p].status == Verified
    requires s.RequestIs(r, Open) && s.Serves(p, s.requests[r].category)
    requires newId !in s.applications
    ensures var outcome := Outcome(Run(calls), Apply(user, r, newId, 0, 0, 0, 0));
            && (outcome.Ok? <==> RowsFor(s, r, p, {Pending, Accepted}) == {})
            && (outcome.Ok? ==> RowsFor(outcome.value, r, p, {Pending}) != {})
            && (outcome.Err? ==> outcome.error == DuplicateApplication)
  {
    RunIsSound(calls);
    ApplyNow(Run(calls), user, p, r, newId);
  }

  lemma ApplyNow(h: History, user: Id, p: Id, r: Id, newId: Id)
    requires Linked(Now(h))
    requires user in Now(h).profileOf && Now(h).profileOf[user] == p
    requires p in Now(h).profiles && Now(h).profiles[p].status == Verified
    requires Now(h).RequestIs(r, Open) && Now(h).Serves(p, Now(h).requests[r].category)
    requires newId !in Now(h).applications
    ensures var outcome := Outcome(h, Apply(user, r, newId, 0, 0, 0, 0));
            && (outcome.Ok? <==> RowsFor(Now(h), r, p, {Pending, Accepted}) == {})
            && (outcome.Ok? ==> RowsFor(outcome.value, r, p, {Pending}) != {})
            && (outcome.Err? ==> outcome.error == DuplicateApplication)
  {
    ApplySucceeds(Now(h), user, p, r, newId);
  }

  /** No trapdoor, as long as the request was not reopened stale: only a PENDING application stands in the way. */
  lemma {:induction false} NoTrapdoor(calls: seq<Call>, s: Store, user: Id, p: Id, r: Id, newId: Id)
    requires NeverStaleOn(calls, r) && s == Now(Run(calls))
    requires user in s.profileOf && s.profileOf[user] == p
    requires p in s.profiles && s.profiles[p].status == Verified
    requires s.RequestIs(r, Open) && s.Serves(p, s.requests[r].category)
    requires newId !in s.applications
    ensures Outcome(Run(calls), Apply(user, r, newId, 0, 0, 0, 0)).Ok? <==> RowsFor(s, r, p, {Pending}) == {}
  {
    AppliesExactly(calls, s, user, p, r, newId);
    OpenHasNoneAccepted(calls, s, r);
    forall a ensures a in RowsFor(s, r, p, {Pending, Accepted}) <==> a in RowsFor(s, r, p, {Pending}) {
      assert !IsAccepted(s.applications, r, a);
    }
    assert RowsFor(s, r, p, {Pending, Accepted}) == RowsFor(s, r, p, {Pending});
  }

  lemma OpenHasNoneAccepted(calls: seq<Call>, s: Store, r: Id)
    requires NeverStaleOn(calls, r) && s in Run(calls) && s.RequestIs(r, Open)
    ensures forall a :: !IsAccepted(s.applications, r, a)
  {
    RequestAgreement(calls, r);
    assert Agrees(s, r);
  }

  // -------------------------------------------------- the two guards on the status alone

  /** The last assignment or unassignment of the request in a stretch of the log, if any. */
  function LastTurn(events: seq<Event>, r: Id): Option<Option<Id>> {
    if events == [] then None
    else
      var last := events[|events| - 1];
      if last.RequestAssigned? && last.request == r then Some(Some(last.handyman))
      else if last.RequestUnassigned? && last.request == r then Some(None)
      else LastTurn(events[..|events| - 1], r)
  }

  lemma {:induction false} ReplayOn(before: seq<Event>, since: seq<Event>, r: Id)
    ensures Replay(before + since, r) == if LastTurn(since, r).Some? then LastTurn(since, r).value else Replay(before, r)
  {
    if since == [] {
      assert before + since == before;
    } else {
      var n := |since| - 1;
      assert (before + since)[..|before + since| - 1] == before + since[..n];
      assert (before + since)[|before + since| - 1] == since[n];
      ReplayOn(before, since[..n], r);
    }
  }

  /** Whoever held the request at the read still holds it, exactly if the log since then assigned it to no one else last. */
  lemma HolderSince(seen: Store, s: Store, r: Id, p: Id)
    requires Ledger(seen) && Ledger(s) && Evolves(seen, s)
    requires r in seen.requests && seen.requests[r].assignee == Some(p)
    requires r in s.requests && s.requests[r].assignee.Some?
    ensures s.requests[r].assignee == Some(p) <==> LastTurn(s.events[|seen.events|..], r) in {None, Some(Some(p))}
  {
    assert s.events == seen.events + s.events[|seen.events|..];
    ReplayOn(seen.events, s.events[|seen.events|..], r);
    assert LedgerOf(seen.events, r, RowOf(seen, r)) && LedgerOf(s.events, r, RowOf(s, r));
  }

  /** Starting and backing out commit for the assignee, exactly if no one else was assigned last since the request was read. */
  lemma CallerStillHolds(calls: seq<Call>, call: Call)
    requires (call.Start? || call.CancelAssigned?) && Outcome(Run(calls), call).Ok?
    ensures var h := Run(calls); var s, seen := Now(h), View(h, call.requestAge);
            && call.user in View(h, call.profileAge).profileOf && call.request in s.requests
            && var p := View(h, call.profileAge).profileOf[call.user];
               && |seen.events| <= |s.events|
               && (s.requests[call.request].assignee == Some(p)
                   <==> LastTurn(s.events[|seen.events|..], call.request) in {None, Some(Some(p))})
  {
    var h := Run(calls);
    RunIsSound(calls);
    ViewIsSound(calls, call.requestAge);
    assert Stamped(Now(h).requests[call.request]);
    HolderSince(View(h, call.requestAge), Now(h), call.request, View(h, call.profileAge).profileOf[call.user]);
  }

  lemma ViewIsSound(calls: seq<Call>, age: nat)
    ensures Sound(View(Run(calls), age)) && Evolves(View(Run(calls), age), Now(Run(calls)))
  {
    RunIsSound(calls);
    EveryStoreIsSound(calls, View(Run(calls), age));
  }
}

/** When the dashboard's separate queries tear: what they add up to while one write goes on beside them. */
module Dashboards {
  import opened Prelude
  import opened Histories
  import opened Marketplace
  import opened MarketplaceRuns
  import opened Agreement
  import opened LifecycleTheorems
  import opened Transitions
  import opened StaleReopening

  function Whole(s: Store, p: Id): (nat, nat) {
    DashboardOf(_ => s, p)
  }

  /** Every query sees the store before the write or the one after it. */
  ghost predicate Beside(queries: RequestStatus -> Store, s: Store, t: Store) {
    forall status :: queries(status) == s || queries(status) == t
  }

  /** A request of the handyman goes from one counted status to another between the queries of the two. */
  ghost predicate Straddles(s: Store, t: Store, queries: RequestStatus -> Store, p: Id) {
    exists r :: r in s.requests && r in t.requests && StraddledBy(s, t, queries, p, r)
  }

  predicate StraddledBy(s: Store, t: Store, queries: RequestStatus -> Store, p: Id, r: Id)
    requires r in s.requests && r in t.requests
  {
    var from, to := s.requests[r], t.requests[r];
    && from.assignee == Some(p) && to.assignee == Some(p)
    && Engaged(from.status) && Engaged(to.status) && from.status != to.status
    && queries(from.status) != queries(to.status)
  }

  predicate Unmoved(s: Store, t: Store) {
    && (forall r :: r in s.requests ==> r in t.requests && t.requests[r] == s.requests[r])
    && (forall r :: r in t.requests && r !in s.requests ==> t.requests[r].status == Open)
  }

  predicate MovesOne(s: Store, t: Store, r: Id) {
    r in s.requests && r in t.requests && t.requests == s.requests[r := t.requests[r]]
  }

  function Held(row: Request, p: Id, status: RequestStatus): nat {
    if row.assignee == Some(p) && row.status == status then 1 else 0
  }

  /** One row written moves each count by whether the row was counted and is. */
  lemma CountMoves(s: Store, t: Store, r: Id, p: Id, status: RequestStatus)
    requires MovesOne(s, t, r)
    ensures CountByHandymanAndStatus(t, p, status) + Held(s.requests[r], p, status)
         == CountByHandymanAndStatus(s, p, status) + Held(t.requests[r], p, status)
  {
    var others := AssignedTo(s, p, {status}) - {r};
    assert AssignedTo(t, p, {status}) - {r} == others;
    CountWith(s, p, status, r);
    CountWith(t, p, status, r);
  }

  lemma CountWith(s: Store, p: Id, status: RequestStatus, r: Id)
    requires r in s.requests
    ensures CountByHandymanAndStatus(s, p, status) == |AssignedTo(s, p, {status}) - {r}| + Held(s.requests[r], p, status)
  {
    if r in AssignedTo(s, p, {status}) {
      assert AssignedTo(s, p, {status}) == (AssignedTo(s, p, {status}) - {r}) + {r};
    } else {
      assert AssignedTo(s, p, {status}) == AssignedTo(s, p, {status}) - {r};
    }
  }

  /** A request that stays engaged keeps its assignee. */
  predicate KeepsAssignee(before: Request, after: Request) {
    Engaged(before.status) && Engaged(after.status) ==> after.assignee == before.assignee
  }

  function Delta(before: Request, after: Request, p: Id, status: RequestStatus): int {
    Held(after, p, status) - Held(before, p, status)
  }

  /** A query counts what the store before did, and the move if it sees the store after. */
  lemma QueryCounts(queries: RequestStatus -> Store, s: Store, t: Store, r: Id, p: Id, status: RequestStatus)
    requires MovesOne(s, t, r)
    requires Beside(queries, s, t)
    ensures CountByHandymanAndStatus(t, p, status)
         == CountByHandymanAndStatus(s, p, status) + Delta(s.requests[r], t.requests[r], p, status)
    ensures CountByHandymanAndStatus(queries(status), p, status)
         == CountByHandymanAndStatus(s, p, status) + if queries(status) == s then 0 else Delta(s.requests[r], t.requests[r], p, status)
  {
    CountMoves(s, t, r, p, status);
    assert queries(status) == s || queries(status) == t;
  }

  /** The numbers, given how far each of the four queries is along. */
  lemma Whichever(queries: RequestStatus -> Store, s: Store, t: Store, r: Id, p: Id)
    requires MovesOne(s, t, r)
    requires Beside(queries, s, t)
    ensures var before, after := s.requests[r], t.requests[r];
            var seen := (status: RequestStatus) => if queries(status) == s then 0 else Delta(before, after, p, status);
            && DashboardOf(queries, p).0 == Whole(s, p).0 + seen(Assigned) + seen(InProgress) + seen(AwaitingConfirmation)
            && DashboardOf(queries, p).1 == Whole(s, p).1 + seen(Completed)
            && Whole(t, p).0 == Whole(s, p).0 + Delta(before, after, p, Assigned) + Delta(before, after, p, InProgress)
                                + Delta(before, after, p, AwaitingConfirmation)
            && Whole(t, p).1 == Whole(s, p).1 + Delta(before, after, p, Completed)
  {
    QueryCounts(queries, s, t, r, p, Assigned);
    QueryCounts(queries, s, t, r, p, InProgress);
    QueryCounts(queries, s, t, r, p, AwaitingConfirmation);
    QueryCounts(queries, s, t, r, p, Completed);
  }

  lemma RowTears(s: Store, t: Store, r: Id, p: Id, queries: RequestStatus -> Store)
    requires MovesOne(s, t, r)
    requires KeepsAssignee(s.requests[r], t.requests[r]) && Beside(queries, s, t)
    ensures DashboardOf(queries, p) == Whole(s, p) || DashboardOf(queries, p) == Whole(t, p) <==> !StraddledBy(s, t, queries, p, r)
  {
    Whichever(queries, s, t, r, p);
    var from, to := s.requests[r].status, t.requests[r].status;
    assert queries(from) == s || queries(from) == t;
    assert queries(to) == s || queries(to) == t;
  }

  /** A new or unmoved request tears nothing. */
  lemma SameCounts(s: Store, t: Store, p: Id, status: RequestStatus)
    requires status != Open
    requires Unmoved(s, t)
    ensures CountByHandymanAndStatus(t, p, status) == CountByHandymanAndStatus(s, p, status)
  {
    assert AssignedTo(t, p, {status}) == AssignedTo(s, p, {status});
  }

  lemma NothingTears(s: Store, t: Store, p: Id, queries: RequestStatus -> Store)
    requires Unmoved(s, t)
    requires Beside(queries, s, t)
    ensures DashboardOf(queries, p) == Whole(s, p) && !Straddles(s, t, queries, p)
  {
    SameCounts(s, t, p, Assigned);
    SameCounts(s, t, p, InProgress);
    SameCounts(s, t, p, AwaitingConfirmation);
    SameCounts(s, t, p, Completed);
    assert queries(Assigned) == s || queries(Assigned) == t;
    assert queries(InProgress) == s || queries(InProgress) == t;
    assert queries(AwaitingConfirmation) == s || queries(AwaitingConfirmation) == t;
    assert queries(Completed) == s || queries(Completed) == t;
  }

  lemma StartKeepsAssignee(seenProfile: Store, seenRequest: Store, s: Store, user: Id, r: Id)
    requires StartRequest(seenProfile, seenRequest, s, user, r).Ok?
    ensures r in s.requests && KeepsRow(s, StartRequest(seenProfile, seenRequest, s, user, r).value, r)
  {
  }

  lemma CompleteKeepsAssignee(seenProfile: Store, seenRequest: Store, s: Store, user: Id, r: Id)
    requires CompleteRequest(seenProfile, seenRequest, s, user, r).Ok?
    ensures r in s.requests && KeepsRow(s, CompleteRequest(seenProfile, seenRequest, s, user, r).value, r)
  {
  }

  lemma ConfirmKeepsAssignee(seen: Store, s: Store, user: Id, r: Id, now: nat)
    requires ConfirmCompletion(seen, s, user, r, now).Ok?
    ensures r in s.requests && KeepsRow(s, ConfirmCompletion(seen, s, user, r, now).value, r)
  {
  }

  predicate KeepsRow(s: Store, t: Store, r: Id)
    requires r in s.requests
  {
    r in t.requests && t.requests[r].assignee == s.requests[r].assignee
  }

  lemma StepKeepsAssignee(h: History, call: Call)
    requires Outcome(h, call).Ok? && (call.Start? || call.Complete? || call.Confirm?)
    ensures call.request in Now(h).requests && KeepsRow(Now(h), Next(h, call), call.request)
  {
    match call
    case Start(u, r, pa, ra) => StartKeepsAssignee(View(h, pa), View(h, ra), Now(h), u, r);
    case Complete(u, r, pa, ra) => CompleteKeepsAssignee(View(h, pa), View(h, ra), Now(h), u, r);
    case Confirm(u, r, ra, now) => ConfirmKeepsAssignee(View(h, ra), Now(h), u, r, now);
  }

  /** The other moves start or end outside the engaged statuses. */
  lemma OtherMoves(call: Call, r: Id, before: Request, after: Request)
    requires RequestMove(call, r, before.status, after.status)
    ensures KeepsAssignee(before, after) || ((call.Start? || call.Complete? || call.Confirm?) && call.request == r)
  {
  }

  /** Legal moves are of the call's own request. */
  lemma LegalMovesOne(s: Store, t: Store, call: Call, r: Id)
    requires RequestsStep(s, t, call) && r in s.requests && t.requests[r] != s.requests[r]
    ensures MovesOne(s, t, r) && RequestMove(call, r, s.requests[r].status, t.requests[r].status)
  {
    assert RequestStep(call, r, s.requests[r], t.requests[r]);
    forall q ensures (q in t.requests <==> q in s.requests) && (q in s.requests && q != r ==> t.requests[q] == s.requests[q]) {
      assert q in s.requests ==> RequestStep(call, q, s.requests[q], t.requests[q]);
    }
    assert t.requests == s.requests[r := t.requests[r]];
  }

  /** At most one request is written, and it keeps its assignee while engaged. */
  lemma StepMovesOne(h: History, call: Call, r: Id)
    requires SoundHistory(h) && Outcome(h, call).Ok? && r in Now(h).requests && RequestsStep(Now(h), Next(h, call), call)
    requires Next(h, call).requests[r] != Now(h).requests[r]
    ensures MovesOne(Now(h), Next(h, call), r) && KeepsAssignee(Now(h).requests[r], Next(h, call).requests[r])
  {
    LegalMovesOne(Now(h), Next(h, call), call, r);
    OtherMoves(call, r, Now(h).requests[r], Next(h, call).requests[r]);
    if call.Start? || call.Complete? || call.Confirm? {
      StepKeepsAssignee(h, call);
    }
  }

  /**
   Beside any one write of any run, the dashboard shows the numbers before it or
   those after it, if and only if no request of the handyman goes from one counted
   status to another between the queries of the two.
   */
  lemma {:induction false} TornExactly(calls: seq<Call>, call: Call, queries: RequestStatus -> Store, p: Id)
    requires Beside(queries, Now(Run(calls)), Next(Run(calls), call))
    ensures var s, t := Now(Run(calls)), Next(Run(calls), call);
            DashboardOf(queries, p) == Whole(s, p) || DashboardOf(queries, p) == Whole(t, p) <==> !Straddles(s, t, queries, p)
  {
    RunIsSound(calls);
    StepTears(Run(calls), call, queries, p);
  }

  lemma StepTears(h: History, call: Call, queries: RequestStatus -> Store, p: Id)
    requires SoundHistory(h) && Beside(queries, Now(h), Next(h, call))
    ensures var s, t := Now(h), Next(h, call);
            DashboardOf(queries, p) == Whole(s, p) || DashboardOf(queries, p) == Whole(t, p) <==> !Straddles(s, t, queries, p)
  {
    var s, t := Now(h), Next(h, call);
    if Outcome(h, call).Err? {
      NothingTears(s, t, p, queries);
    } else {
      StepIsLegal(h, call);
      if r :| r in s.requests && t.requests[r] != s.requests[r] {
        StepMovesOne(h, call, r);
        OneTears(s, t, r, p, queries);
      } else {
        NothingTears(s, t, p, queries);
      }
    }
  }

  lemma OneTears(s: Store, t: Store, r: Id, p: Id, queries: RequestStatus -> Store)
    requires MovesOne(s, t, r) && KeepsAssignee(s.requests[r], t.requests[r]) && Beside(queries, s, t)
    ensures DashboardOf(queries, p) == Whole(s, p) || DashboardOf(queries, p) == Whole(t, p) <==> !Straddles(s, t, queries, p)
  {
    RowTears(s, t, r, p, queries);
    assert forall q :: q in s.requests && q in t.requests && StraddledBy(s, t, queries, p, q) ==> q == r;
  }

  // ------------------------------------------------------------------ a run

  /** The queries for ASSIGNED see the store before the write, the others the one after. */
  function AssignedFirst(s: Store, t: Store): RequestStatus -> Store {
    status => if status == Assigned then s else t
  }

  lemma StartsFirst(h: History, e: seq<Event>)
    requires Now(h) == Scene(Assigned, Some(1), Accepted, Rejected, e)
    ensures Outcome(h, Start(1, 0, 0, 0)) == Ok(Scene(InProgress, Some(1), Accepted, Rejected, e))
  {
    assert Now(h).requests[0 := Request(3, 0, InProgress, Some(1), None, None)]
        == map[0 := Request(3, 0, InProgress, Some(1), None, None)];
  }

  /** At no time of this run has handyman 1 more than one ongoing request; queries that straddle its last write show two. */
  lemma TornHappens() returns (calls: seq<Call>, call: Call, queries: RequestStatus -> Store)
    ensures AllAtomic(calls + [call])
    ensures Beside(queries, Now(Run(calls)), Next(Run(calls), call))
    ensures forall s :: s in Run(calls + [call]) ==> Whole(s, 1).0 <= 1
    ensures DashboardOf(queries, 1).0 == 2
  {
    var e;
    calls, e := FirstAssigned();
    call := Start(1, 0, 0, 0);
    var s, t := Scene(Assigned, Some(1), Accepted, Rejected, e), Scene(InProgress, Some(1), Accepted, Rejected, e);
    StartsFirst(Run(calls), e);
    Extend(calls, s, call, t);
    queries := AssignedFirst(s, t);
    TwoAtOnce(e);
    forall u | u in Run(calls + [call]) ensures Whole(u, 1).0 <= 1 {
      RunIsSound(calls + [call]);
      assert u.requests.Keys <= t.requests.Keys;
      AtMostOne(u, 1);
    }
  }

  lemma AtMostOne(s: Store, p: Id)
    requires s.requests.Keys <= {0}
    ensures Whole(s, p).0 <= 1
  {
    OngoingIsListing(s, p);
    assert AssignedTo(s, p, ONGOING) <= {0};
    Fewer(AssignedTo(s, p, ONGOING), {0});
  }

  lemma Fewer(xs: set<Id>, ys: set<Id>)
    requires xs <= ys
    ensures |xs| <= |ys|
  {
    assert ys == xs + (ys - xs);
  }

  lemma TwoAtOnce(e: seq<Event>)
    ensures var s, t := Scene(Assigned, Some(1), Accepted, Rejected, e), Scene(InProgress, Some(1), Accepted, Rejected, e);
            DashboardOf(AssignedFirst(s, t), 1).0 == 2
  {
    var s, t := Scene(Assigned, Some(1), Accepted, Rejected, e), Scene(InProgress, Some(1), Accepted, Rejected, e);
    assert AssignedTo(s, 1, {Assigned}) == {0};
    assert AssignedTo(t, 1, {InProgress}) == {0};
    assert AssignedTo(t, 1, {AwaitingConfirmation}) == {};
  }
}

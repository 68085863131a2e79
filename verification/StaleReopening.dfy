/**
 Two runs, from empty tables, in which a former assignee's call commits on the
 next assignee's request: `cancelAssignedRequest` reopens it, `startRequest`
 starts it. Both read the profile before the request, as the source does.
 */
module StaleReopening {
  import opened Prelude
  import opened Histories
  import opened Marketplace
  import opened MarketplaceRuns
  import opened RunInduction
  import opened Agreement

  /** A run of calls that read what they write, ending in `s`. */
  ghost predicate LeadsTo(calls: seq<Call>, s: Store) {
    Now(Run(calls)) == s && AllAtomic(calls)
  }

  lemma Extend(calls: seq<Call>, s: Store, call: Call, t: Store)
    requires LeadsTo(calls, s) && Atomic(call) && Outcome(Run(calls), call) == Ok(t)
    ensures LeadsTo(calls + [call], t)
  {
    RunExtends(calls, call);
  }

  /** The store `k` writes ago is where the run was before its last `k` calls. */
  lemma Earlier(calls: seq<Call>, last: seq<Call>)
    ensures View(Run(calls + last), |last|) == Now(Run(calls))
  {
    RunPrefix(calls + last, |calls|);
    assert (calls + last)[..|calls|] == calls;
  }

  function VerifiedRow(u: Id): Profile {
    Profile(u, Verified, Some(0), Some(0), {0})
  }

  function WithVerified(s: Store, u: Id): Store {
    s.(profiles := s.profiles[u := VerifiedRow(u)], profileOf := s.profileOf[u := u], documents := s.documents[u := u])
  }

  function WithUploaded(s: Store, u: Id): Store {
    WithFilled(s, u).(documents := s.documents[u := u])
  }

  function WithSubmitted(s: Store, u: Id): Store {
    WithUploaded(s, u).(profiles := WithFilled(s, u).profiles[u := Profile(u, DocumentsSubmitted, None, None, {0})])
  }

  /** Profile and document. */
  lemma MakeUploaded(calls: seq<Call>, s: Store, u: Id) returns (more: seq<Call>)
    requires LeadsTo(calls, s) && u !in s.profileOf && u !in s.profiles && u !in s.documents
    ensures LeadsTo(more, WithUploaded(s, u))
  {
    Fills(Run(calls), u);
    Extend(calls, s, FillProfile(u, u, [0], 0), WithFilled(s, u));
    more := calls + [FillProfile(u, u, [0], 0)];
    Uploads(Run(more), s, u);
    Extend(more, WithFilled(s, u), Upload(u, u, 0), WithUploaded(s, u));
    more := more + [Upload(u, u, 0)];
  }

  /** Then submission. */
  lemma MakeSubmitted(calls: seq<Call>, s: Store, u: Id) returns (more: seq<Call>)
    requires LeadsTo(calls, s) && u !in s.profileOf && u !in s.profiles && u !in s.documents
    ensures LeadsTo(more, WithSubmitted(s, u))
  {
    more := MakeUploaded(calls, s, u);
    Submits(Run(more), s, u);
    Extend(more, WithUploaded(s, u), Submit(u, 0, 0), WithSubmitted(s, u));
    more := more + [Submit(u, 0, 0)];
  }

  /** Then approval. */
  lemma MakeVerified(calls: seq<Call>, s: Store, u: Id) returns (more: seq<Call>)
    requires LeadsTo(calls, s) && u !in s.profileOf && u !in s.profiles && u !in s.documents
    ensures LeadsTo(more, WithVerified(s, u))
  {
    more := MakeSubmitted(calls, s, u);
    Approves(Run(more), s, u);
    Extend(more, WithSubmitted(s, u), Approve(0, u, 0, 0), WithVerified(s, u));
    more := more + [Approve(0, u, 0, 0)];
  }

  function WithFilled(s: Store, u: Id): Store {
    s.(profiles := s.profiles[u := Profile(u, ProfileComplete, None, None, {0})], profileOf := s.profileOf[u := u])
  }

  lemma Fills(h: History, u: Id)
    requires u !in Now(h).profileOf && u !in Now(h).profiles
    ensures Outcome(h, FillProfile(u, u, [0], 0)) == Ok(WithFilled(Now(h), u))
  {
    assert ToSet([0]) == {0};
  }

  lemma Uploads(h: History, s: Store, u: Id)
    requires Now(h) == WithFilled(s, u) && u !in s.documents
    ensures Outcome(h, Upload(u, u, 0)) == Ok(WithUploaded(s, u))
  {
  }

  lemma Submits(h: History, s: Store, u: Id)
    requires Now(h) == WithUploaded(s, u)
    ensures Outcome(h, Submit(u, 0, 0)) == Ok(WithSubmitted(s, u))
  {
    assert u in Now(h).documents && Now(h).documents[u] == u;
  }

  lemma Approves(h: History, s: Store, u: Id)
    requires Now(h) == WithSubmitted(s, u)
    ensures Outcome(h, Approve(0, u, 0, 0)) == Ok(WithVerified(s, u))
  {
    assert Now(h).profiles[u := VerifiedRow(u)] == s.profiles[u := VerifiedRow(u)];
  }

  /** Two verified handymen, nothing else. */
  const READY := WithVerified(WithVerified(EMPTY, 1), 2)

  function TwoRows(first: ApplicationStatus, second: ApplicationStatus): Applications {
    map[1 := Application(0, 1, first), 2 := Application(0, 2, second)]
  }

  lemma AcceptingFirst()
    ensures var rows := TwoRows(Pending, Pending);
            && 1 in Selected(rows, ById(1, {Pending}))
            && UpdateMany(UpdateMany(rows, ById(1, {Pending}), Accepted), OfRequest(0, {Pending}).(notId := Some(1)), Rejected)
               == TwoRows(Accepted, Rejected)
  {
  }

  lemma AcceptingSecond()
    ensures var rows := TwoRows(Withdrawn, Pending);
            && 2 in Selected(rows, ById(2, {Pending}))
            && UpdateMany(UpdateMany(rows, ById(2, {Pending}), Accepted), OfRequest(0, {Pending}).(notId := Some(2)), Rejected)
               == TwoRows(Withdrawn, Accepted)
  {
  }

  lemma FirstWithdrawn()
    ensures UpdateMany(TwoRows(Accepted, Rejected), OfRequest(0, {Accepted}).(handyman := Some(1)), Withdrawn)
         == TwoRows(Withdrawn, Rejected)
  {
  }

  lemma SecondReopened()
    ensures var rows := TwoRows(Withdrawn, Rejected);
            && 2 in Selected(rows, ById(2, {Withdrawn, Rejected}))
            && UpdateMany(rows, ById(2, {Withdrawn, Rejected}), Pending) == TwoRows(Withdrawn, Pending)
  {
  }

  /** Customer 3's request 0, as `status` under `assignee`, with the two handymen's applications. */
  function Scene(status: RequestStatus, assignee: Option<Id>, first: ApplicationStatus, second: ApplicationStatus, events: seq<Event>): Store {
    READY.(requests := map[0 := Request(3, 0, status, assignee, None, None)],
           applications := TwoRows(first, second),
           applicationOf := map[(0, 1) := 1, (0, 2) := 2],
           events := events)
  }

  function Posted(): Store {
    READY.(requests := map[0 := Request(3, 0, Open, None, None, None)], events := [RequestCreated(0)])
  }

  lemma BothVerified() returns (calls: seq<Call>)
    ensures LeadsTo(calls, READY)
  {
    assert LeadsTo([], EMPTY);
    calls := MakeVerified([], EMPTY, 1);
    calls := MakeVerified(calls, WithVerified(EMPTY, 1), 2);
  }

  lemma BothApplied() returns (calls: seq<Call>)
    ensures LeadsTo(calls, Scene(Open, None, Pending, Pending, [RequestCreated(0)]))
  {
    calls := BothVerified();
    RequestPosted(Run(calls));
    Extend(calls, READY, Create(3, 0, 0), Posted());
    calls := calls + [Create(3, 0, 0)];
    FirstApplies(Run(calls));
    var applied := Posted().(applications := map[1 := Application(0, 1, Pending)], applicationOf := map[(0, 1) := 1]);
    Extend(calls, Posted(), Apply(1, 0, 1, 0, 0, 0, 0), applied);
    calls := calls + [Apply(1, 0, 1, 0, 0, 0, 0)];
    SecondApplies(Run(calls));
    Extend(calls, applied, Apply(2, 0, 2, 0, 0, 0, 0), Scene(Open, None, Pending, Pending, [RequestCreated(0)]));
    calls := calls + [Apply(2, 0, 2, 0, 0, 0, 0)];
  }

  lemma RequestPosted(h: History)
    requires Now(h) == READY
    ensures Outcome(h, Create(3, 0, 0))
         == Ok(Posted())
  {
    assert READY.events + [RequestCreated(0)] == [RequestCreated(0)];
  }

  lemma FirstApplies(h: History)
    requires Now(h) == Posted()
    ensures Outcome(h, Apply(1, 0, 1, 0, 0, 0, 0))
         == Ok(Now(h).(applications := map[1 := Application(0, 1, Pending)], applicationOf := map[(0, 1) := 1]))
  {
  }

  lemma SecondApplies(h: History)
    requires Now(h) == Posted().(applications := map[1 := Application(0, 1, Pending)], applicationOf := map[(0, 1) := 1])
    ensures Outcome(h, Apply(2, 0, 2, 0, 0, 0, 0)) == Ok(Scene(Open, None, Pending, Pending, [RequestCreated(0)]))
  {
    assert Now(h).applications[2 := Application(0, 2, Pending)]
        == map[1 := Application(0, 1, Pending), 2 := Application(0, 2, Pending)];
    assert Now(h).applicationOf[(0, 2) := 2] == map[(0, 1) := 1, (0, 2) := 2];
  }

  lemma FirstAssigned() returns (calls: seq<Call>, e: seq<Event>)
    ensures LeadsTo(calls, Scene(Assigned, Some(1), Accepted, Rejected, e))
  {
    calls := BothApplied();
    FirstAccepted(Run(calls));
    e := [RequestCreated(0), RequestAssigned(0, 1)];
    Extend(calls, Scene(Open, None, Pending, Pending, [RequestCreated(0)]), Accept(3, 0, 1, 0, 0),
           Scene(Assigned, Some(1), Accepted, Rejected, e));
    calls := calls + [Accept(3, 0, 1, 0, 0)];
  }

  const HAND_BACK := [CancelAssigned(1, 0, 0, 0), Apply(2, 0, 2, 0, 0, 0, 0)]
  const HAND_OVER := HAND_BACK + [Accept(3, 0, 2, 0, 0)]

  lemma HandedBack(calls: seq<Call>, e: seq<Event>)
    requires LeadsTo(calls, Scene(Assigned, Some(1), Accepted, Rejected, e))
    ensures LeadsTo(calls + HAND_BACK, Scene(Open, None, Withdrawn, Pending, e + [RequestUnassigned(0, 1)]))
  {
    var e2 := e + [RequestUnassigned(0, 1)];
    var s2 := Scene(Open, None, Withdrawn, Rejected, e2);
    FirstBacksOut(Run(calls), e);
    Extend(calls, Scene(Assigned, Some(1), Accepted, Rejected, e), HAND_BACK[0], s2);
    var more := calls + [HAND_BACK[0]];
    SecondReapplies(Run(more), e2);
    Extend(more, s2, HAND_BACK[1], Scene(Open, None, Withdrawn, Pending, e2));
    assert calls + HAND_BACK == more + [HAND_BACK[1]];
  }

  lemma HandedOver(calls: seq<Call>, e: seq<Event>)
    requires LeadsTo(calls, Scene(Assigned, Some(1), Accepted, Rejected, e))
    ensures LeadsTo(calls + HAND_OVER,
                    Scene(Assigned, Some(2), Withdrawn, Accepted, e + [RequestUnassigned(0, 1)] + [RequestAssigned(0, 2)]))
  {
    var e2 := e + [RequestUnassigned(0, 1)];
    HandedBack(calls, e);
    var more := calls + HAND_BACK;
    SecondAccepted(Run(more), e2);
    Extend(more, Scene(Open, None, Withdrawn, Pending, e2), Accept(3, 0, 2, 0, 0),
           Scene(Assigned, Some(2), Withdrawn, Accepted, e2 + [RequestAssigned(0, 2)]));
    assert calls + HAND_OVER == more + [Accept(3, 0, 2, 0, 0)];
  }

  /** Handyman 1 was assigned, backed out, and handyman 2 is assigned in turn; three writes ago handyman 1 still was. */
  lemma Reassigned() returns (calls: seq<Call>, e: seq<Event>, e': seq<Event>)
    ensures LeadsTo(calls, Scene(Assigned, Some(2), Withdrawn, Accepted, e'))
    ensures View(Run(calls), 3) == Scene(Assigned, Some(1), Accepted, Rejected, e)
  {
    var before;
    before, e := FirstAssigned();
    HandedOver(before, e);
    Earlier(before, HAND_OVER);
    calls, e' := before + HAND_OVER, e + [RequestUnassigned(0, 1)] + [RequestAssigned(0, 2)];
  }

  /** Handyman 1 backs out again on what was read back then: the request is open, and handyman 2 is refused there. */
  lemma StaleReopenHappens() returns (calls: seq<Call>, late: Call)
    ensures AllAtomic(calls) && late == CancelAssigned(1, 0, 3, 3) && StaleReopen(Run(calls), late)
    ensures var t := Next(Run(calls), late);
            t.RequestIs(0, Open) && IsAccepted(t.applications, 0, 2) && !AllAgree(t)
    ensures Outcome(Run(calls + [late]), Apply(2, 0, 3, 0, 0, 0, 0)) == Err(DuplicateApplication)
  {
    var e, e';
    calls, e, e' := Reassigned();
    late := CancelAssigned(1, 0, 3, 3);
    LateReopen(Run(calls), View(Run(calls), 3), e, e');
    RunExtends(calls, late);
    NoWayBack(Run(calls + [late]), e' + [RequestUnassigned(0, 1)]);
  }

  /** Or starts the job on what was read back then: it runs under handyman 2, though no reopening was stale. */
  lemma StaleStartHappens() returns (calls: seq<Call>, late: Call)
    ensures late == Start(1, 0, 3, 3) && Outcome(Run(calls), late).Ok? && NeverStale(calls + [late])
    ensures View(Run(calls), 3).profileOf[1] == 1
    ensures Next(Run(calls), late).RequestIs(0, InProgress) && Next(Run(calls), late).requests[0].assignee == Some(2)
  {
    var e, e';
    calls, e, e' := Reassigned();
    late := Start(1, 0, 3, 3);
    LateStart(Run(calls), View(Run(calls), 3), e, e');
    AtomicNeverStale(calls);
    NeverStaleExtends(calls, late);
  }

  lemma FirstAccepted(h: History)
    requires Now(h) == Scene(Open, None, Pending, Pending, [RequestCreated(0)])
    ensures Outcome(h, Accept(3, 0, 1, 0, 0))
         == Ok(Scene(Assigned, Some(1), Accepted, Rejected, [RequestCreated(0), RequestAssigned(0, 1)]))
  {
    AcceptingFirst();
    var t := Outcome(h, Accept(3, 0, 1, 0, 0)).value;
    assert t.requests == map[0 := Request(3, 0, Assigned, Some(1), None, None)];
    assert t.events == [RequestCreated(0), RequestAssigned(0, 1)];
  }

  lemma FirstBacksOut(h: History, e: seq<Event>)
    requires Now(h) == Scene(Assigned, Some(1), Accepted, Rejected, e)
    ensures Outcome(h, CancelAssigned(1, 0, 0, 0))
         == Ok(Scene(Open, None, Withdrawn, Rejected, e + [RequestUnassigned(0, 1)]))
  {
    FirstWithdrawn();
    var t := Outcome(h, CancelAssigned(1, 0, 0, 0)).value;
    assert t.requests == map[0 := Request(3, 0, Open, None, None, None)];
  }

  lemma SecondReapplies(h: History, e: seq<Event>)
    requires Now(h) == Scene(Open, None, Withdrawn, Rejected, e)
    ensures Outcome(h, Apply(2, 0, 2, 0, 0, 0, 0)) == Ok(Scene(Open, None, Withdrawn, Pending, e))
  {
    SecondReopened();
  }

  lemma SecondAccepted(h: History, e: seq<Event>)
    requires Now(h) == Scene(Open, None, Withdrawn, Pending, e)
    ensures Outcome(h, Accept(3, 0, 2, 0, 0))
         == Ok(Scene(Assigned, Some(2), Withdrawn, Accepted, e + [RequestAssigned(0, 2)]))
  {
    AcceptingSecond();
    var t := Outcome(h, Accept(3, 0, 2, 0, 0)).value;
    assert t.requests == map[0 := Request(3, 0, Assigned, Some(2), None, None)];
  }

  lemma NeverStaleExtends(calls: seq<Call>, call: Call)
    requires NeverStale(calls) && !call.CancelAssigned?
    ensures NeverStale(calls + [call])
  {
    var bad := (h: History, c: Call) => StaleReopen(h, c);
    NeverExtends(calls, call, bad);
    assert Never(calls, bad) && Never(calls + [call], bad);
  }

  lemma LateReopen(h: History, seen: Store, e: seq<Event>, e': seq<Event>)
    requires View(h, 3) == seen == Scene(Assigned, Some(1), Accepted, Rejected, e)
    requires Now(h) == Scene(Assigned, Some(2), Withdrawn, Accepted, e')
    ensures StaleReopen(h, CancelAssigned(1, 0, 3, 3))
    ensures Next(h, CancelAssigned(1, 0, 3, 3)) == Scene(Open, None, Withdrawn, Accepted, e' + [RequestUnassigned(0, 1)])
    ensures !AllAgree(Next(h, CancelAssigned(1, 0, 3, 3)))
  {
    NothingWithdrawn();
    var t := Next(h, CancelAssigned(1, 0, 3, 3));
    assert t.requests == map[0 := Request(3, 0, Open, None, None, None)];
    assert IsAccepted(t.applications, 0, 2);
    assert !Agrees(t, 0);
  }

  lemma NothingWithdrawn()
    ensures UpdateMany(TwoRows(Withdrawn, Accepted), OfRequest(0, {Accepted}).(handyman := Some(1)), Withdrawn)
         == TwoRows(Withdrawn, Accepted)
  {
  }

  lemma NoWayBack(h: History, e: seq<Event>)
    requires Now(h) == Scene(Open, None, Withdrawn, Accepted, e)
    ensures Outcome(h, Apply(2, 0, 3, 0, 0, 0, 0)) == Err(DuplicateApplication)
  {
  }

  lemma LateStart(h: History, seen: Store, e: seq<Event>, e': seq<Event>)
    requires View(h, 3) == seen == Scene(Assigned, Some(1), Accepted, Rejected, e)
    requires Now(h) == Scene(Assigned, Some(2), Withdrawn, Accepted, e')
    ensures Outcome(h, Start(1, 0, 3, 3)).Ok? && seen.profileOf[1] == 1
    ensures Next(h, Start(1, 0, 3, 3)).RequestIs(0, InProgress)
    ensures Next(h, Start(1, 0, 3, 3)).requests[0].assignee == Some(2)
  {
  }
}

/**
 Every run of the marketplace: any number of calls, each of whose reads may have
 been served by any earlier store, however stale by the time the call writes.
 */
module MarketplaceRuns {
  import opened Prelude
  import opened Histories
  import opened Marketplace

  /** Each `...Age` says how many writes ago the store was that the read saw. */
  datatype Call =
    | Create(user: Id, category: Id, newId: Id)
    | Cancel(user: Id, request: Id, requestAge: nat, now: nat)
    | Accept(user: Id, request: Id, application: Id, requestAge: nat, applicationAge: nat)
    | Reject(user: Id, request: Id, application: Id, requestAge: nat, applicationAge: nat)
    | Confirm(user: Id, request: Id, requestAge: nat, now: nat)
    | Apply(user: Id, request: Id, newId: Id, profileAge: nat, requestAge: nat, categoryAge: nat, applicationAge: nat)
    | Withdraw(user: Id, application: Id, profileAge: nat, applicationAge: nat)
    | Start(user: Id, request: Id, profileAge: nat, requestAge: nat)
    | CancelAssigned(user: Id, request: Id, profileAge: nat, requestAge: nat)
    | Complete(user: Id, request: Id, profileAge: nat, requestAge: nat)
    | OpenProfile(user: Id, newId: Id, profileAge: nat)
    | FillProfile(user: Id, newId: Id, categoryIds: seq<Id>, profileAge: nat)
    | EditProfile(user: Id, categoryIds: seq<Id>, profileAge: nat)
    | Upload(user: Id, newId: Id, profileAge: nat)
    | Delete(user: Id, document: Id, profileAge: nat)
    | Submit(user: Id, profileAge: nat, documentsAge: nat)
    | Approve(admin: Id, profile: Id, profileAge: nat, now: nat)
    | Decline(admin: Id, profile: Id, profileAge: nat)

  type History = h: seq<Store> | h != [] witness [EMPTY]

  function Outcome(h: History, call: Call): Result<Store, Error> {
    var s := Now(h);
    match call
    case Create(u, c, newId) => CreateRequest(s, u, c, newId)
    case Cancel(u, r, ra, now) => CancelRequest(View(h, ra), s, u, r, now)
    case Accept(u, r, a, ra, aa) => AcceptApplication(View(h, ra), View(h, aa), s, u, r, a)
    case Reject(u, r, a, ra, aa) => RejectApplication(View(h, ra), View(h, aa), s, u, r, a)
    case Confirm(u, r, ra, now) => ConfirmCompletion(View(h, ra), s, u, r, now)
    case Apply(u, r, newId, pa, ra, ca, aa) =>
      ApplyToRequest(View(h, pa), View(h, ra), View(h, ca), View(h, aa), s, u, r, newId)
    case Withdraw(u, a, pa, aa) => WithdrawApplication(View(h, pa), View(h, aa), s, u, a)
    case Start(u, r, pa, ra) => StartRequest(View(h, pa), View(h, ra), s, u, r)
    case CancelAssigned(u, r, pa, ra) => CancelAssignedRequest(View(h, pa), View(h, ra), s, u, r)
    case Complete(u, r, pa, ra) => CompleteRequest(View(h, pa), View(h, ra), s, u, r)
    case OpenProfile(u, newId, pa) => EnsureProfile(View(h, pa), s, u, newId)
    case FillProfile(u, newId, cs, pa) => CompleteProfile(View(h, pa), s, u, newId, cs)
    case EditProfile(u, cs, pa) => UpdateProfile(View(h, pa), s, u, cs)
    case Upload(u, newId, pa) => UploadDocument(View(h, pa), s, u, newId)
    case Delete(u, d, pa) => DeleteDocument(View(h, pa), s, u, d)
    case Submit(u, pa, da) => SubmitDocuments(View(h, pa), View(h, da), s, u)
    case Approve(admin, p, pa, now) => ApproveHandyman(View(h, pa), s, admin, p, now)
    case Decline(admin, p, pa) => RejectHandyman(View(h, pa), s, admin, p)
  }

  /** A call that throws writes nothing: its transaction, if any, rolled back. */
  function Next(h: History, call: Call): Store {
    match Outcome(h, call)
    case Ok(s) => s
    case Err(_) => Now(h)
  }

  /** All stores of the run, first to last. */
  function Run(calls: seq<Call>): (h: History)
    ensures |h| == |calls| + 1
  {
    if calls == [] then [EMPTY]
    else
      var h := Run(calls[..|calls| - 1]);
      h + [Next(h, calls[|calls| - 1])]
  }

  // ------------------------------------------------------------- what a run keeps

  predicate Final(status: RequestStatus) {
    status == Completed || status == Cancelled
  }

  /** Work has started: from here on the assignee is frozen. */
  predicate Started(status: RequestStatus) {
    status == InProgress || status == AwaitingConfirmation || status == Completed
  }

  function Rank(status: RequestStatus): nat {
    match status
    case InProgress => 1
    case AwaitingConfirmation => 2
    case Completed => 3
    case _ => 0
  }

  /** What a later state of a request row may be. */
  predicate Follows(earlier: Request, later: Request) {
    && later.customer == earlier.customer
    && later.category == earlier.category
    && (Final(earlier.status) ==> later == earlier)
    && (Started(earlier.status) ==>
          && Rank(earlier.status) <= Rank(later.status)
          && later.assignee == earlier.assignee)
  }

  ghost predicate Evolves(s: Store, t: Store) {
    && (forall u :: u in s.profileOf ==> u in t.profileOf && t.profileOf[u] == s.profileOf[u])
    && (forall k :: k in s.applicationOf ==> k in t.applicationOf && t.applicationOf[k] == s.applicationOf[k])
    && (forall r :: r in s.requests ==> r in t.requests && Follows(s.requests[r], t.requests[r]))
    && (forall a :: a in s.applications ==>
          && a in t.applications
          && t.applications[a].request == s.applications[a].request
          && t.applications[a].handyman == s.applications[a].handyman)
    && s.events <= t.events
  }

  lemma EvolvesTransitive(s: Store, t: Store, u: Store)
    requires Evolves(s, t) && Evolves(t, u)
    ensures Evolves(s, u)
  {
  }

  /** The unique index on users and the rows it leads to. */
  ghost predicate ProfilesLinked(s: Store) {
    && (forall u :: u in s.profileOf ==> s.profileOf[u] in s.profiles && s.profiles[s.profileOf[u]].user == u)
    && (forall p :: p in s.profiles ==> s.profiles[p].user in s.profileOf && s.profileOf[s.profiles[p].user] == p)
  }

  predicate LinkedApplication(s: Store, a: Id, row: Application) {
    && row.request in s.requests
    && row.handyman in s.profiles
    && (row.request, row.handyman) in s.applicationOf
    && s.applicationOf[(row.request, row.handyman)] == a
  }

  lemma EvolvesToItself(s: Store)
    ensures Evolves(s, s)
  {
  }

  /** The foreign keys and the two unique indexes. */
  ghost predicate Linked(s: Store) {
    && ProfilesLinked(s)
    && (forall k :: k in s.applicationOf ==>
          && s.applicationOf[k] in s.applications
          && s.applications[s.applicationOf[k]].request == k.0
          && s.applications[s.applicationOf[k]].handyman == k.1)
    && (forall a :: a in s.applications ==> LinkedApplication(s, a, s.applications[a]))
  }

  ghost predicate PendingOnlyOnOpen(s: Store) {
    forall a :: a in s.applications && s.applications[a].status == Pending ==>
      s.RequestIs(s.applications[a].request, Open)
  }

  predicate Stamped(row: Request) {
    && (row.completedAt.Some? <==> row.status == Completed)
    && (row.cancelledAt.Some? <==> row.status == Cancelled)
    && (row.status == Open ==> row.assignee == None)
    && (row.status == Assigned || Started(row.status) ==> row.assignee.Some?)
  }

  ghost predicate AllStamped(s: Store) {
    forall r :: r in s.requests ==> Stamped(s.requests[r])
  }

  // -------------------------------------------------------------- the event ledger

  /** Assigned events minus unassigned events. */
  function Balance(events: seq<Event>, r: Id): int {
    if events == [] then 0
    else
      var last := events[|events| - 1];
      Balance(events[..|events| - 1], r)
      + (if last.RequestAssigned? && last.request == r then 1 else 0)
      - (if last.RequestUnassigned? && last.request == r then 1 else 0)
  }

  /** The assignee the log names: the last assignment not undone since. */
  function Replay(events: seq<Event>, r: Id): Option<Id> {
    if events == [] then None
    else
      var last := events[|events| - 1];
      if last.RequestAssigned? && last.request == r then Some(last.handyman)
      else if last.RequestUnassigned? && last.request == r then None
      else Replay(events[..|events| - 1], r)
  }

  function Completions(events: seq<Event>, r: Id): nat {
    if events == [] then 0
    else
      var last := events[|events| - 1];
      Completions(events[..|events| - 1], r) + (if last.RequestCompleted? && last.request == r then 1 else 0)
  }

  function Cancellations(events: seq<Event>, r: Id): nat {
    if events == [] then 0
    else
      var last := events[|events| - 1];
      Cancellations(events[..|events| - 1], r) + (if last.RequestCancelled? && last.request == r then 1 else 0)
  }

  lemma AppendEvent(events: seq<Event>, e: Event, r: Id)
    ensures Balance(events + [e], r) == Balance(events, r)
                                        + (if e.RequestAssigned? && e.request == r then 1 else 0)
                                        - (if e.RequestUnassigned? && e.request == r then 1 else 0)
    ensures Replay(events + [e], r) == if e.RequestAssigned? && e.request == r then Some(e.handyman)
                                       else if e.RequestUnassigned? && e.request == r then None
                                       else Replay(events, r)
    ensures Completions(events + [e], r) == Completions(events, r) + (if e.RequestCompleted? && e.request == r then 1 else 0)
    ensures Cancellations(events + [e], r) == Cancellations(events, r) + (if e.RequestCancelled? && e.request == r then 1 else 0)
  {
    assert (events + [e])[..|events|] == events;
  }

  predicate LedgerOf(events: seq<Event>, r: Id, row: Option<Request>) {
    var assignee := if row.Some? then row.value.assignee else None;
    && Balance(events, r) == (if assignee.Some? then 1 else 0)
    && Replay(events, r) == assignee
    && Completions(events, r) == (if row.Some? && row.value.status == Completed then 1 else 0)
    && Cancellations(events, r) == (if row.Some? && row.value.status == Cancelled then 1 else 0)
  }

  function RowOf(s: Store, r: Id): Option<Request> {
    if r in s.requests then Some(s.requests[r]) else None
  }

  /** A closing event names the assignee of the row it closed. */
  predicate ClosingNamed(s: Store, e: Event) {
    && (e.RequestCompleted? ==>
          s.RequestIs(e.request, Completed) && e.completedBy == s.requests[e.request].assignee && e.completedBy.Some?)
    && (e.RequestCancelled? ==>
          s.RequestIs(e.request, Cancelled) && e.cancelledFor == s.requests[e.request].assignee)
  }

  ghost predicate ClosingsNamed(s: Store) {
    forall e :: e in s.events ==> ClosingNamed(s, e)
  }

  /** The counts agree with the rows, and each closing event names the assignee for good. */
  ghost predicate Ledger(s: Store) {
    (forall r :: LedgerOf(s.events, r, RowOf(s, r))) && ClosingsNamed(s)
  }

  // -------------------------------------------------------- the invariant of every run

  ghost predicate Sound(s: Store) {
    Linked(s) && PendingOnlyOnOpen(s) && AllStamped(s) && Ledger(s)
  }

  ghost predicate SoundHistory(h: History) {
    && Sound(Now(h))
    && forall s :: s in h ==> Evolves(s, Now(h))
  }

  /** Everything a write must keep, given the store it found. */
  ghost predicate Keeps(s: Store, t: Store) {
    Evolves(s, t) && Sound(t)
  }

  // ------------------------------------------------- writes that move one request row

  /** The event a write emits tells exactly how the row changed. */
  predicate Records(e: Event, r: Id, before: Request, after: Request) {
    && e.request == r
    && !Final(before.status)
    && match e
       case RequestCreated(_) => false
       case RequestAssigned(_, h) => before.assignee == None && after.assignee == Some(h) && !Final(after.status)
       case RequestUnassigned(_, _) => before.assignee.Some? && after.assignee == None && !Final(after.status)
       case CompletionSubmitted(_, _) => after.assignee == before.assignee && !Final(after.status)
       case RequestCompleted(_, h) => after.assignee == before.assignee == h && h.Some? && after.status == Completed
       case RequestCancelled(_, h) => after.assignee == before.assignee == h && after.status == Cancelled
  }

  lemma LedgerOfNext(events: seq<Event>, r: Id, e: Event, before: Request, after: Request)
    requires LedgerOf(events, r, Some(before)) && Records(e, r, before, after)
    ensures LedgerOf(events + [e], r, Some(after))
  {
    AppendEvent(events, e, r);
  }

  lemma LedgerOfOther(events: seq<Event>, r: Id, e: Event, row: Option<Request>)
    requires LedgerOf(events, r, row) && e.request != r
    ensures LedgerOf(events + [e], r, row)
  {
    AppendEvent(events, e, r);
  }

  lemma LedgerKept(s: Store, t: Store, r: Id, e: Event)
    requires Ledger(s) && r in s.requests && r in t.requests
    requires t.requests == s.requests[r := t.requests[r]]
    requires t.events == s.events + [e]
    requires Records(e, r, s.requests[r], t.requests[r])
    ensures Ledger(t)
  {
    forall q ensures LedgerOf(t.events, q, RowOf(t, q)) {
      assert LedgerOf(s.events, q, RowOf(s, q));
      if q == r {
        LedgerOfNext(s.events, r, e, s.requests[r], t.requests[r]);
      } else {
        LedgerOfOther(s.events, q, e, RowOf(t, q));
      }
    }
    ClosingsKept(s, t, r, e);
  }

  /** A request that moves is not final, so no earlier event closed it. */
  lemma ClosingsKept(s: Store, t: Store, r: Id, e: Event)
    requires ClosingsNamed(s) && r in s.requests && r in t.requests
    requires t.requests == s.requests[r := t.requests[r]]
    requires t.events == s.events + [e]
    requires Records(e, r, s.requests[r], t.requests[r])
    ensures ClosingsNamed(t)
  {
    forall f | f in t.events ensures ClosingNamed(t, f) {
      if f != e {
        assert f in s.events && ClosingNamed(s, f);
      }
    }
  }

  /** The rows stay, only their status may differ. */
  ghost predicate SameRows(xs: Applications, ys: Applications) {
    && ys.Keys == xs.Keys
    && forall a :: a in xs ==> ys[a].request == xs[a].request && ys[a].handyman == xs[a].handyman
  }

  /** No row of the request becomes or stays PENDING, and no other row becomes so. */
  ghost predicate Settles(xs: Applications, ys: Applications, r: Id) {
    forall a :: a in ys && ys[a].status == Pending ==> a in xs && xs[a].status == Pending && ys[a].request != r
  }

  /** The write of one request row, with the event that records it and what it does to the applications. */
  ghost predicate RequestWrite(s: Store, t: Store, r: Id, e: Option<Event>) {
    && t == s.(requests := t.requests, applications := t.applications, events := t.events)
    && r in s.requests && r in t.requests
    && t.requests == s.requests[r := t.requests[r]]
    && Follows(s.requests[r], t.requests[r]) && Stamped(t.requests[r])
    && (match e
        case None => t.events == s.events && SameLedger(s.requests[r], t.requests[r])
        case Some(event) => t.events == s.events + [event] && Records(event, r, s.requests[r], t.requests[r]))
    && SameRows(s.applications, t.applications)
  }

  predicate SameLedger(before: Request, after: Request) {
    after.assignee == before.assignee && !Final(before.status) && !Final(after.status)
  }

  lemma RequestWriteKeeps(s: Store, t: Store, r: Id, e: Option<Event>)
    requires Sound(s) && RequestWrite(s, t, r, e)
    requires Settles(s.applications, t.applications, r)
    ensures Keeps(s, t)
  {
    RequestWriteLinks(s, t, r, e);
    RequestWriteEvolves(s, t, r, e);
    if e.Some? {
      LedgerKept(s, t, r, e.value);
    } else {
      LedgerUnmoved(s, t, r);
    }
  }

  lemma RequestWriteLinks(s: Store, t: Store, r: Id, e: Option<Event>)
    requires Linked(s) && AllStamped(s) && PendingOnlyOnOpen(s) && RequestWrite(s, t, r, e)
    requires Settles(s.applications, t.applications, r)
    ensures Linked(t) && AllStamped(t) && PendingOnlyOnOpen(t)
  {
  }

  lemma RequestWriteEvolves(s: Store, t: Store, r: Id, e: Option<Event>)
    requires RequestWrite(s, t, r, e)
    ensures Evolves(s, t)
  {
  }

  lemma LedgerUnmoved(s: Store, t: Store, r: Id)
    requires Ledger(s) && r in s.requests && r in t.requests
    requires t.requests == s.requests[r := t.requests[r]] && t.events == s.events
    requires SameLedger(s.requests[r], t.requests[r])
    ensures Ledger(t)
  {
    forall q ensures LedgerOf(t.events, q, RowOf(t, q)) {
      assert LedgerOf(s.events, q, RowOf(s, q));
    }
  }

  lemma CancelWrites(seen: Store, s: Store, user: Id, r: Id, now: nat)
    requires CancelRequest(seen, s, user, r, now).Ok? && Stamped(s.requests[r])
    ensures var t := CancelRequest(seen, s, user, r, now).value;
            && RequestWrite(s, t, r, Some(RequestCancelled(r, s.requests[r].assignee)))
            && Settles(s.applications, t.applications, r)
  {
  }

  lemma CancelKeeps(seen: Store, s: Store, user: Id, r: Id, now: nat)
    requires Sound(s)
    requires CancelRequest(seen, s, user, r, now).Ok?
    ensures Keeps(s, CancelRequest(seen, s, user, r, now).value)
  {
    CancelWrites(seen, s, user, r, now);
    RequestWriteKeeps(s, CancelRequest(seen, s, user, r, now).value, r, Some(RequestCancelled(r, s.requests[r].assignee)));
  }

  /** The accepted row is of the request, and every other row of it is rejected. */
  lemma AcceptSettles(rows: Applications, r: Id, a: Id)
    ensures var accepted := UpdateMany(rows, ById(a, {Pending}), Accepted);
            var after := UpdateMany(accepted, OfRequest(r, {Pending}).(notId := Some(a)), Rejected);
            SameRows(rows, after) && Settles(rows, after, r)
  {
  }

  lemma AcceptWrites(seenRequest: Store, seenApplication: Store, s: Store, user: Id, r: Id, a: Id)
    requires AcceptApplication(seenRequest, seenApplication, s, user, r, a).Ok? && Stamped(s.requests[r])
    ensures var t := AcceptApplication(seenRequest, seenApplication, s, user, r, a).value;
            && RequestWrite(s, t, r, Some(RequestAssigned(r, seenApplication.applications[a].handyman)))
            && Settles(s.applications, t.applications, r)
  {
    AcceptSettles(s.applications, r, a);
  }

  lemma AcceptKeeps(seenRequest: Store, seenApplication: Store, s: Store, user: Id, r: Id, a: Id)
    requires Sound(s)
    requires AcceptApplication(seenRequest, seenApplication, s, user, r, a).Ok?
    ensures Keeps(s, AcceptApplication(seenRequest, seenApplication, s, user, r, a).value)
  {
    AcceptWrites(seenRequest, seenApplication, s, user, r, a);
    RequestWriteKeeps(s, AcceptApplication(seenRequest, seenApplication, s, user, r, a).value, r,
                      Some(RequestAssigned(r, seenApplication.applications[a].handyman)));
  }

  /** A write that leaves the applications alone settles a request that has none PENDING. */
  lemma NothingPending(s: Store, r: Id)
    requires PendingOnlyOnOpen(s) && r in s.requests && s.requests[r].status != Open
    ensures Settles(s.applications, s.applications, r)
  {
  }

  lemma ConfirmWrites(seen: Store, s: Store, user: Id, r: Id, now: nat)
    requires ConfirmCompletion(seen, s, user, r, now).Ok? && Stamped(s.requests[r]) && Follows(seen.requests[r], s.requests[r])
    ensures var t := ConfirmCompletion(seen, s, user, r, now).value;
            RequestWrite(s, t, r, Some(RequestCompleted(r, seen.requests[r].assignee)))
  {
  }

  lemma ConfirmKeeps(seen: Store, s: Store, user: Id, r: Id, now: nat)
    requires Sound(s) && Evolves(seen, s)
    requires ConfirmCompletion(seen, s, user, r, now).Ok?
    ensures Keeps(s, ConfirmCompletion(seen, s, user, r, now).value)
  {
    NothingPending(s, r);
    ConfirmWrites(seen, s, user, r, now);
    RequestWriteKeeps(s, ConfirmCompletion(seen, s, user, r, now).value, r, Some(RequestCompleted(r, seen.requests[r].assignee)));
  }

  lemma StartWrites(seenProfile: Store, seenRequest: Store, s: Store, user: Id, r: Id)
    requires StartRequest(seenProfile, seenRequest, s, user, r).Ok? && Stamped(s.requests[r])
    ensures RequestWrite(s, StartRequest(seenProfile, seenRequest, s, user, r).value, r, None)
  {
  }

  lemma StartKeeps(seenProfile: Store, seenRequest: Store, s: Store, user: Id, r: Id)
    requires Sound(s)
    requires StartRequest(seenProfile, seenRequest, s, user, r).Ok?
    ensures Keeps(s, StartRequest(seenProfile, seenRequest, s, user, r).value)
  {
    NothingPending(s, r);
    StartWrites(seenProfile, seenRequest, s, user, r);
    RequestWriteKeeps(s, StartRequest(seenProfile, seenRequest, s, user, r).value, r, None);
  }

  lemma CancelAssignedWrites(seenProfile: Store, seenRequest: Store, s: Store, user: Id, r: Id)
    requires CancelAssignedRequest(seenProfile, seenRequest, s, user, r).Ok? && Stamped(s.requests[r])
    requires Settles(s.applications, s.applications, r)
    ensures var t := CancelAssignedRequest(seenProfile, seenRequest, s, user, r).value;
            && RequestWrite(s, t, r, Some(RequestUnassigned(r, seenProfile.profileOf[user])))
            && Settles(s.applications, t.applications, r)
  {
  }

  lemma CancelAssignedKeeps(seenProfile: Store, seenRequest: Store, s: Store, user: Id, r: Id)
    requires Sound(s)
    requires CancelAssignedRequest(seenProfile, seenRequest, s, user, r).Ok?
    ensures Keeps(s, CancelAssignedRequest(seenProfile, seenRequest, s, user, r).value)
  {
    NothingPending(s, r);
    CancelAssignedWrites(seenProfile, seenRequest, s, user, r);
    RequestWriteKeeps(s, CancelAssignedRequest(seenProfile, seenRequest, s, user, r).value, r,
                      Some(RequestUnassigned(r, seenProfile.profileOf[user])));
  }

  lemma CompleteWrites(seenProfile: Store, seenRequest: Store, s: Store, user: Id, r: Id)
    requires CompleteRequest(seenProfile, seenRequest, s, user, r).Ok? && Stamped(s.requests[r])
    ensures var t := CompleteRequest(seenProfile, seenRequest, s, user, r).value;
            RequestWrite(s, t, r, Some(CompletionSubmitted(r, seenProfile.profileOf[user])))
  {
  }

  lemma CompleteKeeps(seenProfile: Store, seenRequest: Store, s: Store, user: Id, r: Id)
    requires Sound(s)
    requires CompleteRequest(seenProfile, seenRequest, s, user, r).Ok?
    ensures Keeps(s, CompleteRequest(seenProfile, seenRequest, s, user, r).value)
  {
    NothingPending(s, r);
    CompleteWrites(seenProfile, seenRequest, s, user, r);
    RequestWriteKeeps(s, CompleteRequest(seenProfile, seenRequest, s, user, r).value, r,
                      Some(CompletionSubmitted(r, seenProfile.profileOf[user])));
  }

  // ------------------------------------------------------------- the other writes

  lemma CreateLedger(s: Store, t: Store, row: Request, newId: Id)
    requires Ledger(s) && newId !in s.requests && row.status == Open && row.assignee == None
    requires t.requests == s.requests[newId := row] && t.events == s.events + [RequestCreated(newId)]
    ensures Ledger(t)
  {
    forall q ensures LedgerOf(t.events, q, RowOf(t, q)) {
      assert LedgerOf(s.events, q, RowOf(s, q));
      AppendEvent(s.events, RequestCreated(newId), q);
    }
  }

  lemma CreateLinks(s: Store, t: Store, row: Request, newId: Id)
    requires Linked(s) && PendingOnlyOnOpen(s) && AllStamped(s) && newId !in s.requests && Stamped(row)
    requires t == s.(requests := s.requests[newId := row], events := s.events + [RequestCreated(newId)])
    ensures Linked(t) && PendingOnlyOnOpen(t) && AllStamped(t) && Evolves(s, t)
  {
  }

  lemma CreateKeeps(s: Store, user: Id, category: Id, newId: Id)
    requires Sound(s)
    requires CreateRequest(s, user, category, newId).Ok?
    ensures Keeps(s, CreateRequest(s, user, category, newId).value)
  {
    var t := CreateRequest(s, user, category, newId).value;
    var row := Request(user, category, Open, None, None, None);
    CreateLedger(s, t, row, newId);
    CreateLinks(s, t, row, newId);
  }

  /** A write to applications alone; only rows of open requests become PENDING. */
  lemma ApplicationWriteKeeps(s: Store, t: Store)
    requires Sound(s) && PendingOnlyOnOpen(t)
    requires t == s.(applications := t.applications) && SameRows(s.applications, t.applications)
    ensures Keeps(s, t)
  {
    LedgerUntouched(s, t);
  }

  lemma LedgerUntouched(s: Store, t: Store)
    requires Ledger(s) && t.requests == s.requests && t.events == s.events
    ensures Ledger(t)
  {
    forall q ensures LedgerOf(t.events, q, RowOf(t, q)) {
      assert LedgerOf(s.events, q, RowOf(s, q));
    }
  }

  /** A write that makes no row PENDING. */
  lemma StatusWriteKeeps(s: Store, w: ApplicationWhere, status: ApplicationStatus)
    requires Sound(s) && status != Pending
    ensures Keeps(s, s.(applications := UpdateMany(s.applications, w, status)))
  {
    StaysPendingOnlyOnOpen(s, w, status);
    ApplicationWriteKeeps(s, s.(applications := UpdateMany(s.applications, w, status)));
  }

  lemma StaysPendingOnlyOnOpen(s: Store, w: ApplicationWhere, status: ApplicationStatus)
    requires PendingOnlyOnOpen(s) && status != Pending
    ensures PendingOnlyOnOpen(s.(applications := UpdateMany(s.applications, w, status)))
    ensures SameRows(s.applications, UpdateMany(s.applications, w, status))
  {
  }

  lemma RejectWrites(seenRequest: Store, seenApplication: Store, s: Store, user: Id, r: Id, a: Id)
    requires RejectApplication(seenRequest, seenApplication, s, user, r, a).Ok?
    ensures RejectApplication(seenRequest, seenApplication, s, user, r, a).value
         == s.(applications := UpdateMany(s.applications, ById(a, {Pending}), Rejected))
  {
  }

  lemma WithdrawWrites(seenProfile: Store, seenApplication: Store, s: Store, user: Id, a: Id)
    requires WithdrawApplication(seenProfile, seenApplication, s, user, a).Ok?
    ensures WithdrawApplication(seenProfile, seenApplication, s, user, a).value
         == s.(applications := UpdateMany(s.applications, ById(a, {Pending}), Withdrawn))
  {
  }

  /** What an application writes: a new row, or a reopened one of the handyman there, on a request that is open. */
  lemma ApplyWrites(seenProfile: Store, seenRequest: Store, seenCategory: Store, seenApplication: Store,
                    s: Store, user: Id, r: Id, newId: Id)
    requires ApplyToRequest(seenProfile, seenRequest, seenCategory, seenApplication, s, user, r, newId).Ok?
    ensures var t := ApplyToRequest(seenProfile, seenRequest, seenCategory, seenApplication, s, user, r, newId).value;
            && user in seenProfile.profileOf && s.RequestIs(r, Open)
            && var k := (r, seenProfile.profileOf[user]);
               if k in seenApplication.applicationOf
               then t == s.(applications := UpdateMany(s.applications, ById(seenApplication.applicationOf[k], {Withdrawn, Rejected}), Pending))
               else k !in s.applicationOf && newId !in s.applications
                    && t == s.(applications := s.applications[newId := Application(r, k.1, Pending)],
                               applicationOf := s.applicationOf[k := newId])
  {
  }

  lemma ReopenKeeps(s: Store, r: Id, p: Id, a: Id, statusIn: set<ApplicationStatus>)
    requires Sound(s) && s.RequestIs(r, Open) && (r, p) in s.applicationOf && s.applicationOf[(r, p)] == a
    ensures Keeps(s, s.(applications := UpdateMany(s.applications, ById(a, statusIn), Pending)))
  {
    assert s.applications[a].request == r;
    ApplicationWriteKeeps(s, s.(applications := UpdateMany(s.applications, ById(a, statusIn), Pending)));
  }

  lemma InsertKeeps(s: Store, t: Store, r: Id, p: Id, newId: Id)
    requires Sound(s) && s.RequestIs(r, Open) && p in s.profiles
    requires (r, p) !in s.applicationOf && newId !in s.applications
    requires t == s.(applications := s.applications[newId := Application(r, p, Pending)],
                     applicationOf := s.applicationOf[(r, p) := newId])
    ensures Keeps(s, t)
  {
    LedgerUntouched(s, t);
    InsertLinks(s, t, r, p, newId);
    InsertEvolves(s, t, r, p, newId);
  }

  lemma InsertLinks(s: Store, t: Store, r: Id, p: Id, newId: Id)
    requires Linked(s) && r in s.requests && p in s.profiles
    requires (r, p) !in s.applicationOf && newId !in s.applications
    requires t == s.(applications := s.applications[newId := Application(r, p, Pending)],
                     applicationOf := s.applicationOf[(r, p) := newId])
    ensures Linked(t)
  {
    forall a | a in t.applications ensures LinkedApplication(t, a, t.applications[a]) {
      if a != newId {
        assert LinkedApplication(s, a, s.applications[a]);
      }
    }
  }

  lemma InsertEvolves(s: Store, t: Store, r: Id, p: Id, newId: Id)
    requires PendingOnlyOnOpen(s) && s.RequestIs(r, Open) && (r, p) !in s.applicationOf && newId !in s.applications
    requires t == s.(applications := s.applications[newId := Application(r, p, Pending)],
                     applicationOf := s.applicationOf[(r, p) := newId])
    ensures PendingOnlyOnOpen(t) && Evolves(s, t)
  {
  }

  lemma KeepsProfile(seen: Store, s: Store, user: Id)
    requires Linked(s) && Evolves(seen, s) && user in seen.profileOf
    ensures seen.profileOf[user] in s.profiles
  {
  }

  lemma KeepsApplication(seen: Store, s: Store, k: (Id, Id))
    requires Evolves(seen, s) && k in seen.applicationOf
    ensures k in s.applicationOf && s.applicationOf[k] == seen.applicationOf[k]
  {
  }

  lemma ApplyKeeps(seenProfile: Store, seenRequest: Store, seenCategory: Store, seenApplication: Store,
                   s: Store, user: Id, r: Id, newId: Id)
    requires Sound(s) && Evolves(seenProfile, s) && Evolves(seenApplication, s)
    requires ApplyToRequest(seenProfile, seenRequest, seenCategory, seenApplication, s, user, r, newId).Ok?
    ensures Keeps(s, ApplyToRequest(seenProfile, seenRequest, seenCategory, seenApplication, s, user, r, newId).value)
  {
    var t := ApplyToRequest(seenProfile, seenRequest, seenCategory, seenApplication, s, user, r, newId).value;
    ApplyWrites(seenProfile, seenRequest, seenCategory, seenApplication, s, user, r, newId);
    var p := seenProfile.profileOf[user];
    if (r, p) in seenApplication.applicationOf {
      KeepsApplication(seenApplication, s, (r, p));
      ReopenKeeps(s, r, p, seenApplication.applicationOf[(r, p)], {Withdrawn, Rejected});
    } else {
      KeepsProfile(seenProfile, s, user);
      InsertKeeps(s, t, r, p, newId);
    }
  }

  lemma RejectKeeps(seenRequest: Store, seenApplication: Store, s: Store, user: Id, r: Id, a: Id)
    requires Sound(s)
    requires RejectApplication(seenRequest, seenApplication, s, user, r, a).Ok?
    ensures Keeps(s, RejectApplication(seenRequest, seenApplication, s, user, r, a).value)
  {
    RejectWrites(seenRequest, seenApplication, s, user, r, a);
    StatusWriteKeeps(s, ById(a, {Pending}), Rejected);
  }

  lemma WithdrawKeeps(seenProfile: Store, seenApplication: Store, s: Store, user: Id, a: Id)
    requires Sound(s)
    requires WithdrawApplication(seenProfile, seenApplication, s, user, a).Ok?
    ensures Keeps(s, WithdrawApplication(seenProfile, seenApplication, s, user, a).value)
  {
    WithdrawWrites(seenProfile, seenApplication, s, user, a);
    StatusWriteKeeps(s, ById(a, {Pending}), Withdrawn);
  }

  predicate OnProfiles(call: Call) {
    || call.OpenProfile? || call.FillProfile? || call.EditProfile? || call.Upload?
    || call.Delete? || call.Submit? || call.Approve? || call.Decline?
  }

  /** A profile write overwrites one row of the same user, or inserts a row under a new id and user. */
  ghost predicate ProfileWrite(s: Store, t: Store) {
    && t == s.(profiles := t.profiles, profileOf := t.profileOf, documents := t.documents)
    && (forall p :: p in s.profiles ==> p in t.profiles && t.profiles[p].user == s.profiles[p].user)
    && (forall u :: u in s.profileOf ==> u in t.profileOf && t.profileOf[u] == s.profileOf[u])
    && (forall p :: p in t.profiles && p !in s.profiles ==> t.profiles[p].user !in s.profileOf)
    && (forall p :: p in t.profiles && p !in s.profiles ==> t.profiles[p].user in t.profileOf && t.profileOf[t.profiles[p].user] == p)
    && (forall u :: u in t.profileOf && u !in s.profileOf ==> t.profileOf[u] in t.profiles && t.profiles[t.profileOf[u]].user == u)
  }

  lemma InsertsProfile(s: Store, p: Id, row: Profile)
    requires CreateProfile(s, p, row).Ok?
    ensures ProfileWrite(s, CreateProfile(s, p, row).value)
  {
  }

  lemma OverwritesProfile(s: Store, p: Id, row: Profile)
    requires p in s.profiles && row.user == s.profiles[p].user
    ensures ProfileWrite(s, s.(profiles := s.profiles[p := row]))
  {
  }

  lemma EnsureWrites(seen: Store, s: Store, user: Id, newId: Id)
    requires EnsureProfile(seen, s, user, newId).Ok?
    ensures ProfileWrite(s, EnsureProfile(seen, s, user, newId).value)
  {
    if user !in seen.profileOf && user !in s.profileOf {
      InsertsProfile(s, newId, Profile(user, Unverified, None, None, {}));
    }
  }

  lemma CompleteProfileWrites(seen: Store, s: Store, user: Id, newId: Id, categoryIds: seq<Id>)
    requires CompleteProfile(seen, s, user, newId, categoryIds).Ok?
    ensures ProfileWrite(s, CompleteProfile(seen, s, user, newId, categoryIds).value)
  {
    if user in seen.profileOf {
      var p := seen.profileOf[user];
      OverwritesProfile(s, p, s.profiles[p].(status := ProfileComplete, categories := ToSet(categoryIds)));
    } else {
      InsertsProfile(s, newId, Profile(user, ProfileComplete, None, None, ToSet(categoryIds)));
    }
  }

  lemma UpdateProfileWrites(seen: Store, s: Store, user: Id, categoryIds: seq<Id>)
    requires UpdateProfile(seen, s, user, categoryIds).Ok?
    ensures ProfileWrite(s, UpdateProfile(seen, s, user, categoryIds).value)
  {
    var p := seen.profileOf[user];
    OverwritesProfile(s, p, s.profiles[p].(categories := ToSet(categoryIds)));
  }

  lemma UpdateStatusWrites(s: Store, p: Id, status: VerificationStatus, reviewer: Option<Id>, now: Option<nat>)
    requires UpdateVerificationStatus(s, p, status, reviewer, now).Ok?
    ensures ProfileWrite(s, UpdateVerificationStatus(s, p, status, reviewer, now).value)
  {
    var t := UpdateVerificationStatus(s, p, status, reviewer, now).value;
    OverwritesProfile(s, p, t.profiles[p]);
  }

  lemma SubmitWrites(seenProfile: Store, seenDocuments: Store, s: Store, user: Id)
    requires SubmitDocuments(seenProfile, seenDocuments, s, user).Ok?
    ensures ProfileWrite(s, SubmitDocuments(seenProfile, seenDocuments, s, user).value)
  {
    UpdateStatusWrites(s, seenProfile.profileOf[user], DocumentsSubmitted, None, None);
  }

  lemma ReviewWrites(seen: Store, s: Store, admin: Id, p: Id, now: nat)
    ensures ApproveHandyman(seen, s, admin, p, now).Ok? ==> ProfileWrite(s, ApproveHandyman(seen, s, admin, p, now).value)
    ensures RejectHandyman(seen, s, admin, p).Ok? ==> ProfileWrite(s, RejectHandyman(seen, s, admin, p).value)
  {
    if p in s.profiles {
      UpdateStatusWrites(s, p, Verified, Some(admin), Some(now));
      UpdateStatusWrites(s, p, Declined, Some(admin), None);
    }
  }

  lemma DocumentWrites(seen: Store, s: Store, user: Id, d: Id)
    ensures UploadDocument(seen, s, user, d).Ok? ==> ProfileWrite(s, UploadDocument(seen, s, user, d).value)
    ensures DeleteDocument(seen, s, user, d).Ok? ==> ProfileWrite(s, DeleteDocument(seen, s, user, d).value)
  {
  }

  lemma ProfileCallWrites(h: History, call: Call)
    requires OnProfiles(call)
    ensures ProfileWrite(Now(h), Next(h, call))
  {
    if Outcome(h, call).Ok? {
      if call.Submit? || call.Approve? || call.Decline? {
        ReviewCallWrites(h, call);
      } else {
        OwnCallWrites(h, call);
      }
    }
  }

  lemma OwnCallWrites(h: History, call: Call)
    requires Outcome(h, call).Ok?
    requires call.OpenProfile? || call.FillProfile? || call.EditProfile? || call.Upload? || call.Delete?
    ensures ProfileWrite(Now(h), Next(h, call))
  {
    var s := Now(h);
    match call
    case OpenProfile(u, newId, pa) => EnsureWrites(View(h, pa), s, u, newId);
    case FillProfile(u, newId, cs, pa) => CompleteProfileWrites(View(h, pa), s, u, newId, cs);
    case EditProfile(u, cs, pa) => UpdateProfileWrites(View(h, pa), s, u, cs);
    case Upload(u, newId, pa) => DocumentWrites(View(h, pa), s, u, newId);
    case Delete(u, d, pa) => DocumentWrites(View(h, pa), s, u, d);
  }

  lemma ReviewCallWrites(h: History, call: Call)
    requires Outcome(h, call).Ok? && (call.Submit? || call.Approve? || call.Decline?)
    ensures ProfileWrite(Now(h), Next(h, call))
  {
    var s := Now(h);
    match call
    case Submit(u, pa, da) => SubmitWrites(View(h, pa), View(h, da), s, u);
    case Approve(admin, p, pa, now) => ReviewWrites(View(h, pa), s, admin, p, now);
    case Decline(admin, p, pa) => ReviewWrites(View(h, pa), s, admin, p, 0);
  }

  lemma ProfileWriteKeeps(s: Store, t: Store)
    requires Sound(s) && ProfileWrite(s, t)
    ensures Keeps(s, t)
  {
    LedgerUntouched(s, t);
    ProfileWriteLinks(s, t);
  }

  lemma ProfileWriteLinks(s: Store, t: Store)
    requires Linked(s) && ProfileWrite(s, t)
    ensures Linked(t)
  {
    forall a | a in t.applications ensures LinkedApplication(t, a, t.applications[a]) {
      assert LinkedApplication(s, a, s.applications[a]);
    }
  }

  // --------------------------------------------------------------------- runs

  lemma StepKeeps(h: History, call: Call)
    requires SoundHistory(h)
    ensures Keeps(Now(h), Next(h, call))
  {
    var s := Now(h);
    EvolvesToItself(s);
    if OnProfiles(call) {
      ProfileCallWrites(h, call);
      ProfileWriteKeeps(s, Next(h, call));
    } else if Outcome(h, call).Ok? {
      match call
      case Create(u, c, newId) => CreateKeeps(s, u, c, newId);
      case Cancel(u, r, ra, now) => CancelKeeps(View(h, ra), s, u, r, now);
      case Accept(u, r, a, ra, aa) => AcceptKeeps(View(h, ra), View(h, aa), s, u, r, a);
      case Reject(u, r, a, ra, aa) => RejectKeeps(View(h, ra), View(h, aa), s, u, r, a);
      case Confirm(u, r, ra, now) => ConfirmKeeps(View(h, ra), s, u, r, now);
      case Apply(u, r, newId, pa, ra, ca, aa) =>
        ApplyKeeps(View(h, pa), View(h, ra), View(h, ca), View(h, aa), s, u, r, newId);
      case Withdraw(u, a, pa, aa) => WithdrawKeeps(View(h, pa), View(h, aa), s, u, a);
      case Start(u, r, pa, ra) => StartKeeps(View(h, pa), View(h, ra), s, u, r);
      case CancelAssigned(u, r, pa, ra) => CancelAssignedKeeps(View(h, pa), View(h, ra), s, u, r);
      case Complete(u, r, pa, ra) => CompleteKeeps(View(h, pa), View(h, ra), s, u, r);
    }
  }

  lemma {:induction false} RunIsSound(calls: seq<Call>)
    ensures SoundHistory(Run(calls))
  {
    if calls != [] {
      var before := Run(calls[..|calls| - 1]);
      var call := calls[|calls| - 1];
      RunIsSound(calls[..|calls| - 1]);
      StepKeeps(before, call);
      forall s | s in Run(calls) ensures Evolves(s, Next(before, call)) {
        if s in before {
          EvolvesTransitive(s, Now(before), Next(before, call));
        }
      }
    }
  }
}

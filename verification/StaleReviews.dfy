/**
 Four runs, from empty tables, in which a verification call writes on what it
 read too early: each is of calls that read what they write, but for the last.
 */
module StaleReviews {
  import opened Prelude
  import opened Histories
  import opened Marketplace
  import opened MarketplaceRuns
  import opened RunInduction
  import opened Agreement
  import opened StaleReopening
  import opened Verification

  /** The last call unvets a row after a run all vetted. */
  ghost predicate Spoils(calls: seq<Call>, late: Call) {
    AllAtomic(calls) && AllGood(Run(calls), Vetted) && Unvets(Run(calls), late) && !Vetted(Next(Run(calls), late))
  }

  lemma SpoilsIf(calls: seq<Call>, late: Call)
    requires AllAtomic(calls) && Unvets(Run(calls), late)
    ensures Spoils(calls, late)
  {
    AtomicRunsVet(calls);
    VettingTheorem(calls);
    VettedSoFar(calls);
    StepVets(Run(calls), late);
  }

  /** Two reviewers read DOCUMENTS_SUBMITTED; one approves, then the other rejects. */
  lemma StaleDeclineUndoesApproval() returns (calls: seq<Call>, late: Call)
    ensures Spoils(calls, late) && late.Decline?
    ensures IsVerified(Now(Run(calls)), 1) && Next(Run(calls), late).profiles[1] == Profile(1, Declined, Some(0), Some(9), {0})
  {
    assert LeadsTo([], EMPTY);
    var before := MakeSubmitted([], EMPTY, 1);
    Approves(Run(before), EMPTY, 1);
    Extend(before, WithSubmitted(EMPTY, 1), Approve(0, 1, 0, 0), WithVerified(EMPTY, 1));
    Earlier(before, [Approve(0, 1, 0, 0)]);
    calls, late := before + [Approve(0, 1, 0, 0)], Decline(9, 1, 1);
    LateDecline(Run(calls));
    SpoilsIf(calls, late);
  }

  lemma LateDecline(h: History)
    requires View(h, 1) == WithSubmitted(EMPTY, 1) && Now(h) == WithVerified(EMPTY, 1)
    ensures Unvets(h, Decline(9, 1, 1))
    ensures Next(h, Decline(9, 1, 1)).profiles[1] == Profile(1, Declined, Some(0), Some(9), {0})
  {
  }

  const HALF_CLIMB := [FillProfile(1, 1, [0], 0), Upload(1, 1, 0)]
  const CLIMB := HALF_CLIMB + [Submit(1, 0, 0), Approve(0, 1, 0, 0)]

  function Opened(): Store {
    EMPTY.(profiles := map[1 := Profile(1, Unverified, None, None, {})], profileOf := map[1 := 1])
  }

  /** Two completions of one profile read UNVERIFIED; one goes on to be approved, then the other writes. */
  lemma {:induction false} StaleFillUndoesApproval() returns (calls: seq<Call>, late: Call)
    ensures Spoils(calls, late) && late.FillProfile?
    ensures IsVerified(Now(Run(calls)), 1)
    ensures 1 in Next(Run(calls), late).profiles && Next(Run(calls), late).profiles[1].status == ProfileComplete
  {
    assert LeadsTo([], EMPTY);
    Opens(Run([]));
    Extend([], EMPTY, OpenProfile(1, 1, 0), Opened());
    var before := [] + [OpenProfile(1, 1, 0)];
    Climbs(before);
    Earlier(before, CLIMB);
    calls, late := before + CLIMB, FillProfile(1, 2, [0], 4);
    LateFill(Run(calls));
    SpoilsIf(calls, late);
  }

  lemma Opens(h: History)
    requires Now(h) == EMPTY
    ensures Outcome(h, OpenProfile(1, 1, 0)) == Ok(Opened())
  {
  }

  lemma ClimbsHalf(calls: seq<Call>)
    requires LeadsTo(calls, Opened())
    ensures LeadsTo(calls + HALF_CLIMB, WithUploaded(EMPTY, 1))
  {
    FillsOpened(Run(calls));
    Extend(calls, Opened(), FillProfile(1, 1, [0], 0), WithFilled(EMPTY, 1));
    var more := calls + [FillProfile(1, 1, [0], 0)];
    Uploads(Run(more), EMPTY, 1);
    Extend(more, WithFilled(EMPTY, 1), Upload(1, 1, 0), WithUploaded(EMPTY, 1));
    assert calls + HALF_CLIMB == more + [Upload(1, 1, 0)];
  }

  lemma Climbs(calls: seq<Call>)
    requires LeadsTo(calls, Opened())
    ensures LeadsTo(calls + CLIMB, WithVerified(EMPTY, 1))
  {
    ClimbsHalf(calls);
    var more := calls + HALF_CLIMB;
    Submits(Run(more), EMPTY, 1);
    Extend(more, WithUploaded(EMPTY, 1), Submit(1, 0, 0), WithSubmitted(EMPTY, 1));
    var last := more + [Submit(1, 0, 0)];
    Approves(Run(last), EMPTY, 1);
    Extend(last, WithSubmitted(EMPTY, 1), Approve(0, 1, 0, 0), WithVerified(EMPTY, 1));
    assert calls + CLIMB == last + [Approve(0, 1, 0, 0)];
  }

  lemma FillsOpened(h: History)
    requires Now(h) == Opened()
    ensures Outcome(h, FillProfile(1, 1, [0], 0)) == Ok(WithFilled(EMPTY, 1))
  {
    assert ToSet([0]) == {0};
    var row := Profile(1, ProfileComplete, None, None, {0});
    assert Opened().profiles[1 := row] == EMPTY.profiles[1 := row];
    assert Opened().profileOf == EMPTY.profileOf[1 := 1];
  }

  lemma LateFill(h: History)
    requires View(h, 4) == Opened() && Now(h) == WithVerified(EMPTY, 1)
    ensures Unvets(h, FillProfile(1, 2, [0], 4))
    ensures 1 in Next(h, FillProfile(1, 2, [0], 4)).profiles
    ensures Next(h, FillProfile(1, 2, [0], 4)).profiles[1].status == ProfileComplete
  {
  }

  /** A deletion reads PROFILE_COMPLETE, the documents are submitted, then the only one is deleted. */
  lemma StaleDeleteStripsSubmission() returns (calls: seq<Call>, late: Call)
    ensures Spoils(calls, late) && late.Delete?
    ensures var t := Next(Run(calls), late);
            1 in t.profiles && t.profiles[1].status == DocumentsSubmitted && !t.HasDocument(1)
  {
    assert LeadsTo([], EMPTY);
    var before := MakeUploaded([], EMPTY, 1);
    Submits(Run(before), EMPTY, 1);
    Extend(before, WithUploaded(EMPTY, 1), Submit(1, 0, 0), WithSubmitted(EMPTY, 1));
    Earlier(before, [Submit(1, 0, 0)]);
    calls, late := before + [Submit(1, 0, 0)], Delete(1, 1, 1);
    LateDelete(Run(calls));
    SpoilsIf(calls, late);
  }

  lemma LateDelete(h: History)
    requires View(h, 1) == WithUploaded(EMPTY, 1) && Now(h) == WithSubmitted(EMPTY, 1)
    ensures Unvets(h, Delete(1, 1, 1))
    ensures var t := Next(h, Delete(1, 1, 1));
            1 in t.profiles && t.profiles[1].status == DocumentsSubmitted && !t.HasDocument(1)
  {
  }

  /** A submission reads a document, it is deleted, then the submission writes. */
  lemma StaleSubmitHasNoDocument() returns (calls: seq<Call>, late: Call)
    ensures Spoils(calls, late) && late.Submit?
    ensures var t := Next(Run(calls), late);
            1 in t.profiles && t.profiles[1].status == DocumentsSubmitted && !t.HasDocument(1)
  {
    assert LeadsTo([], EMPTY);
    var before := MakeUploaded([], EMPTY, 1);
    Deletes(Run(before));
    Extend(before, WithUploaded(EMPTY, 1), Delete(1, 1, 0), WithFilled(EMPTY, 1));
    Earlier(before, [Delete(1, 1, 0)]);
    calls, late := before + [Delete(1, 1, 0)], Submit(1, 1, 1);
    LateSubmit(Run(calls));
    SpoilsIf(calls, late);
  }

  lemma Deletes(h: History)
    requires Now(h) == WithUploaded(EMPTY, 1)
    ensures Outcome(h, Delete(1, 1, 0)) == Ok(WithFilled(EMPTY, 1))
  {
    assert Now(h).documents - {1} == map[];
  }

  lemma LateSubmit(h: History)
    requires View(h, 1) == WithUploaded(EMPTY, 1) && Now(h) == WithFilled(EMPTY, 1)
    ensures Unvets(h, Submit(1, 1, 1))
    ensures var t := Next(h, Submit(1, 1, 1));
            1 in t.profiles && t.profiles[1].status == DocumentsSubmitted && !t.HasDocument(1)
  {
    assert View(h, 1).documents[1] == 1;
  }
}

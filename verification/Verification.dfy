/**
 The verification of handymen. Its writes are unconditional after their reads;
 the theorems say exactly which runs, interleaved as they may be, keep its promises.
 */
module Verification {
  import opened Prelude
  import opened Histories
  import opened Marketplace
  import opened MarketplaceRuns
  import opened RunInduction
  import opened Agreement

  ghost predicate VettedProfile(s: Store, p: Id)
    requires p in s.profiles
  {
    var row := s.profiles[p];
    && (row.status == DocumentsSubmitted ==> s.HasDocument(p))
    && (row.status == Verified <==> row.verifiedAt.Some?)
    && (row.status == Verified ==> row.reviewedBy.Some?)
    && (row.status != Unverified ==> row.categories != {})
  }

  predicate IsVerified(s: Store, p: Id) {
    p in s.profiles && s.profiles[p].status == Verified
  }

  /** Submitted means something to review; VERIFIED means when and by whom; applicants are VERIFIED. */
  ghost predicate Vetted(s: Store) {
    && (forall p :: p in s.profiles ==> VettedProfile(s, p))
    && (forall a :: a in s.applications ==> IsVerified(s, s.applications[a].handyman))
  }

  // ------------------------------------------------- the guards the writes do not have

  /** The write takes a row that is VERIFIED by then out of that status. */
  predicate Downgrades(h: History, call: Call) {
    Outcome(h, call).Ok? &&
    match call
    case FillProfile(u, _, _, pa) => u in View(h, pa).profileOf && IsVerified(Now(h), View(h, pa).profileOf[u])
    case Submit(u, pa, _) => u in View(h, pa).profileOf && IsVerified(Now(h), View(h, pa).profileOf[u])
    case Decline(_, p, _) => IsVerified(Now(h), p)
    case _ => false
  }

  /** The document is the profile's, and its only one. */
  predicate OnlyDocument(s: Store, p: Id, d: Id) {
    d in s.documents && s.documents[d] == p && forall e :: e in s.documents && s.documents[e] == p ==> e == d
  }

  /** The write leaves a row submitted without a document. */
  predicate Strips(h: History, call: Call) {
    Outcome(h, call).Ok? &&
    match call
    case Submit(u, pa, _) => u in View(h, pa).profileOf && !Now(h).HasDocument(View(h, pa).profileOf[u])
    case Delete(u, d, pa) =>
      && u in View(h, pa).profileOf
      && var p := View(h, pa).profileOf[u];
         p in Now(h).profiles && Now(h).profiles[p].status == DocumentsSubmitted && OnlyDocument(Now(h), p, d)
    case _ => false
  }

  predicate Unvets(h: History, call: Call) {
    Downgrades(h, call) || Strips(h, call)
  }

  /** A second approval puts another reviewer or another time on the row. */
  predicate Reapproves(h: History, call: Call) {
    && call.Approve? && Outcome(h, call).Ok? && IsVerified(Now(h), call.profile)
    && var row := Now(h).profiles[call.profile];
       row.reviewedBy != Some(call.admin) || row.verifiedAt != Some(call.now)
  }

  // ------------------------------------------------------- what later stores keep

  /** No row returns to UNVERIFIED. */
  ghost predicate StaysBegun(s: Store, t: Store) {
    forall p :: p in s.profiles ==> p in t.profiles && (s.profiles[p].status != Unverified ==> t.profiles[p].status != Unverified)
  }

  /** No row leaves VERIFIED. */
  ghost predicate StaysVerified(s: Store, t: Store) {
    forall p :: p in s.profiles ==> p in t.profiles && (IsVerified(s, p) ==> IsVerified(t, p))
  }

  /** No VERIFIED row changes but in its categories. */
  ghost predicate StaysFrozen(s: Store, t: Store) {
    forall p :: p in s.profiles ==>
      p in t.profiles && (IsVerified(s, p) ==> t.profiles[p] == s.profiles[p].(categories := t.profiles[p].categories))
  }

  /** One row is written, or inserted. */
  predicate WritesRow(s: Store, t: Store, p: Id) {
    p in t.profiles && t.profiles == s.profiles[p := t.profiles[p]]
  }

  lemma RowStays(s: Store, t: Store, p: Id)
    requires WritesRow(s, t, p)
    ensures StaysVerified(s, t) <==> (IsVerified(s, p) ==> t.profiles[p].status == Verified)
    ensures StaysFrozen(s, t) <==> (IsVerified(s, p) ==> t.profiles[p] == s.profiles[p].(categories := t.profiles[p].categories))
    ensures StaysBegun(s, t) <==> (p in s.profiles && s.profiles[p].status != Unverified ==> t.profiles[p].status != Unverified)
  {
  }

  lemma SameProfilesStay(s: Store, t: Store)
    requires t.profiles == s.profiles
    ensures StaysVerified(s, t) && StaysFrozen(s, t) && StaysBegun(s, t)
  {
  }

  /** The row a profile call writes, and what it writes there. */
  predicate FillsRow(seen: Store, s: Store, t: Store, user: Id, newId: Id) {
    var p := if user in seen.profileOf then seen.profileOf[user] else newId;
    && t == s.(profiles := t.profiles, profileOf := t.profileOf) && WritesRow(s, t, p)
    && t.profiles[p].status == ProfileComplete && t.profiles[p].categories != {}
    && (user in seen.profileOf ==>
          p in s.profiles && t.profiles[p] == s.profiles[p].(status := ProfileComplete, categories := t.profiles[p].categories))
    && (user !in seen.profileOf ==> p !in s.profiles && t.profiles[p].verifiedAt == None)
  }

  lemma FillWrites(seen: Store, s: Store, user: Id, newId: Id, categoryIds: seq<Id>)
    requires CompleteProfile(seen, s, user, newId, categoryIds).Ok?
    ensures FillsRow(seen, s, CompleteProfile(seen, s, user, newId, categoryIds).value, user, newId)
  {
    assert categoryIds[0] in ToSet(categoryIds);
  }

  /** The profile is new and UNVERIFIED, or nothing is written. */
  lemma OpenWrites(seen: Store, s: Store, user: Id, newId: Id)
    requires EnsureProfile(seen, s, user, newId).Ok?
    ensures var t := EnsureProfile(seen, s, user, newId).value;
            t == s || (newId !in s.profiles && WritesRow(s, t, newId)
                       && t == s.(profiles := t.profiles, profileOf := t.profileOf)
                       && t.profiles[newId] == Profile(user, Unverified, None, None, {}))
  {
  }

  lemma EditWrites(seen: Store, s: Store, user: Id, categoryIds: seq<Id>)
    requires UpdateProfile(seen, s, user, categoryIds).Ok?
    ensures var t := UpdateProfile(seen, s, user, categoryIds).value;
            t == s || (user in seen.profileOf
                       && var p := seen.profileOf[user];
                          p in s.profiles && WritesRow(s, t, p) && t == s.(profiles := t.profiles)
                          && t.profiles[p] == s.profiles[p].(categories := t.profiles[p].categories)
                          && t.profiles[p].categories != {})
  {
    if categoryIds != [] {
      assert categoryIds[0] in ToSet(categoryIds);
    }
  }

  /** The row with its new status; an absent reviewer or time leaves the stored one. */
  function Marked(row: Profile, status: VerificationStatus, reviewer: Option<Id>, verifiedAt: Option<nat>): Profile {
    row.(status := status,
         reviewedBy := if reviewer.Some? then reviewer else row.reviewedBy,
         verifiedAt := if verifiedAt.Some? then verifiedAt else row.verifiedAt)
  }

  predicate Marks(s: Store, t: Store, p: Id, status: VerificationStatus, reviewer: Option<Id>, verifiedAt: Option<nat>) {
    p in s.profiles && t == s.(profiles := s.profiles[p := Marked(s.profiles[p], status, reviewer, verifiedAt)])
  }

  lemma SubmitMarks(seenProfile: Store, seenDocuments: Store, s: Store, user: Id)
    requires SubmitDocuments(seenProfile, seenDocuments, s, user).Ok?
    ensures user in seenProfile.profileOf
    ensures var p := seenProfile.profileOf[user];
            && p in seenProfile.profiles && seenProfile.profiles[p].status in {ProfileComplete, Declined}
            && seenDocuments.HasDocument(p)
            && Marks(s, SubmitDocuments(seenProfile, seenDocuments, s, user).value, p, DocumentsSubmitted, None, None)
  {
  }

  lemma ApproveMarks(seen: Store, s: Store, admin: Id, p: Id, now: nat)
    requires ApproveHandyman(seen, s, admin, p, now).Ok?
    ensures p in seen.profiles && seen.profiles[p].status == DocumentsSubmitted
    ensures Marks(s, ApproveHandyman(seen, s, admin, p, now).value, p, Verified, Some(admin), Some(now))
  {
  }

  lemma DeclineMarks(seen: Store, s: Store, admin: Id, p: Id)
    requires RejectHandyman(seen, s, admin, p).Ok?
    ensures p in seen.profiles && seen.profiles[p].status == DocumentsSubmitted
    ensures Marks(s, RejectHandyman(seen, s, admin, p).value, p, Declined, Some(admin), None)
  {
  }

  lemma DocumentCallWrites(seen: Store, s: Store, user: Id, d: Id)
    ensures UploadDocument(seen, s, user, d).Ok? ==>
              user in seen.profileOf && d !in s.documents
              && UploadDocument(seen, s, user, d).value == s.(documents := s.documents[d := seen.profileOf[user]])
    ensures DeleteDocument(seen, s, user, d).Ok? ==>
              && user in seen.profileOf
              && var p := seen.profileOf[user];
                 && p in seen.profiles && seen.profiles[p].status != DocumentsSubmitted
                 && DeleteDocument(seen, s, user, d).value
                    == if d in s.documents && s.documents[d] == p then s.(documents := s.documents - {d}) else s
  {
  }

  /** The lifecycle writes no profile and no document. */
  lemma LifecycleLeavesProfiles(h: History, call: Call)
    requires SoundHistory(h) && !OnProfiles(call) && Outcome(h, call).Ok?
    ensures Next(h, call).profiles == Now(h).profiles && Next(h, call).documents == Now(h).documents
    ensures call.Apply? || Next(h, call).applications.Keys == Now(h).applications.Keys
  {
    if call.Apply? {
      ApplyWrites(View(h, call.profileAge), View(h, call.requestAge), View(h, call.categoryAge), View(h, call.applicationAge),
                  Now(h), call.user, call.request, call.newId);
    } else if call.Create? || call.Cancel? || call.Accept? || call.Reject? || call.Confirm? {
      CustomerInsertsNothing(h, call);
    } else {
      HandymanInsertsNothing(h, call);
    }
  }

  predicate InsertsNothing(s: Store, t: Store) {
    t.profiles == s.profiles && t.documents == s.documents && t.applications.Keys == s.applications.Keys
  }

  lemma CustomerInsertsNothing(h: History, call: Call)
    requires Sound(Now(h)) && SoundHistory(h) && Outcome(h, call).Ok?
    requires call.Create? || call.Cancel? || call.Accept? || call.Reject? || call.Confirm?
    ensures InsertsNothing(Now(h), Next(h, call))
  {
    var s := Now(h);
    match call
    case Create(_, _, _) =>
    case Cancel(u, r, ra, now) => CancelWrites(View(h, ra), s, u, r, now);
    case Accept(u, r, a, ra, aa) => AcceptWrites(View(h, ra), View(h, aa), s, u, r, a);
    case Reject(u, r, a, ra, aa) => RejectWrites(View(h, ra), View(h, aa), s, u, r, a);
    case Confirm(u, r, ra, now) => ConfirmWrites(View(h, ra), s, u, r, now);
  }

  lemma HandymanInsertsNothing(h: History, call: Call)
    requires Sound(Now(h)) && Outcome(h, call).Ok?
    requires call.Withdraw? || call.Start? || call.CancelAssigned? || call.Complete?
    ensures InsertsNothing(Now(h), Next(h, call))
  {
    var s := Now(h);
    match call
    case Withdraw(u, a, pa, aa) => WithdrawWrites(View(h, pa), View(h, aa), s, u, a);
    case Start(u, r, pa, ra) => StartWrites(View(h, pa), View(h, ra), s, u, r);
    case CancelAssigned(u, r, pa, ra) =>
      NothingPending(s, r);
      CancelAssignedWrites(View(h, pa), View(h, ra), s, u, r);
    case Complete(u, r, pa, ra) => CompleteWrites(View(h, pa), View(h, ra), s, u, r);
  }

  lemma LeavesProfiles(h: History, call: Call)
    requires SoundHistory(h) && Outcome(h, call).Ok?
    requires call.Upload? || call.Delete? || !OnProfiles(call)
    ensures Next(h, call).profiles == Now(h).profiles
  {
    if call.Upload? {
      DocumentCallWrites(View(h, call.profileAge), Now(h), call.user, call.newId);
    } else if call.Delete? {
      DocumentCallWrites(View(h, call.profileAge), Now(h), call.user, call.document);
    } else {
      LifecycleLeavesProfiles(h, call);
    }
  }

  // ------------------------------------------------------------ VERIFIED is absorbing

  lemma OwnProfileStays(h: History, call: Call)
    requires Outcome(h, call).Ok? && (call.OpenProfile? || call.FillProfile? || call.EditProfile?)
    ensures StaysBegun(Now(h), Next(h, call))
    ensures StaysVerified(Now(h), Next(h, call)) <==> !Downgrades(h, call)
    ensures StaysFrozen(Now(h), Next(h, call)) <==> !Downgrades(h, call)
  {
    var s, t := Now(h), Next(h, call);
    SameProfilesStay(s, s);
    match call
    case OpenProfile(u, newId, pa) =>
      OpenWrites(View(h, pa), s, u, newId);
      if t != s { RowStays(s, t, newId); }
    case FillProfile(u, newId, cs, pa) =>
      FillWrites(View(h, pa), s, u, newId, cs);
      RowStays(s, t, if u in View(h, pa).profileOf then View(h, pa).profileOf[u] else newId);
    case EditProfile(u, cs, pa) =>
      EditWrites(View(h, pa), s, u, cs);
      if t != s { RowStays(s, t, View(h, pa).profileOf[u]); }
  }

  lemma ReviewStays(h: History, call: Call)
    requires Outcome(h, call).Ok? && (call.Submit? || call.Approve? || call.Decline?)
    ensures StaysBegun(Now(h), Next(h, call))
    ensures StaysVerified(Now(h), Next(h, call)) <==> !Downgrades(h, call)
    ensures StaysFrozen(Now(h), Next(h, call)) <==> !Downgrades(h, call) && !Reapproves(h, call)
  {
    var s, t := Now(h), Next(h, call);
    match call
    case Submit(u, pa, da) =>
      SubmitMarks(View(h, pa), View(h, da), s, u);
      RowStays(s, t, View(h, pa).profileOf[u]);
    case Approve(admin, p, pa, now) =>
      ApproveMarks(View(h, pa), s, admin, p, now);
      RowStays(s, t, p);
    case Decline(admin, p, pa) =>
      DeclineMarks(View(h, pa), s, admin, p);
      RowStays(s, t, p);
  }

  /** Exactly a downgrade takes a row out of VERIFIED; only a second approval changes one otherwise; none returns to UNVERIFIED. */
  lemma StepStays(h: History, call: Call)
    requires SoundHistory(h)
    ensures StaysBegun(Now(h), Next(h, call))
    ensures StaysVerified(Now(h), Next(h, call)) <==> !Downgrades(h, call)
    ensures StaysFrozen(Now(h), Next(h, call)) <==> !Downgrades(h, call) && !Reapproves(h, call)
  {
    var s, t := Now(h), Next(h, call);
    if Outcome(h, call).Err? {
      SameProfilesStay(s, t);
    } else if call.OpenProfile? || call.FillProfile? || call.EditProfile? {
      OwnProfileStays(h, call);
    } else if call.Submit? || call.Approve? || call.Decline? {
      ReviewStays(h, call);
    } else {
      LeavesProfiles(h, call);
      SameProfilesStay(s, t);
    }
  }

  /** No row of any run leaves VERIFIED, if and only if no call took it out of there. */
  lemma {:induction false} VerifiedForGood(calls: seq<Call>)
    ensures Throughout(Run(calls), StaysVerified) <==> Never(calls, Downgrades)
  {
    forall h: History, call | SoundHistory(h) ensures StaysVerified(Now(h), Next(h, call)) <==> !Downgrades(h, call) {
      StepStays(h, call);
    }
    ThroughoutIffNever(calls, StaysVerified, Downgrades);
  }

  predicate Overwrites(h: History, call: Call) {
    Downgrades(h, call) || Reapproves(h, call)
  }

  /** No VERIFIED row of any run changes but in its categories, if and only if no call overwrote one. */
  lemma {:induction false} VerifiedIsFrozen(calls: seq<Call>)
    ensures Throughout(Run(calls), StaysFrozen) <==> Never(calls, Overwrites)
  {
    forall h: History, call | SoundHistory(h) ensures StaysFrozen(Now(h), Next(h, call)) <==> !Overwrites(h, call) {
      StepStays(h, call);
    }
    ThroughoutIffNever(calls, StaysFrozen, Overwrites);
  }

  /** No row of any run returns to UNVERIFIED. */
  lemma {:induction false} NeverUnverifiedAgain(calls: seq<Call>)
    ensures Throughout(Run(calls), StaysBegun)
  {
    var none := (h: History, call: Call) => false;
    forall h: History, call | SoundHistory(h) ensures StaysBegun(Now(h), Next(h, call)) <==> !none(h, call) {
      StepStays(h, call);
    }
    ThroughoutIffNever(calls, StaysBegun, none);
  }

  // --------------------------------------------------------------- vetted at every time

  /** One row written leaves the rest as vetted as it was, if a time of verification is never taken off. */
  lemma RowVets(s: Store, t: Store, p: Id)
    requires Vetted(s) && WritesRow(s, t, p) && t == s.(profiles := t.profiles, profileOf := t.profileOf)
    requires p in s.profiles && s.profiles[p].verifiedAt.Some? ==> t.profiles[p].verifiedAt.Some?
    ensures Vetted(t) <==> VettedProfile(t, p)
  {
    assert p in s.profiles ==> VettedProfile(s, p);
    if VettedProfile(t, p) {
      forall q | q in t.profiles ensures VettedProfile(t, q) {
        if q != p {
          assert VettedProfile(s, q);
          assert s.HasDocument(q) <==> t.HasDocument(q);
        }
      }
    }
  }

  lemma OpenVets(seen: Store, s: Store, user: Id, newId: Id)
    requires Vetted(s) && EnsureProfile(seen, s, user, newId).Ok?
    ensures Vetted(EnsureProfile(seen, s, user, newId).value)
  {
    OpenWrites(seen, s, user, newId);
    var t := EnsureProfile(seen, s, user, newId).value;
    if t != s {
      RowVets(s, t, newId);
    }
  }

  lemma FillVets(seen: Store, s: Store, user: Id, newId: Id, categoryIds: seq<Id>)
    requires Vetted(s) && CompleteProfile(seen, s, user, newId, categoryIds).Ok?
    ensures Vetted(CompleteProfile(seen, s, user, newId, categoryIds).value)
       <==> !(user in seen.profileOf && IsVerified(s, seen.profileOf[user]))
  {
    FillWrites(seen, s, user, newId, categoryIds);
    var p := if user in seen.profileOf then seen.profileOf[user] else newId;
    assert p in s.profiles ==> VettedProfile(s, p);
    RowVets(s, CompleteProfile(seen, s, user, newId, categoryIds).value, p);
  }

  lemma EditVets(seen: Store, s: Store, user: Id, categoryIds: seq<Id>)
    requires Vetted(s) && UpdateProfile(seen, s, user, categoryIds).Ok?
    ensures Vetted(UpdateProfile(seen, s, user, categoryIds).value)
  {
    EditWrites(seen, s, user, categoryIds);
    var t := UpdateProfile(seen, s, user, categoryIds).value;
    if t != s {
      var p := seen.profileOf[user];
      assert VettedProfile(s, p);
      assert s.HasDocument(p) <==> t.HasDocument(p);
      RowVets(s, t, p);
    }
  }

  /** A status put on a row that has begun. */
  lemma MarkVets(s: Store, t: Store, p: Id, status: VerificationStatus, reviewer: Option<Id>, verifiedAt: Option<nat>)
    requires Vetted(s) && Marks(s, t, p, status, reviewer, verifiedAt) && s.profiles[p].status != Unverified
    requires status != Unverified && (status == Verified <==> verifiedAt.Some?) && (status == Verified ==> reviewer.Some?)
    ensures Vetted(t) <==> (status == Verified || !IsVerified(s, p)) && (status == DocumentsSubmitted ==> s.HasDocument(p))
  {
    assert VettedProfile(s, p);
    assert s.HasDocument(p) <==> t.HasDocument(p);
    RowVets(s, t, p);
  }

  lemma SubmitVets(seenProfile: Store, seenDocuments: Store, s: Store, user: Id)
    requires Vetted(s) && StaysBegun(seenProfile, s) && SubmitDocuments(seenProfile, seenDocuments, s, user).Ok?
    ensures user in seenProfile.profileOf
    ensures Vetted(SubmitDocuments(seenProfile, seenDocuments, s, user).value)
       <==> !IsVerified(s, seenProfile.profileOf[user]) && s.HasDocument(seenProfile.profileOf[user])
  {
    SubmitMarks(seenProfile, seenDocuments, s, user);
    MarkVets(s, SubmitDocuments(seenProfile, seenDocuments, s, user).value, seenProfile.profileOf[user],
             DocumentsSubmitted, None, None);
  }

  lemma ApproveVets(seen: Store, s: Store, admin: Id, p: Id, now: nat)
    requires Vetted(s) && StaysBegun(seen, s) && ApproveHandyman(seen, s, admin, p, now).Ok?
    ensures Vetted(ApproveHandyman(seen, s, admin, p, now).value)
  {
    ApproveMarks(seen, s, admin, p, now);
    MarkVets(s, ApproveHandyman(seen, s, admin, p, now).value, p, Verified, Some(admin), Some(now));
  }

  lemma DeclineVets(seen: Store, s: Store, admin: Id, p: Id)
    requires Vetted(s) && StaysBegun(seen, s) && RejectHandyman(seen, s, admin, p).Ok?
    ensures Vetted(RejectHandyman(seen, s, admin, p).value) <==> !IsVerified(s, p)
  {
    DeclineMarks(seen, s, admin, p);
    MarkVets(s, RejectHandyman(seen, s, admin, p).value, p, Declined, Some(admin), None);
  }

  lemma UploadVets(s: Store, d: Id, p: Id)
    requires Vetted(s) && d !in s.documents
    ensures Vetted(s.(documents := s.documents[d := p]))
  {
    var t := s.(documents := s.documents[d := p]);
    forall q | q in t.profiles ensures VettedProfile(t, q) {
      assert VettedProfile(s, q);
      if s.HasDocument(q) {
        var e :| e in s.documents && s.documents[e] == q;
        assert e in t.documents && t.documents[e] == q;
      }
    }
  }

  lemma DeleteVets(s: Store, d: Id, p: Id)
    requires Vetted(s) && d in s.documents && s.documents[d] == p
    ensures Vetted(s.(documents := s.documents - {d}))
       <==> !(p in s.profiles && s.profiles[p].status == DocumentsSubmitted && OnlyDocument(s, p, d))
  {
    var t := s.(documents := s.documents - {d});
    forall q ensures t.HasDocument(q) <==> s.HasDocument(q) && !(q == p && OnlyDocument(s, p, d)) {
      if e :| e in s.documents && s.documents[e] == q && e != d {
        assert e in t.documents && t.documents[e] == q;
      }
    }
    forall q | q in s.profiles && !(q == p && s.profiles[p].status == DocumentsSubmitted && OnlyDocument(s, p, d))
      ensures VettedProfile(t, q)
    {
      assert VettedProfile(s, q);
    }
    assert p in s.profiles && s.profiles[p].status == DocumentsSubmitted && OnlyDocument(s, p, d) ==> !VettedProfile(t, p);
  }

  lemma OwnProfileVets(h: History, call: Call)
    requires Vetted(Now(h)) && Outcome(h, call).Ok? && (call.OpenProfile? || call.FillProfile? || call.EditProfile?)
    ensures Vetted(Next(h, call)) <==> !Unvets(h, call)
  {
    var s := Now(h);
    match call
    case OpenProfile(u, newId, pa) => OpenVets(View(h, pa), s, u, newId);
    case FillProfile(u, newId, cs, pa) => FillVets(View(h, pa), s, u, newId, cs);
    case EditProfile(u, cs, pa) => EditVets(View(h, pa), s, u, cs);
  }

  ghost predicate BegunSince(h: History) {
    forall s :: s in h ==> StaysBegun(s, Now(h))
  }

  lemma ReviewVets(h: History, call: Call)
    requires Vetted(Now(h)) && BegunSince(h) && Outcome(h, call).Ok? && (call.Submit? || call.Approve? || call.Decline?)
    ensures Vetted(Next(h, call)) <==> !Unvets(h, call)
  {
    var s := Now(h);
    match call
    case Submit(u, pa, da) => SubmitVets(View(h, pa), View(h, da), s, u);
    case Approve(admin, p, pa, now) => ApproveVets(View(h, pa), s, admin, p, now);
    case Decline(admin, p, pa) => DeclineVets(View(h, pa), s, admin, p);
  }

  lemma DocumentVets(h: History, call: Call)
    requires Vetted(Now(h)) && Outcome(h, call).Ok? && (call.Upload? || call.Delete?)
    ensures Vetted(Next(h, call)) <==> !Unvets(h, call)
  {
    var s := Now(h);
    var seen := View(h, call.profileAge);
    if call.Upload? {
      DocumentCallWrites(seen, s, call.user, call.newId);
      UploadVets(s, call.newId, seen.profileOf[call.user]);
    } else {
      DocumentCallWrites(seen, s, call.user, call.document);
      if call.document in s.documents && s.documents[call.document] == seen.profileOf[call.user] {
        DeleteVets(s, call.document, seen.profileOf[call.user]);
      }
    }
  }

  /** Profiles and documents stay, and every application is an old one's handyman's or a VERIFIED one's. */
  lemma ApplicantsVet(s: Store, t: Store, p: Id)
    requires Vetted(s) && t.profiles == s.profiles && t.documents == s.documents
    requires forall a :: a in t.applications ==>
               if a in s.applications then t.applications[a].handyman == s.applications[a].handyman
               else t.applications[a].handyman == p && IsVerified(s, p)
    ensures Vetted(t)
  {
    forall q | q in t.profiles ensures VettedProfile(t, q) {
      assert VettedProfile(s, q);
      assert s.HasDocument(q) <==> t.HasDocument(q);
    }
  }

  ghost predicate VerifiedSince(h: History) {
    forall s :: s in h ==> StaysVerified(s, Now(h))
  }

  lemma ApplicantRead(seenProfile: Store, seenRequest: Store, seenCategory: Store, seenApplication: Store,
                      s: Store, user: Id, r: Id, newId: Id)
    requires ApplyToRequest(seenProfile, seenRequest, seenCategory, seenApplication, s, user, r, newId).Ok?
    ensures user in seenProfile.profileOf && IsVerified(seenProfile, seenProfile.profileOf[user])
  {
  }

  lemma ApplyVets(h: History, call: Call)
    requires Vetted(Now(h)) && VerifiedSince(h) && call.Apply? && Outcome(h, call).Ok?
    ensures Vetted(Next(h, call))
  {
    var seen := View(h, call.profileAge);
    ApplicantRead(seen, View(h, call.requestAge), View(h, call.categoryAge), View(h, call.applicationAge),
                  Now(h), call.user, call.request, call.newId);
    ApplyWrites(seen, View(h, call.requestAge), View(h, call.categoryAge), View(h, call.applicationAge),
                Now(h), call.user, call.request, call.newId);
    assert StaysVerified(seen, Now(h));
    ApplicantsVet(Now(h), Next(h, call), seen.profileOf[call.user]);
  }

  lemma LifecycleVets(h: History, call: Call)
    requires SoundHistory(h) && Vetted(Now(h)) && !OnProfiles(call) && !call.Apply? && Outcome(h, call).Ok?
    ensures Vetted(Next(h, call))
  {
    LifecycleLeavesProfiles(h, call);
    StepKeeps(h, call);
    ApplicantsVet(Now(h), Next(h, call), 0);
  }

  /** After stores all vetted, and without a downgrade so far, exactly an unvetting call breaks a promise. */
  lemma StepVets(h: History, call: Call)
    requires SoundHistory(h) && Vetted(Now(h)) && BegunSince(h) && VerifiedSince(h)
    ensures Vetted(Next(h, call)) <==> !Unvets(h, call)
  {
    if Outcome(h, call).Ok? {
      if call.OpenProfile? || call.FillProfile? || call.EditProfile? {
        OwnProfileVets(h, call);
      } else if call.Submit? || call.Approve? || call.Decline? {
        ReviewVets(h, call);
      } else if call.Upload? || call.Delete? {
        DocumentVets(h, call);
      } else if call.Apply? {
        ApplyVets(h, call);
      } else {
        LifecycleVets(h, call);
      }
    }
  }

  /** Every store of a run is vetted if and only if no call of the run unvetted a row. */
  lemma {:induction false} VettingTheorem(calls: seq<Call>)
    ensures AllGood(Run(calls), Vetted) <==> Never(calls, Unvets)
  {
    forall init, call | AllGood(Run(init), Vetted) && Never(init, Unvets)
      ensures Vetted(Next(Run(init), call)) <==> !Unvets(Run(init), call)
    {
      VettedSoFar(init);
      StepVets(Run(init), call);
    }
    AlwaysIffNever(calls, Vetted, Unvets);
  }

  lemma VettedSoFar(init: seq<Call>)
    requires AllGood(Run(init), Vetted) && Never(init, Unvets)
    ensures var h := Run(init); SoundHistory(h) && Vetted(Now(h)) && BegunSince(h) && VerifiedSince(h)
  {
    RunIsSound(init);
    assert Now(Run(init)) in Run(init);
    assert Never(init, Downgrades);
    VerifiedForGood(init);
    NeverUnverifiedAgain(init);
  }

  /** While no row is unvetted, none leaves VERIFIED. */
  lemma {:induction false} VettedRunsStayVerified(calls: seq<Call>)
    requires AllGood(Run(calls), Vetted)
    ensures Throughout(Run(calls), StaysVerified)
  {
    VettingTheorem(calls);
    assert Never(calls, Downgrades);
    VerifiedForGood(calls);
  }

  // ------------------------------------------------------------ call-atomic runs

  lemma FillsUnverified(seen: Store, s: Store, user: Id, newId: Id, categoryIds: seq<Id>)
    requires CompleteProfile(seen, s, user, newId, categoryIds).Ok? && user in seen.profileOf
    ensures !IsVerified(seen, seen.profileOf[user])
  {
  }

  lemma AtomicNeverUnvets(h: History, call: Call)
    requires Atomic(call)
    ensures !Unvets(h, call) && !Overwrites(h, call)
  {
    var s := Now(h);
    if call.FillProfile? && Downgrades(h, call) {
      FillsUnverified(s, s, call.user, call.newId, call.categoryIds);
    } else if call.Submit? && Outcome(h, call).Ok? {
      SubmitMarks(s, s, s, call.user);
    } else if call.Approve? && Outcome(h, call).Ok? {
      ApproveMarks(s, s, call.admin, call.profile, call.now);
    } else if call.Decline? && Outcome(h, call).Ok? {
      DeclineMarks(s, s, call.admin, call.profile);
    } else if call.Delete? && Outcome(h, call).Ok? {
      DocumentCallWrites(s, s, call.user, call.document);
    }
  }

  /** Without interleaving every store is vetted, and a VERIFIED row changes but in its categories. */
  lemma {:induction false} AtomicRunsVet(calls: seq<Call>)
    requires AllAtomic(calls)
    ensures AllGood(Run(calls), Vetted) && Throughout(Run(calls), StaysFrozen)
  {
    forall k | 0 <= k < |calls| ensures !Unvets(Run(calls[..k]), calls[k]) && !Overwrites(Run(calls[..k]), calls[k]) {
      AtomicNeverUnvets(Run(calls[..k]), calls[k]);
    }
    VettingTheorem(calls);
    VerifiedIsFrozen(calls);
  }
}

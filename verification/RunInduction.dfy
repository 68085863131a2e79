/** One induction for every exact theorem on runs: what holds of all stores just when no call was of a certain kind. */
module RunInduction {
  import opened Histories
  import opened Marketplace
  import opened MarketplaceRuns

  lemma RunExtends(init: seq<Call>, call: Call)
    ensures Run(init + [call]) == Run(init) + [Next(Run(init), call)]
  {
    assert (init + [call])[..|init|] == init;
  }

  lemma {:induction false} RunPrefix(calls: seq<Call>, k: nat)
    requires k <= |calls|
    ensures Run(calls[..k]) == Run(calls)[..k + 1]
  {
    if k < |calls| {
      RunPrefix(calls[..|calls| - 1], k);
      assert calls[..|calls| - 1][..k] == calls[..k];
    } else {
      assert calls[..k] == calls;
    }
  }

  ghost predicate AllGood(h: History, good: Store -> bool) {
    forall s :: s in h ==> good(s)
  }

  /** No call of the run is bad, given the stores before it. */
  ghost predicate Never(calls: seq<Call>, bad: (History, Call) -> bool) {
    forall k :: 0 <= k < |calls| ==> !bad(Run(calls[..k]), calls[k])
  }

  lemma SameBefore(init: seq<Call>, call: Call, k: nat)
    requires k < |init|
    ensures (init + [call])[..k] == init[..k] && (init + [call])[k] == init[k]
  {
  }

  lemma NeverExtends(init: seq<Call>, call: Call, bad: (History, Call) -> bool)
    ensures Never(init + [call], bad) <==> Never(init, bad) && !bad(Run(init), call)
  {
    var calls := init + [call];
    assert calls[..|init|] == init && calls[|init|] == call;
    if Never(calls, bad) {
      forall k | 0 <= k < |init| ensures !bad(Run(init[..k]), init[k]) {
        SameBefore(init, call, k);
        assert !bad(Run(calls[..k]), calls[k]);
      }
    }
    if Never(init, bad) && !bad(Run(init), call) {
      forall k | 0 <= k < |calls| ensures !bad(Run(calls[..k]), calls[k]) {
        if k < |init| {
          SameBefore(init, call, k);
          assert !bad(Run(init[..k]), init[k]);
        }
      }
    }
  }

  lemma GoodExtends(h: History, t: Store, good: Store -> bool)
    ensures AllGood(h + [t], good) <==> AllGood(h, good) && good(t)
  {
    assert t in h + [t];
    assert forall s :: s in h ==> s in h + [t];
  }

  /** After a run all good and without a bad call, the next write is good just when its call is not bad. */
  ghost predicate Decides(good: Store -> bool, bad: (History, Call) -> bool) {
    forall init, call :: AllGood(Run(init), good) && Never(init, bad) ==> (good(Next(Run(init), call)) <==> !bad(Run(init), call))
  }

  /** Then all stores of a run are good if and only if no call of it was bad. */
  lemma {:induction false} AlwaysIffNever(calls: seq<Call>, good: Store -> bool, bad: (History, Call) -> bool)
    requires good(EMPTY) && Decides(good, bad)
    ensures AllGood(Run(calls), good) <==> Never(calls, bad)
  {
    if calls != [] {
      var init, call := calls[..|calls| - 1], calls[|calls| - 1];
      assert calls == init + [call];
      AlwaysIffNever(init, good, bad);
      RunExtends(init, call);
      NeverExtends(init, call, bad);
      GoodExtends(Run(init), Next(Run(init), call), good);
    }
  }

  // ------------------------------------------------------- between any two stores

  /** Every later store of the history keeps what the earlier one had. */
  ghost predicate Throughout(h: History, keeps: (Store, Store) -> bool) {
    forall i, j :: 0 <= i <= j < |h| ==> keeps(h[i], h[j])
  }

  ghost predicate Preorder(keeps: (Store, Store) -> bool) {
    && (forall s :: keeps(s, s))
    && (forall s, t, u :: Composes(keeps, s, t, u))
  }

  ghost predicate Composes(keeps: (Store, Store) -> bool, s: Store, t: Store, u: Store) {
    keeps(s, t) && keeps(t, u) ==> keeps(s, u)
  }

  lemma ThroughoutExtends(h: History, t: Store, keeps: (Store, Store) -> bool)
    requires Preorder(keeps)
    ensures Throughout(h + [t], keeps) <==> Throughout(h, keeps) && keeps(Now(h), t)
  {
    var more: History := h + [t];
    assert forall i :: 0 <= i < |h| ==> more[i] == h[i];
    if Throughout(more, keeps) {
      assert keeps(more[|h| - 1], more[|h|]);
      forall i, j | 0 <= i <= j < |h| ensures keeps(h[i], h[j]) {
        assert keeps(more[i], more[j]);
      }
    }
    if Throughout(h, keeps) && keeps(Now(h), t) {
      forall i, j | 0 <= i <= j < |more| ensures keeps(more[i], more[j]) {
        if i < j == |h| {
          assert keeps(h[i], h[|h| - 1]) && Composes(keeps, h[i], Now(h), t);
        }
      }
    }
  }

  /** Every single write keeps it just when its call is not bad. */
  ghost predicate DecidesStep(keeps: (Store, Store) -> bool, bad: (History, Call) -> bool) {
    forall h: History, call :: SoundHistory(h) ==> (keeps(Now(h), Next(h, call)) <==> !bad(h, call))
  }

  /** Then a run keeps it throughout if and only if no call of it was bad. */
  lemma {:induction false} ThroughoutIffNever(calls: seq<Call>, keeps: (Store, Store) -> bool, bad: (History, Call) -> bool)
    requires Preorder(keeps) && DecidesStep(keeps, bad)
    ensures Throughout(Run(calls), keeps) <==> Never(calls, bad)
  {
    if calls != [] {
      var init, call := calls[..|calls| - 1], calls[|calls| - 1];
      assert calls == init + [call];
      ThroughoutIffNever(init, keeps, bad);
      ThroughoutStep(init, call, keeps, bad);
    }
  }

  lemma ThroughoutStep(init: seq<Call>, call: Call, keeps: (Store, Store) -> bool, bad: (History, Call) -> bool)
    requires Preorder(keeps) && DecidesStep(keeps, bad)
    ensures Throughout(Run(init + [call]), keeps) <==> Throughout(Run(init), keeps) && !bad(Run(init), call)
    ensures Never(init + [call], bad) <==> Never(init, bad) && !bad(Run(init), call)
  {
    RunExtends(init, call);
    NeverExtends(init, call, bad);
    ThroughoutExtends(Run(init), Next(Run(init), call), keeps);
    RunIsSound(init);
  }
}

/** What requests admitted in one tick can have from each other. */
module ServingBursts {
  import opened Requests
  import opened Waiting
  import opened Runtime
  import opened Serving
  import opened ServingInvariant
  import opened ServingQueue
  import opened ServingAdmit
  import opened ServingRuns
  import opened ServingTheorems
  import PrefixClaims

  /** Request x has prefilled the first n tokens of the prompt. */
  ghost predicate HasPrefilled(s: State, prompt: seq<Token>, n: nat, x: RequestId)
  {
    && x in s.active && x in s.accepted && n <= |prompt|
    && s.active[x].nPast >= n && prompt[..n] <= s.accepted[x].prompt
  }

  /** Somebody in this state has, or n is zero. */
  ghost predicate Sourced(s: State, prompt: seq<Token>, n: nat)
  {
    n == 0 || exists x :: HasPrefilled(s, prompt, n, x)
  }

  /** Whoever is active in t and was active in s is as it was. */
  ghost predicate Keeps(s: State, t: State)
  {
    t.accepted == s.accepted && forall x :: x in s.active ==> x in t.active && t.active[x] == s.active[x]
  }

  /** One admission: nobody else changes, and what the request starts with an active request has
      prefilled. */
  ghost predicate Admission(t: State, u: State, r: Request)
  {
    && Keeps(t, u) && r.id !in t.active && r.id in u.active && r.id in u.accepted && u.accepted[r.id] == r
    && (forall x :: x in u.active ==> x == r.id || x in t.active)
    && u.active[r.id].nPast <= |r.prompt| && Sourced(t, r.prompt, u.active[r.id].nPast)
  }

  // ---------------------------------------------------------------- one admission

  lemma HitMeansEnabled(cfg: Config, t: State, prompt: seq<Token>)
    requires Inv(cfg, t, {}, false) && PrefixClaims.MatchForReuse(t.claims, prompt, cfg.blockSize).nTokens > 0
    ensures cfg.prefixEnabled
  {
    if !cfg.prefixEnabled { PrefixClaims.NothingClaimed(prompt, cfg.blockSize); }
  }

  /** What the request starts with, and from whom. */
  lemma CopiedFrom(cfg: Config, t: State, r: Request) returns (donor: RequestId)
    requires Inv(cfg, t, {}, false) && t.freeSlots != [] && r in t.waiting
    ensures var n := AdmitOne(cfg, t, r).active[r.id].nPast;
            var hit := PrefixClaims.MatchForReuse(t.claims, r.prompt, cfg.blockSize);
            if hit.nTokens == 0 then n == 0
            else SoundDonor(cfg, t, r, donor) && n == if hit.nTokens <= t.active[donor].nPast then hit.nTokens else 0
  {
    donor := r.id;
    if PrefixClaims.MatchForReuse(t.claims, r.prompt, cfg.blockSize).nTokens > 0 {
      donor := SoundDonorOf(cfg, t, r);
      HitMeansEnabled(cfg, t, r.prompt);
    }
  }

  lemma WaitingIsNotActive(cfg: Config, t: State, r: Request)
    requires Inv(cfg, t, {}, false) && r in t.waiting
    ensures r.id !in t.active && r.id in t.accepted && t.accepted[r.id] == r
  {
    assert Waits(t.waiting, r.id);
    assert PlacedAt(t.waiting, SeatsOf(t.active), t.accepted, t.outcome, r.id);
    assert r.id in t.active ==> r.id in SeatsOf(t.active);
  }

  lemma AdmissionOf(cfg: Config, t: State, r: Request)
    requires Inv(cfg, t, {}, false) && t.freeSlots != [] && r in t.waiting
    ensures Admission(t, AdmitOne(cfg, t, r), r)
  {
    WaitingIsNotActive(cfg, t, r);
    var donor := CopiedFrom(cfg, t, r);
    SourcedAdmission(cfg, t, r, donor);
  }

  lemma SourcedAdmission(cfg: Config, t: State, r: Request, donor: RequestId)
    requires cfg.blockSize >= 1 && t.freeSlots != []
    requires var n := AdmitOne(cfg, t, r).active[r.id].nPast;
             n > 0 ==> SoundDonor(cfg, t, r, donor) && n <= t.active[donor].nPast
                       && n == PrefixClaims.MatchForReuse(t.claims, r.prompt, cfg.blockSize).nTokens
    ensures var n := AdmitOne(cfg, t, r).active[r.id].nPast;
            n <= |r.prompt| && Sourced(t, r.prompt, n)
  {
    var n := AdmitOne(cfg, t, r).active[r.id].nPast;
    if n > 0 { assert HasPrefilled(t, r.prompt, n, donor); }
  }

  // ---------------------------------------------------------------- a whole selection

  /** The state before the k-th admission of a selection. */
  ghost function After(cfg: Config, s: State, chosen: seq<Request>, k: nat): (t: State)
    requires cfg.blockSize >= 1 && k <= |chosen| <= |s.freeSlots|
  {
    AdmitAll(cfg, s, chosen[..k])
  }

  lemma AfterNext(cfg: Config, s: State, chosen: seq<Request>, k: nat)
    requires cfg.blockSize >= 1 && k < |chosen| <= |s.freeSlots|
    ensures After(cfg, s, chosen, 0) == s && After(cfg, s, chosen, k).freeSlots != []
    ensures After(cfg, s, chosen, k + 1) == AdmitOne(cfg, After(cfg, s, chosen, k), chosen[k])
  {
    assert chosen[..0] == [];
    assert chosen[..k + 1][..k] == chosen[..k] && chosen[..k + 1][k] == chosen[k];
  }

  ghost predicate AdmissionAt(mids: seq<State>, chosen: seq<Request>, k: int)
    requires 0 <= k < |chosen| == |mids| - 1
  {
    Admission(mids[k], mids[k + 1], chosen[k])
  }

  /** The states of a tick, from one admission to the next. */
  ghost predicate Admits(mids: seq<State>, chosen: seq<Request>)
  {
    |mids| == |chosen| + 1 && forall k {:trigger AdmissionAt(mids, chosen, k)} :: 0 <= k < |chosen| ==>
      AdmissionAt(mids, chosen, k)
  }

  ghost function Mids(cfg: Config, s: State, chosen: seq<Request>): (mids: seq<State>)
    requires cfg.blockSize >= 1 && |chosen| <= |s.freeSlots|
  {
    seq(|chosen| + 1, k requires 0 <= k <= |chosen| => After(cfg, s, chosen, k))
  }

  lemma NextAdmission(cfg: Config, s: State, chosen: seq<Request>, k: nat)
    requires Inv(cfg, s, {}, false) && IsSelection(s.waiting, |s.freeSlots|, chosen) && k < |chosen|
    ensures Admission(After(cfg, s, chosen, k), After(cfg, s, chosen, k + 1), chosen[k])
  {
    MidAdmission(cfg, s, chosen, k);
    AdmissionOf(cfg, After(cfg, s, chosen, k), chosen[k]);
    AfterNext(cfg, s, chosen, k);
  }

  lemma SelectionAdmits(cfg: Config, s: State, chosen: seq<Request>)
    requires Inv(cfg, s, {}, false) && IsSelection(s.waiting, |s.freeSlots|, chosen)
    ensures var mids := Mids(cfg, s, chosen);
            Admits(mids, chosen) && mids[0] == s && mids[|chosen|] == After(cfg, s, chosen, |chosen|)
  {
    var mids := Mids(cfg, s, chosen);
    assert chosen[..0] == [];
    forall k {:trigger AdmissionAt(mids, chosen, k)} | 0 <= k < |chosen| ensures AdmissionAt(mids, chosen, k) {
      NextAdmission(cfg, s, chosen, k);
    }
  }

  lemma {:induction false} LaterAdmissionsKeep(mids: seq<State>, chosen: seq<Request>, k: nat, n: nat)
    requires Admits(mids, chosen) && k <= n <= |chosen|
    ensures Keeps(mids[k], mids[n])
    decreases n
  {
    if k < n {
      LaterAdmissionsKeep(mids, chosen, k, n - 1);
      assert AdmissionAt(mids, chosen, n - 1);
    }
  }

  lemma SourcedThrough(s: State, prompt: seq<Token>, n: nat, donor: seq<Token>, m: nat)
    requires Sourced(s, donor, m) && 0 < n <= m <= |donor| && n <= |prompt| && prompt[..n] <= donor
    ensures Sourced(s, prompt, n)
  {
    var x :| HasPrefilled(s, donor, m, x);
    assert prompt[..n] == donor[..n] == donor[..m][..n];
    assert HasPrefilled(s, prompt, n, x);
  }

  /** Each active request of t was there in s, or somebody in s had prefilled what it starts with. */
  ghost predicate OldOrSourced(s: State, t: State, x: RequestId)
  {
    x in t.active ==>
      || (x in s.active && t.active[x] == s.active[x])
      || (x in t.accepted && t.active[x].nPast <= |t.accepted[x].prompt|
          && Sourced(s, t.accepted[x].prompt, t.active[x].nPast))
  }

  ghost predicate AllSourced(s: State, t: State)
  {
    t.accepted == s.accepted && forall x {:trigger OldOrSourced(s, t, x)} :: OldOrSourced(s, t, x)
  }

  lemma SourcedStep(s: State, t: State, u: State, r: Request)
    requires AllSourced(s, t) && Admission(t, u, r)
    ensures AllSourced(s, u)
  {
    var n := u.active[r.id].nPast;
    assert Sourced(s, r.prompt, n) by {
      if n > 0 {
        var donor :| HasPrefilled(t, r.prompt, n, donor);
        assert OldOrSourced(s, t, donor);
        if donor in s.active && t.active[donor] == s.active[donor] {
          assert HasPrefilled(s, r.prompt, n, donor);
        } else {
          SourcedThrough(s, r.prompt, n, t.accepted[donor].prompt, t.active[donor].nPast);
        }
      }
    }
    forall x {:trigger OldOrSourced(s, u, x)} ensures OldOrSourced(s, u, x) {
      assert OldOrSourced(s, t, x);
    }
  }

  lemma {:induction false} AdmissionsAreSourced(mids: seq<State>, chosen: seq<Request>, k: nat)
    requires Admits(mids, chosen) && k <= |chosen|
    ensures AllSourced(mids[0], mids[k])
  {
    if k == 0 {
      forall x {:trigger OldOrSourced(mids[0], mids[0], x)} ensures OldOrSourced(mids[0], mids[0], x) {}
    } else {
      AdmissionsAreSourced(mids, chosen, k - 1);
      assert AdmissionAt(mids, chosen, k - 1);
      SourcedStep(mids[0], mids[k - 1], mids[k], chosen[k - 1]);
    }
  }

  // ---------------------------------------------------------------- a tick

  /** The tick selects among who is left after the expiries; they change nobody active. */
  lemma TickSelects(cfg: Config, s: State, e: Event)
    requires Good(cfg, s) && e.TickStart? && Enabled(cfg, s, e) && Apply(cfg, s, e).phase != Parked
    ensures var u := ExpireAll(s, s.waiting, e.expired);
            && Inv(cfg, u, {}, false) && IsSelection(u.waiting, |u.freeSlots|, e.chosen)
            && u.active == s.active && u.accepted == s.accepted
            && Apply(cfg, s, e).active == After(cfg, u, e.chosen, |e.chosen|).active
            && Apply(cfg, s, e).accepted == After(cfg, u, e.chosen, |e.chosen|).accepted
  {
    ExpireAllKeeps(cfg, s, s.waiting, e.expired, {}, false);
    assert e.chosen[..|e.chosen|] == e.chosen;
  }

  lemma SourcedElsewhere(s: State, t: State, prompt: seq<Token>, n: nat)
    requires s.active == t.active && s.accepted == t.accepted && Sourced(s, prompt, n)
    ensures Sourced(t, prompt, n)
  {
    if n > 0 {
      var x :| HasPrefilled(s, prompt, n, x);
      assert HasPrefilled(t, prompt, n, x);
    }
  }

  lemma SourcedInTick(mids: seq<State>, chosen: seq<Request>, k: nat)
    requires Admits(mids, chosen) && k < |chosen|
    ensures var t, r := mids[|chosen|], chosen[k];
            r.id in t.active && Sourced(mids[0], r.prompt, t.active[r.id].nPast)
  {
    var t, r := mids[|chosen|], chosen[k];
    assert AdmissionAt(mids, chosen, k);
    LaterAdmissionsKeep(mids, chosen, 0, k);
    LaterAdmissionsKeep(mids, chosen, k + 1, |chosen|);
    AdmissionsAreSourced(mids, chosen, |chosen|);
    assert OldOrSourced(mids[0], t, r.id);
  }

  /** Nothing prefilled in a tick is shared in that tick: whatever a newly admitted request starts
      with, somebody who was active before the tick had prefilled those very tokens. */
  lemma ReuseComesFromEarlierTicks(cfg: Config, states: seq<State>, events: seq<Event>, i: nat, r: Request)
    requires IsRun(cfg, states, events) && i < |events| && events[i].TickStart? && states[i + 1].phase != Parked
    requires r in events[i].chosen
    ensures r.id in states[i + 1].active && Sourced(states[i], r.prompt, states[i + 1].active[r.id].nPast)
  {
    var s, e := states[i], events[i];
    RunIsGood(cfg, states, events, i);
    assert StepAt(cfg, states, events, i);
    TickSelects(cfg, s, e);
    var u := ExpireAll(s, s.waiting, e.expired);
    var k :| 0 <= k < |e.chosen| && e.chosen[k] == r;
    SelectionAdmits(cfg, u, e.chosen);
    SourcedInTick(Mids(cfg, u, e.chosen), e.chosen, k);
    SourcedElsewhere(u, s, r.prompt, states[i + 1].active[r.id].nPast);
  }

  /** So a burst that finds the server empty prefills every prompt in full. */
  lemma BurstOnEmptyServerSharesNothing(cfg: Config, states: seq<State>, events: seq<Event>, i: nat, r: Request)
    requires IsRun(cfg, states, events) && i < |events| && events[i].TickStart? && states[i + 1].phase != Parked
    requires r in events[i].chosen && states[i].active == map[]
    ensures r.id in states[i + 1].active && states[i + 1].active[r.id].nPast == 0
  {
    ReuseComesFromEarlierTicks(cfg, states, events, i, r);
  }

  /** What a donor can give: what it had prefilled before the tick, or what it has itself copied if
      it was admitted in the tick. */
  ghost predicate Copies(s: State, s': State, chosen: seq<Request>, k: nat, n: nat, donor: RequestId)
    requires k < |chosen|
  {
    && donor in s'.active && chosen[k].id in s'.active
    && (donor in s.active || Waits(chosen[..k], donor))
    && var had := if donor in s.active then s.active[donor].nPast else s'.active[donor].nPast;
       s'.active[chosen[k].id].nPast == if n <= had then n else 0
  }

  lemma CopiesInTick(cfg: Config, u: State, chosen: seq<Request>, k: nat) returns (donor: RequestId)
    requires Inv(cfg, u, {}, false) && IsSelection(u.waiting, |u.freeSlots|, chosen) && k < |chosen|
    requires PrefixClaims.MatchForReuse(After(cfg, u, chosen, k).claims, chosen[k].prompt, cfg.blockSize).nTokens > 0
    ensures var t := After(cfg, u, chosen, k);
            && SoundDonor(cfg, t, chosen[k], donor)
            && Copies(u, After(cfg, u, chosen, |chosen|), chosen, k,
                      PrefixClaims.MatchForReuse(t.claims, chosen[k].prompt, cfg.blockSize).nTokens, donor)
  {
    var mids := Mids(cfg, u, chosen);
    donor := CopiedNext(cfg, u, chosen, k);
    AdmitAllTable(cfg, u, chosen[..k], donor);
    SelectionAdmits(cfg, u, chosen);
    CopiesAmong(mids, chosen, k, PrefixClaims.MatchForReuse(mids[k].claims, chosen[k].prompt, cfg.blockSize).nTokens,
                donor);
  }

  lemma CopiedNext(cfg: Config, u: State, chosen: seq<Request>, k: nat) returns (donor: RequestId)
    requires Inv(cfg, u, {}, false) && IsSelection(u.waiting, |u.freeSlots|, chosen) && k < |chosen|
    requires PrefixClaims.MatchForReuse(After(cfg, u, chosen, k).claims, chosen[k].prompt, cfg.blockSize).nTokens > 0
    ensures SoundDonor(cfg, After(cfg, u, chosen, k), chosen[k], donor)
    ensures Took(After(cfg, u, chosen, k), After(cfg, u, chosen, k + 1), chosen[k].id,
                 PrefixClaims.MatchForReuse(After(cfg, u, chosen, k).claims, chosen[k].prompt, cfg.blockSize).nTokens,
                   donor)
  {
    MidAdmission(cfg, u, chosen, k);
    donor := CopiedFrom(cfg, After(cfg, u, chosen, k), chosen[k]);
    AfterNext(cfg, u, chosen, k);
  }

  /** The new request starts with the n matched tokens if the donor has that many, else with none. */
  ghost predicate Took(t: State, t': State, id: RequestId, n: nat, donor: RequestId)
  {
    donor in t.active && id in t'.active && t'.active[id].nPast == if n <= t.active[donor].nPast then n else 0
  }

  lemma CopiesAmong(mids: seq<State>, chosen: seq<Request>, k: nat, n: nat, donor: RequestId)
    requires Admits(mids, chosen) && k < |chosen| && Took(mids[k], mids[k + 1], chosen[k].id, n, donor)
    requires donor in mids[0].active || Waits(chosen[..k], donor)
    ensures Copies(mids[0], mids[|chosen|], chosen, k, n, donor)
  {
    LaterAdmissionsKeep(mids, chosen, 0, k);
    LaterAdmissionsKeep(mids, chosen, k, |chosen|);
    LaterAdmissionsKeep(mids, chosen, k + 1, |chosen|);
  }

  /** Exactly when a member of a burst copies: its match is no longer than what its donor had
      prefilled before the tick, or had itself copied in it. */
  lemma BurstCopiesIff(cfg: Config, states: seq<State>, events: seq<Event>, i: nat, k: nat) returns (donor: RequestId)
    requires IsRun(cfg, states, events) && i < |events| && events[i].TickStart? && states[i + 1].phase != Parked
    requires k < |events[i].chosen|
    requires PrefixClaims.MatchForReuse(AtLookup(cfg, states[i], events[i], k).claims, events[i].chosen[k].prompt,
                                        cfg.blockSize).nTokens > 0
    ensures var t, chosen := AtLookup(cfg, states[i], events[i], k), events[i].chosen;
            && SoundDonor(cfg, t, chosen[k], donor)
            && Copies(states[i], states[i + 1], chosen, k,
                      PrefixClaims.MatchForReuse(t.claims, chosen[k].prompt, cfg.blockSize).nTokens, donor)
  {
    var s, e := states[i], events[i];
    RunIsGood(cfg, states, events, i);
    assert StepAt(cfg, states, events, i);
    TickSelects(cfg, s, e);
    donor := CopiesInTick(cfg, ExpireAll(s, s.waiting, e.expired), e.chosen, k);
  }
}

/** The operations on shared realms as they are called, with other threads acting between their steps. */
module Coordinators {
  import opened Options
  import opened Handovers
  import opened HandoverRuns

  /**
   * How a call that resolves a reference ends: refused, with an exception of some step, with an import that failed
   * because the versions differ, with an empty value, or with the reference imported at a version.
   */
  datatype Resolved = Refused | Threw | BadVersion | Empty | Imported(at: Version)

  class Coordinator {
    var latest: Version
    var available: set<Version>
    var pins: multiset<Version>
    var live: map<nat, Version>
    var realms: map<nat, RealmState>
    var calls: map<nat, Call>

    function State(): State
      reads this
    {
      Handovers.State(latest, available, pins, live, realms, calls)
    }

    constructor ()
      ensures State() == Initial() && Inv(State())
    {
      latest, available, pins, live, realms, calls := 0, {0}, multiset{}, map[], map[], map[];
      new;
      InitialIsOk();
    }

    // ----- references -----

    /** A read lock on the version that the realm reads is handed to the new reference. */
    method PinVersion(id: nat, v: Version)
      modifies this`pins, this`live
      ensures State() == Pinned(old(State()), id, v)
    {
      pins := pins + multiset{v};
      live := live[id := v];
    }

    /** The pin of the reference is released, and the reference cannot be used again. */
    method Invalidate(id: nat)
      requires id in live && live[id] in pins
      modifies this`pins, this`live
      ensures State() == Invalidated(old(State()), id)
    {
      pins := pins - multiset{live[id]};
      live := live - {id};
    }

    /** Refused during a write, or on another thread than the realm's. */
    method Obtain(r: nat, id: nat, rightThread: bool) returns (ok: bool)
      requires Inv(State()) && Idle(State(), r) && IsReading(State(), r) && id !in live && !InCall(State(), id)
      modifies this`pins, this`live
      ensures Inv(State())
      ensures ok <==> rightThread && !realms[r].writing
      ensures State() == if ok then Next(old(State()), Event.Obtain(r, id)) else old(State())
      ensures ok ==> id in live && Some(live[id]) == realms[r].read && pins == old(pins) + multiset{live[id]}
    {
      ok := rightThread && !realms[r].writing;
      if ok {
        NextKeeps(State(), Event.Obtain(r, id));
        PinVersion(id, realms[r].read.value);
      }
    }

    /** A reference that is dropped without having been resolved gives its pin back. */
    method Destroy(id: nat)
      requires Inv(State()) && !InCall(State(), id)
      modifies this`pins, this`live
      ensures Inv(State()) && id !in live
      ensures State() == if id in old(live) then Invalidated(old(State()), id) else old(State())
    {
      if id in live {
        InvalidatedKeeps(State(), id);
        InvalidatedPins(State(), id);
        Invalidate(id);
      }
    }

    // ----- other threads -----

    /** Whatever other threads do in the meantime, as long as it is something they can do. */
    method Others(r: nat, es: seq<Event>)
      requires Inv(State()) && r in calls
      modifies this
      ensures Inv(State()) && r in calls && calls[r] == old(calls[r]) && r in realms && realms[r] == old(realms)[r]
      ensures calls[r].ref in live <==> calls[r].ref in old(live)
      ensures calls[r].ref in live ==> live[calls[r].ref] == old(live)[calls[r].ref]
    {
      assert CallOk(State(), r);
      var k := 0;
      while k < |es|
        invariant Inv(State()) && r in calls && calls[r] == old(calls[r]) && r in realms && r in old(realms) && realms[r] == old(realms)[r]
        invariant calls[r].ref in live <==> calls[r].ref in old(live)
        invariant calls[r].ref in live ==> live[calls[r].ref] == old(live)[calls[r].ref]
      {
        if Enabled(State(), es[k]) && !(es[k].Proceed? && es[k].r == r) {
          NextKeeps(State(), es[k]);
          OthersKeepOut(State(), es[k], r);
          Become(Next(State(), es[k]));
        }
        k := k + 1;
      }
    }

    method Become(s: State)
      modifies this
      ensures State() == s
    {
      latest, available, pins, live, realms, calls := s.latest, s.available, s.pins, s.live, s.realms, s.calls;
    }

    // ----- the steps of a call -----

    method MoveTo(r: nat, stage: Stage)
      requires r in calls
      modifies this`calls
      ensures State() == AtStage(old(State()), r, stage)
    {
      calls := calls[r := calls[r].(stage := stage)];
    }

    /** Leaving the call destroys the reference it was given. */
    method Leave(r: nat)
      requires Inv(State()) && r in calls
      modifies this`calls, this`pins, this`live
      ensures State() == Ended(old(State()), r) && Inv(State()) && r !in calls
    {
      EndedKeeps(State(), r);
      CallRemoved(State(), r);
      var id := calls[r].ref;
      calls := calls - {r};
      Destroy(id);
    }

    /** The realm, which has no read transaction, begins one at the version of the reference. */
    method BeginReadAt(r: nat, ok: bool)
      requires Inv(State()) && r in calls && calls[r].stage.BeginRead? && CallOk(State(), r)
      modifies this
      ensures Inv(State()) && State() == Proceeded(old(State()), r, ok, 0)
      ensures r in realms && realms[r].read == Some(old(live[calls[r].ref]))
      ensures ok ==> r in calls && calls[r].stage.Import?
      ensures !ok ==> r !in calls && old(calls[r].ref) !in live
    {
      ProceedKeeps(State(), r, ok, 0);
      EndedPins(State(), r);
      hide Inv, CallOk;
      realms := realms[r := realms[r].(read := Some(live[calls[r].ref]))];
      if ok {
        MoveTo(r, Import);
      } else {
        var id := calls[r].ref;
        calls := calls - {r};
        Invalidate(id);
      }
    }

    /** A refresh does nothing while the realm is sending notifications. */
    method RefreshRealm(r: nat)
      requires Inv(State()) && r in calls && calls[r].stage.Refresh? && CallOk(State(), r)
      modifies this
      ensures Inv(State()) && State() == Proceeded(old(State()), r, true, 0)
      ensures r in realms && latest == old(latest)
      ensures realms[r].read == if old(realms[r].sending) then old(realms[r].read) else Some(latest)
      ensures r in calls && calls[r].ref in live && realms[r].read.Some?
      ensures calls[r].stage == if live[calls[r].ref] < realms[r].read.value then OpenTemporary else Import
    {
      ProceedKeeps(State(), r, true, 0);
      if !realms[r].sending {
        realms := realms[r := realms[r].(read := Some(latest))];
      }
      MoveTo(r, if live[calls[r].ref] < realms[r].read.value then OpenTemporary else Import);
    }

    /** A second realm of the file is opened at the version of the reference. */
    method OpenTemporaryRealm(r: nat)
      requires Inv(State()) && r in calls && calls[r].stage.OpenTemporary? && CallOk(State(), r)
      modifies this`calls
      ensures Inv(State()) && State() == Proceeded(old(State()), r, true, 0)
      ensures r in calls && calls[r].temporary == Some(live[old(calls[r].ref)])
    {
      ProceedKeeps(State(), r, true, 0);
      calls := calls[r := calls[r].(stage := ImportTemporary, temporary := Some(live[calls[r].ref]))];
    }

    /** After the import the reference is invalidated. */
    method UnpinAfterImport(r: nat)
      requires Inv(State()) && r in calls && calls[r].stage == UnpinTemporary(true) && CallOk(State(), r)
      modifies this`calls, this`pins, this`live
      ensures Inv(State()) && State() == Proceeded(old(State()), r, true, 0)
    {
      ProceedKeeps(State(), r, true, 0);
      InvalidatedPins(State(), calls[r].ref);
      Invalidate(calls[r].ref);
      MoveTo(r, AdvanceTemporary);
    }

    /** The temporary realm catches up with the realm of the call. */
    method AdvanceTemporaryRealm(r: nat)
      requires Inv(State()) && r in calls && calls[r].stage.AdvanceTemporary? && CallOk(State(), r)
      modifies this`calls
      ensures Inv(State()) && State() == Proceeded(old(State()), r, true, 0)
      ensures r in calls && calls[r].temporary == realms[r].read
    {
      ProceedKeeps(State(), r, true, 0);
      calls := calls[r := calls[r].(stage := PinAgain, temporary := realms[r].read)];
    }

    method FreshId() returns (n: nat)
      ensures n !in live && !InCall(State(), n)
    {
      var used := live.Keys + set r | r in calls :: calls[r].ref;
      var left := used;
      n := 0;
      while n in used
        invariant forall x :: x in used && n <= x ==> x in left
        decreases |left|
      {
        left := left - {n};
        n := n + 1;
      }
    }

    /** What was imported is referenced anew, now from the temporary realm. */
    method ReferenceAgain(r: nat) returns (n: nat)
      requires Inv(State()) && r in calls && calls[r].stage.PinAgain? && CallOk(State(), r)
      modifies this`calls, this`pins, this`live
      ensures Inv(State()) && Enabled(old(State()), Proceed(r, true, n)) && State() == Proceeded(old(State()), r, true, n)
      ensures n !in old(live) && r in calls && calls[r].ref == n && n in live && Some(live[n]) == old(calls[r].temporary)
    {
      n := FreshId();
      ProceedKeeps(State(), r, true, n);
      PinVersion(n, calls[r].temporary.value);
      calls := calls[r := calls[r].(stage := Import, ref := n)];
    }

    // ----- the whole call -----

    /** Other threads act; the call stays on its course. */
    method Meanwhile(r: nat, es: seq<Event>, ghost behind: bool)
      requires Inv(State()) && OnCourse(State(), r, behind)
      modifies this
      ensures Inv(State()) && OnCourse(State(), r, behind) && calls[r] == old(calls[r])
    {
      ghost var s := State();
      Others(r, es);
      OnCourseAfterOthers(s, State(), r, behind);
    }

    /** A step that succeeds and does not end the call. */
    lemma StepKept(s: State, r: nat, id: nat, behind: bool)
      requires Inv(s) && Enabled(s, Proceed(r, true, id)) && OnCourse(s, r, behind) && State() == Proceeded(s, r, true, id)
      requires r in calls
      ensures OnCourse(State(), r, behind)
    {
      OnCourseStep(s, r, id, behind);
    }

    /** The reference is older than the realm: a temporary realm imports it and carries it to the realm's version. */
    method ThroughTemporary(r: nat, fate: nat -> bool, others: nat -> seq<Event>, ghost behind: bool) returns (result: Option<Resolved>)
      requires Inv(State()) && OnCourse(State(), r, behind) && calls[r].stage.OpenTemporary?
      modifies this
      ensures Inv(State())
      ensures result.Some? ==> !behind && r !in calls && (result.value == Threw || result.value == Empty) && exists k :: !fate(k)
      ensures result.None? ==> OnCourse(State(), r, behind) && calls[r].stage.Import?
    {
      hide Inv, OnCourse, Proceeded;
      CourseFacts(State(), r, behind);
      if !fate(1) {
        FailedStepEnds(State(), r);
        LeaveWithStep(r);
        return Some(Threw);
      }
      label opening:
      OpenTemporaryRealm(r);
      TemporaryStages(old@opening(State()), r);
      StepKept(old@opening(State()), r, 0, behind);
      Meanwhile(r, others(2), behind);
      ImportIntoTemporary(r, fate(2), behind);
      Meanwhile(r, others(3), behind);
      CourseFacts(State(), r, behind);
      if !fate(2) {
        FailedStepEnds(State(), r);
        LeaveWithStep(r);
        return Some(Threw);
      }
      label unpinning:
      UnpinAfterImport(r);
      TemporaryStages(old@unpinning(State()), r);
      StepKept(old@unpinning(State()), r, 0, behind);
      Meanwhile(r, others(4), behind);
      CourseFacts(State(), r, behind);
      if !fate(3) {
        FailedStepEnds(State(), r);
        LeaveWithStep(r);
        return Some(Empty);
      }
      label advancing:
      AdvanceTemporaryRealm(r);
      TemporaryStages(old@advancing(State()), r);
      StepKept(old@advancing(State()), r, 0, behind);
      Meanwhile(r, others(5), behind);
      CourseFacts(State(), r, behind);
      label pinning:
      var n := ReferenceAgain(r);
      PinAgainStage(old@pinning(State()), r, n);
      StepKept(old@pinning(State()), r, n, behind);
      result := None;
    }

    method ImportIntoTemporary(r: nat, ok: bool, ghost behind: bool)
      requires Inv(State()) && OnCourse(State(), r, behind) && calls[r].stage.ImportTemporary?
      modifies this`calls
      ensures Inv(State()) && OnCourse(State(), r, behind) && r in calls && calls[r].stage == UnpinTemporary(ok)
      ensures State() == Proceeded(old(State()), r, ok, 0)
    {
      CourseFacts(State(), r, behind);
      ProceedKeeps(State(), r, ok, 0);
      StaysOnCourse(State(), Proceed(r, ok, 0), r, behind);
      MoveTo(r, UnpinTemporary(ok));
    }

    /** Whether or not the import succeeds, the pin is released next. */
    method ImportHere(r: nat, ok: bool)
      requires Inv(State()) && r in calls && calls[r].stage.Import? && CallOk(State(), r)
      modifies this`calls
      ensures Inv(State()) && State() == Proceeded(old(State()), r, ok, 0)
      ensures r in calls && calls[r] == old(calls[r]).(stage := Unpin)
    {
      ProceedKeeps(State(), r, ok, 0);
      MoveTo(r, Unpin);
    }

    /** A step that fails, or the last one: the call is left as the protocol says. */
    method LeaveWithStep(r: nat)
      requires Inv(State()) && r in calls && CallOk(State(), r)
      requires Proceeded(State(), r, false, 0) == Ended(State(), r)
      modifies this`calls, this`pins, this`live
      ensures State() == Proceeded(old(State()), r, false, 0) && Inv(State()) && r !in calls
    {
      Leave(r);
    }

    /** The import fails when the realm does not read the version of the reference; the pin is released either way. */
    method ImportAndUnpin(r: nat, ok: bool, others: seq<Event>, ghost behind: bool) returns (result: Resolved)
      requires Inv(State()) && OnCourse(State(), r, behind) && calls[r].stage.Import?
      modifies this
      ensures Inv(State()) && r !in calls
      ensures result == BadVersion || result.Imported? || (result == Threw && !ok)
      ensures result == BadVersion <==> behind
      ensures result.Imported? ==> r in realms && realms[r].read == Some(result.at)
    {
      CourseFacts(State(), r, behind);
      var current, wanted := realms[r].read, live[calls[r].ref];
      ImportHere(r, ok);
      Others(r, others);
      assert CallOk(State(), r);
      FailedStepEnds(State(), r);
      LeaveWithStep(r);
      result := if current != Some(wanted) then BadVersion else if ok then Imported(wanted) else Threw;
    }

    /** The checks at the start of a call. */
    method Enter(r: nat, id: nat, rightThread: bool) returns (accepted: bool, ghost behind: bool)
      requires Inv(State()) && Enabled(State(), Resolve(r, id, rightThread))
      modifies this`calls, this`pins, this`live
      ensures Inv(State()) && State() == Next(old(State()), Resolve(r, id, rightThread))
      ensures accepted <==> Accepted(old(State()), Resolve(r, id, rightThread))
      ensures !accepted ==> r !in calls && id !in live
      ensures accepted ==> OnCourse(State(), r, behind) && behind == BehindWhileSending(old(State()), r, id)
      ensures accepted ==> calls[r].stage.BeginRead? || calls[r].stage.Refresh? || calls[r].stage.Import?
      ensures accepted ==> calls[r] == Call(id,
                if realms[r].read.None? then BeginRead else if realms[r].read == Some(live[id]) then Import else Refresh, None)
    {
      var m := realms[r];
      behind := BehindWhileSending(State(), r, id);
      StartedKeeps(State(), r, id, rightThread);
      ghost var s := State();
      accepted := rightThread && !m.writing && id in live && !m.foreign;
      if accepted {
        StartsOnCourse(State(), Resolve(r, id, rightThread));
        var stage := if m.read.None? then BeginRead else if m.read == Some(live[id]) then Import else Refresh;
        calls := calls[r := Call(id, stage, None)];
      } else {
        hide Inv;
        RefusedIsDestroyed(s, Resolve(r, id, rightThread));
        Destroy(id);
      }
    }

    /** The realm is brought to the version of the reference, or the reference to the version of the realm. */
    method Synchronise(r: nat, fate: nat -> bool, others: nat -> seq<Event>, ghost behind: bool) returns (ended: Option<Resolved>)
      requires Inv(State()) && OnCourse(State(), r, behind)
      requires calls[r].stage.BeginRead? || calls[r].stage.Refresh? || calls[r].stage.Import?
      modifies this
      ensures Inv(State())
      ensures ended.Some? ==> r !in calls && (ended.value == Threw || ended.value == Empty) && exists k :: !fate(k)
      ensures ended.Some? && behind ==> ended.value == Threw
      ensures ended.None? ==> OnCourse(State(), r, behind) && calls[r].stage.Import?
    {
      hide Inv, OnCourse, Proceeded;
      CourseFacts(State(), r, behind);
      ended := None;
      if calls[r].stage == BeginRead {
        label beginning:
        BeginReadAt(r, fate(0));
        FirstStages(old@beginning(State()), r, fate(0));
        if !fate(0) {
          return Some(Threw);
        }
        StepKept(old@beginning(State()), r, 0, behind);
      } else if calls[r].stage == Refresh {
        if !fate(0) {
          FailedStepEnds(State(), r);
          LeaveWithStep(r);
          return Some(Threw);
        }
        label refreshing:
        RefreshRealm(r);
        FirstStages(old@refreshing(State()), r, true);
        StepKept(old@refreshing(State()), r, 0, behind);
        Meanwhile(r, others(1), behind);
        if calls[r].stage == OpenTemporary {
          CourseFacts(State(), r, behind);
          ended := ThroughTemporary(r, fate, others, behind);
        }
      }
    }

    /**
     * One call from start to end, with other threads acting between its steps. It fails for a wrong version exactly
     * when its realm was sending notifications and behind the reference at the start.
     */
    method ResolveReference(r: nat, id: nat, rightThread: bool, fate: nat -> bool, others: nat -> seq<Event>) returns (result: Resolved)
      requires Inv(State()) && Enabled(State(), Resolve(r, id, rightThread))
      modifies this
      ensures Inv(State()) && r !in calls
      ensures result == Refused <==> !Accepted(old(State()), Resolve(r, id, rightThread))
      ensures result == Refused ==> State() == Next(old(State()), Resolve(r, id, rightThread)) && id !in live
      ensures result == BadVersion ==> BehindWhileSending(old(State()), r, id)
      ensures result.Imported? || result == Empty ==> !BehindWhileSending(old(State()), r, id)
      ensures result.Imported? ==> r in realms && realms[r].read == Some(result.at)
      ensures (forall k :: fate(k)) && result != Refused ==>
                if BehindWhileSending(old(State()), r, id) then result == BadVersion else result.Imported?
    {
      var accepted, behind := Enter(r, id, rightThread);
      hide Inv, OnCourse, Accepted, BehindWhileSending;
      if !accepted {
        return Refused;
      }
      Meanwhile(r, others(0), behind);
      var ended := Synchronise(r, fate, others, behind);
      if ended.Some? {
        return ended.value;
      }
      Meanwhile(r, others(6), behind);
      result := ImportAndUnpin(r, fate(4), others(7), behind);
    }
  }

  lemma OnCourseStep(s: State, r: nat, id: nat, behind: bool)
    requires Inv(s) && Enabled(s, Proceed(r, true, id)) && OnCourse(s, r, behind) && r in Proceeded(s, r, true, id).calls
    ensures OnCourse(Proceeded(s, r, true, id), r, behind)
  {
    StaysOnCourse(s, Proceed(r, true, id), r, behind);
  }

  /** Whether the course is kept shows in the call, its realm and its reference alone. */
  lemma OnCourseAfterOthers(s: State, t: State, r: nat, behind: bool)
    requires OnCourse(s, r, behind) && Inv(t) && r in t.calls && t.calls[r] == s.calls[r] && r in t.realms && t.realms[r] == s.realms[r]
    requires s.calls[r].ref in t.live <==> s.calls[r].ref in s.live
    requires s.calls[r].ref in s.live ==> t.live[s.calls[r].ref] == s.live[s.calls[r].ref]
    ensures OnCourse(t, r, behind)
  {
    assert CallOk(t, r);
  }

  lemma CourseFacts(s: State, r: nat, behind: bool)
    requires OnCourse(s, r, behind)
    ensures CallOk(s, r)
    ensures s.calls[r].stage.OpenTemporary? || s.calls[r].stage.BeginRead? ==> !behind
    ensures s.calls[r].stage.Import? ==>
              s.calls[r].ref in s.live && (behind <==> s.realms[r].read != Some(s.live[s.calls[r].ref]))
  {
  }

  lemma FirstStages(s: State, r: nat, ok: bool)
    requires r in s.calls && r in s.realms && CallOk(s, r) && (s.calls[r].stage.BeginRead? || s.calls[r].stage.Refresh?)
    ensures var t := Proceeded(s, r, ok, 0);
            if ok then r in t.calls && (t.calls[r].stage == Import || (s.calls[r].stage == Refresh && t.calls[r].stage == OpenTemporary))
            else r !in t.calls
    ensures Enabled(s, Proceed(r, ok, 0))
  {
  }

  lemma TemporaryStages(s: State, r: nat)
    requires r in s.calls && r in s.realms && CallOk(s, r)
    requires s.calls[r].stage.OpenTemporary? || s.calls[r].stage == UnpinTemporary(true) || s.calls[r].stage.AdvanceTemporary?
    ensures var t := Proceeded(s, r, true, 0);
            && r in t.calls
            && (s.calls[r].stage.OpenTemporary? ==> t.calls[r].stage.ImportTemporary?)
            && (s.calls[r].stage.UnpinTemporary? ==> t.calls[r].stage.AdvanceTemporary?)
            && (s.calls[r].stage.AdvanceTemporary? ==> t.calls[r].stage.PinAgain?)
    ensures Enabled(s, Proceed(r, true, 0))
  {
  }

  lemma PinAgainStage(s: State, r: nat, n: nat)
    requires r in s.calls && r in s.realms && CallOk(s, r) && s.calls[r].stage.PinAgain?
    ensures var t := Proceeded(s, r, true, n); r in t.calls && t.calls[r].stage.Import?
  {
  }

  lemma FailedStepEnds(s: State, r: nat)
    requires CallOk(s, r)
    requires var st := s.calls[r].stage; st.Refresh? || st.OpenTemporary? || st.AdvanceTemporary? || st == UnpinTemporary(false) || st.Unpin?
    ensures Proceeded(s, r, false, 0) == Ended(s, r)
  {
  }

  lemma EndedPins(s: State, r: nat)
    requires Inv(s) && r in s.calls && s.calls[r].ref in s.live
    ensures s.live[s.calls[r].ref] in s.pins
  {
    LiveIsAvailable(s, s.calls[r].ref);
  }
}

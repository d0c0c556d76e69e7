/** What holds of every run of the handover protocol, and of each call in it. */
module HandoverRuns {
  import opened Options
  import opened Handovers

  /** States and the events between them, from a newly opened file on. */
  ghost predicate IsRun(ss: seq<State>, es: seq<Event>) {
    && |ss| == |es| + 1 && ss[0] == Initial()
    && forall i :: 0 <= i < |es| ==> Enabled(ss[i], es[i]) && ss[i + 1] == Next(ss[i], es[i])
  }

  lemma {:induction false} RunKeeps(ss: seq<State>, es: seq<Event>, k: nat)
    requires IsRun(ss, es) && k < |ss|
    ensures Inv(ss[k])
  {
    if k == 0 {
      InitialIsOk();
    } else {
      RunKeeps(ss, es, k - 1);
      assert ss[k] == Next(ss[k - 1], es[k - 1]);
      NextKeeps(ss[k - 1], es[k - 1]);
    }
  }

  /** In every run the outstanding pins of a version are its references that have not been invalidated. */
  lemma PinsAreReferences(ss: seq<State>, es: seq<Event>, k: nat, v: Version)
    requires IsRun(ss, es) && k < |ss|
    ensures ss[k].pins[v] == |set id | id in ss[k].live && ss[k].live[id] == v|
  {
    RunKeeps(ss, es, k);
    assert HoldersOf(ss[k], v) == set id | id in ss[k].live && ss[k].live[id] == v;
  }

  /** When every reference has been resolved or dropped, no pin is left. */
  lemma NoPinIsLeft(ss: seq<State>, es: seq<Event>, k: nat)
    requires IsRun(ss, es) && k < |ss| && ss[k].live == map[]
    ensures ss[k].pins == multiset{}
  {
    forall v: Version
      ensures ss[k].pins[v] == 0
    {
      RunKeeps(ss, es, k);
      assert HoldersOf(ss[k], v) == {};
      assert ss[k].pins[v] == |HoldersOf(ss[k], v)|;
    }
  }

  /** The event imports a reference, into the call's realm or into its temporary one. */
  predicate IsImport(s: State, e: Event) {
    e.Proceed? && e.r in s.calls && (s.calls[e.r].stage.Import? || s.calls[e.r].stage.ImportTemporary?)
  }

  /** The version that the importing realm reads. */
  function ImportingVersion(s: State, e: Event): Option<Version>
    requires IsImport(s, e) && e.r in s.realms
  {
    if s.calls[e.r].stage.Import? then s.realms[e.r].read else s.calls[e.r].temporary
  }

  /**
   * Whenever a reference is imported, its version is still pinned, and the importing realm reads that version,
   * unless it is sending notifications and is behind.
   */
  lemma ImportsAreSafe(ss: seq<State>, es: seq<Event>, k: nat)
    requires IsRun(ss, es) && k < |es| && IsImport(ss[k], es[k])
    ensures var s, r := ss[k], es[k].r;
            && r in s.realms && s.calls[r].ref in s.live
            && var v := s.live[s.calls[r].ref];
               && v in s.pins && v in s.available
               && (|| ImportingVersion(s, es[k]) == Some(v)
                   || (s.calls[r].stage.Import? && s.realms[r].sending && s.realms[r].read.Some? && s.realms[r].read.value < v))
  {
    RunKeeps(ss, es, k);
    assert CallOk(ss[k], es[k].r);
    LiveIsAvailable(ss[k], ss[k].calls[es[k].r].ref);
  }

  /** A version that a call asks for by its number has not been cleaned up, and a realm never goes back. */
  lemma WantedVersionsAreThere(ss: seq<State>, es: seq<Event>, k: nat)
    requires IsRun(ss, es) && k < |es| && es[k].Proceed?
    ensures var s, r := ss[k], es[k].r;
            match WantedVersion(s, r)
            case None => true
            case Some(v) => v in s.available && (s.calls[r].temporary.Some? ==> s.calls[r].temporary.value <= v)
  {
    RunKeeps(ss, es, k);
    var s, r := ss[k], es[k].r;
    assert CallOk(s, r);
    if s.calls[r].ref in s.live {
      LiveIsAvailable(s, s.calls[r].ref);
    }
    if s.realms[r].read.Some? {
      ReadIsAvailable(s, r);
    }
  }

  /** Where a call releases the pin of its reference, the pin is there to be released. */
  lemma ReleasedPinsAreHeld(ss: seq<State>, es: seq<Event>, k: nat)
    requires IsRun(ss, es) && k < |es| && es[k].Proceed?
    ensures var s, r := ss[k], es[k].r;
            s.calls[r].stage.Unpin? || s.calls[r].stage.UnpinTemporary? ==>
              s.calls[r].ref in s.live && s.live[s.calls[r].ref] in s.pins
  {
    RunKeeps(ss, es, k);
    var s, r := ss[k], es[k].r;
    assert CallOk(s, r);
    if s.calls[r].ref in s.live {
      LiveIsAvailable(s, s.calls[r].ref);
    }
  }

  // ----- one call among other threads -----

  lemma CallIsOk(s: State, r: nat)
    requires Inv(s) && r in s.calls
    ensures CallOk(s, r)
  {
  }

  /** An event of another thread leaves the call, its realm and its reference alone. */
  lemma OthersKeepOut(s: State, e: Event, r: nat)
    requires Inv(s) && Enabled(s, e) && r in s.calls && !(e.Proceed? && e.r == r)
    ensures var t := Next(s, e);
            && r in t.calls && t.calls[r] == s.calls[r] && r in t.realms && t.realms[r] == s.realms[r]
            && (s.calls[r].ref in t.live <==> s.calls[r].ref in s.live)
            && (s.calls[r].ref in s.live ==> t.live[s.calls[r].ref] == s.live[s.calls[r].ref])
  {
    hide Inv, Proceeded;
    CallIsOk(s, r);
    if e.Proceed? {
      OtherCallsKeepOut(s, e, r);
    } else {
      EventsKeepOut(s, e, r);
    }
  }

  lemma EventsKeepOut(s: State, e: Event, r: nat)
    requires Enabled(s, e) && !e.Proceed? && r in s.calls && r in s.realms
    ensures var t := Next(s, e);
            && r in t.calls && t.calls[r] == s.calls[r] && r in t.realms && t.realms[r] == s.realms[r]
            && (s.calls[r].ref in t.live <==> s.calls[r].ref in s.live)
            && (s.calls[r].ref in s.live ==> t.live[s.calls[r].ref] == s.live[s.calls[r].ref])
  {
    hide Proceeded;
    assert forall id :: !InCall(s, id) ==> s.calls[r].ref != id;
  }

  /** A step of a call on q touches only that call, its realm, its reference and the reference it creates. */
  ghost predicate TouchesOnly(s: State, t: State, q: nat, ref: nat, created: Option<nat>) {
    CallsStay(s, t, q) && RealmsStay(s, t, q) && ReferencesStay(s, t, ref, created)
  }

  ghost predicate CallsStay(s: State, t: State, q: nat) {
    forall r :: r != q ==> (r in t.calls <==> r in s.calls) && (r in s.calls ==> t.calls[r] == s.calls[r])
  }

  ghost predicate RealmsStay(s: State, t: State, q: nat) {
    forall r :: r != q ==> (r in t.realms <==> r in s.realms) && (r in s.realms ==> t.realms[r] == s.realms[r])
  }

  ghost predicate ReferencesStay(s: State, t: State, ref: nat, created: Option<nat>) {
    forall x :: x != ref && Some(x) != created ==> (x in t.live <==> x in s.live) && (x in s.live ==> t.live[x] == s.live[x])
  }

  lemma CallsOfOthersStay(s: State, q: nat, ok: bool, id: nat)
    requires q in s.calls && q in s.realms
    ensures CallsStay(s, Proceeded(s, q, ok, id), q)
  {
  }

  lemma RealmsOfOthersStay(s: State, q: nat, ok: bool, id: nat)
    requires q in s.calls && q in s.realms
    ensures RealmsStay(s, Proceeded(s, q, ok, id), q)
  {
  }

  lemma OtherReferencesStay(s: State, q: nat, ok: bool, id: nat)
    requires q in s.calls && q in s.realms
    ensures ReferencesStay(s, Proceeded(s, q, ok, id), s.calls[q].ref, if s.calls[q].stage.PinAgain? then Some(id) else None)
  {
  }

  lemma ProceededTouchesOnly(s: State, q: nat, ok: bool, id: nat)
    requires q in s.calls && q in s.realms
    ensures TouchesOnly(s, Proceeded(s, q, ok, id), q, s.calls[q].ref, if s.calls[q].stage.PinAgain? then Some(id) else None)
  {
    hide Proceeded, CallsStay, RealmsStay, ReferencesStay;
    CallsOfOthersStay(s, q, ok, id);
    RealmsOfOthersStay(s, q, ok, id);
    OtherReferencesStay(s, q, ok, id);
  }

  lemma OtherCallsKeepOut(s: State, e: Event, r: nat)
    requires Inv(s) && Enabled(s, e) && e.Proceed? && r in s.calls && e.r != r
    ensures var t := Next(s, e);
            && r in t.calls && t.calls[r] == s.calls[r] && r in t.realms && t.realms[r] == s.realms[r]
            && (s.calls[r].ref in t.live <==> s.calls[r].ref in s.live)
            && (s.calls[r].ref in s.live ==> t.live[s.calls[r].ref] == s.live[s.calls[r].ref])
  {
    hide Inv, Proceeded;
    CallIsOk(s, r);
    ReferencesDiffer(s, r, e.r);
    ProceededTouchesOnly(s, e.r, e.ok, e.id);
    assert s.calls[e.r].stage.PinAgain? ==> s.calls[r].ref != e.id;
  }

  lemma ReferencesDiffer(s: State, r: nat, q: nat)
    requires Inv(s) && r in s.calls && q in s.calls && r != q
    ensures s.calls[r].ref != s.calls[q].ref
  {
  }

  /** How many steps a call can still take. */
  function StepsLeft(st: Stage): nat {
    match st
    case Refresh => 8
    case OpenTemporary => 7
    case ImportTemporary => 6
    case UnpinTemporary(_) => 5
    case AdvanceTemporary => 4
    case PinAgain => 3
    case BeginRead => 3
    case Import => 2
    case Unpin => 1
  }

  lemma StepShortens(s: State, r: nat, ok: bool, id: nat)
    requires CallOk(s, r) && r in Proceeded(s, r, ok, id).calls
    ensures StepsLeft(Proceeded(s, r, ok, id).calls[r].stage) < StepsLeft(s.calls[r].stage)
  {
  }

  lemma EndedIsDead(s: State, r: nat, ok: bool, id: nat)
    requires CallOk(s, r) && r !in Proceeded(s, r, ok, id).calls
    ensures s.calls[r].ref !in Proceeded(s, r, ok, id).live
  {
  }

  /** A step that fails ends the call, except that an import first gives back what it pinned. */
  lemma FailureEnds(s: State, r: nat, id: nat)
    requires CallOk(s, r)
    ensures var c, t := s.calls[r], Proceeded(s, r, false, id);
            match c.stage
            case ImportTemporary => r in t.calls && t.calls[r] == c.(stage := UnpinTemporary(false)) && t.live == s.live
            case Import => r in t.calls && t.calls[r] == c.(stage := Unpin) && t.live == s.live
            case UnpinTemporary(imported) => !imported ==> r !in t.calls && c.ref !in t.live
            case _ => r !in t.calls && c.ref !in t.live
  {
  }

  /** A step that succeeds goes on to the next stage, and only the last one ends the call. */
  lemma SuccessGoesOn(s: State, r: nat, id: nat)
    requires CallOk(s, r)
    ensures var c, t := s.calls[r], Proceeded(s, r, true, id);
            if c.stage.Unpin? || c.stage == UnpinTemporary(false) then r !in t.calls
            else && r in t.calls
                 && match c.stage
                    case BeginRead => t.calls[r].stage.Import?
                    case Refresh => t.calls[r].stage.OpenTemporary? || t.calls[r].stage.Import?
                    case OpenTemporary => t.calls[r].stage.ImportTemporary?
                    case ImportTemporary => t.calls[r].stage == UnpinTemporary(true)
                    case UnpinTemporary(_) => t.calls[r].stage.AdvanceTemporary? && c.ref !in t.live
                    case AdvanceTemporary => t.calls[r].stage.PinAgain?
                    case PinAgain => t.calls[r].stage.Import? && t.calls[r].ref == id && id in t.live
                    case Import => t.calls[r].stage.Unpin?
                    case Unpin => false
  {
  }

  /** Each step brings a call nearer to its end, and a call that ends leaves no live reference behind. */
  lemma CallsEnd(s: State, r: nat, ok: bool, id: nat)
    requires Inv(s) && Enabled(s, Proceed(r, ok, id))
    ensures var t := Next(s, Proceed(r, ok, id));
            && (r in t.calls ==> StepsLeft(t.calls[r].stage) < StepsLeft(s.calls[r].stage))
            && (r !in t.calls ==> s.calls[r].ref !in t.live)
  {
    hide Inv, Proceeded, StepsLeft;
    CallIsOk(s, r);
    if r in Next(s, Proceed(r, ok, id)).calls {
      StepShortens(s, r, ok, id);
    } else {
      EndedIsDead(s, r, ok, id);
    }
  }

  // ----- when a call imports at the wrong version -----

  /** The realm is delivering notifications for a version older than the reference. */
  predicate BehindWhileSending(s: State, r: nat, id: nat) {
    && r in s.realms && id in s.live
    && s.realms[r].sending && s.realms[r].read.Some? && s.realms[r].read.value < s.live[id]
  }

  /** The call is accepted: it has not ended at once. */
  predicate Accepted(s: State, e: Event) {
    && e.Resolve? && Enabled(s, e) && e.id in s.live
    && e.rightThread && !s.realms[e.r].writing && !s.realms[e.r].foreign
  }

  /** A call that is not accepted leaves its reference dead: it was passed by value. */
  lemma RefusedIsDestroyed(s: State, e: Event)
    requires e.Resolve? && Enabled(s, e) && !Accepted(s, e)
    ensures e.id !in Next(s, e).live && e.r !in Next(s, e).calls
    ensures e.id in s.live ==> Next(s, e).pins == s.pins - multiset{s.live[e.id]}
    ensures e.id !in s.live ==> Next(s, e).pins == s.pins
  {
  }

  /** A call that started behind stays so, and one that did not will import at the right version. */
  ghost predicate OnCourse(s: State, r: nat, behind: bool) {
    && r in s.calls && CallOk(s, r)
    && var c := s.calls[r];
       if behind then (c.stage.Refresh? || c.stage.Import? || c.stage.Unpin?) && BehindWhileSending(s, r, c.ref)
       else && !(c.stage.Refresh? && BehindWhileSending(s, r, c.ref))
            && (c.stage.Import? ==> s.realms[r].read == Some(s.live[c.ref]))
  }

  lemma StartsOnCourse(s: State, e: Event)
    requires Inv(s) && Accepted(s, e)
    ensures OnCourse(Next(s, e), e.r, BehindWhileSending(s, e.r, e.id))
  {
    NextKeeps(s, e);
    assert CallOk(Next(s, e), e.r);
  }

  lemma StaysOnCourse(s: State, e: Event, r: nat, behind: bool)
    requires Inv(s) && Enabled(s, e) && OnCourse(s, r, behind) && r in Next(s, e).calls
    ensures OnCourse(Next(s, e), r, behind)
  {
    NextKeeps(s, e);
    var t := Next(s, e);
    assert CallOk(t, r);
    if e.Proceed? && e.r == r {
      if s.calls[r].ref in s.live {
        LiveIsAvailable(s, s.calls[r].ref);
      }
      hide Inv, CallOk;
      ProceedsOnCourse(s, e.ok, e.id, r, behind);
    } else {
      OthersKeepOut(s, e, r);
      hide Inv, CallOk, Next, Enabled;
    }
  }

  lemma ProceedsOnCourse(s: State, ok: bool, id: nat, r: nat, behind: bool)
    requires OnCourse(s, r, behind) && Enabled(s, Proceed(r, ok, id)) && r in Proceeded(s, r, ok, id).calls
    requires CallOk(Proceeded(s, r, ok, id), r)
    requires s.calls[r].ref in s.live ==> s.live[s.calls[r].ref] <= s.latest
    ensures OnCourse(Proceeded(s, r, ok, id), r, behind)
  {
  }

  /**
   * From the start of an accepted call to its import, with any steps of other threads in between: the import is
   * at a wrong version if and only if the realm was sending notifications and behind the reference at the start.
   */
  lemma {:induction false} WrongImportIff(ss: seq<State>, es: seq<Event>, i: nat, k: nat)
    requires IsRun(ss, es) && i < k < |es| && Accepted(ss[i], es[i])
    requires forall j :: i < j <= k ==> es[i].r in ss[j].calls
    requires ss[k].calls[es[i].r].stage.Import?
    ensures var s, r := ss[k], es[i].r;
            && r in s.realms && s.calls[r].ref in s.live
            && (s.realms[r].read != Some(s.live[s.calls[r].ref]) <==> BehindWhileSending(ss[i], r, es[i].id))
  {
    var r, behind := es[i].r, BehindWhileSending(ss[i], es[i].r, es[i].id);
    RunStep(ss, es, i);
    StartsOnCourse(ss[i], es[i]);
    CallStaysOnCourse(ss, es, i + 1, k, r, behind);
    assert OnCourse(ss[k], r, behind);
  }

  lemma RunStep(ss: seq<State>, es: seq<Event>, k: nat)
    requires IsRun(ss, es) && k < |es|
    ensures Inv(ss[k]) && Enabled(ss[k], es[k]) && ss[k + 1] == Next(ss[k], es[k])
  {
    RunKeeps(ss, es, k);
  }

  lemma StepStaysOnCourse(ss: seq<State>, es: seq<Event>, k: nat, r: nat, behind: bool)
    requires IsRun(ss, es) && k < |es| && OnCourse(ss[k], r, behind) && r in ss[k + 1].calls
    ensures OnCourse(ss[k + 1], r, behind)
  {
    RunStep(ss, es, k);
    hide Inv, OnCourse, Next, Enabled;
    StaysOnCourse(ss[k], es[k], r, behind);
  }

  lemma {:induction false} CallStaysOnCourse(ss: seq<State>, es: seq<Event>, i: nat, k: nat, r: nat, behind: bool)
    requires IsRun(ss, es) && i <= k < |ss| && OnCourse(ss[i], r, behind)
    requires forall j :: i <= j <= k ==> r in ss[j].calls
    ensures OnCourse(ss[k], r, behind)
    decreases k
  {
    hide OnCourse, Next, Enabled;
    if i < k {
      CallStaysOnCourse(ss, es, i, k - 1, r, behind);
      StepStaysOnCourse(ss, es, k - 1, r, behind);
    }
  }

  // ----- a run in which the import is at a wrong version -----

  lemma RunGrows(ss: seq<State>, es: seq<Event>, e: Event, t: State)
    requires IsRun(ss, es) && Enabled(ss[|es|], e) && t == Next(ss[|es|], e)
    ensures IsRun(ss + [t], es + [e]) && (ss + [t])[|es + [e]|] == t
  {
    hide Next, Enabled;
  }

  lemma StartsRun()
    ensures IsRun([Initial()], [])
  {
  }

  function Realms(a: RealmState, b: RealmState): map<nat, RealmState> {
    map[0 := a, 1 := b]
  }

  const FIRST := RealmState(Some(0), false, false, false)
  const WRITTEN := RealmState(Some(1), false, false, false)

  /** Two realms read version 0, the first commits version 1 and makes a reference to it. */
  lemma {:induction false} ReferenceIsNewer() returns (ss: seq<State>, es: seq<Event>)
    ensures IsRun(ss, es) && |ss| == |es| + 1
    ensures ss[|es|] == State(1, {0, 1}, multiset{1}, map[7 := 1], Realms(WRITTEN, FIRST), map[])
  {
    hide IsRun;
    var unread := FIRST.(read := None);
    var s1 := Initial().(realms := map[0 := unread]);
    var s2 := s1.(realms := Realms(unread, unread));
    var s3 := s1.(realms := Realms(FIRST, unread));
    var s4 := s1.(realms := Realms(FIRST, FIRST));
    var s5 := s1.(realms := Realms(FIRST.(writing := true), FIRST));
    var s6 := State(1, {0, 1}, multiset{}, map[], Realms(WRITTEN, FIRST), map[]);
    ss, es := [Initial()], [];
    StartsRun();
    RunGrows(ss, es, Open(0, false), s1);
    ss, es := ss + [s1], es + [Open(0, false)];
    RunGrows(ss, es, Open(1, false), s2);
    ss, es := ss + [s2], es + [Open(1, false)];
    RunGrows(ss, es, StartRead(0), s3);
    ss, es := ss + [s3], es + [StartRead(0)];
    RunGrows(ss, es, StartRead(1), s4);
    ss, es := ss + [s4], es + [StartRead(1)];
    RunGrows(ss, es, StartWrite(0), s5);
    ss, es := ss + [s5], es + [StartWrite(0)];
    RunGrows(ss, es, Commit(0), s6);
    ss, es := ss + [s6], es + [Commit(0)];
    RunGrows(ss, es, Obtain(0, 7), s6.(pins := multiset{1}, live := map[7 := 1]));
    ss, es := ss + [s6.(pins := multiset{1}, live := map[7 := 1])], es + [Obtain(0, 7)];
  }

  /**
   * The other one, which delivers notifications for version 0, resolves the reference: the refresh does nothing,
   * and the call comes to import a value of version 1 at version 0.
   */
  lemma {:induction false} WrongImportHappens() returns (ss: seq<State>, es: seq<Event>)
    ensures IsRun(ss, es) && IsImport(ss[|es|], Proceed(1, true, 0)) && Enabled(ss[|es|], Proceed(1, true, 0))
    ensures var s := ss[|es|];
            && ImportingVersion(s, Proceed(1, true, 0)) == Some(0)
            && s.calls[1].ref in s.live && s.live[s.calls[1].ref] == 1
  {
    hide IsRun;
    ss, es := ReferenceIsNewer();
    var s8 := ss[|es|].(realms := Realms(WRITTEN, FIRST.(sending := true)));
    var s9 := s8.(calls := map[1 := Call(7, Refresh, None)]);
    var s10 := s8.(calls := map[1 := Call(7, Import, None)]);
    RunGrows(ss, es, StartNotifying(1, 0), s8);
    ss, es := ss + [s8], es + [StartNotifying(1, 0)];
    RunGrows(ss, es, Resolve(1, 7, true), s9);
    ss, es := ss + [s9], es + [Resolve(1, 7, true)];
    RunGrows(ss, es, Proceed(1, true, 0), s10);
    ss, es := ss + [s10], es + [Proceed(1, true, 0)];
  }
}

/** Handing accessors from one thread's realm to another's: pinned versions, references, and the calls that resolve them. */
module Handovers {
  import opened Options

  type Version = nat

  /** A realm of the file, or a foreign one that belongs to another coordinator. */
  datatype RealmState = RealmState(read: Option<Version>, sending: bool, writing: bool, foreign: bool)

  /** Where a call that resolves a reference stands; other threads may act between any two of these. */
  datatype Stage =
    | BeginRead
    | Refresh
    | OpenTemporary
    | ImportTemporary
    | UnpinTemporary(imported: bool)
    | AdvanceTemporary
    | PinAgain
    | Import
    | Unpin

  /** A call in progress on a realm: the reference it was given, and the read version of its temporary realm. */
  datatype Call = Call(ref: nat, stage: Stage, temporary: Option<Version>)

  /**
   * The file as all threads share it. The references that have not been invalidated are listed with the version
   * they pinned; versions that are not available have been cleaned up.
   */
  datatype State = State(latest: Version, available: set<Version>, pins: multiset<Version>,
                         live: map<nat, Version>, realms: map<nat, RealmState>, calls: map<nat, Call>)

  datatype Event =
    | Open(r: nat, foreign: bool)
    | StartRead(r: nat)
    | EndRead(r: nat)
    | Advance(r: nat)
    | StartNotifying(r: nat, to: Version)
    | StopNotifying(r: nat)
    | StartWrite(r: nat)
    | Commit(r: nat)
    | Cancel(r: nat)
    | CleanUp(v: Version)
    | Obtain(r: nat, id: nat)
    | Drop(id: nat)
    | Resolve(r: nat, id: nat, rightThread: bool)
    | Proceed(r: nat, ok: bool, id: nat)

  function Initial(): State {
    State(0, {0}, multiset{}, map[], map[], map[])
  }

  // ----- pins -----

  /** The reference is invalidated: its pin is released. */
  function Invalidated(s: State, id: nat): State
    requires id in s.live
  {
    s.(pins := s.pins - multiset{s.live[id]}, live := s.live - {id})
  }

  /** A new reference to version v, which it pins. */
  function Pinned(s: State, id: nat, v: Version): State {
    s.(pins := s.pins + multiset{v}, live := s.live[id := v])
  }

  function WithRealm(s: State, r: nat, m: RealmState): State {
    s.(realms := s.realms[r := m])
  }

  predicate IsReading(s: State, r: nat) {
    r in s.realms && s.realms[r].read.Some?
  }

  predicate Idle(s: State, r: nat) {
    r in s.realms && !s.realms[r].foreign && r !in s.calls
  }

  predicate InCall(s: State, id: nat) {
    exists r :: r in s.calls && s.calls[r].ref == id
  }

  /** Someone relies on the version: a pin, a read transaction, or a temporary realm. */
  predicate Held(s: State, v: Version) {
    || v in s.pins
    || (exists r :: r in s.realms && s.realms[r].read == Some(v))
    || (exists r :: r in s.calls && s.calls[r].temporary == Some(v))
  }

  predicate SomeoneWrites(s: State) {
    exists r :: r in s.realms && s.realms[r].writing
  }

  // ----- what may happen next -----

  predicate Enabled(s: State, e: Event) {
    match e
    case Open(r, _) => r !in s.realms
    case StartRead(r) => Idle(s, r) && s.realms[r].read.None?
    case EndRead(r) => Idle(s, r) && !s.realms[r].sending && !s.realms[r].writing
    case Advance(r) => Idle(s, r) && IsReading(s, r) && !s.realms[r].sending && !s.realms[r].writing
    case StartNotifying(r, v) =>
      && Idle(s, r) && IsReading(s, r) && !s.realms[r].sending && !s.realms[r].writing
      && v in s.available && s.realms[r].read.value <= v <= s.latest
    case StopNotifying(r) => Idle(s, r) && s.realms[r].sending
    case StartWrite(r) => Idle(s, r) && IsReading(s, r) && !SomeoneWrites(s)
    case Commit(r) => Idle(s, r) && s.realms[r].writing
    case Cancel(r) => Idle(s, r) && s.realms[r].writing
    case CleanUp(v) => v != s.latest && !Held(s, v)
    case Obtain(r, id) => Idle(s, r) && IsReading(s, r) && !s.realms[r].writing && id !in s.live && !InCall(s, id)
    case Drop(id) => id in s.live && !InCall(s, id)
    case Resolve(r, id, _) => r in s.realms && r !in s.calls && !InCall(s, id)
    case Proceed(r, _, id) => r in s.calls && r in s.realms && (s.calls[r].stage.PinAgain? ==> id !in s.live && !InCall(s, id))
  }

  /** The checks at the start of a call; a refusal destroys the reference, which was passed by value. */
  function Started(s: State, r: nat, id: nat, rightThread: bool): State
    requires r in s.realms
  {
    if id !in s.live then s
    else if !rightThread || s.realms[r].writing || s.realms[r].foreign then Invalidated(s, id)
    else
      var stage := if s.realms[r].read.None? then BeginRead
                   else if s.realms[r].read == Some(s.live[id]) then Import
                   else Refresh;
      s.(calls := s.calls[r := Call(id, stage, None)])
  }

  function AtStage(s: State, r: nat, stage: Stage): State
    requires r in s.calls
  {
    s.(calls := s.calls[r := s.calls[r].(stage := stage)])
  }

  /** The call ends; a reference it still holds is destroyed with it. */
  function Ended(s: State, r: nat): State
    requires r in s.calls
  {
    var id := s.calls[r].ref;
    var t := s.(calls := s.calls - {r});
    if id in t.live then Invalidated(t, id) else t
  }

  /** A version that a step of the call asks for by number. */
  function WantedVersion(s: State, r: nat): Option<Version>
    requires r in s.calls && r in s.realms
  {
    var c := s.calls[r];
    if (c.stage.BeginRead? || c.stage.OpenTemporary?) && c.ref in s.live then Some(s.live[c.ref])
    else if c.stage.AdvanceTemporary? then s.realms[r].read
    else None
  }

  /** One step of a call. What can go wrong in a step, goes wrong when ok is false, and ends the call. */
  function Proceeded(s: State, r: nat, ok: bool, fresh_: nat): State
    requires r in s.calls && r in s.realms
  {
    var c, m := s.calls[r], s.realms[r];
    match c.stage
    case BeginRead =>
      if c.ref !in s.live then s
      else
        var t := WithRealm(s, r, m.(read := Some(s.live[c.ref])));
        if ok then AtStage(t, r, Import) else Ended(t, r)
    case Refresh =>
      if !ok then Ended(s, r)
      else
        var t := if m.sending then s else WithRealm(s, r, m.(read := Some(s.latest)));
        var now := t.realms[r].read;
        AtStage(t, r, if c.ref in s.live && now.Some? && s.live[c.ref] < now.value then OpenTemporary else Import)
    case OpenTemporary =>
      if !ok || c.ref !in s.live then Ended(s, r)
      else s.(calls := s.calls[r := c.(stage := ImportTemporary, temporary := Some(s.live[c.ref]))])
    case ImportTemporary => AtStage(s, r, UnpinTemporary(ok))
    case UnpinTemporary(imported) =>
      if imported && c.ref in s.live then AtStage(Invalidated(s, c.ref), r, AdvanceTemporary) else Ended(s, r)
    case AdvanceTemporary =>
      if !ok then Ended(s, r)
      else s.(calls := s.calls[r := c.(stage := PinAgain, temporary := m.read)])
    case PinAgain =>
      if !ok || c.temporary.None? then Ended(s, r)
      else Pinned(s, fresh_, c.temporary.value).(calls := s.calls[r := c.(stage := Import, ref := fresh_)])
    case Import => AtStage(s, r, Unpin)
    case Unpin => Ended(s, r)
  }

  function Next(s: State, e: Event): State
    requires Enabled(s, e)
  {
    match e
    case Open(r, foreign) => WithRealm(s, r, RealmState(None, false, false, foreign))
    case StartRead(r) => WithRealm(s, r, s.realms[r].(read := Some(s.latest)))
    case EndRead(r) => WithRealm(s, r, s.realms[r].(read := None))
    case Advance(r) => WithRealm(s, r, s.realms[r].(read := Some(s.latest)))
    case StartNotifying(r, v) => WithRealm(s, r, s.realms[r].(read := Some(v), sending := true))
    case StopNotifying(r) => WithRealm(s, r, s.realms[r].(sending := false))
    case StartWrite(r) => WithRealm(s, r, s.realms[r].(read := Some(s.latest), writing := true))
    case Commit(r) =>
      WithRealm(s, r, s.realms[r].(read := Some(s.latest + 1), writing := false))
        .(latest := s.latest + 1, available := s.available + {s.latest + 1})
    case Cancel(r) => WithRealm(s, r, s.realms[r].(writing := false))
    case CleanUp(v) => s.(available := s.available - {v})
    case Obtain(r, id) => Pinned(s, id, s.realms[r].read.value)
    case Drop(id) => Invalidated(s, id)
    case Resolve(r, id, rightThread) => Started(s, r, id, rightThread)
    case Proceed(r, ok, id) => Proceeded(s, r, ok, id)
  }

  // ----- what holds in every state -----

  ghost function HoldersOf(s: State, v: Version): set<nat> {
    set id | id in s.live && s.live[id] == v
  }

  /** Every version is pinned exactly as often as there are references to it that have not been invalidated. */
  ghost predicate PinsMatch(s: State) {
    forall v: Version :: s.pins[v] == |HoldersOf(s, v)|
  }

  /** A version that someone relies on has not been cleaned up. */
  ghost predicate HeldAreAvailable(s: State) {
    && s.latest in s.available
    && forall v: Version :: Held(s, v) ==> v in s.available && v <= s.latest
  }

  ghost predicate OneWriter(s: State) {
    && (forall r, q :: r in s.realms && q in s.realms && s.realms[r].writing && s.realms[q].writing ==> r == q)
    && (forall r :: r in s.realms && s.realms[r].writing ==> s.realms[r].read == Some(s.latest))
  }

  /** What a call can rely on at its stage. */
  predicate CallOk(s: State, r: nat) {
    && r in s.calls && r in s.realms && !s.realms[r].writing && !s.realms[r].foreign
    && var c, now := s.calls[r], s.realms[r].read;
       match c.stage
       case BeginRead => c.ref in s.live && now.None? && c.temporary.None?
       case Refresh => c.ref in s.live && now.Some? && now.value != s.live[c.ref] && c.temporary.None?
       case OpenTemporary => c.ref in s.live && now.Some? && s.live[c.ref] < now.value && c.temporary.None?
       case ImportTemporary => c.ref in s.live && now.Some? && s.live[c.ref] < now.value && c.temporary == Some(s.live[c.ref])
       case UnpinTemporary(_) => c.ref in s.live && now.Some? && s.live[c.ref] < now.value && c.temporary == Some(s.live[c.ref])
       case AdvanceTemporary => c.ref !in s.live && now.Some? && c.temporary.Some? && c.temporary.value < now.value
       case PinAgain => c.ref !in s.live && now.Some? && c.temporary == now
       case Import => c.ref in s.live && now.Some? && ImportsRight(s, r)
       case Unpin => c.ref in s.live && now.Some?
  }

  /** The realm reads the version of the reference, or it is behind because it is sending notifications. */
  predicate ImportsRight(s: State, r: nat)
    requires r in s.calls && r in s.realms && s.realms[r].read.Some?
  {
    var id := s.calls[r].ref;
    id in s.live && (s.realms[r].read.value == s.live[id] || (s.realms[r].sending && s.realms[r].read.value < s.live[id]))
  }

  ghost predicate CallsApart(s: State) {
    forall r, q :: r in s.calls && q in s.calls && s.calls[r].ref == s.calls[q].ref ==> r == q
  }

  ghost predicate Inv(s: State) {
    && PinsMatch(s) && HeldAreAvailable(s) && OneWriter(s) && CallsApart(s)
    && forall r :: r in s.calls ==> CallOk(s, r)
  }

  // ----- pins and references stay in step -----

  lemma InvalidatedPins(s: State, id: nat)
    requires PinsMatch(s) && id in s.live
    ensures PinsMatch(Invalidated(s, id)) && s.live[id] in s.pins
  {
    var t, w := Invalidated(s, id), s.live[id];
    assert id in HoldersOf(s, w);
    forall v: Version
      ensures t.pins[v] == |HoldersOf(t, v)|
    {
      assert HoldersOf(t, v) == HoldersOf(s, v) - {id};
      assert s.pins[v] == |HoldersOf(s, v)|;
    }
  }

  lemma PinnedPins(s: State, id: nat, w: Version)
    requires PinsMatch(s) && id !in s.live
    ensures PinsMatch(Pinned(s, id, w))
  {
    var t := Pinned(s, id, w);
    forall v: Version
      ensures t.pins[v] == |HoldersOf(t, v)|
    {
      assert HoldersOf(t, v) == if v == w then HoldersOf(s, v) + {id} else HoldersOf(s, v);
      assert s.pins[v] == |HoldersOf(s, v)|;
    }
  }

  lemma SameHolders(s: State, t: State)
    requires PinsMatch(s) && s.pins == t.pins && s.live == t.live
    ensures PinsMatch(t)
  {
    forall v: Version
      ensures t.pins[v] == |HoldersOf(t, v)|
    {
      assert HoldersOf(t, v) == HoldersOf(s, v);
      assert s.pins[v] == |HoldersOf(s, v)|;
    }
  }

  // ----- events that change one idle realm -----

  /** The idle realm gets a state that respects what is available and who writes. */
  ghost predicate RealmFits(s: State, r: nat, m: RealmState) {
    && (m.read.Some? ==> m.read.value in s.available && m.read.value <= s.latest)
    && (m.writing ==> m.read == Some(s.latest) && forall q :: q in s.realms && s.realms[q].writing ==> q == r)
  }

  lemma RealmChange(s: State, r: nat, m: RealmState)
    requires Inv(s) && r !in s.calls && RealmFits(s, r, m)
    ensures Inv(WithRealm(s, r, m))
  {
    var t := WithRealm(s, r, m);
    SameHolders(s, t);
    forall v: Version | Held(t, v)
      ensures v in t.available && v <= t.latest
    {
      assert Held(s, v) || m.read == Some(v);
    }
    forall q | q in t.calls
      ensures CallOk(t, q)
    {
      assert CallOk(s, q);
    }
  }

  lemma CommitKeeps(s: State, r: nat)
    requires Inv(s) && Enabled(s, Commit(r))
    ensures Inv(Next(s, Commit(r)))
  {
    var t := Next(s, Commit(r));
    SameHolders(s, t);
    forall v: Version | Held(t, v)
      ensures v in t.available && v <= t.latest
    {
      assert Held(s, v) || v == s.latest + 1;
    }
    forall q | q in t.calls
      ensures CallOk(t, q)
    {
      assert CallOk(s, q);
    }
  }

  lemma CleanUpKeeps(s: State, v: Version)
    requires Inv(s) && Enabled(s, CleanUp(v))
    ensures Inv(Next(s, CleanUp(v)))
  {
    var t := Next(s, CleanUp(v));
    SameHolders(s, t);
    forall w: Version | Held(t, w)
      ensures w in t.available && w <= t.latest
    {
      assert Held(s, w);
    }
    forall q | q in t.calls
      ensures CallOk(t, q)
    {
      assert CallOk(s, q);
    }
  }

  // ----- references come and go -----

  lemma PinnedKeeps(s: State, id: nat, v: Version)
    requires Inv(s) && id !in s.live && !InCall(s, id) && v in s.available && v <= s.latest
    ensures Inv(Pinned(s, id, v))
  {
    var t := Pinned(s, id, v);
    PinnedPins(s, id, v);
    forall w: Version | Held(t, w)
      ensures w in t.available && w <= t.latest
    {
      assert Held(s, w) || w == v;
    }
    forall q | q in t.calls
      ensures CallOk(t, q)
    {
      assert CallOk(s, q) && s.calls[q].ref != id;
    }
  }

  lemma InvalidatedKeeps(s: State, id: nat)
    requires Inv(s) && id in s.live && !InCall(s, id)
    ensures Inv(Invalidated(s, id))
  {
    var t := Invalidated(s, id);
    InvalidatedPins(s, id);
    forall w: Version | Held(t, w)
      ensures w in t.available && w <= t.latest
    {
      assert Held(s, w);
    }
    forall q | q in t.calls
      ensures CallOk(t, q)
    {
      assert CallOk(s, q) && s.calls[q].ref != id;
    }
  }

  // ----- calls -----

  /** The call takes a state that is right for its stage; nothing else changes. */
  lemma CallChange(s: State, r: nat, c: Call)
    requires Inv(s) && (r in s.calls ==> c.ref == s.calls[r].ref) && (r !in s.calls ==> !InCall(s, c.ref))
    requires c.temporary.Some? ==> c.temporary.value in s.available && c.temporary.value <= s.latest
    requires CallOk(s.(calls := s.calls[r := c]), r)
    ensures Inv(s.(calls := s.calls[r := c]))
  {
    var t := s.(calls := s.calls[r := c]);
    SameHolders(s, t);
    forall w: Version | Held(t, w)
      ensures w in t.available && w <= t.latest
    {
      assert Held(s, w) || c.temporary == Some(w);
    }
    forall q | q in t.calls && q != r
      ensures CallOk(t, q) && t.calls[q].ref != c.ref
    {
      assert CallOk(s, q);
    }
  }

  function WithoutCall(s: State, r: nat): State {
    s.(calls := s.calls - {r})
  }

  lemma CallRemoved(s: State, r: nat)
    requires Inv(s)
    ensures Inv(WithoutCall(s, r))
    ensures r in s.calls ==> !InCall(WithoutCall(s, r), s.calls[r].ref)
  {
    var t := WithoutCall(s, r);
    SameHolders(s, t);
    forall w: Version | Held(t, w)
      ensures w in t.available && w <= t.latest
    {
      assert Held(s, w);
    }
    forall q | q in t.calls
      ensures CallOk(t, q)
    {
      assert CallOk(s, q);
    }
  }

  lemma EndedKeeps(s: State, r: nat)
    requires Inv(s) && r in s.calls
    ensures Inv(Ended(s, r)) && s.calls[r].ref !in Ended(s, r).live
  {
    CallRemoved(s, r);
    if s.calls[r].ref in s.live {
      InvalidatedKeeps(WithoutCall(s, r), s.calls[r].ref);
    }
  }

  /** A step of the call that also moves its realm to another version. */
  lemma CallRealmChange(s: State, r: nat, m: RealmState, c: Call)
    requires Inv(s) && r in s.calls && c.ref == s.calls[r].ref && RealmFits(s, r, m)
    requires c.temporary.Some? ==> c.temporary.value in s.available && c.temporary.value <= s.latest
    requires CallOk(WithRealm(s, r, m).(calls := s.calls[r := c]), r)
    ensures Inv(WithRealm(s, r, m).(calls := s.calls[r := c]))
  {
    var t0 := WithoutCall(s, r);
    CallRemoved(s, r);
    RealmChange(t0, r, m);
    var t1 := WithRealm(t0, r, m);
    assert t1.calls[r := c] == s.calls[r := c];
    CallChange(t1, r, c);
  }

  /** Nothing has changed for versions that were available: whoever holds one can rely on it. */
  lemma ReadIsAvailable(s: State, r: nat)
    requires Inv(s) && r in s.realms && s.realms[r].read.Some?
    ensures s.realms[r].read.value in s.available && s.realms[r].read.value <= s.latest
  {
    assert Held(s, s.realms[r].read.value);
  }

  lemma TemporaryIsAvailable(s: State, r: nat)
    requires Inv(s) && r in s.calls && s.calls[r].temporary.Some?
    ensures s.calls[r].temporary.value in s.available && s.calls[r].temporary.value <= s.latest
  {
    assert Held(s, s.calls[r].temporary.value);
  }

  lemma LiveIsAvailable(s: State, id: nat)
    requires Inv(s) && id in s.live
    ensures s.live[id] in s.pins && s.live[id] in s.available && s.live[id] <= s.latest
  {
    InvalidatedPins(s, id);
    assert Held(s, s.live[id]);
  }

  lemma StartedKeeps(s: State, r: nat, id: nat, rightThread: bool)
    requires Inv(s) && Enabled(s, Resolve(r, id, rightThread))
    ensures Inv(Started(s, r, id, rightThread))
  {
    if id in s.live {
      if !rightThread || s.realms[r].writing || s.realms[r].foreign {
        InvalidatedKeeps(s, id);
      } else {
        var stage := if s.realms[r].read.None? then BeginRead
                     else if s.realms[r].read == Some(s.live[id]) then Import
                     else Refresh;
        CallChange(s, r, Call(id, stage, None));
      }
    }
  }

  lemma BeginReadKeeps(s: State, r: nat, ok: bool, id: nat)
    requires Inv(s) && r in s.calls && s.calls[r].stage.BeginRead? && r in s.realms
    ensures Inv(Proceeded(s, r, ok, id))
  {
    assert CallOk(s, r);
    var c, m := s.calls[r], s.realms[r].(read := Some(s.live[s.calls[r].ref]));
    LiveIsAvailable(s, c.ref);
    CallRealmChange(s, r, m, c.(stage := Import));
    var t := WithRealm(s, r, m);
    assert AtStage(t, r, Import) == t.(calls := s.calls[r := c.(stage := Import)]);
    if !ok {
      EndedKeeps(AtStage(t, r, Import), r);
      assert AtStage(t, r, Import).calls - {r} == t.calls - {r};
      assert Ended(AtStage(t, r, Import), r) == Ended(t, r);
    }
  }

  lemma RefreshKeeps(s: State, r: nat, ok: bool, id: nat)
    requires Inv(s) && r in s.calls && s.calls[r].stage.Refresh? && r in s.realms
    ensures Inv(Proceeded(s, r, ok, id))
  {
    assert CallOk(s, r);
    var c := s.calls[r];
    if !ok {
      EndedKeeps(s, r);
    } else {
      LiveIsAvailable(s, c.ref);
      ReadIsAvailable(s, r);
      var m := if s.realms[r].sending then s.realms[r] else s.realms[r].(read := Some(s.latest));
      var stage := if s.live[c.ref] < m.read.value then OpenTemporary else Import;
      assert WithRealm(s, r, s.realms[r]) == s by {
        assert s.realms[r := s.realms[r]] == s.realms;
      }
      CallRealmChange(s, r, m, c.(stage := stage));
    }
  }

  lemma TemporaryKeeps(s: State, r: nat, ok: bool, id: nat)
    requires Inv(s) && r in s.calls && r in s.realms
    requires s.calls[r].stage.OpenTemporary? || s.calls[r].stage.ImportTemporary? || s.calls[r].stage.AdvanceTemporary?
    ensures Inv(Proceeded(s, r, ok, id))
  {
    assert CallOk(s, r);
    var c := s.calls[r];
    ReadIsAvailable(s, r);
    match c.stage
    case OpenTemporary =>
      if ok {
        LiveIsAvailable(s, c.ref);
        CallChange(s, r, c.(stage := ImportTemporary, temporary := Some(s.live[c.ref])));
      } else {
        EndedKeeps(s, r);
      }
    case ImportTemporary =>
      TemporaryIsAvailable(s, r);
      CallChange(s, r, c.(stage := UnpinTemporary(ok)));
    case AdvanceTemporary =>
      if ok {
        CallChange(s, r, c.(stage := PinAgain, temporary := s.realms[r].read));
      } else {
        EndedKeeps(s, r);
      }
  }

  lemma UnpinTemporaryKeeps(s: State, r: nat, ok: bool, id: nat)
    requires Inv(s) && r in s.calls && s.calls[r].stage.UnpinTemporary? && r in s.realms
    ensures Inv(Proceeded(s, r, ok, id))
  {
    assert CallOk(s, r);
    var c := s.calls[r];
    if c.stage.imported {
      TemporaryIsAvailable(s, r);
      CallRemoved(s, r);
      var t0 := WithoutCall(s, r);
      InvalidatedKeeps(t0, c.ref);
      var t1 := Invalidated(t0, c.ref);
      assert t1.calls[r := c.(stage := AdvanceTemporary)] == s.calls[r := c.(stage := AdvanceTemporary)];
      CallChange(t1, r, c.(stage := AdvanceTemporary));
    } else {
      EndedKeeps(s, r);
    }
  }

  lemma PinAgainKeeps(s: State, r: nat, ok: bool, id: nat)
    requires Inv(s) && r in s.calls && s.calls[r].stage.PinAgain? && Enabled(s, Proceed(r, ok, id))
    ensures Inv(Proceeded(s, r, ok, id))
  {
    assert CallOk(s, r);
    var c := s.calls[r];
    if ok {
      TemporaryIsAvailable(s, r);
      CallRemoved(s, r);
      var t0 := WithoutCall(s, r);
      PinnedKeeps(t0, id, c.temporary.value);
      var t1 := Pinned(t0, id, c.temporary.value);
      assert t1.calls[r := c.(stage := Import, ref := id)] == s.calls[r := c.(stage := Import, ref := id)];
      CallChange(t1, r, c.(stage := Import, ref := id));
    } else {
      EndedKeeps(s, r);
    }
  }

  lemma LastStagesKeep(s: State, r: nat, ok: bool, id: nat)
    requires Inv(s) && r in s.calls && r in s.realms && (s.calls[r].stage.Import? || s.calls[r].stage.Unpin?)
    ensures Inv(Proceeded(s, r, ok, id))
  {
    assert CallOk(s, r);
    var c := s.calls[r];
    if c.stage.Import? {
      if c.temporary.Some? {
        TemporaryIsAvailable(s, r);
      }
      CallChange(s, r, c.(stage := Unpin));
    } else {
      EndedKeeps(s, r);
    }
  }

  lemma ProceedKeeps(s: State, r: nat, ok: bool, id: nat)
    requires Inv(s) && Enabled(s, Proceed(r, ok, id))
    ensures Inv(Proceeded(s, r, ok, id))
  {
    hide Inv, Proceeded;
    match s.calls[r].stage
    case BeginRead => BeginReadKeeps(s, r, ok, id);
    case Refresh => RefreshKeeps(s, r, ok, id);
    case UnpinTemporary(_) => UnpinTemporaryKeeps(s, r, ok, id);
    case PinAgain => PinAgainKeeps(s, r, ok, id);
    case Import => LastStagesKeep(s, r, ok, id);
    case Unpin => LastStagesKeep(s, r, ok, id);
    case _ => TemporaryKeeps(s, r, ok, id);
  }

  lemma InitialIsOk()
    ensures Inv(Initial())
  {
    forall v: Version
      ensures Initial().pins[v] == |HoldersOf(Initial(), v)|
    {
      assert HoldersOf(Initial(), v) == {};
    }
  }

  /** Every step of every thread keeps the invariant. */
  lemma NextKeeps(s: State, e: Event)
    requires Inv(s) && Enabled(s, e)
    ensures Inv(Next(s, e))
  {
    match e
    case Commit(r) => CommitKeeps(s, r);
    case CleanUp(v) => CleanUpKeeps(s, v);
    case Obtain(r, id) =>
      ReadIsAvailable(s, r);
      PinnedKeeps(s, id, s.realms[r].read.value);
    case Drop(id) => InvalidatedKeeps(s, id);
    case Resolve(r, id, rightThread) => StartedKeeps(s, r, id, rightThread);
    case Proceed(r, ok, id) => ProceedKeeps(s, r, ok, id);
    case _ => RealmEventKeeps(s, e);
  }

  predicate RealmEvent(e: Event) {
    || e.Open? || e.StartRead? || e.EndRead? || e.Advance? || e.StartNotifying? || e.StopNotifying? || e.StartWrite? || e.Cancel?
  }

  lemma RealmEventKeeps(s: State, e: Event)
    requires Inv(s) && Enabled(s, e) && RealmEvent(e)
    ensures Inv(Next(s, e))
  {
    var r := e.r;
    if e.Open? {
      assert r in s.calls ==> CallOk(s, r);
    } else if s.realms[r].read.Some? {
      ReadIsAvailable(s, r);
    }
    RealmChange(s, r, Next(s, e).realms[r]);
  }
}

/**
  Shared schedule guards: one boost of a thread's scheduling class, shared by all who ask for it.  A step is one action
  of a thread inside or outside the mutex; creators, holders and destructors interleave freely.
*/
module ScheduleGuard {

  /** A thread to boost. */
  datatype Key = Key(pid: int, tid: int)

  /** What the system is told. */
  datatype Event = Report(key: Key, bundle: string) | Unreport(key: Key, bundle: string)

  /** AudioScheduleGuard. */
  datatype Guard = Guard(bundle: string, reported: bool)

  /** The move constructor leaves an empty name and nothing to unreport. */
  const MOVED_FROM := Guard("", false)

  /** How far the destructor of a shared guard got; `temp` is the local guard it moves the member into. */
  datatype Phase =
    | Alive
    | Doomed
    | Moving
    | Erasing(temp: Guard)
    | Notifying(temp: Guard)
    | Unreporting(temp: Guard)
    | Unlocking
    | MemberLeft
    | Destroyed

  /** SharedAudioScheduleGuard with its strong count; `clients` are the references held outside Create. */
  datatype Object = Object(key: Key, bundle: string, strong: nat, clients: nat, guard: Guard, phase: Phase)

  /** Where a thread is inside Create; from `Checking` on, except in `Waiting`, it holds the mutex. */
  datatype Creator =
    | Idle
    | WantLock(key: Key, bundle: string)
    | Checking(key: Key, bundle: string, late: bool)
    | Waiting(key: Key, bundle: string, notified: bool)
    | Rechecking(key: Key, bundle: string)
    | Making(key: Key, bundle: string)
    | Inserting(key: Key, obj: nat)
    | Returning(key: Key, obj: nat)
    | ReturningNull(late: bool)

  /** Who holds the mutex. */
  datatype Owner = Free | Creating(t: nat) | Destroying(i: nat)

  datatype State = State(
    objects: seq<Object>, guardMap: map<Key, nat>, owner: Owner, creators: seq<Creator>, log: seq<Event>)

  datatype Action =
    | Call(t: nat, key: Key, bundle: string)
    | Proceed(t: nat)
    | Timeout(t: nat)
    | Copy(i: nat)
    | Release(i: nat)
    | Destroy(i: nat)

  function Init(threads: nat): State {
    State([], map[], Free, seq(threads, _ => Idle), [])
  }

  // ---------------------------------------------------------------- steps

  function At(s: State, t: nat, c: Creator): State
    requires t < |s.creators|
  {
    s.(creators := s.creators[t := c])
  }

  function WithObject(s: State, i: nat, o: Object): State
    requires i < |s.objects|
  {
    s.(objects := s.objects[i := o])
  }

  /** The condition of the wait: found alive, absent, or dying. */
  function Check(s: State, t: nat, key: Key, bundle: string, late: bool): State
    requires t < |s.creators|
  {
    if key in s.guardMap && s.guardMap[key] < |s.objects| then
      var i := s.guardMap[key];
      var o := s.objects[i];
      if o.strong > 0 then WithObject(At(s, t, Returning(key, i)), i, o.(strong := o.strong + 1))
      else if late then At(s, t, ReturningNull(true))
      else At(s, t, Waiting(key, bundle, false)).(owner := Free)
    else At(s, t, Rechecking(key, bundle))
  }

  function Make(s: State, t: nat, key: Key, bundle: string): State
    requires t < |s.creators|
  {
    var o := Object(key, bundle, 1, 0, Guard(bundle, true), Alive);
    At(s, t, Inserting(key, |s.objects|)).(objects := s.objects + [o], log := s.log + [Report(key, bundle)])
  }

  function Insert(s: State, t: nat, key: Key, i: nat): State
    requires t < |s.creators|
  {
    At(s, t, Returning(key, i)).(guardMap := if key in s.guardMap then s.guardMap else s.guardMap[key := i])
  }

  function Return(s: State, t: nat, i: nat): State
    requires t < |s.creators| && i < |s.objects|
  {
    var o := s.objects[i];
    WithObject(At(s, t, Idle), i, o.(clients := o.clients + 1)).(owner := Free)
  }

  /** One step of a thread inside Create. */
  function StepCreator(s: State, t: nat): State
    requires t < |s.creators|
  {
    match s.creators[t]
    case Idle => s
    case WantLock(key, bundle) =>
      if s.owner == Free then At(s, t, Checking(key, bundle, false)).(owner := Creating(t)) else s
    case Waiting(key, bundle, _) =>
      if s.owner == Free then At(s, t, Checking(key, bundle, false)).(owner := Creating(t)) else s
    case Checking(key, bundle, late) => Check(s, t, key, bundle, late)
    case Rechecking(key, bundle) =>
      if key in s.guardMap then At(s, t, ReturningNull(false)) else At(s, t, Making(key, bundle))
    case Making(key, bundle) => Make(s, t, key, bundle)
    case Inserting(key, i) => Insert(s, t, key, i)
    case Returning(key, i) => if i < |s.objects| then Return(s, t, i) else s
    case ReturningNull(late) => At(s, t, Idle).(owner := Free)
  }

  function Notified(c: Creator): Creator {
    if c.Waiting? then c.(notified := true) else c
  }

  function Unreported(log: seq<Event>, key: Key, guard: Guard): seq<Event> {
    if guard.reported then log + [Unreport(key, guard.bundle)] else log
  }

  /** One step of the destructor: lock, move the member, erase, notify, destroy the local guard, unlock, destroy the
      member. */
  function StepDestructor(s: State, i: nat): State
    requires i < |s.objects|
  {
    var o := s.objects[i];
    match o.phase
    case Alive => s
    case Doomed =>
      if s.owner == Free then WithObject(s, i, o.(phase := Moving)).(owner := Destroying(i)) else s
    case Moving => WithObject(s, i, o.(guard := MOVED_FROM, phase := Erasing(o.guard)))
    case Erasing(temp) => WithObject(s, i, o.(phase := Notifying(temp))).(guardMap := s.guardMap - {o.key})
    case Notifying(temp) =>
      WithObject(s, i, o.(phase := Unreporting(temp)))
        .(creators := seq(|s.creators|, t requires 0 <= t < |s.creators| => Notified(s.creators[t])))
    case Unreporting(temp) => WithObject(s, i, o.(phase := Unlocking)).(log := Unreported(s.log, o.key, temp))
    case Unlocking => WithObject(s, i, o.(phase := MemberLeft)).(owner := Free)
    case MemberLeft => WithObject(s, i, o.(phase := Destroyed)).(log := Unreported(s.log, o.key, o.guard))
    case Destroyed => s
  }

  function Step(s: State, a: Action): State {
    match a
    case Call(t, key, bundle) =>
      if t < |s.creators| && s.creators[t] == Idle then At(s, t, WantLock(key, bundle)) else s
    case Proceed(t) => if t < |s.creators| then StepCreator(s, t) else s
    case Timeout(t) =>
      if t < |s.creators| && s.creators[t].Waiting? && s.owner == Free then
        At(s, t, Checking(s.creators[t].key, s.creators[t].bundle, true)).(owner := Creating(t))
      else s
    case Copy(i) =>
      if i < |s.objects| && s.objects[i].clients > 0 then
        var o := s.objects[i];
        WithObject(s, i, o.(strong := o.strong + 1, clients := o.clients + 1))
      else s
    case Release(i) =>
      if i < |s.objects| && s.objects[i].clients > 0 && s.objects[i].strong > 0 then
        var o := s.objects[i];
        WithObject(s, i, o.(strong := o.strong - 1, clients := o.clients - 1,
                            phase := if o.strong == 1 then Doomed else o.phase))
      else s
    case Destroy(i) => if i < |s.objects| then StepDestructor(s, i) else s
  }

  function Run(s: State, actions: seq<Action>): State
    decreases |actions|
  {
    if actions == [] then s else Run(Step(s, actions[0]), actions[1..])
  }

  // ---------------------------------------------------------------- what the reports add up to

  /** What the system takes a thread for after some reports. */
  datatype Status = Quiet | Boosted(bundle: string) | Broken

  function Heard(status: Status, e: Event): Status {
    match e
    case Report(_, bundle) => if status == Quiet then Boosted(bundle) else Broken
    case Unreport(_, bundle) => if status == Boosted(bundle) then Quiet else Broken
  }

  function StatusOf(log: seq<Event>, key: Key): Status {
    if log == [] then Quiet
    else
      var before := StatusOf(log[..|log| - 1], key);
      if log[|log| - 1].key == key then Heard(before, log[|log| - 1]) else before
  }

  // ---------------------------------------------------------------- the invariant

  predicate HoldsMutex(c: Creator) {
    !c.Idle? && !c.WantLock? && !c.Waiting?
  }

  /** In the map, or about to be inserted. */
  predicate Undestroyed(p: Phase) {
    p.Alive? || p.Doomed? || p.Moving? || p.Erasing?
  }

  predicate InDestructor(p: Phase) {
    p.Moving? || p.Erasing? || p.Notifying? || p.Unreporting? || p.Unlocking?
  }

  /** A report was made for it that was not taken back yet. */
  predicate ReportOpen(p: Phase) {
    Undestroyed(p) || p.Notifying? || p.Unreporting?
  }

  /** The object a creator is about to enter in the map. */
  predicate IsInserting(s: State, i: nat) {
    s.owner.Creating? && s.owner.t < |s.creators|
    && s.creators[s.owner.t].Inserting? && s.creators[s.owner.t].obj == i
  }

  /** The reference a creator holds itself. */
  predicate InFlight(s: State, i: nat) {
    s.owner.Creating? && s.owner.t < |s.creators|
    && (s.creators[s.owner.t].Inserting? || s.creators[s.owner.t].Returning?) && s.creators[s.owner.t].obj == i
  }

  predicate MutexInv(s: State) {
    && (s.owner.Creating? ==> s.owner.t < |s.creators| && HoldsMutex(s.creators[s.owner.t]))
    && (s.owner.Destroying? ==> s.owner.i < |s.objects| && InDestructor(s.objects[s.owner.i].phase))
    && (forall t :: 0 <= t < |s.creators| ==> HoldsMutex(s.creators[t]) ==> s.owner == Creating(t))
    && (forall i :: 0 <= i < |s.objects| ==> InDestructor(s.objects[i].phase) ==> s.owner == Destroying(i))
  }

  predicate ObjectInv(o: Object, inFlight: bool) {
    && o.strong == o.clients + (if inFlight then 1 else 0)
    && (o.phase == Alive <==> o.strong > 0)
    && match o.phase
       case Alive => o.guard == Guard(o.bundle, true)
       case Doomed => o.guard == Guard(o.bundle, true)
       case Moving => o.guard == Guard(o.bundle, true)
       case Erasing(temp) => temp == Guard(o.bundle, true) && !o.guard.reported
       case Notifying(temp) => temp == Guard(o.bundle, true) && !o.guard.reported
       case Unreporting(temp) => temp == Guard(o.bundle, true) && !o.guard.reported
       case _ => !o.guard.reported
  }

  predicate ObjectsInv(s: State) {
    forall i :: 0 <= i < |s.objects| ==> ObjectInv(s.objects[i], InFlight(s, i))
  }

  predicate MapInv(s: State) {
    && (forall k :: k in s.guardMap ==>
          s.guardMap[k] < |s.objects| && s.objects[s.guardMap[k]].key == k
          && Undestroyed(s.objects[s.guardMap[k]].phase) && !IsInserting(s, s.guardMap[k]))
    && (forall i :: 0 <= i < |s.objects| ==> Undestroyed(s.objects[i].phase) ==>
          if IsInserting(s, i) then s.objects[i].key !in s.guardMap
          else s.objects[i].key in s.guardMap && s.guardMap[s.objects[i].key] == i)
    && (s.owner.Destroying? && s.owner.i < |s.objects|
        && (s.objects[s.owner.i].phase.Notifying? || s.objects[s.owner.i].phase.Unreporting?) ==>
          s.objects[s.owner.i].key !in s.guardMap)
  }

  predicate CreatorInv(s: State, c: Creator) {
    match c
    case Idle => true
    case WantLock(_, _) => true
    case Checking(_, _, _) => true
    case Waiting(key, _, notified) =>
      notified
      || (key in s.guardMap && s.guardMap[key] < |s.objects| && !s.objects[s.guardMap[key]].phase.Alive?)
      || (s.owner.Destroying? && s.owner.i < |s.objects|
          && s.objects[s.owner.i].key == key && s.objects[s.owner.i].phase.Notifying?)
    case Rechecking(key, _) => key !in s.guardMap
    case Making(key, _) => key !in s.guardMap
    case Inserting(key, i) => i < |s.objects| && s.objects[i].key == key && s.objects[i].phase.Alive?
    case Returning(key, i) =>
      i < |s.objects| && s.objects[i].key == key && s.objects[i].phase.Alive?
    case ReturningNull(late) => late
  }

  predicate CreatorsInv(s: State) {
    forall t :: 0 <= t < |s.creators| ==> CreatorInv(s, s.creators[t])
  }

  /** The key whose guard is between its report and the map, or between the map and its unreport. */
  predicate InTransit(s: State, key: Key) {
    match s.owner
    case Free => false
    case Creating(t) => t < |s.creators| && s.creators[t].Inserting? && s.creators[t].key == key
    case Destroying(i) =>
      i < |s.objects| && s.objects[i].key == key && (s.objects[i].phase.Notifying? || s.objects[i].phase.Unreporting?)
  }

  ghost predicate LogInv(s: State) {
    && (forall i :: 0 <= i < |s.objects| ==> ReportOpen(s.objects[i].phase) ==>
          StatusOf(s.log, s.objects[i].key) == Boosted(s.objects[i].bundle))
    && (forall k {:trigger StatusOf(s.log, k)} :: k !in s.guardMap && !InTransit(s, k) ==> StatusOf(s.log, k) == Quiet)
  }

  ghost predicate Inv(s: State) {
    MutexInv(s) && ObjectsInv(s) && MapInv(s) && CreatorsInv(s) && LogInv(s)
  }

  lemma StatusAfter(log: seq<Event>, e: Event, key: Key)
    ensures StatusOf(log + [e], key)
            == if e.key == key then Heard(StatusOf(log, key), e) else StatusOf(log, key)
  {
    assert (log + [e])[..|log|] == log;
  }

  lemma StatusAfterAll(log: seq<Event>, e: Event)
    ensures forall k {:trigger StatusOf(log + [e], k)} ::
              StatusOf(log + [e], k) == if e.key == k then Heard(StatusOf(log, k), e) else StatusOf(log, k)
  {
    forall k ensures StatusOf(log + [e], k) == if e.key == k then Heard(StatusOf(log, k), e) else StatusOf(log, k) {
      StatusAfter(log, e, k);
    }
  }

  lemma MakeKeeps(s: State, t: nat)
    requires Inv(s) && t < |s.creators| && s.creators[t].Making?
    ensures Inv(StepCreator(s, t))
  {
    hide StatusOf;
    StatusAfterAll(s.log, Report(s.creators[t].key, s.creators[t].bundle));
  }

  lemma CallKeeps(s: State, t: nat, key: Key, bundle: string)
    requires Inv(s) && t < |s.creators| && s.creators[t].Idle?
    ensures Inv(At(s, t, WantLock(key, bundle)))
  {
    hide StatusOf;
  }

  lemma LockKeeps(s: State, t: nat, late: bool)
    requires Inv(s) && t < |s.creators| && s.owner == Free
    requires s.creators[t].WantLock? || s.creators[t].Waiting?
    ensures Inv(At(s, t, Checking(s.creators[t].key, s.creators[t].bundle, late)).(owner := Creating(t)))
  {
    hide StatusOf;
  }

  lemma FindKeeps(s: State, t: nat)
    requires Inv(s) && t < |s.creators| && s.creators[t].Checking?
    requires var key := s.creators[t].key; key in s.guardMap && s.objects[s.guardMap[key]].strong > 0
    ensures Inv(StepCreator(s, t))
  {
    hide StatusOf;
  }

  lemma CheckKeeps(s: State, t: nat)
    requires Inv(s) && t < |s.creators| && s.creators[t].Checking?
    ensures Inv(StepCreator(s, t))
  {
    hide StatusOf;
    var key := s.creators[t].key;
    if key in s.guardMap && s.objects[s.guardMap[key]].strong > 0 {
      FindKeeps(s, t);
    }
  }

  lemma RecheckKeeps(s: State, t: nat)
    requires Inv(s) && t < |s.creators| && s.creators[t].Rechecking?
    ensures Inv(StepCreator(s, t))
  {
    hide StatusOf;
  }

  lemma InsertKeeps(s: State, t: nat)
    requires Inv(s) && t < |s.creators| && s.creators[t].Inserting?
    ensures Inv(StepCreator(s, t))
  {
    hide StatusOf;
  }

  lemma ReturnKeeps(s: State, t: nat)
    requires Inv(s) && t < |s.creators| && (s.creators[t].Returning? || s.creators[t].ReturningNull?)
    ensures Inv(StepCreator(s, t))
  {
    hide StatusOf;
  }

  lemma CreatorKeeps(s: State, t: nat)
    requires Inv(s) && t < |s.creators|
    ensures Inv(StepCreator(s, t))
  {
    hide Inv, Check, Make, Insert, Return;
    match s.creators[t]
    case Idle =>
    case WantLock(_, _) => if s.owner == Free { LockKeeps(s, t, false); }
    case Waiting(_, _, _) => if s.owner == Free { LockKeeps(s, t, false); }
    case Checking(_, _, _) => CheckKeeps(s, t);
    case Rechecking(_, _) => RecheckKeeps(s, t);
    case Making(_, _) => MakeKeeps(s, t);
    case Inserting(_, _) => InsertKeeps(s, t);
    case Returning(_, _) => ReturnKeeps(s, t);
    case ReturningNull(_) => ReturnKeeps(s, t);
  }

  lemma DestructorLockKeeps(s: State, i: nat)
    requires Inv(s) && i < |s.objects| && s.objects[i].phase.Doomed?
    ensures Inv(StepDestructor(s, i))
  {
    hide StatusOf;
  }

  lemma MoveKeeps(s: State, i: nat)
    requires Inv(s) && i < |s.objects| && s.objects[i].phase.Moving?
    ensures Inv(StepDestructor(s, i))
  {
    hide StatusOf;
  }

  lemma EraseKeeps(s: State, i: nat)
    requires Inv(s) && i < |s.objects| && s.objects[i].phase.Erasing?
    ensures Inv(StepDestructor(s, i))
  {
    hide StatusOf;
  }

  lemma NotifyKeeps(s: State, i: nat)
    requires Inv(s) && i < |s.objects| && s.objects[i].phase.Notifying?
    ensures Inv(StepDestructor(s, i))
  {
    hide StatusOf;
  }

  lemma UnreportKeeps(s: State, i: nat)
    requires Inv(s) && i < |s.objects| && s.objects[i].phase.Unreporting?
    ensures Inv(StepDestructor(s, i))
  {
    hide StatusOf;
    StatusAfterAll(s.log, Unreport(s.objects[i].key, s.objects[i].bundle));
  }

  lemma UnlockKeeps(s: State, i: nat)
    requires Inv(s) && i < |s.objects| && s.objects[i].phase.Unlocking?
    ensures Inv(StepDestructor(s, i))
  {
    hide StatusOf;
  }

  /** The member was moved from, so its destructor unreports nothing. */
  lemma MemberKeeps(s: State, i: nat)
    requires Inv(s) && i < |s.objects| && s.objects[i].phase.MemberLeft?
    ensures Inv(StepDestructor(s, i))
  {
    hide StatusOf, MapInv, CreatorsInv, LogInv;
    var s' := StepDestructor(s, i);
    SameShapeKeeps(s, s');
  }

  lemma DestructorKeeps(s: State, i: nat)
    requires Inv(s) && i < |s.objects|
    ensures Inv(StepDestructor(s, i))
  {
    hide Inv;
    match s.objects[i].phase
    case Alive =>
    case Doomed => DestructorLockKeeps(s, i);
    case Moving => MoveKeeps(s, i);
    case Erasing(_) => EraseKeeps(s, i);
    case Notifying(_) => NotifyKeeps(s, i);
    case Unreporting(_) => UnreportKeeps(s, i);
    case Unlocking => UnlockKeeps(s, i);
    case MemberLeft => MemberKeeps(s, i);
    case Destroyed =>
  }

  /** Two phases the map, the waiting creators and the log cannot tell apart. */
  predicate SameShape(o: Object, o': Object) {
    && o'.key == o.key && o'.bundle == o.bundle
    && Undestroyed(o'.phase) == Undestroyed(o.phase)
    && (o'.phase.Alive? ==> o.phase.Alive?)
    && o'.phase.Notifying? == o.phase.Notifying? && o'.phase.Unreporting? == o.phase.Unreporting?
  }

  lemma SameShapeKeeps(s: State, s': State)
    requires MapInv(s) && CreatorsInv(s) && LogInv(s) && MutexInv(s)
    requires s'.guardMap == s.guardMap && s'.owner == s.owner && s'.creators == s.creators && s'.log == s.log
    requires |s'.objects| == |s.objects|
    requires forall k {:trigger s'.objects[k]} :: 0 <= k < |s.objects| ==>
               SameShape(s.objects[k], s'.objects[k])
               && (InFlight(s, k) ==> s'.objects[k].phase == s.objects[k].phase)
    ensures MapInv(s') && CreatorsInv(s') && LogInv(s')
  {
    hide StatusOf;
  }

  lemma CopyKeeps(s: State, i: nat)
    requires Inv(s)
    ensures Inv(Step(s, Copy(i)))
  {
    hide StatusOf, MapInv, CreatorsInv, LogInv;
    var s' := Step(s, Copy(i));
    SameShapeKeeps(s, s');
  }

  lemma ReleaseKeeps(s: State, i: nat)
    requires Inv(s)
    ensures Inv(Step(s, Release(i)))
  {
    hide StatusOf, MapInv, CreatorsInv, LogInv;
    var s' := Step(s, Release(i));
    SameShapeKeeps(s, s');
  }

  /** Every step of every thread keeps the invariant. */
  lemma StepKeeps(s: State, a: Action)
    requires Inv(s)
    ensures Inv(Step(s, a))
  {
    hide Inv, StepCreator, StepDestructor;
    match a
    case Call(t, key, bundle) => if t < |s.creators| && s.creators[t] == Idle { CallKeeps(s, t, key, bundle); }
    case Proceed(t) => if t < |s.creators| { CreatorKeeps(s, t); }
    case Timeout(t) =>
      if t < |s.creators| && s.creators[t].Waiting? && s.owner == Free { LockKeeps(s, t, true); }
    case Copy(i) => CopyKeeps(s, i);
    case Release(i) => ReleaseKeeps(s, i);
    case Destroy(i) => if i < |s.objects| { DestructorKeeps(s, i); }
  }

  // ---------------------------------------------------------------- every run

  lemma InitInv(threads: nat)
    ensures Inv(Init(threads))
  {
  }

  lemma {:induction false} RunKeeps(s: State, actions: seq<Action>)
    requires Inv(s)
    ensures Inv(Run(s, actions))
    decreases |actions|
  {
    if actions != [] {
      StepKeeps(s, actions[0]);
      RunKeeps(Step(s, actions[0]), actions[1..]);
    }
  }

  ghost predicate Reachable(s: State) {
    exists threads: nat, actions :: s == Run(Init(threads), actions)
  }

  lemma ReachableInv(s: State)
    requires Reachable(s)
    ensures Inv(s)
  {
    var threads: nat, actions :| s == Run(Init(threads), actions);
    InitInv(threads);
    RunKeeps(Init(threads), actions);
  }

  /** In every interleaving a thread has at most one guard that is not destroyed yet. */
  lemma AtMostOneGuard(s: State, i: nat, j: nat)
    requires Reachable(s) && i < |s.objects| && j < |s.objects|
    requires Undestroyed(s.objects[i].phase) && Undestroyed(s.objects[j].phase)
    requires s.objects[i].key == s.objects[j].key
    ensures i == j
  {
    ReachableInv(s);
  }

  /** Whenever the mutex is free, the map has a thread's key exactly while a guard for it is not destroyed, and it is
      that guard. */
  lemma MapMatchesGuards(s: State, key: Key)
    requires Reachable(s) && s.owner == Free
    ensures key in s.guardMap <==>
            exists i :: 0 <= i < |s.objects| && s.objects[i].key == key && Undestroyed(s.objects[i].phase)
    ensures forall i :: 0 <= i < |s.objects| && s.objects[i].key == key && Undestroyed(s.objects[i].phase) ==>
              s.guardMap[key] == i
  {
    ReachableInv(s);
  }

  /** The events about one thread. */
  function About(log: seq<Event>, key: Key): seq<Event> {
    if log == [] then []
    else
      var before := About(log[..|log| - 1], key);
      if log[|log| - 1].key == key then before + [log[|log| - 1]] else before
  }

  /** Reports and unreports take turns, reports first, and each unreport names the bundle of its report. */
  ghost predicate Alternate(events: seq<Event>) {
    && (forall i :: 0 <= i < |events| ==> (events[i].Report? <==> i % 2 == 0))
    && (forall i :: 0 < i < |events| && i % 2 == 1 ==> events[i].bundle == events[i - 1].bundle)
  }

  lemma {:induction false} UnbrokenAlternates(log: seq<Event>, key: Key)
    requires StatusOf(log, key) != Broken
    ensures Alternate(About(log, key))
    ensures StatusOf(log, key) == if |About(log, key)| % 2 == 0 then Quiet
                                  else Boosted(About(log, key)[|About(log, key)| - 1].bundle)
  {
    if log != [] {
      UnbrokenAlternates(log[..|log| - 1], key);
    }
  }

  lemma NeverBroken(s: State, key: Key)
    requires Inv(s)
    ensures StatusOf(s.log, key) != Broken
  {
    hide StatusOf;
    if key in s.guardMap {
      assert ReportOpen(s.objects[s.guardMap[key]].phase);
    } else if InTransit(s, key) {
      if s.owner.Creating? {
        assert ReportOpen(s.objects[s.creators[s.owner.t].obj].phase);
      } else {
        assert ReportOpen(s.objects[s.owner.i].phase);
      }
    }
  }

  /** In every interleaving the system hears, per thread, strictly alternating reports and unreports starting with a
      report; when the mutex is free, a report is open exactly while the map has the thread. */
  lemma ReportsAlternate(s: State, key: Key)
    requires Reachable(s)
    ensures Alternate(About(s.log, key))
    ensures s.owner == Free ==> (|About(s.log, key)| % 2 == 1 <==> key in s.guardMap)
  {
    ReachableInv(s);
    NeverBroken(s, key);
    UnbrokenAlternates(s.log, key);
    if key in s.guardMap {
      assert ReportOpen(s.objects[s.guardMap[key]].phase);
    }
  }

  /** Whoever holds a reference has its thread boosted, under the name of the bundle that created the guard. */
  lemma HeldIsBoosted(s: State, i: nat)
    requires Reachable(s) && i < |s.objects| && s.objects[i].clients > 0
    ensures StatusOf(s.log, s.objects[i].key) == Boosted(s.objects[i].bundle)
  {
    ReachableInv(s);
    assert s.objects[i].phase == Alive;
  }

  /** Create hands out a live guard of the thread it was asked for; it returns null only after a timeout, so the error
      branch after the wait is dead. */
  lemma CreateReturns(s: State, t: nat)
    requires Reachable(s) && t < |s.creators|
    ensures match s.creators[t]
            case Returning(key, i) => i < |s.objects| && s.objects[i].key == key && s.objects[i].strong > 0
                                      && StatusOf(s.log, key) == Boosted(s.objects[i].bundle)
            case ReturningNull(late) => late
            case _ => true
  {
    ReachableInv(s);
    var c := s.creators[t];
    if c.Returning? {
      assert s.objects[c.obj].phase == Alive;
    }
  }

  /** What Create does when it finds the mutex free depends on the guard of the key alone, and, while that is dying, on
      whether time is up: a live guard is handed out, also to a late creator; without one a new one is made. */
  lemma CreateDecides(s: State, t: nat)
    requires Reachable(s) && t < |s.creators| && s.creators[t].Checking?
    ensures var c, c' := s.creators[t], Step(s, Proceed(t)).creators[t];
            && (c.key in s.guardMap ==> s.guardMap[c.key] < |s.objects|)
            && var dying := c.key in s.guardMap && s.objects[s.guardMap[c.key]].strong == 0;
               && (c'.Returning? <==> c.key in s.guardMap && !dying)
               && (c'.Returning? ==> c'.key == c.key && c'.obj == s.guardMap[c.key])
               && (c' == Rechecking(c.key, c.bundle) <==> c.key !in s.guardMap)
               && (c' == ReturningNull(true) <==> dying && c.late)
               && (c' == Waiting(c.key, c.bundle, false) <==> dying && !c.late)
  {
    ReachableInv(s);
    assert s.creators[t].key in s.guardMap ==> s.guardMap[s.creators[t].key] < |s.objects|;
    hide Inv;
  }

  /** No wakeup is lost: while a creator waits unnotified and the mutex is free, the guard it waits for is still in the
      map, without references, and its destructor has yet to run. */
  lemma NoLostWakeup(s: State, t: nat)
    requires Reachable(s) && t < |s.creators| && s.creators[t].Waiting? && !s.creators[t].notified && s.owner == Free
    ensures var key := s.creators[t].key;
            key in s.guardMap && s.guardMap[key] < |s.objects| && s.objects[s.guardMap[key]].phase == Doomed
  {
    ReachableInv(s);
    var o := s.objects[s.guardMap[s.creators[t].key]];
    assert Undestroyed(o.phase);
  }

  function Times(a: Action, n: nat): seq<Action> {
    if n == 0 then [] else [a] + Times(a, n - 1)
  }

  function Thrice(s: State, a: Action): State {
    Step(Step(Step(s, a), a), a)
  }

  lemma RunSix(s: State, a: Action)
    ensures Run(s, Times(a, 6)) == Thrice(Thrice(s, a), a)
  {
    hide Step;
    var s1 := Step(s, a);
    var s2 := Step(s1, a);
    var s3 := Step(s2, a);
    var s4 := Step(s3, a);
    var s5 := Step(s4, a);
    RunOnce(s, a, 5);
    RunOnce(s1, a, 4);
    RunOnce(s2, a, 3);
    RunOnce(s3, a, 2);
    RunOnce(s4, a, 1);
    RunOnce(s5, a, 0);
  }

  lemma RunOnce(s: State, a: Action, n: nat)
    ensures Run(s, Times(a, n + 1)) == Run(Step(s, a), Times(a, n))
  {
    assert Times(a, n + 1)[1..] == Times(a, n);
  }

  lemma LockMoveErase(s: State, i: nat)
    requires i < |s.objects| && s.objects[i].phase == Doomed && s.owner == Free
    ensures var o := s.objects[i];
            Thrice(s, Destroy(i))
            == WithObject(s, i, o.(guard := MOVED_FROM, phase := Notifying(o.guard)))
                 .(owner := Destroying(i), guardMap := s.guardMap - {o.key})
  {
    var o, d := s.objects[i], Destroy(i);
    var s1 := Step(s, d);
    assert s1 == WithObject(s, i, o.(phase := Moving)).(owner := Destroying(i));
    var s2 := Step(s1, d);
    assert s2.objects == s.objects[i := o.(guard := MOVED_FROM, phase := Erasing(o.guard))];
  }

  lemma NotifyUnreportUnlock(s: State, i: nat, temp: Guard)
    requires i < |s.objects| && s.objects[i].phase == Notifying(temp)
    ensures var o := s.objects[i];
            Thrice(s, Destroy(i))
            == WithObject(s, i, o.(phase := MemberLeft))
                 .(creators := seq(|s.creators|, t requires 0 <= t < |s.creators| => Notified(s.creators[t])),
                   log := Unreported(s.log, o.key, temp), owner := Free)
  {
    var o, d := s.objects[i], Destroy(i);
    var s1 := Step(s, d);
    assert s1.objects == s.objects[i := o.(phase := Unreporting(temp))];
    var s2 := Step(s1, d);
    assert s2.objects == s.objects[i := o.(phase := Unlocking)];
  }

  /** That destructor unreports, empties the map entry and notifies every waiter ... */
  lemma DestructorNotifies(s: State, i: nat)
    requires Reachable(s) && i < |s.objects| && s.objects[i].phase == Doomed && s.owner == Free
    ensures var s', o := Run(s, Times(Destroy(i), 6)), s.objects[i];
            && s'.owner == Free && s'.guardMap == s.guardMap - {o.key}
            && s'.log == s.log + [Unreport(o.key, o.bundle)]
            && |s'.creators| == |s.creators|
            && (forall t :: 0 <= t < |s.creators| ==> s'.creators[t] == Notified(s.creators[t]))
  {
    assert s.objects[i].guard == Guard(s.objects[i].bundle, true) by {
      ReachableInv(s);
    }
    hide Reachable, Step, Run, Times;
    RunSix(s, Destroy(i));
    LockMoveErase(s, i);
    NotifyUnreportUnlock(Thrice(s, Destroy(i)), i, s.objects[i].guard);
  }

  lemma LockAndCheck(s: State, t: nat)
    requires t < |s.creators| && s.creators[t].Waiting? && s.owner == Free && s.creators[t].key !in s.guardMap
    ensures Thrice(s, Proceed(t))
            == At(s, t, Making(s.creators[t].key, s.creators[t].bundle)).(owner := Creating(t))
  {
    var key, bundle, p := s.creators[t].key, s.creators[t].bundle, Proceed(t);
    var s1 := Step(s, p);
    assert s1 == At(s, t, Checking(key, bundle, false)).(owner := Creating(t));
    var s2 := Step(s1, p);
    assert s2.creators == s.creators[t := Rechecking(key, bundle)];
  }

  lemma MakeInsertReturn(s: State, t: nat, key: Key, bundle: string)
    requires t < |s.creators| && s.creators[t] == Making(key, bundle) && key !in s.guardMap
    ensures Thrice(s, Proceed(t))
            == At(s, t, Idle)
                 .(objects := s.objects + [Object(key, bundle, 1, 1, Guard(bundle, true), Alive)],
                   guardMap := s.guardMap[key := |s.objects|], log := s.log + [Report(key, bundle)], owner := Free)
  {
    var p := Proceed(t);
    var s1 := Step(s, p);
    assert s1.creators == s.creators[t := Inserting(key, |s.objects|)];
    var s2 := Step(s1, p);
    assert s2.creators == s.creators[t := Returning(key, |s.objects|)];
  }

  /** ... and a waiter that then runs alone gets a fresh guard, reported under its own bundle. */
  lemma WaiterCreatesAfresh(s: State, t: nat)
    requires t < |s.creators| && s.creators[t].Waiting? && s.owner == Free
    requires s.creators[t].key !in s.guardMap
    ensures var s', key, bundle := Run(s, Times(Proceed(t), 6)), s.creators[t].key, s.creators[t].bundle;
            && s'.creators == s.creators[t := Idle] && s'.owner == Free
            && key in s'.guardMap && s'.guardMap[key] == |s.objects|
            && s'.objects == s.objects + [Object(key, bundle, 1, 1, Guard(bundle, true), Alive)]
            && s'.log == s.log + [Report(key, bundle)]
  {
    hide Step, Run, Times;
    RunSix(s, Proceed(t));
    LockAndCheck(s, t);
    MakeInsertReturn(Thrice(s, Proceed(t)), t, s.creators[t].key, s.creators[t].bundle);
  }
}

/**
  Shared schedule guards in the form of their code: the map and the guard objects are changed in place by the two sections
  that hold the mutex.  Each section is the same as a run of the protocol's steps by one thread.
*/
module ScheduleGuardClass {
  import opened ScheduleGuard

  datatype Outcome = Got(obj: nat) | Null | StillWaiting

  /** Taking the mutex, by waking up or by running out of time, and `n` more steps of Create. */
  function Section(t: nat, late: bool, n: nat): seq<Action> {
    [if late then Timeout(t) else Proceed(t)] + Times(Proceed(t), n)
  }

  lemma RunSection(s: State, t: nat, late: bool, n: nat)
    ensures Run(s, Section(t, late, n)) == Run(Step(s, Section(t, late, 0)[0]), Times(Proceed(t), n))
  {
    assert Section(t, late, n)[1..] == Times(Proceed(t), n);
  }

  /** The mutex is taken. */
  function Locked(s: State, t: nat, late: bool): State
    requires t < |s.creators| && (s.creators[t].WantLock? || s.creators[t].Waiting?)
  {
    At(s, t, Checking(s.creators[t].key, s.creators[t].bundle, late)).(owner := Creating(t))
  }

  lemma RunNone(s: State, a: Action)
    ensures Run(s, Times(a, 0)) == s
  {
  }

  lemma RunTwo(s: State, a: Action)
    ensures Run(s, Times(a, 1)) == Step(s, a)
    ensures Run(s, Times(a, 2)) == Step(Step(s, a), a)
  {
    hide Step;
    RunOnce(s, a, 1);
    RunOnce(s, a, 0);
    RunOnce(Step(s, a), a, 0);
    RunNone(Step(s, a), a);
    RunNone(Step(Step(s, a), a), a);
    hide Run, Times;
  }

  lemma RunFive(s: State, a: Action)
    ensures Run(s, Times(a, 5)) == Thrice(Step(Step(s, a), a), a)
  {
    hide Step;
    var s1 := Step(s, a);
    var s2 := Step(s1, a);
    RunOnce(s, a, 4);
    RunOnce(s1, a, 3);
    RunOnce(s2, a, 2);
    RunTwo(Step(s2, a), a);
    hide Run, Times;
  }

  lemma RunSeven(s: State, a: Action)
    ensures Run(s, Times(a, 7)) == Step(Thrice(Thrice(s, a), a), a)
  {
    hide Step;
    var s1 := Step(s, a);
    var s2 := Step(s1, a);
    RunOnce(s, a, 6);
    RunOnce(s1, a, 5);
    RunFive(s2, a);
    hide Run, Times;
  }

  /** May run the section that holds the mutex: asking for the first time, or waiting. */
  predicate AtLock(s: State, t: nat, late: bool) {
    t < |s.creators| && ((s.creators[t].WantLock? && !late) || s.creators[t].Waiting?) && s.owner == Free
  }

  lemma LockStep(s: State, t: nat, late: bool)
    requires AtLock(s, t, late)
    ensures Step(s, Section(t, late, 0)[0]) == Locked(s, t, late)
  {
  }

  lemma FindSteps(s: State, t: nat, late: bool)
    requires AtLock(s, t, late)
    requires var key := s.creators[t].key;
             key in s.guardMap && s.guardMap[key] < |s.objects| && s.objects[s.guardMap[key]].strong > 0
    ensures var key := s.creators[t].key;
            var o := s.objects[s.guardMap[key]];
            Step(Step(Locked(s, t, late), Proceed(t)), Proceed(t))
            == WithObject(At(s, t, Idle), s.guardMap[key], o.(strong := o.strong + 1, clients := o.clients + 1))
  {
    var p, i := Proceed(t), s.guardMap[s.creators[t].key];
    var o := s.objects[i];
    var s2 := Step(Locked(s, t, late), p);
    assert s2.creators == s.creators[t := Returning(s.creators[t].key, i)];
    assert s2.objects == s.objects[i := o.(strong := o.strong + 1)];
    assert Step(s2, p).creators == s.creators[t := Idle];
    assert Step(s2, p).objects == s.objects[i := o.(strong := o.strong + 1, clients := o.clients + 1)];
  }

  lemma FindRun(s: State, t: nat, late: bool)
    requires AtLock(s, t, late)
    requires var key := s.creators[t].key;
             key in s.guardMap && s.guardMap[key] < |s.objects| && s.objects[s.guardMap[key]].strong > 0
    ensures var key := s.creators[t].key;
            var o := s.objects[s.guardMap[key]];
            Run(s, Section(t, late, 2))
            == WithObject(At(s, t, Idle), s.guardMap[key], o.(strong := o.strong + 1, clients := o.clients + 1))
  {
    RunSection(s, t, late, 2);
    LockStep(s, t, late);
    RunTwo(Locked(s, t, late), Proceed(t));
    hide Step, Run, Times, Section;
    FindSteps(s, t, late);
  }

  lemma GiveUpRun(s: State, t: nat, late: bool)
    requires AtLock(s, t, late)
    requires var key := s.creators[t].key;
             key in s.guardMap && s.guardMap[key] < |s.objects| && s.objects[s.guardMap[key]].strong == 0
    ensures Run(s, Section(t, late, if late then 2 else 1))
            == At(s, t, if late then Idle else Waiting(s.creators[t].key, s.creators[t].bundle, false))
  {
    var p := Proceed(t);
    RunSection(s, t, late, if late then 2 else 1);
    LockStep(s, t, late);
    RunTwo(Locked(s, t, late), p);
    hide Run, Times, Section;
    var s2 := Step(Locked(s, t, late), p);
    if late {
      assert s2.creators == s.creators[t := ReturningNull(true)];
      assert Step(s2, p).creators == s.creators[t := Idle];
    } else {
      assert s2.creators == s.creators[t := Waiting(s.creators[t].key, s.creators[t].bundle, false)];
    }
  }

  lemma RecheckSteps(s: State, t: nat, late: bool)
    requires AtLock(s, t, late) && s.creators[t].key !in s.guardMap
    ensures Step(Step(Locked(s, t, late), Proceed(t)), Proceed(t))
            == At(s, t, Making(s.creators[t].key, s.creators[t].bundle)).(owner := Creating(t))
  {
    var p, s2 := Proceed(t), Step(Locked(s, t, late), Proceed(t));
    assert s2.creators == s.creators[t := Rechecking(s.creators[t].key, s.creators[t].bundle)];
    assert Step(s2, p).creators == s.creators[t := Making(s.creators[t].key, s.creators[t].bundle)];
  }

  lemma MakeRun(s: State, t: nat, late: bool)
    requires AtLock(s, t, late) && s.creators[t].key !in s.guardMap
    ensures var key, bundle := s.creators[t].key, s.creators[t].bundle;
            Run(s, Section(t, late, 5))
            == At(s, t, Idle)
                 .(objects := s.objects + [Object(key, bundle, 1, 1, Guard(bundle, true), Alive)],
                   guardMap := s.guardMap[key := |s.objects|], log := s.log + [Report(key, bundle)])
  {
    var key, bundle := s.creators[t].key, s.creators[t].bundle;
    var s3 := At(s, t, Making(key, bundle)).(owner := Creating(t));
    RunSection(s, t, late, 5);
    LockStep(s, t, late);
    RunFive(Locked(s, t, late), Proceed(t));
    hide Step, Run, Times, Section, Thrice;
    RecheckSteps(s, t, late);
    MakeInsertReturn(s3, t, key, bundle);
    assert s3.creators[t := Idle] == s.creators[t := Idle];
  }

  class SharedAudioScheduleGuards {
    var objects: seq<Object>
    var guardMap: map<Key, nat>
    var owner: Owner
    var creators: seq<Creator>
    var log: seq<Event>

    ghost function View(): State
      reads this
    {
      State(objects, guardMap, owner, creators, log)
    }

    constructor (threads: nat)
      ensures View() == Init(threads) && Inv(View())
    {
      objects, guardMap, owner, creators, log := [], map[], Free, seq(threads, _ => Idle), [];
    }

    /** The part of Create that holds the mutex: give out the live guard of the thread, wait for a dying one, give up
        when too late, or make and report a new one. */
    method CreateSection(t: nat, late: bool) returns (outcome: Outcome)
      requires Inv(View()) && AtLock(View(), t, late)
      modifies this
      ensures exists n: nat :: View() == Run(old(View()), Section(t, late, n))
      ensures Inv(View()) && owner == Free
      ensures outcome.Got? <==> var key := old(creators[t].key);
                                key !in old(guardMap) || old(objects)[old(guardMap)[key]].strong > 0
      ensures var key, bundle := old(creators[t].key), old(creators[t].bundle);
              match outcome
              case Got(i) =>
                && i < |objects| && objects[i].key == key && objects[i].clients > 0
                && creators == old(creators)[t := Idle]
                && (if key in old(guardMap) then i == old(guardMap)[key] && log == old(log)
                    else i == old(|objects|) && log == old(log) + [Report(key, bundle)])
              case Null => late && creators == old(creators)[t := Idle] && log == old(log)
              case StillWaiting =>
                !late && creators == old(creators)[t := Waiting(key, bundle, false)] && log == old(log)
    {
      hide Inv, Run, Step, Section;
      ghost var s := View();
      var key := creators[t].key;
      if key in guardMap {
        Mapped(s, key);
        if objects[guardMap[key]].strong > 0 {
          GiveOut(t, late);
          return Got(guardMap[key]);
        }
        GiveUpRun(s, t, late);
        RunKeeps(s, Section(t, late, if late then 2 else 1));
        creators := creators[t := if late then Idle else Waiting(key, creators[t].bundle, false)];
        assert View() == Run(s, Section(t, late, if late then 2 else 1));
        return if late then Null else StillWaiting;
      }
      MakeNew(t, late);
      return Got(|objects| - 1);
    }

    /** Hand out the guard in the map: one reference for the caller. */
    method GiveOut(t: nat, late: bool)
      requires Inv(View()) && AtLock(View(), t, late)
      requires var key := creators[t].key;
               key in guardMap && guardMap[key] < |objects| && objects[guardMap[key]].strong > 0
      modifies this`objects, this`creators
      ensures View() == Run(old(View()), Section(t, late, 2)) && Inv(View())
      ensures var i := guardMap[old(creators)[t].key];
              creators == old(creators)[t := Idle] && |objects| == old(|objects|)
              && objects[i].key == old(objects)[i].key && objects[i].clients > 0
    {
      hide Inv, Run, Step, Section;
      FindRun(View(), t, late);
      RunKeeps(View(), Section(t, late, 2));
      var i := guardMap[creators[t].key];
      objects := objects[i := objects[i].(strong := objects[i].strong + 1, clients := objects[i].clients + 1)];
      creators := creators[t := Idle];
    }

    /** Make, report and enter a new guard. */
    method MakeNew(t: nat, late: bool)
      requires Inv(View()) && AtLock(View(), t, late) && creators[t].key !in guardMap
      modifies this`objects, this`guardMap, this`creators, this`log
      ensures View() == Run(old(View()), Section(t, late, 5)) && Inv(View())
      ensures var key, bundle := old(creators)[t].key, old(creators)[t].bundle;
              creators == old(creators)[t := Idle] && log == old(log) + [Report(key, bundle)]
              && objects == old(objects) + [Object(key, bundle, 1, 1, Guard(bundle, true), Alive)]
    {
      hide Inv, Run, Step, Section;
      MakeRun(View(), t, late);
      RunKeeps(View(), Section(t, late, 5));
      var key, bundle := creators[t].key, creators[t].bundle;
      log := log + [Report(key, bundle)];
      objects := objects + [Object(key, bundle, 1, 1, Guard(bundle, true), Alive)];
      guardMap := guardMap[key := |objects| - 1];
      creators := creators[t := Idle];
    }

    lemma Mapped(s: State, key: Key)
      requires Inv(s) && key in s.guardMap
      ensures s.guardMap[key] < |s.objects| && s.objects[s.guardMap[key]].key == key
    {
    }

    /** Drop a reference; true if it was the last one, so that the destructor is due. */
    method Release(i: nat) returns (last: bool)
      requires Inv(View()) && i < |objects| && objects[i].clients > 0
      modifies this`objects
      ensures View() == Step(old(View()), Action.Release(i)) && Inv(View())
      ensures last <==> objects[i].phase == Doomed
    {
      Counted(View(), i);
      ReleaseKeeps(View(), i);
      hide Inv;
      var o := objects[i];
      last := o.strong == 1;
      objects := objects[i := o.(strong := o.strong - 1, clients := o.clients - 1,
                                 phase := if last then Doomed else o.phase)];
    }

    lemma Counted(s: State, i: nat)
      requires Inv(s) && i < |s.objects| && s.objects[i].clients > 0
      ensures s.objects[i].strong > 0 && s.objects[i].phase == Alive
    {
    }

    /** The destructor of a guard member or local. */
    method DestroyGuard(key: Key, guard: Guard)
      modifies this`log
      ensures log == Unreported(old(log), key, guard)
    {
      if guard.reported {
        log := log + [Unreport(key, guard.bundle)];
      }
    }

    /** The destructor from taking the mutex to giving it up: move the member out, erase the map entry, wake everybody,
        and unreport as the local guard goes out of scope; then the member, which has nothing left to unreport. */
    method Destructor(i: nat)
      requires Inv(View()) && owner == Free && i < |objects| && objects[i].phase == Doomed
      modifies this
      ensures View() == Run(old(View()), Times(Destroy(i), 7)) && Inv(View())
      ensures guardMap == old(guardMap) - {old(objects[i].key)} && owner == Free
      ensures log == old(log) + [Unreport(old(objects[i].key), old(objects[i].bundle))]
      ensures |creators| == |old(creators)|
      ensures forall t :: 0 <= t < |creators| ==> creators[t] == Notified(old(creators[t]))
      ensures i < |objects| && objects[i].phase == Destroyed
    {
      ghost var s := View();
      DestructorRun(s, i);
      RunKeeps(s, Times(Destroy(i), 7));
      hide Inv, Run, Times, Step, WithObject;
      var key, tempGuard := objects[i].key, objects[i].guard;
      objects := objects[i := objects[i].(guard := MOVED_FROM, phase := Erasing(tempGuard))];
      guardMap := guardMap - {key};
      NotifyAll();
      DestroyGuard(key, tempGuard);
      DestroyGuard(key, objects[i].guard);
      objects := objects[i := objects[i].(phase := Destroyed)];
      assert creators == Run(s, Times(Destroy(i), 7)).creators;
    }

    /** The condition variable wakes everybody who waits. */
    method NotifyAll()
      modifies this`creators
      ensures |creators| == |old(creators)|
      ensures forall t :: 0 <= t < |creators| ==> creators[t] == Notified(old(creators[t]))
    {
      var t := 0;
      while t < |creators|
        invariant t <= |creators| == |old(creators)|
        invariant forall k :: 0 <= k < t ==> creators[k] == Notified(old(creators[k]))
        invariant forall k :: t <= k < |creators| ==> creators[k] == old(creators[k])
      {
        if creators[t].Waiting? {
          creators := creators[t := creators[t].(notified := true)];
        }
        t := t + 1;
      }
    }

    lemma DestructorRun(s: State, i: nat)
      requires Inv(s) && s.owner == Free && i < |s.objects| && s.objects[i].phase == Doomed
      ensures var o := s.objects[i];
              && o.guard == Guard(o.bundle, true)
              && Run(s, Times(Destroy(i), 7))
                 == WithObject(s, i, o.(guard := MOVED_FROM, phase := Destroyed))
                      .(guardMap := s.guardMap - {o.key}, log := s.log + [Unreport(o.key, o.bundle)],
                        creators := seq(|s.creators|, t requires 0 <= t < |s.creators| => Notified(s.creators[t])))
    {
      var o, d := s.objects[i], Destroy(i);
      assert o.guard == Guard(o.bundle, true);
      hide Inv, Run, Times;
      RunSeven(s, d);
      LockMoveErase(s, i);
      NotifyUnreportUnlock(Thrice(s, d), i, o.guard);
      hide Thrice;
      var s6 := Thrice(Thrice(s, d), d);
      assert s6.objects == s.objects[i := o.(guard := MOVED_FROM, phase := MemberLeft)];
      LastStep(s6, i);
      assert Step(s6, d).objects == s.objects[i := o.(guard := MOVED_FROM, phase := Destroyed)];
    }

    lemma LastStep(s: State, i: nat)
      requires i < |s.objects| && s.objects[i].phase == MemberLeft && !s.objects[i].guard.reported
      ensures Step(s, Destroy(i)) == WithObject(s, i, s.objects[i].(phase := Destroyed))
    {
    }
  }
}

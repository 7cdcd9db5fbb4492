/**
  What the SCO link manager guarantees for every answer of the hands-free stack and every sequence of requests and
  reports.
*/
module ScoTheorems {
  import opened Options
  import opened ScoModel

  // ---------------------------------------------------------------- whole runs

  lemma {:induction false} RunInv(s: Sco, events: seq<Event>)
    requires Inv(s) && Consistent(s)
    ensures Inv(Run(s, events)) && Consistent(Run(s, events))
    decreases |events|
  {
    if events != [] {
      StepInv(s, events[0]);
      RunInv(Step(s, events[0]), events[1..]);
    }
  }

  /**
    The invariant of every run: never the initial state; the timer exists exactly in the transient states; a cached
    request exists only there; one cached while disconnecting is a connect; a connect cached while connecting asks for
    another device or another call than the link in progress.
  */
  lemma RunKeepsInvariant(device: Device, up: bool, answers: nat -> Reply, events: seq<Event>)
    ensures Inv(Run(Start(device, up, answers), events))
  {
    RunInv(Start(device, up, answers), events);
  }

  /** Command discipline of every run. */
  lemma RunIsDisciplined(device: Device, up: bool, answers: nat -> Reply, events: seq<Event>)
    ensures Disciplined(Run(Start(device, up, answers), events).history)
  {
    RunInv(Start(device, up, answers), events);
  }

  lemma {:induction false} StaysUp(history: seq<Entry>, i: nat, j: nat)
    requires i < j <= |history|
    requires Effective(history[i])
    requires forall k :: i < k < j ==> !TakesDown(history[k])
    ensures Up(history[..j])
  {
    assert history[..j][..j - 1] == history[..j - 1];
    if i < j - 1 {
      StaysUp(history, i, j - 1);
    }
  }

  /** Between two connect attempts that took effect there is a disconnect command, a report that the current device's
      link went down, or a reset. */
  lemma SomethingBetweenConnects(device: Device, up: bool, answers: nat -> Reply, events: seq<Event>, i: nat, j: nat)
    requires var h := Run(Start(device, up, answers), events).history;
             i < j < |h| && Effective(h[i]) && Effective(h[j])
    ensures var h := Run(Start(device, up, answers), events).history;
            exists k :: i < k < j && TakesDown(h[k])
  {
    var h := Run(Start(device, up, answers), events).history;
    RunIsDisciplined(device, up, answers, events);
    if forall k :: i < k < j ==> !TakesDown(h[k]) {
      StaysUp(h, i, j);
    }
  }

  // ---------------------------------------------------------------- requests

  /** Bypassing a request is sound: within the enumeration, no switch is needed exactly when both categories stand for
      the same call. */
  lemma NoSwitchIsSameCall(current: int, category: int, device: Device)
    requires SCO_DEFAULT <= current <= SCO_RECOGNITION && SCO_DEFAULT <= category <= SCO_RECOGNITION
    ensures !NeedSwitch(current, category) <==> CallFor(current, device) == CallFor(category, device)
  {
  }

  /** A connect request from every reachable state: success leaves it realised or waiting in the cache, failure leaves
      the manager disconnected with nothing cached and no effective connect issued. */
  lemma ConnectContract(s: Sco, category: int, device: Device)
    requires Inv(s) && Consistent(s)
    ensures var o := HandleConnect(s, category, device);
            if o.code == Success then ConnectDone(o.sco, category, device)
            else o.sco.state == Disconnected && o.sco.cache == None && !Up(o.sco.history)
  {
    HandleConnectInv(s, category, device);
    if s.state == Disconnected {
      ConnectWhenDisconnectedInv(s, category, device);
    } else if s.state == Connected && !Bypass(s, category, device) {
      DisconnectReliableInv(s);
      var down := DisconnectScoReliable(s, s.category, s.device);
      if down.code != Success {
        ConnectWhenDisconnectedInv(SetState(down.sco, Disconnected), category, device);
      }
    }
  }

  /** The last request does not always win: one that matches the link in progress succeeds and leaves an older cached
      request in place, and that is the only way an older request survives a later one. */
  lemma OlderRequestSurvives(s: Sco, category: int, device: Device)
    requires Inv(s) && s.cache.Some?
    ensures var s' := HandleConnect(s, category, device).sco;
            s'.cache == s.cache && !Cached(s, category, device) <==>
            s.state == Connecting && Bypass(s, category, device)
  {
  }

  /** A run in which it does, with a stack that accepts everything: A, then B while A's link is coming up, then A again.
      The last request succeeds, and when A's link is up it is taken down and B's connect is issued. */
  lemma OlderRequestWins(category: int, a: Device, b: Device, answers: nat -> Reply)
    requires !SameDevice(a, b) && forall n :: answers(n).code == Success
    ensures var s := Run(Start(NO_DEVICE, false, answers), [Connect(category, a), Connect(category, b)]);
            var o := HandleConnect(s, category, a);
            && o.code == Success && o.sco.cache == Some(Request(true, category, b))
            && var t := UpdateScoState(UpdateScoState(o.sco, ScoConnected, a), ScoDisconnected, a);
               t.device == b && t.state == Connecting && t.cache == None
  {
    var s0 := Start(NO_DEVICE, false, answers);
    var s1 := Step(s0, Connect(category, a));
    assert s1.state == Connecting && s1.device == a && s1.category == category;
    var s2 := Step(s1, Connect(category, b));
    assert s2 == s1.(cache := Some(Request(true, category, b)));
    assert Run(s0, [Connect(category, a), Connect(category, b)]) == s2 by {
      assert [Connect(category, a), Connect(category, b)][1..] == [Connect(category, b)];
      assert Run(s1, [Connect(category, b)]) == Run(s2, []);
    }
    var up := UpdateScoState(s2, ScoConnected, a);
    assert up.state == Disconnecting && up.device == a && up.cache == Some(Request(true, category, b));
  }

  /** A disconnect request always succeeds, whatever the stack answers, and leaves no connect pending. */
  lemma DisconnectContract(s: Sco, device: Device)
    requires Inv(s) && Consistent(s)
    ensures var o := HandleDisconnect(s, device);
            && o.code == Success
            && DisconnectDone(o.sco)
            && (s.state == Connected ==> !Up(o.sco.history) && s.history < o.sco.history)
  {
    if s.state == Connected {
      DisconnectReliableInv(s.(cache := None));
      assert s.(cache := None) == s;
    }
  }

  /** From the disconnected state a connect is issued first of all. */
  lemma ConnectIsIssued(s: Sco, category: int, device: Device)
    requires s.state == Disconnected
    ensures s.history + [ConnectCommand(CallFor(category, device), Disconnected, Answer(s).code, false)]
            <= ConnectWhenDisconnected(s, category, device).sco.history
  {
    hide CallFor;
    var first := ConnectSco(s, category, device, false).sco;
    assert first.history == s.history + [first.history[|s.history|]];
  }

  /** When the link goes down, a waiting connect is issued at once, for exactly the cached category and device. */
  lemma CachedConnectIsIssued(s: Sco, device: Device)
    requires Inv(s) && Consistent(s) && SameDevice(s.device, device)
    requires s.cache.Some? && s.cache.value.connect
    ensures var s' := UpdateScoState(s, ScoDisconnected, device);
            var n := |s.history|;
            && |s'.history| >= n + 2 && s'.history[..n] == s.history
            && s'.history[n] == LinkDown
            && s'.history[n + 1] == ConnectCommand(CallFor(s.cache.value.category, s.cache.value.device), Disconnected,
                                                   s.answers(s.asked).code, false)
            && s'.cache == None
            && (s'.state != Disconnected ==> Realised(s', s.cache.value.category, s.cache.value.device))
  {
    var t := SetState(Log(s, LinkDown), Disconnected).(cache := None);
    var category, to := s.cache.value.category, s.cache.value.device;
    LogStep(s.history, LinkDown);
    assert UpdateScoState(s, ScoDisconnected, device) == ConnectWhenDisconnected(t, category, to).sco;
    ConnectWhenDisconnectedInv(t, category, to);
    hide ConnectWhenDisconnected, UpdateScoState, Inv, Consistent, CallFor;
    ConnectIsIssued(t, category, to);
    var n, h := |s.history|, ConnectWhenDisconnected(t, category, to).sco.history;
    assert h[..n] == (s.history + [LinkDown])[..n] == s.history;
  }

  /** A disconnect that waited for the link to come up is carried out as soon as it is up. */
  lemma CachedDisconnectIsIssued(s: Sco, device: Device)
    requires Inv(s) && Consistent(s) && SameDevice(s.device, device)
    requires s.state == Connecting && s.cache.Some? && !s.cache.value.connect
    ensures var s' := UpdateScoState(s, ScoConnected, device);
            var n := |s.history|;
            && |s'.history| > n && s'.history[..n] == s.history
            && s'.history[n] == DisconnectCommand(CallFor(s.category, s.device), Connected)
            && DisconnectDone(s') && s'.state != Connecting
  {
  }

  // ---------------------------------------------------------------- after a disconnect request

  ghost predicate NoConnectAmong(history: seq<Entry>, from: nat) {
    forall k :: from <= k < |history| ==> !history[k].ConnectCommand?
  }

  lemma QuietReport(s: Sco, report: ScoReport, device: Device)
    requires Inv(s) && Consistent(s) && NoPendingConnect(s) && SameDevice(s.device, device)
    ensures var s' := UpdateScoState(s, report, device);
            && NoPendingConnect(s')
            && s.history <= s'.history && NoConnectAmong(s'.history, |s.history|)
            && (report == ScoDisconnected ==> s'.state == Disconnected && s'.cache == None)
  {
    var t := if report == ScoDisconnected then Log(s, LinkDown) else s;
    if s.state == Disconnecting {
      assert s.cache == None;
    }
  }

  /** With no connect pending, an event that is not a connect request issues no connect command and leaves none
      pending; a report that the current link is down then settles the manager. */
  lemma QuietStep(s: Sco, e: Event)
    requires Inv(s) && Consistent(s) && NoPendingConnect(s) && !e.Connect?
    ensures var s' := Step(s, e);
            && NoPendingConnect(s')
            && s.history <= s'.history && NoConnectAmong(s'.history, |s.history|)
            && (e.Report? && e.report == ScoDisconnected && SameDevice(s.device, e.device) ==>
                  s'.state == Disconnected && s'.cache == None)
  {
    if e.Report? && SameDevice(s.device, e.device) {
      hide UpdateScoState, Consistent;
      QuietReport(s, e.report, e.device);
    }
  }

  lemma {:induction false} QuietRun(s: Sco, events: seq<Event>)
    requires Inv(s) && Consistent(s) && NoPendingConnect(s)
    requires forall k :: 0 <= k < |events| ==> !events[k].Connect?
    ensures var s' := Run(s, events);
            && NoPendingConnect(s') && s.history <= s'.history && NoConnectAmong(s'.history, |s.history|)
    decreases |events|
  {
    if events != [] {
      StepInv(s, events[0]);
      QuietStep(s, events[0]);
      var s' := Step(s, events[0]);
      QuietRun(s', events[1..]);
      var h := Run(s, events).history;
      assert h[..|s'.history|] == s'.history;
    }
  }

  /**
    After a disconnect request from any reachable state, nothing the stack reports makes the manager issue a connect
    command until the next connect request; and as soon as the current device's link is reported down it is
    disconnected with an empty cache.
  */
  lemma DisconnectIsFinal(start: Device, up: bool, answers: nat -> Reply, before: seq<Event>, device: Device,
                          events: seq<Event>)
    requires forall k :: 0 <= k < |events| ==> !events[k].Connect?
    ensures var s := HandleDisconnect(Run(Start(start, up, answers), before), device).sco;
            var t := Run(s, events);
            && s.history <= t.history && NoConnectAmong(t.history, |s.history|)
            && NoPendingConnect(t)
            && var settled := UpdateScoState(t, ScoDisconnected, t.device);
               settled.state == Disconnected && settled.cache == None
  {
    var r := Run(Start(start, up, answers), before);
    RunInv(Start(start, up, answers), before);
    DisconnectContract(r, device);
    HandleDisconnectInv(r, device);
    var s := HandleDisconnect(r, device).sco;
    QuietRun(s, events);
    RunInv(s, events);
    QuietStep(Run(s, events), Report(ScoDisconnected, Run(s, events).device));
  }
}

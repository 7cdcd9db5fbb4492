/**
  What each request and each report makes the link manager do: the commands it issues, in terms of what the stack
  answers, and the state it is left in.
*/
module ScoCommands {
  import opened Options
  import opened ScoModel
  import opened ScoTheorems

  /** The answer to the `k`-th question asked from now on. */
  function Told(s: Sco, k: nat): Reply {
    s.answers(s.asked + k)
  }

  // ---------------------------------------------------------------- bringing a link up

  /** What the stack is asked for: a cellular call is call 0, a virtual one call 1, and the default category is carried
      as a virtual call; recognition is opened on the device. */
  predicate StandsFor(call: Call, category: int, device: Device) {
    && (category == SCO_CELLULAR ==> call == Voice(0))
    && (category == SCO_VIRTUAL || category == SCO_DEFAULT ==> call == Voice(1))
    && (category == SCO_RECOGNITION ==> call == Recognition(device))
  }

  lemma CallStandsFor(category: int, device: Device)
    ensures StandsFor(CallFor(category, device), category, device)
  {
  }

  /** A connect request while the link is down.  One command is issued, and if it is refused and the device can be made
      active again, one retry.  A link that is there already counts as up, an accepted command as coming up. */
  lemma ConnectWhileDown(s: Sco, category: int, device: Device) returns (call: Call)
    requires Inv(s) && s.state == Disconnected
    ensures StandsFor(call, category, device)
    ensures var o := HandleConnect(s, category, device);
            var first, restored, second := Told(s, 0).code, Told(s, 1).code, Told(s, 2).code;
            var refused := first != Success && first != HasBeenConnected;
            && o.sco.history ==
               s.history + [ConnectCommand(call, Disconnected, first, false)]
               + (if refused && restored == Success then [ConnectCommand(call, Disconnected, second, true)] else [])
            && o.code == (if !refused then Success else if restored != Success then restored else second)
            && o.sco.state == (if first == HasBeenConnected then Connected
                               else if o.code == Success then Connecting else Disconnected)
            && o.sco.timer == (o.sco.state == Connecting) && o.sco.cache == None
            && (if o.code == Success then o.sco.category == category && o.sco.device == device
                else o.sco.category == s.category && o.sco.device == s.device)
  {
    call := CallFor(category, device);
    CallStandsFor(category, device);
    hide CallFor;
    var first := ConnectSco(s, category, device, false);
    if first.code != Success && first.code != HasBeenConnected && Answer(first.sco).code == Success {
      var second := ConnectSco(Asked(first.sco), category, device, true);
      assert second.sco.history ==
             s.history + [ConnectCommand(call, Disconnected, first.code, false)]
             + [ConnectCommand(call, Disconnected, second.code, true)];
    } else {
      assert first.sco.history + [] == first.sco.history;
    }
  }

  /** A connect request while the link is coming up or going down asks nothing of the stack: it is in the cache
      afterwards, unless it matches the link coming up. */
  lemma ConnectWhileMoving(s: Sco, category: int, device: Device)
    requires Inv(s) && Transient(s.state)
    ensures var o := HandleConnect(s, category, device);
            && o.code == Success && o.sco == s.(cache := o.sco.cache)
            && (if s.state == Connecting && Bypass(s, category, device) then o.sco.cache == s.cache
                else Cached(o.sco, category, device))
  {
  }

  // ---------------------------------------------------------------- taking a link down

  /** The link is taken down for its own category; if the stack says that there is no such call, for the one it says
      there is. */
  function DownCommands(s: Sco): seq<Entry> {
    [DisconnectCommand(CallFor(s.category, s.device), Connected)]
    + if Told(s, 0).code == VirtualCallNotStarted && Told(s, 1).code == Success
      then [DisconnectCommand(CallFor(Told(s, 1).category, s.device), Connected)] else []
  }

  function DownCode(s: Sco): Code {
    if Told(s, 0).code != VirtualCallNotStarted then Told(s, 0).code
    else if Told(s, 1).code != Success then Told(s, 1).code
    else Told(s, 2).code
  }

  function DownQuestions(s: Sco): nat {
    if Told(s, 0).code != VirtualCallNotStarted then 1 else if Told(s, 1).code != Success then 2 else 3
  }

  lemma DownReliable(s: Sco)
    requires s.state == Connected
    ensures var o := DisconnectScoReliable(s, s.category, s.device);
            && o.code == DownCode(s)
            && o.sco == s.(asked := s.asked + DownQuestions(s), history := s.history + DownCommands(s))
  {
    hide CallFor;
    var first := DisconnectSco(s, s.category, s.device);
    if first.code == VirtualCallNotStarted && Answer(first.sco).code == Success {
      var second := DisconnectSco(Asked(first.sco), Answer(first.sco).category, s.device);
      assert second.sco.history == s.history + DownCommands(s);
    } else {
      assert first.sco.history == s.history + DownCommands(s);
    }
  }

  /** A disconnect request while the link is up takes it down; if that fails it is given up for down. */
  lemma DisconnectWhileUp(s: Sco, device: Device)
    requires Inv(s) && s.state == Connected
    ensures var down := DownCode(s) == Success;
            HandleDisconnect(s, device) ==
            Outcome(Success, s.(state := if down then Disconnecting else Disconnected, timer := down,
                                asked := s.asked + DownQuestions(s), history := s.history + DownCommands(s)))
  {
    assert s.(cache := None) == s;
    DownReliable(s);
    hide DisconnectScoReliable, DownCommands, DownCode, DownQuestions;
  }

  /** In the other states it only concerns the cache: it waits there for a link coming up, and elsewhere it takes out a
      connect that waits. */
  lemma DisconnectElsewhere(s: Sco, device: Device)
    requires Inv(s) && s.state != Connected
    ensures HandleDisconnect(s, device) ==
            Outcome(Success, s.(cache := if s.state == Connecting then Some(Request(false, s.category, device)) else None))
  {
  }

  /** A connect request while the link is up: nothing if it matches; otherwise the link is taken down and the request
      waits, or, if taking down fails, it is treated as from a link that is down. */
  lemma ConnectWhileUp(s: Sco, category: int, device: Device)
    requires Inv(s) && s.state == Connected
    ensures var o := HandleConnect(s, category, device);
            var down := s.(asked := s.asked + DownQuestions(s), history := s.history + DownCommands(s));
            if Bypass(s, category, device) then o == Outcome(Success, s)
            else if DownCode(s) == Success then
              o == Outcome(Success, down.(state := Disconnecting, timer := true,
                                          cache := Some(Request(true, category, device))))
            else o == HandleConnect(down.(state := Disconnected), category, device)
  {
    DownReliable(s);
    hide DisconnectScoReliable, DownCommands, DownCode, DownQuestions, ConnectWhenDisconnected;
  }

  // ---------------------------------------------------------------- reports

  /** A report that the link is up, with nothing waiting.  A link coming up is up; nothing is asked.  In the other states
      the stack is asked for the category: the answer is adopted, with the link up; without one all stays as it was. */
  lemma UpReport(s: Sco, device: Device)
    requires Inv(s) && SameDevice(s.device, device) && s.cache == None
    ensures UpdateScoState(s, ScoConnected, device) ==
            if s.state == Connecting then s.(state := Connected, timer := false)
            else if Told(s, 0).code == Success then
              s.(state := Connected, timer := false, category := Told(s, 0).category, asked := s.asked + 1)
            else s.(asked := s.asked + 1)
  {
  }

  /** The same with a connect waiting: it is not lost.  From a link coming up, or one that was going down and has been
      adopted, it is realised or waits on, or it failed with the manager disconnected; if the stack does not say what is
      up, it waits on and nothing else changes. */
  lemma UpReportServesConnect(s: Sco, device: Device)
    requires Inv(s) && Consistent(s) && SameDevice(s.device, device) && s.cache.Some? && s.cache.value.connect
    ensures var s', r := UpdateScoState(s, ScoConnected, device), s.cache.value;
            if s.state == Disconnecting && Told(s, 0).code != Success then s' == s.(asked := s.asked + 1)
            else ConnectDone(s', r.category, r.device) || (s'.state == Disconnected && s'.cache == None)
  {
    var r := s.cache.value;
    if s.state == Connecting {
      var t := SetState(s, Connected).(cache := None);
      assert UpdateScoState(s, ScoConnected, device) == HandleConnect(t, r.category, r.device).sco;
      hide UpdateScoState, HandleConnect;
      ConnectContract(t, r.category, r.device);
    } else if Told(s, 0).code == Success {
      var t := ForceUpdateCategory(s).(cache := None);
      assert UpdateScoState(s, ScoConnected, device) == HandleConnect(t, r.category, r.device).sco;
      hide UpdateScoState, HandleConnect;
      ConnectContract(t, r.category, r.device);
    }
  }

  /** When a link that was coming up for something else is up, it is taken down for the connect that waits. */
  lemma UpReportTakesDown(s: Sco, device: Device)
    requires Inv(s) && SameDevice(s.device, device)
    requires s.state == Connecting && s.cache.Some? && s.cache.value.connect
    ensures s.history + DownCommands(s) <= UpdateScoState(s, ScoConnected, device).history
  {
    var r := s.cache.value;
    var t := SetState(s, Connected).(cache := None);
    assert UpdateScoState(s, ScoConnected, device) == HandleConnect(t, r.category, r.device).sco;
    ConnectWhileUp(t, r.category, r.device);
    assert DownCommands(t) == DownCommands(s) && DownCode(t) == DownCode(s);
    assert !Bypass(t, r.category, r.device);
    hide UpdateScoState, HandleConnect, DownCommands, DownCode, Bypass, CallFor;
    if DownCode(s) != Success {
      var down := t.(asked := t.asked + DownQuestions(t), history := t.history + DownCommands(s), state := Disconnected);
      var _ := ConnectWhileDown(down, r.category, r.device);
    }
  }

  /** A report that the link is down, with no connect waiting, settles every state; a disconnect that waited has nothing
      left to do. */
  lemma DownReport(s: Sco, device: Device)
    requires Inv(s) && SameDevice(s.device, device) && NoPendingConnect(s)
    ensures UpdateScoState(s, ScoDisconnected, device) ==
            s.(state := Disconnected, timer := false, cache := None, history := s.history + [LinkDown])
  {
  }

  /** No other report changes anything: not one about another device, and not one that a link is about to come up or go
      down. */
  lemma OtherReports(s: Sco, report: ScoReport, device: Device)
    requires Inv(s) && (report == ScoConnecting || report == ScoDisconnecting || !SameDevice(s.device, device))
    ensures UpdateScoState(s, report, device) == s
  {
  }

  // ---------------------------------------------------------------- start and reset

  /** The manager starts idle, with the link as the stack reports it and the category it names, if it names one. */
  lemma StartContract(device: Device, up: bool, answers: nat -> Reply)
    ensures var s := Start(device, up, answers);
            && s.device == device && s.cache == None && !s.timer && s.history == []
            && s.state == (if up then Connected else Disconnected)
            && s.category == (if up && answers(0).code == Success then answers(0).category else SCO_DEFAULT)
            && s.asked == if up then 1 else 0
  {
  }

  /** A reset issues no command: it forgets the device, what waits and the link, if it is about the current device, and
      does nothing otherwise. */
  lemma ResetContract(s: Sco, device: Device)
    requires Inv(s)
    ensures ResetScoState(s, device) ==
            if SameDevice(s.device, device)
            then s.(state := Disconnected, timer := false, cache := None, device := NO_DEVICE,
                    history := s.history + [ResetDone])
            else s
  {
  }
}

/**
  The Bluetooth SCO link manager: four live states, a one-slot request cache, a timer, and a hands-free stack that may
  answer anything.  The functions below say what each entry point does to the manager's fields and which commands it
  issues; the class in ScoManager.dfy does it in place.
*/
module ScoModel {
  import opened Options

  // ScoCategory: the stack may report other numbers
  const SCO_DEFAULT: int := -1
  const SCO_CELLULAR: int := 0
  const SCO_VIRTUAL: int := 1
  const SCO_RECOGNITION: int := 2

  datatype AudioScoState = Initial | Disconnected | Connected | Connecting | Disconnecting

  /** A remote device; two devices are the same when their addresses are. */
  datatype Device = Device(addr: string, valid: bool)

  /** The default-constructed device. */
  const NO_DEVICE := Device("", false)

  /** Result codes of the hands-free stack; the manager only tells these apart. */
  datatype Code = Success | HasBeenConnected | VirtualCallNotStarted | Error(number: int)

  /** One answer of the stack: a result code and, for the queries, a category and a switch. */
  datatype Reply = Reply(code: Code, category: int, flag: bool)

  datatype ScoReport = ScoDisconnected | ScoConnecting | ScoDisconnecting | ScoConnected

  /** What is asked of the stack to bring a link up or down. */
  datatype Call = Recognition(device: Device) | Voice(callType: nat)

  /** The observable history: commands with the local state they were issued in, and what takes the link down. */
  datatype Entry =
    | ConnectCommand(call: Call, local: AudioScoState, code: Code, retry: bool)
    | DisconnectCommand(call: Call, local: AudioScoState)
    | LinkDown
    | ResetDone

  datatype Request = Request(connect: bool, category: int, device: Device)

  /** The manager's fields, the stack's answers in the order they will be given, and the history. */
  datatype Sco = Sco(
    state: AudioScoState,
    category: int,
    device: Device,
    cache: Option<Request>,
    timer: bool,
    answers: nat -> Reply,
    asked: nat,
    history: seq<Entry>)

  datatype Outcome = Outcome(code: Code, sco: Sco)

  // ---------------------------------------------------------------- helpers

  predicate SameDevice(a: Device, b: Device) {
    a.addr == b.addr
  }

  predicate Transient(state: AudioScoState) {
    state == Connecting || state == Disconnecting
  }

  /** SetAudioScoState: the timer exists in the transient states only. */
  function SetState(s: Sco, state: AudioScoState): Sco {
    if s.state == state then s else s.(state := state, timer := Transient(state))
  }

  function Answer(s: Sco): Reply {
    s.answers(s.asked)
  }

  function Asked(s: Sco): Sco {
    s.(asked := s.asked + 1)
  }

  function Log(s: Sco, e: Entry): Sco {
    s.(history := s.history + [e])
  }

  /** The call a category stands for: the default category is carried as a virtual call, and the call type is passed
      as an unsigned byte. */
  function CallFor(category: int, device: Device): Call {
    if category == SCO_RECOGNITION then Recognition(device)
    else Voice((if category == SCO_DEFAULT then SCO_VIRTUAL else category) % 256)
  }

  predicate NeedSwitch(current: int, category: int) {
    && category != current
    && !(current == SCO_DEFAULT && category == SCO_VIRTUAL)
    && !(current == SCO_VIRTUAL && category == SCO_DEFAULT)
  }

  function ConnectSco(s: Sco, category: int, device: Device, retry: bool): Outcome {
    var code := Answer(s).code;
    Outcome(code, Log(Asked(s), ConnectCommand(CallFor(category, device), s.state, code, retry)))
  }

  function TryRestoreHfpDevice(s: Sco, category: int, device: Device): Outcome {
    var code := Answer(s).code;
    if code != Success then Outcome(code, Asked(s)) else ConnectSco(Asked(s), category, device, true)
  }

  function DisconnectSco(s: Sco, category: int, device: Device): Outcome {
    Outcome(Answer(s).code, Log(Asked(s), DisconnectCommand(CallFor(category, device), s.state)))
  }

  function DisconnectScoReliable(s: Sco, category: int, device: Device): Outcome {
    var first := DisconnectSco(s, category, device);
    if first.code != VirtualCallNotStarted then first
    else
      var reply := Answer(first.sco);
      if reply.code != Success then Outcome(reply.code, Asked(first.sco))
      else DisconnectSco(Asked(first.sco), reply.category, device)
  }

  function SaveRequestToCache(s: Sco, connect: bool, category: int, device: Device): Sco {
    if s.cache.Some? && s.cache.value.connect == connect && s.cache.value.category == category
       && SameDevice(s.cache.value.device, device)
    then s
    else s.(cache := Some(Request(connect, category, device)))
  }

  // ---------------------------------------------------------------- connect and disconnect requests

  function ConnectWhenDisconnected(s: Sco, category: int, device: Device): Outcome {
    var first := ConnectSco(s, category, device, false);
    if first.code == HasBeenConnected
    then Outcome(Success, SetState(first.sco, Connected).(category := category, device := device))
    else if first.code == Success
    then Outcome(Success, SetState(first.sco, Connecting).(category := category, device := device))
    else
      var second := TryRestoreHfpDevice(first.sco, category, device);
      if second.code != Success then second
      else Outcome(Success, SetState(second.sco, Connecting).(category := category, device := device))
  }

  predicate Bypass(s: Sco, category: int, device: Device) {
    !NeedSwitch(s.category, category) && SameDevice(s.device, device)
  }

  function ConnectWhenConnected(s: Sco, category: int, device: Device): Outcome {
    if Bypass(s, category, device) then Outcome(Success, s)
    else
      var down := DisconnectScoReliable(s, s.category, s.device);
      if down.code != Success then ConnectWhenDisconnected(SetState(down.sco, Disconnected), category, device)
      else Outcome(Success, SaveRequestToCache(SetState(down.sco, Disconnecting), true, category, device))
  }

  function ConnectWhenConnecting(s: Sco, category: int, device: Device): Outcome {
    Outcome(Success, if Bypass(s, category, device) then s else SaveRequestToCache(s, true, category, device))
  }

  function HandleConnect(s: Sco, category: int, device: Device): Outcome {
    match s.state
    case Disconnected => ConnectWhenDisconnected(s, category, device)
    case Connected => ConnectWhenConnected(s, category, device)
    case Connecting => ConnectWhenConnecting(s, category, device)
    case Disconnecting => Outcome(Success, SaveRequestToCache(s, true, category, device))
    case Initial => Outcome(Error(-1), s)
  }

  function HandleDisconnect(s: Sco, device: Device): Outcome {
    match s.state
    case Disconnected => Outcome(Success, s.(cache := None))
    case Disconnecting => Outcome(Success, s.(cache := None))
    case Connected =>
      var down := DisconnectScoReliable(s.(cache := None), s.category, s.device);
      Outcome(Success, SetState(down.sco, if down.code != Success then Disconnected else Disconnecting))
    case Connecting => Outcome(Success, SaveRequestToCache(s.(cache := None), false, s.category, device))
    case Initial => Outcome(Error(-1), s)
  }

  // ---------------------------------------------------------------- reports of the stack

  function ProcCacheRequest(s: Sco): Sco {
    if s.cache.None? then s
    else
      var r := s.cache.value;
      var s' := s.(cache := None);
      if r.connect then HandleConnect(s', r.category, r.device).sco else HandleDisconnect(s', r.device).sco
  }

  /** ForceUpdateScoCategory: adopt the link the stack says is up. */
  function ForceUpdateCategory(s: Sco): Sco {
    var reply := Answer(s);
    if reply.code != Success then Asked(s) else SetState(Asked(s).(category := reply.category), Connected)
  }

  function ReportWhenConnected(s: Sco, report: ScoReport): Sco {
    match report
    case ScoDisconnected => SetState(s, Disconnected)
    case ScoConnected =>
      var reply := Answer(s);
      if reply.code == Success then Asked(s).(category := reply.category) else Asked(s)
    case _ => s
  }

  function ReportWhenConnecting(s: Sco, report: ScoReport): Sco {
    ProcCacheRequest(
      match report
      case ScoDisconnected => SetState(s, Disconnected)
      case ScoConnected => SetState(s, Connected)
      case _ => s)
  }

  function ReportWhenDisconnecting(s: Sco, report: ScoReport): Sco {
    ProcCacheRequest(
      match report
      case ScoDisconnected => SetState(s, Disconnected)
      case ScoConnected => ForceUpdateCategory(s)
      case _ => s)
  }

  /** UpdateScoState: reports about another device are only recorded as faults. */
  function UpdateScoState(s: Sco, report: ScoReport, device: Device): Sco {
    if !SameDevice(s.device, device) then s
    else
      var t := if report == ScoDisconnected then Log(s, LinkDown) else s;
      match s.state
      case Disconnected => if report == ScoConnected then ForceUpdateCategory(t) else t
      case Connected => ReportWhenConnected(t, report)
      case Connecting => ReportWhenConnecting(t, report)
      case Disconnecting => ReportWhenDisconnecting(t, report)
      case Initial => t
  }

  function ResetScoState(s: Sco, device: Device): Sco {
    if !SameDevice(s.device, device) then s
    else Log(SetState(s.(cache := None), Disconnected).(device := NO_DEVICE), ResetDone)
  }

  // ---------------------------------------------------------------- runs

  datatype Event =
    | Connect(category: int, device: Device)
    | Disconnect(device: Device)
    | Report(report: ScoReport, device: Device)
    | Reset(device: Device)
    | TimeOut

  /** The constructor: adopt the active device and whether its link is up. */
  function Start(device: Device, up: bool, answers: nat -> Reply): Sco {
    var s := Sco(if up then Connected else Disconnected, SCO_DEFAULT, device, None, false, answers, 0, []);
    if !up then s
    else if Answer(s).code == Success then Asked(s).(category := Answer(s).category)
    else Asked(s)
  }

  function Step(s: Sco, e: Event): Sco {
    match e
    case Connect(category, device) => HandleConnect(s, category, device).sco
    case Disconnect(device) => HandleDisconnect(s, device).sco
    case Report(report, device) => UpdateScoState(s, report, device)
    case Reset(device) => ResetScoState(s, device)
    case TimeOut => s
  }

  function Run(s: Sco, events: seq<Event>): Sco
    decreases |events|
  {
    if events == [] then s else Run(Step(s, events[0]), events[1..])
  }

  // ---------------------------------------------------------------- what is claimed

  ghost predicate Inv(s: Sco) {
    && s.state != Initial
    && (s.timer <==> Transient(s.state))
    && (s.cache.Some? ==> Transient(s.state))
    && (s.cache.Some? && s.state == Disconnecting ==> s.cache.value.connect)
    && (s.cache.Some? && s.state == Connecting && s.cache.value.connect ==>
          !Bypass(s, s.cache.value.category, s.cache.value.device))
    && (s.cache.Some? && !s.cache.value.connect ==> s.cache.value.category == s.category)
  }

  /** A connect command that took effect: accepted, or refused because the link is up already. */
  predicate Effective(e: Entry) {
    e.ConnectCommand? && (e.code == Success || (!e.retry && e.code == HasBeenConnected))
  }

  predicate TakesDown(e: Entry) {
    e.DisconnectCommand? || e.LinkDown? || e.ResetDone?
  }

  /** An effective connect has not been followed by anything that takes the link down. */
  predicate Up(history: seq<Entry>) {
    history != [] &&
    var last := history[|history| - 1];
    !TakesDown(last) && (Effective(last) || Up(history[..|history| - 1]))
  }

  /** Connect commands only when disconnected, disconnect commands only when connected, and no effective connect while
      an earlier one still stands. */
  ghost predicate Disciplined(history: seq<Entry>) {
    forall k :: 0 <= k < |history| ==>
      && (history[k].ConnectCommand? ==> history[k].local == Disconnected)
      && (history[k].DisconnectCommand? ==> history[k].local == Connected)
      && (Effective(history[k]) ==> !Up(history[..k]))
  }

  /** The history is disciplined and the state knows whether a link stands. */
  ghost predicate Consistent(s: Sco) {
    && Disciplined(s.history)
    && (Up(s.history) ==> s.state == Connected || s.state == Connecting)
  }

  predicate NoPendingConnect(s: Sco) {
    s.cache.Some? ==> !s.cache.value.connect
  }

  /** The link in progress carries the same underlying call of the same device. */
  predicate Realised(s: Sco, category: int, device: Device) {
    (s.state == Connected || s.state == Connecting) && Bypass(s, category, device)
  }

  predicate Cached(s: Sco, category: int, device: Device) {
    && Transient(s.state)
    && s.cache.Some? && s.cache.value.connect && s.cache.value.category == category
    && SameDevice(s.cache.value.device, device)
  }

  /** What a successful connect request leaves behind. */
  predicate ConnectDone(s: Sco, category: int, device: Device) {
    Realised(s, category, device) || Cached(s, category, device)
  }

  /** What a disconnect request leaves behind: down, going down, or going up with the disconnect waiting. */
  predicate DisconnectDone(s: Sco) {
    && NoPendingConnect(s)
    && (s.state == Disconnected || s.state == Disconnecting || (s.state == Connecting && s.cache.Some?))
  }

  // ---------------------------------------------------------------- the history grows one entry at a time

  lemma LogStep(history: seq<Entry>, e: Entry)
    requires Disciplined(history)
    requires e.ConnectCommand? ==> e.local == Disconnected
    requires e.DisconnectCommand? ==> e.local == Connected
    requires Effective(e) ==> !Up(history)
    ensures Disciplined(history + [e])
    ensures Up(history + [e]) <==> !TakesDown(e) && (Effective(e) || Up(history))
  {
    var h := history + [e];
    assert h[..|history|] == history;
    forall k | 0 <= k < |h| ensures Effective(h[k]) ==> !Up(h[..k]) {
      if k < |history| {
        assert h[..k] == history[..k];
      }
    }
  }

  lemma ConnectWhenDisconnectedInv(s: Sco, category: int, device: Device)
    requires Inv(s) && Consistent(s) && s.state == Disconnected
    ensures var o := ConnectWhenDisconnected(s, category, device);
            && Inv(o.sco) && Consistent(o.sco)
            && o.sco.cache == None
            && (if o.code == Success
                then o.sco.state != Disconnected && o.sco.category == category && o.sco.device == device
                else o.sco.state == Disconnected && o.sco.category == s.category && o.sco.device == s.device)
  {
    var first := ConnectSco(s, category, device, false);
    LogStep(s.history, first.sco.history[|s.history|]);
    if first.code.Error? || first.code.VirtualCallNotStarted? {
      var t := first.sco;
      if Answer(t).code == Success {
        var second := ConnectSco(Asked(t), category, device, true);
        LogStep(t.history, second.sco.history[|t.history|]);
      }
    }
  }

  lemma DisconnectReliableInv(s: Sco)
    requires Inv(s) && Consistent(s) && s.state == Connected
    ensures var down := DisconnectScoReliable(s, s.category, s.device).sco;
            && down.(asked := s.asked, history := s.history) == s
            && Disciplined(down.history) && !Up(down.history)
  {
    var first := DisconnectSco(s, s.category, s.device);
    LogStep(s.history, first.sco.history[|s.history|]);
    if first.code == VirtualCallNotStarted && Answer(first.sco).code == Success {
      var t := Asked(first.sco);
      LogStep(t.history, DisconnectCommand(CallFor(Answer(first.sco).category, s.device), t.state));
    }
  }

  lemma HandleConnectInv(s: Sco, category: int, device: Device)
    requires Inv(s) && Consistent(s)
    ensures var o := HandleConnect(s, category, device); Inv(o.sco) && Consistent(o.sco)
  {
    match s.state
    case Disconnected => ConnectWhenDisconnectedInv(s, category, device);
    case Connected =>
      if !Bypass(s, category, device) {
        DisconnectReliableInv(s);
        var down := DisconnectScoReliable(s, s.category, s.device);
        if down.code != Success {
          ConnectWhenDisconnectedInv(SetState(down.sco, Disconnected), category, device);
        }
      }
    case _ =>
  }

  lemma HandleDisconnectInv(s: Sco, device: Device)
    requires Inv(s) && Consistent(s)
    ensures var o := HandleDisconnect(s, device); Inv(o.sco) && Consistent(o.sco)
  {
    if s.state == Connected {
      DisconnectReliableInv(s.(cache := None));
    }
  }

  lemma ProcCacheInv(s: Sco)
    requires Inv(s.(cache := None)) && Consistent(s)
    ensures Inv(ProcCacheRequest(s)) && Consistent(ProcCacheRequest(s))
  {
    var s' := s.(cache := None);
    if s.cache.Some? {
      HandleConnectInv(s', s.cache.value.category, s.cache.value.device);
      HandleDisconnectInv(s', s.cache.value.device);
    } else {
      assert s == s';
    }
  }

  lemma ReportInv(s: Sco, report: ScoReport, device: Device)
    requires Inv(s) && Consistent(s)
    ensures Inv(UpdateScoState(s, report, device)) && Consistent(UpdateScoState(s, report, device))
  {
    if SameDevice(s.device, device) {
      var t := if report == ScoDisconnected then Log(s, LinkDown) else s;
      if report == ScoDisconnected {
        LogStep(s.history, LinkDown);
      }
      if s.state == Connecting {
        ProcCacheInv(if report == ScoDisconnected then SetState(t, Disconnected)
                     else if report == ScoConnected then SetState(t, Connected) else t);
      } else if s.state == Disconnecting {
        ProcCacheInv(if report == ScoDisconnected then SetState(t, Disconnected)
                     else if report == ScoConnected then ForceUpdateCategory(t) else t);
      }
    }
  }

  lemma StepInv(s: Sco, e: Event)
    requires Inv(s) && Consistent(s)
    ensures Inv(Step(s, e)) && Consistent(Step(s, e))
  {
    match e
    case Connect(category, device) => HandleConnectInv(s, category, device);
    case Disconnect(device) => HandleDisconnectInv(s, device);
    case Report(report, device) => ReportInv(s, report, device);
    case Reset(device) => LogStep(s.history, ResetDone);
    case TimeOut =>
  }
}

/**
  The policy that drives the SCO link manager: the audio scene, recognition and recording, the active hands-free
  device, and which services asked for a real call.
*/
module HfpPolicy {
  import opened Options
  import opened ScoModel
  import opened ScoTheorems
  import opened ScoCommands

  datatype AudioScene = Invalid | Default | Ringing | PhoneCall | PhoneChat | CallStart | CallEnd | VoiceRinging

  /** The static fields of AudioHfpManager, with the link manager it drives. */
  datatype Policy = Policy(
    scene: AudioScene,
    recognition: bool,
    record: bool,
    active: Device,
    virtualCalls: map<int, bool>,
    sco: Sco)

  datatype Result = Result(code: Code, policy: Policy)

  // ---------------------------------------------------------------- the judgement

  predicate IsVirtualCall(virtualCalls: map<int, bool>) {
    forall uid :: uid in virtualCalls ==> virtualCalls[uid]
  }

  /** JudgeScoCategory, given whether in-band ringing is enabled. */
  function Judge(p: Policy, inband: bool): int {
    var idle := if p.recognition then SCO_RECOGNITION else SCO_DEFAULT;
    if (p.scene == Ringing || p.scene == VoiceRinging) && !inband then idle
    else if p.scene == VoiceRinging || p.scene == PhoneCall then SCO_CELLULAR
    else if p.scene == Ringing || p.scene == PhoneChat then
      if IsVirtualCall(p.virtualCalls) then SCO_VIRTUAL else SCO_CELLULAR
    else idle
  }

  /** What the link should be: nothing, or a category for the active device. */
  function Target(p: Policy, inband: bool): Option<int> {
    if !p.active.valid || p.active.addr == NO_DEVICE.addr then None
    else
      var category := Judge(p, inband);
      if category == SCO_DEFAULT && !p.record then None else Some(category)
  }

  function DisconnectWrapper(p: Policy): Result {
    var o := HandleDisconnect(p.sco, p.active);
    Result(o.code, p.(sco := o.sco))
  }

  /** TryUpdateScoCategory: the in-band switch is only asked for when there is a usable device. */
  function TryUpdate(p: Policy): Result {
    if !p.active.valid || p.active.addr == NO_DEVICE.addr then DisconnectWrapper(p)
    else
      var inband := Answer(p.sco).flag;
      var q := p.(sco := Asked(p.sco));
      var category := Judge(q, inband);
      if category == SCO_DEFAULT && !q.record then DisconnectWrapper(q)
      else
        var o := HandleConnect(q.sco, category, q.active);
        Result(o.code, q.(sco := o.sco))
  }

  // ---------------------------------------------------------------- entry points

  /** SetActiveHfpDevice; `found` is the lookup of the address among the connected hands-free devices. */
  function SetActive(p: Policy, address: string, found: Option<Device>): Result {
    if address != "" && found.None? then Result(Error(-1), p)
    else
      var device := if address != "" then found.value else NO_DEVICE;
      var down := if address != p.active.addr then DisconnectWrapper(p) else Result(Success, p);
      if down.code != Success then Result(Error(-1), down.policy)
      else
        var q := down.policy.(sco := Asked(down.policy.sco));
        if Answer(down.policy.sco).code != Success then Result(Error(-1), q)
        else Result(Success, q.(active := device))
  }

  function UpdateActive(p: Policy, device: Device): Result {
    var q := p.(sco := Asked(p.sco));
    if Answer(p.sco).code != Success then Result(Error(-1), q) else TryUpdate(q.(active := device))
  }

  function ClearActive(p: Policy, device: Device): Policy {
    if device.addr != p.active.addr then p
    else p.(sco := ResetScoState(p.sco, p.active), active := NO_DEVICE)
  }

  function SetVirtual(virtualCalls: map<int, bool>, uid: int, isVirtual: bool): map<int, bool> {
    if isVirtual then virtualCalls - {uid} else virtualCalls[uid := isVirtual]
  }

  datatype PolicyEvent =
    | SetActiveDevice(address: string, found: Option<Device>)
    | UpdateActiveDevice(device: Device)
    | ClearActiveDevice(device: Device)
    | UpdateScene(scene: AudioScene)
    | UpdateSceneAndRecord(scene: AudioScene, record: bool)
    | SetRecognition(on: bool)
    | SetVirtualCall(uid: int, isVirtual: bool)
    | DisconnectFromOutside
    | DisconnectScoForDevice(device: Device)
    | StackReport(report: ScoReport, device: Device, setUpByRemote: bool)
    | TimerExpired

  function PolicyStep(p: Policy, e: PolicyEvent): Result {
    match e
    case SetActiveDevice(address, found) => SetActive(p, address, found)
    case UpdateActiveDevice(device) => UpdateActive(p, device)
    case ClearActiveDevice(device) => Result(Success, ClearActive(p, device))
    case UpdateScene(scene) => TryUpdate(p.(scene := scene))
    case UpdateSceneAndRecord(scene, record) => TryUpdate(p.(scene := scene, record := record))
    case SetRecognition(on) => TryUpdate(p.(recognition := on))
    case SetVirtualCall(uid, isVirtual) =>
      TryUpdate(p.(virtualCalls := SetVirtual(p.virtualCalls, uid, isVirtual)))
    case DisconnectFromOutside => DisconnectWrapper(p)
    case DisconnectScoForDevice(device) => if device.addr != p.active.addr then Result(Success, p) else DisconnectWrapper(p)
    case StackReport(report, device, setUpByRemote) =>
      if report == ScoConnected && setUpByRemote then UpdateActive(p, device)
      else if report == ScoConnected || report == ScoDisconnected
      then Result(Success, p.(sco := UpdateScoState(p.sco, report, device)))
      else Result(Success, p)
    case TimerExpired => Result(Success, p)
  }

  function PolicyRun(p: Policy, events: seq<PolicyEvent>): Policy
    decreases |events|
  {
    if events == [] then p else PolicyRun(PolicyStep(p, events[0]).policy, events[1..])
  }

  function PolicyStart(device: Device, up: bool, answers: nat -> Reply): Policy {
    Policy(Default, false, false, NO_DEVICE, map[], Start(device, up, answers))
  }

  // ---------------------------------------------------------------- whole runs

  lemma AskedInv(s: Sco)
    requires Inv(s) && Consistent(s)
    ensures Inv(Asked(s)) && Consistent(Asked(s))
  {
  }

  lemma TryUpdateInv(p: Policy)
    requires Inv(p.sco) && Consistent(p.sco)
    ensures var q := TryUpdate(p).policy; Inv(q.sco) && Consistent(q.sco)
  {
    HandleDisconnectInv(p.sco, p.active);
    AskedInv(p.sco);
    var t := Asked(p.sco);
    HandleDisconnectInv(t, p.active);
    HandleConnectInv(t, Judge(p.(sco := t), Answer(p.sco).flag), p.active);
  }

  lemma SetActiveInv(p: Policy, address: string, found: Option<Device>)
    requires Inv(p.sco) && Consistent(p.sco)
    ensures var q := SetActive(p, address, found).policy; Inv(q.sco) && Consistent(q.sco)
  {
    HandleDisconnectInv(p.sco, p.active);
    AskedInv(p.sco);
    AskedInv(HandleDisconnect(p.sco, p.active).sco);
  }

  lemma PolicyStepInv(p: Policy, e: PolicyEvent)
    requires Inv(p.sco) && Consistent(p.sco)
    ensures var q := PolicyStep(p, e).policy; Inv(q.sco) && Consistent(q.sco)
  {
    hide Inv, Consistent, TryUpdate, SetActive, UpdateScoState, HandleDisconnect, ResetScoState;
    match e
    case SetActiveDevice(address, found) => SetActiveInv(p, address, found);
    case UpdateActiveDevice(device) =>
      AskedInv(p.sco);
      TryUpdateInv(p.(sco := Asked(p.sco), active := device));
    case ClearActiveDevice(device) => StepInv(p.sco, Reset(p.active));
    case UpdateScene(scene) => TryUpdateInv(p.(scene := scene));
    case UpdateSceneAndRecord(scene, record) => TryUpdateInv(p.(scene := scene, record := record));
    case SetRecognition(on) => TryUpdateInv(p.(recognition := on));
    case SetVirtualCall(uid, isVirtual) =>
      TryUpdateInv(p.(virtualCalls := SetVirtual(p.virtualCalls, uid, isVirtual)));
    case DisconnectFromOutside => HandleDisconnectInv(p.sco, p.active);
    case DisconnectScoForDevice(device) => HandleDisconnectInv(p.sco, p.active);
    case StackReport(report, device, _) =>
      ReportInv(p.sco, report, device);
      AskedInv(p.sco);
      TryUpdateInv(p.(sco := Asked(p.sco), active := device));
    case TimerExpired =>
  }

  lemma {:induction false} PolicyRunInv(p: Policy, events: seq<PolicyEvent>)
    requires Inv(p.sco) && Consistent(p.sco)
    ensures var q := PolicyRun(p, events); Inv(q.sco) && Consistent(q.sco)
    decreases |events|
  {
    if events != [] {
      PolicyStepInv(p, events[0]);
      hide Inv, Consistent, PolicyStep;
      PolicyRunInv(PolicyStep(p, events[0]).policy, events[1..]);
    }
  }

  /** The link manager's invariant and command discipline hold under every policy-driven run. */
  lemma PolicyRunIsDisciplined(device: Device, up: bool, answers: nat -> Reply, events: seq<PolicyEvent>)
    ensures var q := PolicyRun(PolicyStart(device, up, answers), events);
            Inv(q.sco) && Disciplined(q.sco.history)
  {
    PolicyRunInv(PolicyStart(device, up, answers), events);
  }

  // ---------------------------------------------------------------- virtual calls

  /** The last thing a service said, if it said anything. */
  function Latest(events: seq<PolicyEvent>, uid: int): Option<bool> {
    if events == [] then None
    else
      var e := events[|events| - 1];
      if e.SetVirtualCall? && e.uid == uid then Some(e.isVirtual) else Latest(events[..|events| - 1], uid)
  }

  lemma StepVirtual(p: Policy, e: PolicyEvent)
    ensures PolicyStep(p, e).policy.virtualCalls ==
            if e.SetVirtualCall? then SetVirtual(p.virtualCalls, e.uid, e.isVirtual) else p.virtualCalls
  {
  }

  lemma {:induction false} RunLast(p: Policy, events: seq<PolicyEvent>, e: PolicyEvent)
    ensures PolicyRun(p, events + [e]) == PolicyStep(PolicyRun(p, events), e).policy
    decreases |events|
  {
    hide PolicyStep;
    if events == [] {
      assert [] + [e] == [e] && [e][1..] == [];
    } else {
      assert (events + [e])[1..] == events[1..] + [e];
      RunLast(PolicyStep(p, events[0]).policy, events[1..], e);
    }
  }

  lemma {:induction false} VirtualCallsRecorded(p: Policy, events: seq<PolicyEvent>)
    requires p.virtualCalls == map[]
    ensures var calls := PolicyRun(p, events).virtualCalls;
            forall uid :: (uid in calls <==> Latest(events, uid) == Some(false)) && (uid in calls ==> !calls[uid])
  {
    if events != [] {
      var before, e := events[..|events| - 1], events[|events| - 1];
      assert events == before + [e];
      VirtualCallsRecorded(p, before);
      RunLast(p, before, e);
      StepVirtual(PolicyRun(p, before), e);
    }
  }

  /** A call counts as virtual exactly when no service's last word was that its call is real. */
  lemma VirtualUnlessSomeoneDeclined(device: Device, up: bool, answers: nat -> Reply, events: seq<PolicyEvent>)
    ensures IsVirtualCall(PolicyRun(PolicyStart(device, up, answers), events).virtualCalls) <==>
            forall uid :: Latest(events, uid) != Some(false)
  {
    VirtualCallsRecorded(PolicyStart(device, up, answers), events);
    var calls := PolicyRun(PolicyStart(device, up, answers), events).virtualCalls;
    if IsVirtualCall(calls) {
      forall uid ensures Latest(events, uid) != Some(false) {
        if Latest(events, uid) == Some(false) {
          assert false;
        }
      }
    } else {
      var uid :| uid in calls && !calls[uid];
      assert Latest(events, uid) == Some(false);
    }
  }

  /** When each category is chosen. */
  lemma JudgeMeans(p: Policy, inband: bool)
    ensures var silent := (p.scene == Ringing || p.scene == VoiceRinging) && !inband;
            var call := !silent && p.scene in {Ringing, VoiceRinging, PhoneCall, PhoneChat};
            && (Judge(p, inband) == SCO_VIRTUAL <==>
                  call && p.scene in {Ringing, PhoneChat} && IsVirtualCall(p.virtualCalls))
            && (Judge(p, inband) == SCO_CELLULAR <==>
                  call && (p.scene in {VoiceRinging, PhoneCall} || !IsVirtualCall(p.virtualCalls)))
            && (Judge(p, inband) == SCO_RECOGNITION <==> !call && p.recognition)
            && (Judge(p, inband) == SCO_DEFAULT <==> !call && !p.recognition)
  {
  }

  /** There is no link to have exactly when no usable device is active, or nothing uses it: no call that is to be heard,
      no recognition and no recording. */
  lemma TargetMeans(p: Policy, inband: bool)
    ensures var silent := (p.scene == Ringing || p.scene == VoiceRinging) && !inband;
            var call := !silent && p.scene in {Ringing, VoiceRinging, PhoneCall, PhoneChat};
            && (Target(p, inband) == None <==>
                  !p.active.valid || p.active.addr == "" || (!call && !p.recognition && !p.record))
            && (Target(p, inband).Some? ==> Target(p, inband).value == Judge(p, inband))
  {
    JudgeMeans(p, inband);
    hide Judge;
  }

  // ---------------------------------------------------------------- what was last told

  /** The last scene told, whether recording was last told to be on, and recognition. */
  function LastScene(events: seq<PolicyEvent>): AudioScene {
    if events == [] then Default
    else
      match events[|events| - 1]
      case UpdateScene(scene) => scene
      case UpdateSceneAndRecord(scene, _) => scene
      case _ => LastScene(events[..|events| - 1])
  }

  function LastRecord(events: seq<PolicyEvent>): bool {
    if events == [] then false
    else
      var e := events[|events| - 1];
      if e.UpdateSceneAndRecord? then e.record else LastRecord(events[..|events| - 1])
  }

  function LastRecognition(events: seq<PolicyEvent>): bool {
    if events == [] then false
    else
      var e := events[|events| - 1];
      if e.SetRecognition? then e.on else LastRecognition(events[..|events| - 1])
  }

  lemma StepFields(p: Policy, e: PolicyEvent)
    ensures var q := PolicyStep(p, e).policy;
            && q.scene == (if e.UpdateScene? || e.UpdateSceneAndRecord? then e.scene else p.scene)
            && q.record == (if e.UpdateSceneAndRecord? then e.record else p.record)
            && q.recognition == (if e.SetRecognition? then e.on else p.recognition)
  {
  }

  /** Over every run the policy judges by what it was last told, and nothing but being told changes that. */
  lemma {:induction false} FieldsAreLastTold(device: Device, up: bool, answers: nat -> Reply, events: seq<PolicyEvent>)
    ensures var p := PolicyRun(PolicyStart(device, up, answers), events);
            p.scene == LastScene(events) && p.record == LastRecord(events) && p.recognition == LastRecognition(events)
  {
    if events != [] {
      var before, e := events[..|events| - 1], events[|events| - 1];
      var start := PolicyStart(device, up, answers);
      assert events == before + [e];
      FieldsAreLastTold(device, up, answers, before);
      RunLast(start, before, e);
      StepFields(PolicyRun(start, before), e);
      hide PolicyStep, PolicyRun;
    }
  }

  // ---------------------------------------------------------------- alignment

  /** What an update of `p` that ends as `r` promises: with no target the disconnect contract holds and the update
      succeeds; with one, success means the connect contract for the judged category and the active device, and
      failure means disconnected with nothing cached. */
  predicate Aligned(p: Policy, r: Result) {
    var target := Target(p, Answer(p.sco).flag);
    && r.policy.active == p.active
    && (target == None ==> r.code == Success && DisconnectDone(r.policy.sco))
    && (target.Some? && r.code == Success ==> ConnectDone(r.policy.sco, target.value, p.active))
    && (target.Some? && r.code != Success ==> r.policy.sco.state == Disconnected && r.policy.sco.cache == None)
  }

  lemma NoTargetAligns(p: Policy)
    requires Inv(p.sco) && Consistent(p.sco) && Target(p, Answer(p.sco).flag) == None
    ensures Aligned(p, TryUpdate(p))
  {
    AskedInv(p.sco);
    var asked := p.active.valid && p.active.addr != NO_DEVICE.addr;
    var q := if asked then p.(sco := Asked(p.sco)) else p;
    hide Inv, Consistent;
    assert TryUpdate(p) == DisconnectWrapper(q);
    hide HandleDisconnect, DisconnectDone, TryUpdate, Judge, Up;
    DisconnectContract(q.sco, q.active);
  }

  lemma TargetAligns(p: Policy)
    requires Inv(p.sco) && Consistent(p.sco) && Target(p, Answer(p.sco).flag).Some?
    ensures Aligned(p, TryUpdate(p))
  {
    AskedInv(p.sco);
    var t, category := Asked(p.sco), Judge(p, Answer(p.sco).flag);
    hide Inv, Consistent;
    assert Judge(p.(sco := t), Answer(p.sco).flag) == category;
    hide HandleConnect, ConnectDone, Judge, Up;
    ConnectContract(t, category, p.active);
  }

  /** After an update the link manager follows the target. */
  lemma UpdateAligns(p: Policy)
    requires Inv(p.sco) && Consistent(p.sco)
    ensures Aligned(p, TryUpdate(p))
  {
    hide Inv, Consistent, Aligned, TryUpdate, Target;
    if Target(p, Answer(p.sco).flag) == None {
      NoTargetAligns(p);
    } else {
      TargetAligns(p);
    }
  }

  /** The paths through UpdateActiveHfpDevice: the active device changes before the update, if the stack agrees. */
  predicate Adopts(e: PolicyEvent) {
    e.UpdateActiveDevice? || (e.StackReport? && e.report == ScoConnected && e.setUpByRemote)
  }

  predicate Updates(e: PolicyEvent) {
    e.UpdateScene? || e.UpdateSceneAndRecord? || e.SetRecognition? || e.SetVirtualCall? || Adopts(e)
  }

  /** The fields an update event sets, before the link manager is driven. */
  function Updated(p: Policy, e: PolicyEvent): Policy {
    match e
    case UpdateScene(scene) => p.(scene := scene)
    case UpdateSceneAndRecord(scene, record) => p.(scene := scene, record := record)
    case SetRecognition(on) => p.(recognition := on)
    case SetVirtualCall(uid, isVirtual) => p.(virtualCalls := SetVirtual(p.virtualCalls, uid, isVirtual))
    case UpdateActiveDevice(device) => p.(sco := Asked(p.sco), active := device)
    case StackReport(_, device, _) => p.(sco := Asked(p.sco), active := device)
    case _ => p
  }

  /** Alignment along every run: after any history, an update event leaves the link manager where the policy's new
      fields say; only when the stack refuses to make a device active, nothing but that question has happened. */
  lemma EveryUpdateAligns(device: Device, up: bool, answers: nat -> Reply, events: seq<PolicyEvent>, e: PolicyEvent)
    requires Updates(e)
    ensures var p := PolicyRun(PolicyStart(device, up, answers), events);
            var r := PolicyStep(p, e);
            if Adopts(e) && Answer(p.sco).code != Success
            then r.code != Success && r.policy == p.(sco := Asked(p.sco))
            else Aligned(Updated(p, e), r)
  {
    var p := PolicyRun(PolicyStart(device, up, answers), events);
    PolicyRunInv(PolicyStart(device, up, answers), events);
    AskedInv(p.sco);
    hide PolicyRun, Inv, Consistent, TryUpdate, Aligned;
    UpdateAligns(Updated(p, e));
  }

  /** A successful switch to another device leaves no connect pending for the old one, and no link standing. */
  lemma SwitchLeavesNothingPending(p: Policy, address: string, found: Option<Device>)
    requires Inv(p.sco) && Consistent(p.sco)
    ensures var r := SetActive(p, address, found);
            && (r.code == Success && address != p.active.addr ==>
                  && NoPendingConnect(r.policy.sco)
                  && DisconnectDone(r.policy.sco)
                  && r.policy.active == if address == "" then NO_DEVICE else found.value)
            && (r.code != Success ==> r.policy.active == p.active)
  {
    DisconnectContract(p.sco, p.active);
  }

  /** Selecting a device.  An address that is not connected is refused at once.  Selecting the active address again leaves
      the link alone, up to the question asked; any other address takes the link of the old device down first, as a
      disconnect request does.  In both cases the device changes exactly if the stack agrees to make it active. */
  lemma SwitchMeans(p: Policy, address: string, found: Option<Device>)
    requires Inv(p.sco) && Consistent(p.sco)
    ensures var r := SetActive(p, address, found);
            if address != "" && found == None then r == Result(Error(-1), p)
            else
              var down := if address == p.active.addr then p.sco else HandleDisconnect(p.sco, p.active).sco;
              var agreed := Told(down, 0).code == Success;
              && r.policy.sco == down.(asked := down.asked + 1)
              && (r.code == Success <==> agreed)
              && r.policy.active == (if !agreed then p.active else if address == "" then NO_DEVICE else found.value)
              && r.policy == p.(sco := r.policy.sco, active := r.policy.active)
  {
    DisconnectContract(p.sco, p.active);
    hide HandleDisconnect, Inv, Consistent, DisconnectDone;
  }

  /** Clearing a device that is not the active one does nothing; clearing the active one forgets it, and resets the link if
      it is that device's. */
  lemma ClearMeans(p: Policy, device: Device)
    ensures var q := ClearActive(p, device);
            && (device.addr != p.active.addr ==> q == p)
            && (device.addr == p.active.addr ==>
                  && q == p.(active := NO_DEVICE, sco := q.sco)
                  && (if SameDevice(p.sco.device, device)
                      then q.sco.state == Disconnected && q.sco.cache == None && q.sco.device == NO_DEVICE
                      else q.sco == p.sco))
  {
  }

  /** Requests and reports from outside reach the link manager and nothing else: a disconnect, if it is for no device in
      particular or for the active one, and a report that a link is up or down, unless the remote side set it up. */
  lemma OutsideMeans(p: Policy, e: PolicyEvent)
    requires Inv(p.sco) && Consistent(p.sco)
    requires e.DisconnectFromOutside? || e.DisconnectScoForDevice? || e.TimerExpired? || (e.StackReport? && !Adopts(e))
    ensures var r := PolicyStep(p, e);
            var drops := e.DisconnectFromOutside? || (e.DisconnectScoForDevice? && e.device.addr == p.active.addr);
            && r.code == Success && r.policy == p.(sco := r.policy.sco)
            && (if drops then r.policy.sco == HandleDisconnect(p.sco, p.active).sco && DisconnectDone(r.policy.sco)
                else if e.StackReport? && (e.report == ScoConnected || e.report == ScoDisconnected)
                then r.policy.sco == UpdateScoState(p.sco, e.report, e.device)
                else r.policy.sco == p.sco)
  {
    DisconnectContract(p.sco, p.active);
    hide HandleDisconnect, UpdateScoState, Inv, Consistent, DisconnectDone;
  }

  /** Clearing the active device does not always clear its pending connect: the link manager only resets for its own
      current device, so a connect pending for the cleared device survives exactly when the link in hand belongs to
      another device. */
  lemma ClearKeepsPendingConnect(p: Policy, device: Device)
    requires Inv(p.sco) && p.sco.cache.Some? && p.sco.cache.value.connect
    ensures !NoPendingConnect(ClearActive(p, device).sco) <==>
            !(device.addr == p.active.addr && SameDevice(p.sco.device, p.active))
  {
  }

  /** A run in which that happens: device A's link is being set up for a call when device B becomes active, so B's connect
      waits in the cache; then B is cleared, and its connect stays, to be issued when A's link goes down. */
  lemma PendingConnectForClearedDevice()
    ensures exists events: seq<PolicyEvent>, answers: nat -> Reply, b: Device ::
              var p := PolicyRun(PolicyStart(NO_DEVICE, false, answers), events);
              var q := ClearActive(p, b);
              && p.active == b && q.active == NO_DEVICE
              && q.sco.cache.Some? && q.sco.cache.value.connect && q.sco.cache.value.device == b
  {
    var a, b := Device("A", true), Device("B", true);
    var answers: nat -> Reply := (n: nat) => Reply(Success, SCO_CELLULAR, true);
    var e0 := UpdateActiveDevice(a);
    var e1 := UpdateScene(PhoneCall);
    var e2 := UpdateActiveDevice(b);
    var p0 := PolicyStart(NO_DEVICE, false, answers);
    var p1 := PolicyStep(p0, e0).policy;
    assert p1.sco.state == Disconnected && p1.active == a;
    var p2 := PolicyStep(p1, e1).policy;
    assert p2.sco.state == Connecting && p2.sco.device == a;
    var p3 := PolicyStep(p2, e2).policy;
    assert p3.sco.cache == Some(Request(true, SCO_CELLULAR, b)) && p3.active == b && p3.sco.device == a;
    var events := [e0, e1, e2];
    assert PolicyRun(p0, events) == p3 by {
      assert events[1..] == [e1, e2] && [e1, e2][1..] == [e2] && [e2][1..] == [];
      assert PolicyRun(p0, events) == PolicyRun(p1, [e1, e2]) == PolicyRun(p2, [e2]) == PolicyRun(p3, []);
    }
    var q := ClearActive(p3, b);
    assert q.sco.cache == p3.sco.cache;
  }
}

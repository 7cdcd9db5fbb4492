/** The SCO link manager and its policy driver as the classes that update their fields in place. */
module ScoManager {
  import opened Options
  import opened ScoModel
  import opened HfpPolicy

  /** The hands-free stack: it may answer each call with anything; the answers are fixed but unknown. */
  class HandsFreeStack {
    const answers: nat -> Reply
    var asked: nat

    constructor (answers: nat -> Reply)
      ensures this.answers == answers && asked == 0
    {
      this.answers := answers;
      asked := 0;
    }

    method Call() returns (reply: Reply)
      modifies this
      ensures reply == answers(old(asked)) && asked == old(asked) + 1
    {
      reply := answers(asked);
      asked := asked + 1;
    }
  }

  class BluetoothScoManager {
    const hfp: HandsFreeStack
    var currentScoDevice: Device
    var currentScoState: AudioScoState
    var currentScoCategory: int
    var cacheReq: Option<Request>
    var hasTimer: bool
    ghost var history: seq<Entry>

    ghost function View(): Sco
      reads this, hfp
    {
      Sco(currentScoState, currentScoCategory, currentScoDevice, cacheReq, hasTimer, hfp.answers, hfp.asked, history)
    }

    constructor (hfp: HandsFreeStack, activeDevice: Device, linkUp: bool)
      requires hfp.asked == 0
      modifies hfp
      ensures this.hfp == hfp && View() == Start(activeDevice, linkUp, hfp.answers)
    {
      this.hfp := hfp;
      currentScoDevice := activeDevice;
      currentScoState := if linkUp then Connected else Disconnected;
      currentScoCategory := SCO_DEFAULT;
      cacheReq := None;
      hasTimer := false;
      history := [];
      new;
      if currentScoState != Disconnected {
        var reply := hfp.Call();
        if reply.code == Success {
          currentScoCategory := reply.category;
        }
      }
    }

    method SetAudioScoState(state: AudioScoState)
      modifies this`currentScoState, this`hasTimer
      ensures View() == SetState(old(View()), state)
    {
      if currentScoState == state {
        return;
      }
      currentScoState := state;
      if currentScoState == Connecting || currentScoState == Disconnecting {
        hasTimer := true;
      } else {
        hasTimer := false;
      }
    }

    method ConnectLink(category: int, device: Device, ghost retry: bool) returns (code: Code)
      modifies this`history, hfp
      ensures Outcome(code, View()) == ConnectSco(old(View()), category, device, retry)
    {
      var reply := hfp.Call();
      code := reply.code;
      history := history + [ConnectCommand(CallFor(category, device), currentScoState, code, retry)];
    }

    method RestoreDevice(category: int, device: Device) returns (code: Code)
      modifies this`history, hfp
      ensures Outcome(code, View()) == TryRestoreHfpDevice(old(View()), category, device)
    {
      var reply := hfp.Call();
      if reply.code != Success {
        return reply.code;
      }
      code := ConnectLink(category, device, true);
    }

    method DisconnectLink(category: int, device: Device) returns (code: Code)
      modifies this`history, hfp
      ensures Outcome(code, View()) == DisconnectSco(old(View()), category, device)
    {
      var reply := hfp.Call();
      code := reply.code;
      history := history + [DisconnectCommand(CallFor(category, device), currentScoState)];
    }

    method DisconnectReliable(category: int, device: Device) returns (code: Code)
      modifies this`history, hfp
      ensures Outcome(code, View()) == DisconnectScoReliable(old(View()), category, device)
    {
      code := DisconnectLink(category, device);
      if code == VirtualCallNotStarted {
        var reply := hfp.Call();
        if reply.code != Success {
          return reply.code;
        }
        code := DisconnectLink(reply.category, device);
      }
    }

    method SaveRequest(connect: bool, category: int, device: Device)
      modifies this`cacheReq
      ensures View() == SaveRequestToCache(old(View()), connect, category, device)
    {
      if cacheReq.Some? && cacheReq.value.connect == connect && cacheReq.value.category == category
         && SameDevice(cacheReq.value.device, device) {
        return;
      }
      cacheReq := Some(Request(connect, category, device));
    }

    method ProcConnectReqWhenDisconnected(category: int, device: Device) returns (code: Code)
      modifies this, hfp
      ensures Outcome(code, View()) == ConnectWhenDisconnected(old(View()), category, device)
    {
      var ret := ConnectLink(category, device, false);
      if ret == HasBeenConnected {
        SetAudioScoState(Connected);
      } else if ret != Success {
        var restoreRet := RestoreDevice(category, device);
        if restoreRet != Success {
          return restoreRet;
        }
        SetAudioScoState(Connecting);
      } else {
        SetAudioScoState(Connecting);
      }
      currentScoCategory := category;
      currentScoDevice := device;
      return Success;
    }

    method ProcConnectReqWhenConnected(category: int, device: Device) returns (code: Code)
      modifies this, hfp
      ensures Outcome(code, View()) == ConnectWhenConnected(old(View()), category, device)
    {
      if !NeedSwitch(currentScoCategory, category) && SameDevice(currentScoDevice, device) {
        return Success;
      }
      var ret := DisconnectReliable(currentScoCategory, currentScoDevice);
      if ret != Success {
        SetAudioScoState(Disconnected);
        code := ProcConnectReqWhenDisconnected(category, device);
        return;
      }
      SetAudioScoState(Disconnecting);
      SaveRequest(true, category, device);
      return Success;
    }

    method HandleScoConnect(category: int, device: Device) returns (code: Code)
      modifies this, hfp
      ensures Outcome(code, View()) == HandleConnect(old(View()), category, device)
    {
      code := Success;
      match currentScoState {
        case Disconnected => code := ProcConnectReqWhenDisconnected(category, device);
        case Connected => code := ProcConnectReqWhenConnected(category, device);
        case Connecting =>
          if NeedSwitch(currentScoCategory, category) || !SameDevice(currentScoDevice, device) {
            SaveRequest(true, category, device);
          }
        case Disconnecting => SaveRequest(true, category, device);
        case Initial => code := Error(-1);
      }
    }

    method HandleScoDisconnect(device: Device) returns (code: Code)
      modifies this, hfp
      ensures Outcome(code, View()) == HandleDisconnect(old(View()), device)
    {
      code := Success;
      match currentScoState {
        case Disconnected => cacheReq := None;
        case Disconnecting => cacheReq := None;
        case Connected =>
          cacheReq := None;
          var ret := DisconnectReliable(currentScoCategory, currentScoDevice);
          if ret != Success {
            SetAudioScoState(Disconnected);
          } else {
            SetAudioScoState(Disconnecting);
          }
        case Connecting =>
          cacheReq := None;
          SaveRequest(false, currentScoCategory, device);
        case Initial => code := Error(-1);
      }
    }

    method ProcCache()
      modifies this, hfp
      ensures View() == ProcCacheRequest(old(View()))
    {
      var req := cacheReq;
      cacheReq := None;
      if req.None? {
        return;
      }
      if req.value.connect {
        var _ := HandleScoConnect(req.value.category, req.value.device);
      } else {
        var _ := HandleScoDisconnect(req.value.device);
      }
    }

    method ForceUpdate()
      modifies this, hfp
      ensures View() == ForceUpdateCategory(old(View()))
    {
      var reply := hfp.Call();
      if reply.code != Success {
        return;
      }
      currentScoCategory := reply.category;
      SetAudioScoState(Connected);
    }

    method UpdateState(report: ScoReport, device: Device)
      modifies this, hfp
      ensures View() == UpdateScoState(old(View()), report, device)
    {
      if !SameDevice(currentScoDevice, device) {
        return;
      }
      history := if report == ScoDisconnected then history + [LinkDown] else history;
      match currentScoState {
        case Disconnected =>
          if report == ScoConnected {
            ForceUpdate();
          }
        case Connected =>
          if report == ScoDisconnected {
            SetAudioScoState(Disconnected);
          } else if report == ScoConnected {
            var reply := hfp.Call();
            if reply.code == Success && currentScoCategory != reply.category {
              currentScoCategory := reply.category;
            }
          }
        case Connecting =>
          if report == ScoDisconnected {
            SetAudioScoState(Disconnected);
          } else if report == ScoConnected {
            SetAudioScoState(Connected);
          }
          ProcCache();
        case Disconnecting =>
          if report == ScoDisconnected {
            SetAudioScoState(Disconnected);
          } else if report == ScoConnected {
            ForceUpdate();
          }
          ProcCache();
        case Initial =>
      }
    }

    method ResetState(device: Device)
      modifies this, hfp
      ensures View() == ResetScoState(old(View()), device)
    {
      if !SameDevice(currentScoDevice, device) {
        return;
      }
      cacheReq := None;
      SetAudioScoState(Disconnected);
      currentScoDevice := NO_DEVICE;
      history := history + [ResetDone];
    }
  }

  /** The policy driver: the static fields of AudioHfpManager. */
  class AudioHfpManager {
    const sco: BluetoothScoManager
    var scene: AudioScene
    var activeHfpDevice: Device
    var isRecognitionScene: bool
    var isRecordScene: bool
    var virtualCalls: map<int, bool>

    ghost function View(): Policy
      reads this, sco, sco.hfp
    {
      Policy(scene, isRecognitionScene, isRecordScene, activeHfpDevice, virtualCalls, sco.View())
    }

    constructor (sco: BluetoothScoManager)
      ensures this.sco == sco
      ensures View() == Policy(Default, false, false, NO_DEVICE, map[], sco.View())
    {
      this.sco := sco;
      scene := Default;
      activeHfpDevice := NO_DEVICE;
      isRecognitionScene := false;
      isRecordScene := false;
      virtualCalls := map[];
    }

    /** The loop over the map stops at the first service that declined. */
    method AllVirtual() returns (isVirtual: bool)
      ensures isVirtual == IsVirtualCall(virtualCalls)
    {
      var rest: set<int> := virtualCalls.Keys;
      while |rest| > 0
        invariant rest <= virtualCalls.Keys
        invariant forall uid :: uid in virtualCalls && uid !in rest ==> virtualCalls[uid]
        decreases |rest|
      {
        assert exists uid :: uid in rest by {
          if forall uid :: uid !in rest {
            assert false;
          }
        }
        var uid :| uid in rest;
        if !virtualCalls[uid] {
          return false;
        }
        rest := rest - {uid};
      }
      return true;
    }

    method JudgeScoCategory() returns (category: int)
      modifies sco.hfp
      ensures category == Judge(View(), old(Answer(sco.View()).flag))
      ensures View() == old(View()).(sco := Asked(old(sco.View())))
    {
      var inband := sco.hfp.Call();
      if (scene == Ringing || scene == VoiceRinging) && !inband.flag {
        return if isRecognitionScene then SCO_RECOGNITION else SCO_DEFAULT;
      }
      if scene == VoiceRinging || scene == PhoneCall {
        return SCO_CELLULAR;
      } else if scene == Ringing || scene == PhoneChat {
        var isVirtual := AllVirtual();
        return if !isVirtual then SCO_CELLULAR else SCO_VIRTUAL;
      }
      return if isRecognitionScene then SCO_RECOGNITION else SCO_DEFAULT;
    }

    method DisconnectScoWrapper() returns (code: Code)
      modifies sco, sco.hfp
      ensures Result(code, View()) == DisconnectWrapper(old(View()))
    {
      code := sco.HandleScoDisconnect(activeHfpDevice);
    }

    method TryUpdateScoCategory() returns (code: Code)
      modifies sco, sco.hfp
      ensures Result(code, View()) == TryUpdate(old(View()))
    {
      if !activeHfpDevice.valid || activeHfpDevice.addr == NO_DEVICE.addr {
        code := DisconnectScoWrapper();
        return;
      }
      var category := JudgeScoCategory();
      if category == SCO_DEFAULT && !isRecordScene {
        code := DisconnectScoWrapper();
        return;
      }
      code := sco.HandleScoConnect(category, activeHfpDevice);
    }

    method SetActiveHfpDevice(address: string, found: Option<Device>) returns (code: Code)
      modifies this, sco, sco.hfp
      ensures Result(code, View()) == SetActive(old(View()), address, found)
    {
      var device := NO_DEVICE;
      if address != "" {
        if found.None? {
          return Error(-1);
        }
        device := found.value;
      }
      if address != activeHfpDevice.addr {
        var ret := DisconnectScoWrapper();
        if ret != Success {
          return Error(-1);
        }
      }
      var reply := sco.hfp.Call();
      if reply.code != Success {
        return Error(-1);
      }
      activeHfpDevice := device;
      return Success;
    }

    method UpdateActiveHfpDevice(device: Device) returns (code: Code)
      modifies this, sco, sco.hfp
      ensures Result(code, View()) == UpdateActive(old(View()), device)
    {
      hide TryUpdate;
      var reply := sco.hfp.Call();
      if reply.code != Success {
        return Error(-1);
      }
      activeHfpDevice := device;
      assert View() == old(View()).(sco := Asked(old(sco.View())), active := device);
      code := TryUpdateScoCategory();
    }

    method ClearCurrentActiveHfpDevice(device: Device)
      modifies this, sco, sco.hfp
      ensures View() == ClearActive(old(View()), device)
    {
      if device.addr != activeHfpDevice.addr {
        return;
      }
      sco.ResetState(activeHfpDevice);
      activeHfpDevice := NO_DEVICE;
    }

    method UpdateAudioScene(scene: AudioScene, record: Option<bool>) returns (code: Code)
      modifies this, sco, sco.hfp
      ensures Result(code, View()) ==
              old(PolicyStep(View(), if record.Some? then UpdateSceneAndRecord(scene, record.value) else UpdateScene(scene)))
    {
      hide TryUpdate;
      this.scene := scene;
      if record.Some? {
        isRecordScene := record.value;
      }
      code := TryUpdateScoCategory();
    }

    method HandleScoWithRecognition(on: bool) returns (code: Code)
      modifies this, sco, sco.hfp
      ensures Result(code, View()) == old(PolicyStep(View(), SetRecognition(on)))
    {
      hide TryUpdate;
      isRecognitionScene := on;
      code := TryUpdateScoCategory();
    }

    method SetVirtualCallOf(uid: int, isVirtual: bool) returns (code: Code)
      modifies this, sco, sco.hfp
      ensures Result(code, View()) == old(PolicyStep(View(), SetVirtualCall(uid, isVirtual)))
    {
      hide TryUpdate;
      if isVirtual {
        assert uid !in virtualCalls ==> virtualCalls - {uid} == virtualCalls;
        if uid in virtualCalls {
          virtualCalls := virtualCalls - {uid};
        }
      } else {
        virtualCalls := virtualCalls[uid := isVirtual];
      }
      code := TryUpdateScoCategory();
    }

    /** The listener on the stack's state reports. */
    method OnScoStateChanged(device: Device, report: ScoReport, setUpByRemote: bool)
      modifies this, sco, sco.hfp
      ensures View() == old(PolicyStep(View(), StackReport(report, device, setUpByRemote)).policy)
    {
      if report == ScoConnected || report == ScoDisconnected {
        if report == ScoConnected && setUpByRemote {
          var _ := UpdateActiveHfpDevice(device);
        } else {
          sco.UpdateState(report, device);
        }
      }
    }
  }
}

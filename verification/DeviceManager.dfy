/** The Bluetooth device managers: one object stands for the static lists and maps of a profile. */
module DeviceManager {
  import opened DeviceModel
  import opened DeviceTheorems

  class BluetoothDeviceManager {
    const profile: Profile
    var bluetoothDeviceMap: map<string, Device>
    var wearDetectionStateMap: map<string, Wear>
    var privacyDevices: seq<Device>
    var commonDevices: seq<Device>
    var negativeDevices: seq<Device>
    var connectingDevices: seq<Device>
    var virtualDevices: seq<Device>
    var notices: seq<Notice>           // what an observer is told, in order

    ghost function View(): Lists
      reads this
    {
      Lists(bluetoothDeviceMap, wearDetectionStateMap,
            privacyDevices, commonDevices, negativeDevices, connectingDevices, virtualDevices)
    }

    constructor (profile: Profile)
      ensures View() == EMPTY && notices == [] && this.profile == profile
    {
      this.profile := profile;
      bluetoothDeviceMap, wearDetectionStateMap := map[], map[];
      privacyDevices, commonDevices, negativeDevices, connectingDevices, virtualDevices := [], [], [], [], [];
      notices := [];
    }

    /** find_if by address: the first entry, or the length. */
    static method FindDevice(v: seq<Device>, addr: string) returns (i: nat)
      ensures i <= |v| && (i < |v| ==> v[i].addr == addr)
      ensures forall k :: 0 <= k < i ==> v[k].addr != addr
    {
      i := 0;
      while i < |v| && v[i].addr != addr
        invariant i <= |v|
        invariant forall k :: 0 <= k < i ==> v[k].addr != addr
      {
        i := i + 1;
      }
    }

    static lemma RemovedAt(v: seq<Device>, addr: string, i: nat)
      requires i <= |v| && (i < |v| ==> v[i].addr == addr)
      requires forall k :: 0 <= k < i ==> v[k].addr != addr
      ensures Removed(v, addr) == if i < |v| then v[..i] + v[i + 1..] else v
    {
      if i != 0 {
        RemovedAt(v[1..], addr, i - 1);
      }
    }

    static method AddDeviceInConfigVector(device: Device, deviceVector: seq<Device>) returns (r: seq<Device>)
      ensures r == Added(deviceVector, device)
    {
      var i := FindDevice(deviceVector, device.addr);
      r := deviceVector;
      if i == |deviceVector| {
        r := r + [device];
      }
    }

    static method RemoveDeviceInConfigVector(device: Device, deviceVector: seq<Device>) returns (r: seq<Device>)
      ensures r == Removed(deviceVector, device.addr)
    {
      var i := FindDevice(deviceVector, device.addr);
      RemovedAt(deviceVector, device.addr, i);
      r := deviceVector;
      if i < |r| {
        r := r[..i] + r[i + 1..];
      }
    }

    method HandleConnectingDevice(device: Device)
      modifies this
      ensures View() == ConnectingDevice(old(View()), device) && notices == old(notices)
    {
      if device.addr in bluetoothDeviceMap {
        return;
      }
      connectingDevices := AddDeviceInConfigVector(device, connectingDevices);
    }

    method HandleConnectDeviceInner(device: Device, facts: Facts) returns (desc: Descriptor)
      modifies this
      ensures (View(), desc) == ConnectInner(profile, old(View()), device, facts) && notices == old(notices)
    {
      connectingDevices := RemoveDeviceInConfigVector(device, connectingDevices);
      negativeDevices := RemoveDeviceInConfigVector(device, negativeDevices);
      if profile == Hfp && !facts.profilePresent {
        return Descriptor("", Default);
      }
      desc := Descriptor(device.addr, facts.category);
      match facts.category {
        case Glasses | Headphone =>
          if facts.wearDetection {
            negativeDevices := AddDeviceInConfigVector(device, negativeDevices);
            desc := desc.(category := UnwearHeadphone);
          } else {
            privacyDevices := AddDeviceInConfigVector(device, privacyDevices);
          }
        case Soundbox | Car =>
          commonDevices := AddDeviceInConfigVector(device, commonDevices);
        case Watch =>
          negativeDevices := AddDeviceInConfigVector(device, negativeDevices);
        case _ =>
          privacyDevices := AddDeviceInConfigVector(device, privacyDevices);
          desc := desc.(category := Headphone);
      }
    }

    /** NotifyToUpdateAudioDevice: the map first, then the observer. */
    method NotifyToUpdateAudioDevice(device: Device, category: Category, add: bool)
      modifies this`bluetoothDeviceMap, this`notices
      ensures bluetoothDeviceMap == if add then old(bluetoothDeviceMap)[device.addr := device]
                                    else old(bluetoothDeviceMap) - {device.addr}
      ensures notices == old(notices) + [Status(device.addr, category, add)]
    {
      if add {
        bluetoothDeviceMap := bluetoothDeviceMap[device.addr := device];
      } else if device.addr in bluetoothDeviceMap {
        bluetoothDeviceMap := bluetoothDeviceMap - {device.addr};
      }
      notices := notices + [Status(device.addr, category, add)];
    }

    method HandleConnectDevice(device: Device, facts: Facts)
      modifies this
      ensures var (l, told) := ConnectDevice(profile, old(View()), device, facts);
              View() == l && notices == old(notices) + told
    {
      if device.addr in bluetoothDeviceMap {
        return;
      }
      var desc := HandleConnectDeviceInner(device, facts);
      NotifyToUpdateAudioDevice(device, desc.category, true);
    }

    method HandleDisconnectDevice(device: Device)
      modifies this
      ensures var (l, told) := DisconnectDevice(old(View()), device);
              View() == l && notices == old(notices) + told
    {
      connectingDevices := RemoveDeviceInConfigVector(device, connectingDevices);
      if device.addr !in bluetoothDeviceMap {
        return;
      }
      privacyDevices := RemoveDeviceInConfigVector(device, privacyDevices);
      commonDevices := RemoveDeviceInConfigVector(device, commonDevices);
      negativeDevices := RemoveDeviceInConfigVector(device, negativeDevices);
      wearDetectionStateMap := wearDetectionStateMap - {device.addr};
      NotifyToUpdateAudioDevice(device, Default, false);
    }

    /** OnDeviceCategoryUpdated on the hands-free side, which also drops the link of an unworn device. */
    method OnDeviceCategoryUpdated(device: Device, desc: Descriptor)
      modifies this`notices
      ensures notices == old(notices) + Update(profile, device, desc)
    {
      notices := notices + [CategoryUpdated(desc.addr, desc.category)];
      if profile == Hfp && desc.category == UnwearHeadphone {
        notices := notices + [DropLink(device.addr)];
      }
    }

    method RefilePrivacy(device: Device)
      modifies this`negativeDevices, this`privacyDevices
      ensures View() == ToPrivacy(old(View()), device)
    {
      negativeDevices := RemoveDeviceInConfigVector(device, negativeDevices);
      privacyDevices := RemoveDeviceInConfigVector(device, privacyDevices);
      privacyDevices := AddDeviceInConfigVector(device, privacyDevices);
    }

    method RefileNegative(device: Device)
      modifies this`negativeDevices, this`privacyDevices
      ensures View() == ToNegative(old(View()), device)
    {
      privacyDevices := RemoveDeviceInConfigVector(device, privacyDevices);
      negativeDevices := RemoveDeviceInConfigVector(device, negativeDevices);
      negativeDevices := AddDeviceInConfigVector(device, negativeDevices);
    }

    method HandleWearDevice(device: Device)
      modifies this
      ensures var (l, told) := WearDevice(profile, old(View()), device);
              View() == l && notices == old(notices) + told
    {
      if device.addr !in bluetoothDeviceMap {
        return;
      }
      RefilePrivacy(device);
      wearDetectionStateMap := wearDetectionStateMap[device.addr := Worn];
      OnDeviceCategoryUpdated(device, Descriptor(device.addr, Headphone));
    }

    method HandleUnwearDevice(device: Device)
      modifies this
      ensures var (l, told) := UnwearDevice(profile, old(View()), device);
              View() == l && notices == old(notices) + told
    {
      if device.addr !in bluetoothDeviceMap {
        return;
      }
      RefileNegative(device);
      wearDetectionStateMap := wearDetectionStateMap[device.addr := Unworn];
      OnDeviceCategoryUpdated(device, Descriptor(device.addr, UnwearHeadphone));
    }

    /** HandleEnableDevice and HandleDisableDevice. */
    method HandleEnableDevice(device: Device, enabled: bool)
      modifies this`notices
      ensures notices == old(notices) + EnableDevice(profile, View(), device, enabled)
    {
      if device.addr !in bluetoothDeviceMap {
        return;
      }
      notices := notices + [EnableUpdated(device.addr, enabled)];
      if profile == Hfp && !enabled {
        notices := notices + [DropLink(device.addr)];
      }
    }

    method HandleWearEnable(device: Device)
      modifies this
      ensures var (l, told) := WearEnableDevice(profile, old(View()), device);
              View() == l && notices == old(notices) + told
    {
      if device.addr !in bluetoothDeviceMap {
        return;
      }
      negativeDevices := RemoveDeviceInConfigVector(device, negativeDevices);
      privacyDevices := RemoveDeviceInConfigVector(device, privacyDevices);
      var desc := Descriptor(device.addr, UnwearHeadphone);
      if device.addr in wearDetectionStateMap && wearDetectionStateMap[device.addr] == Worn {
        privacyDevices := AddDeviceInConfigVector(device, privacyDevices);
        desc := desc.(category := Headphone);
      } else {
        negativeDevices := AddDeviceInConfigVector(device, negativeDevices);
      }
      OnDeviceCategoryUpdated(device, desc);
    }

    method HandleWearDisable(device: Device)
      modifies this
      ensures var (l, told) := WearDisableDevice(profile, old(View()), device);
              View() == l && notices == old(notices) + told
    {
      if device.addr !in bluetoothDeviceMap {
        return;
      }
      RefilePrivacy(device);
      OnDeviceCategoryUpdated(device, Descriptor(device.addr, Headphone));
    }

    /** HandleUserSelection: the scan looks devices up with `operator[]`, which enters missing ones as worn. */
    method HandleUserSelection(device: Device, facts: Facts)
      modifies this`wearDetectionStateMap, this`notices
      ensures var (l, told) := SelectDevice(profile, old(View()), device, facts);
              View() == l && notices == old(notices) + told
    {
      var deviceAddr := device.addr;
      if profile == Hfp && facts.category == Watch {
        var k: nat := |privacyDevices|;
        var found := false;
        while k > 0 && !found
          invariant k <= |privacyDevices| && notices == old(notices)
          invariant !found ==> Scan(privacyDevices, |privacyDevices|, old(wearDetectionStateMap))
                               == Scan(privacyDevices, k, wearDetectionStateMap)
          invariant found ==> k > 0 && Scan(privacyDevices, |privacyDevices|, old(wearDetectionStateMap))
                                       == (k, wearDetectionStateMap)
          decreases k, if found then 0 else 1
        {
          var addr := privacyDevices[k - 1].addr;
          if addr !in wearDetectionStateMap {
            wearDetectionStateMap := wearDetectionStateMap[addr := Worn];
          }
          if wearDetectionStateMap[addr] == Worn {
            found := true;
          } else {
            k := k - 1;
          }
        }
        if found {
          deviceAddr := privacyDevices[k - 1].addr;
        }
      }
      notices := notices + [Selected(deviceAddr)];
    }

    method HandleVirtualConnectDevice(device: Device, facts: Facts)
      modifies this
      ensures var (l, told) := VirtualConnect(old(View()), device, facts);
              View() == l && notices == old(notices) + told
    {
      virtualDevices := AddDeviceInConfigVector(device, virtualDevices);
      negativeDevices := AddDeviceInConfigVector(device, negativeDevices);
      notices := notices + [VirtualStatus(device.addr, facts.category, true)];
    }

    method HandleRemoveVirtualConnectDevice(device: Device)
      modifies this
      ensures var (l, told) := VirtualDisconnect(old(View()), device);
              View() == l && notices == old(notices) + told
    {
      virtualDevices := RemoveDeviceInConfigVector(device, virtualDevices);
      negativeDevices := RemoveDeviceInConfigVector(device, negativeDevices);
      notices := notices + [VirtualStatus(device.addr, Default, false)];
    }

    method HandleUpdateDeviceCategory(device: Device, facts: Facts)
      modifies this
      ensures var (l, told) := UpdateCategory(profile, old(View()), device, facts);
              View() == l && notices == old(notices) + told
    {
      if device.addr !in bluetoothDeviceMap {
        return;
      }
      var desc := HandleConnectDeviceInner(device, facts);
      if facts.wearing && desc.category == UnwearHeadphone {
        desc := desc.(category := Headphone);
      }
      OnDeviceCategoryUpdated(device, desc);
    }

    method HandleStopVirtualCall(device: Device)
      modifies this`notices
      ensures notices == old(notices) + [DropLink(device.addr)]
    {
      notices := notices + [DropLink(device.addr)];
    }

    method ClearAllBluetoothDevice()
      modifies this
      ensures View() == EMPTY && notices == old(notices)
    {
      privacyDevices, commonDevices, negativeDevices, connectingDevices, virtualDevices := [], [], [], [], [];
      bluetoothDeviceMap, wearDetectionStateMap := map[], map[];
    }

    /** What is left to disconnect, and the devices disconnected so far, make up the devices of the map. */
    static ghost predicate Split(all: map<string, Device>, rest: set<string>, order: seq<Device>) {
      && Distinct(order) && rest <= all.Keys
      && (forall a :: a in all ==> all[a].addr == a)
      && (forall i :: 0 <= i < |order| ==>
            order[i].addr in all && all[order[i].addr] == order[i] && order[i].addr !in rest)
      && (forall a :: a in all ==> a in rest || Has(order, a))
    }

    static lemma SplitNext(all: map<string, Device>, rest: set<string>, order: seq<Device>, addr: string)
      requires Split(all, rest, order) && addr in rest
      ensures addr in all && all[addr].addr == addr && Split(all, rest - {addr}, order + [all[addr]])
    {
      var d := all[addr];
      assert !Has(order, addr);
      assert Added(order, d) == order + [d];
      AddedHas(order, d);
    }

    static lemma SplitStart(l: Lists)
      requires Inv(l)
      ensures Split(l.connected, l.connected.Keys, [])
    {
    }

    static lemma SplitDone(all: map<string, Device>, order: seq<Device>)
      requires Split(all, {}, order)
      ensures Enumerates(order, all)
    {
    }

    static lemma StartEach(p: Profile, l: Lists, a: Action)
      ensures ForEach(p, l, [], a) == (l, [])
    {
    }

    static lemma DisconnectLast(p: Profile, l: Lists, order: seq<Device>, d: Device, l1: Lists, told: seq<Notice>)
      requires ForEach(p, l, order, Disconnect) == (l1, told)
      ensures var (l2, more) := DisconnectDevice(l1, d);
              ForEach(p, l, order + [d], Disconnect) == (l2, told + more)
    {
      ForEachLast(p, l, order, d, Disconnect);
    }

    /** Disconnect every device of the map, in the order of a copy of it. */
    method DisconnectConnected() returns (ghost order: seq<Device>)
      requires Inv(View())
      modifies this
      ensures Enumerates(order, old(bluetoothDeviceMap))
      ensures var (l, told) := ForEach(profile, old(View()), order, Disconnect);
              View() == l && notices == old(notices) + told
    {
      hide Inv, Has, Distinct, ForEach, BluetoothDeviceManager.Split, DisconnectDevice, Enumerates;
      ghost var l, told: seq<Notice> := View(), [];
      var deviceList := bluetoothDeviceMap;
      var rest := deviceList.Keys;
      order := [];
      SplitStart(l);
      StartEach(profile, l, Disconnect);
      while rest != {}
        invariant Split(deviceList, rest, order)
        invariant ForEach(profile, l, order, Disconnect) == (View(), told) && notices == old(notices) + told
        decreases |rest|
      {
        var addr :| addr in rest;
        SplitNext(deviceList, rest, order, addr);
        var device := deviceList[addr];
        DisconnectLast(profile, l, order, device, View(), told);
        ghost var more := DisconnectDevice(View(), device).1;
        HandleDisconnectDevice(device);
        order, told := order + [device], told + more;
        rest := rest - {addr};
      }
      SplitDone(deviceList, order);
    }

    /** Remove every virtual device, in the order of a copy of their list. */
    method RemoveVirtual()
      modifies this
      ensures var (l, told) := ForEach(profile, old(View()), old(virtualDevices), VirtualRemove);
              View() == l && notices == old(notices) + told
    {
      ghost var l, told: seq<Notice> := View(), [];
      var deviceList := virtualDevices;
      hide ForEach;
      StartEach(profile, l, VirtualRemove);
      for i := 0 to |deviceList|
        invariant ForEach(profile, l, deviceList[..i], VirtualRemove) == (View(), told)
        invariant notices == old(notices) + told
      {
        var device := deviceList[i];
        ForEachLast(profile, l, deviceList[..i], device, VirtualRemove);
        assert deviceList[..i + 1] == deviceList[..i] + [device];
        ghost var more := VirtualDisconnect(View(), device).1;
        HandleRemoveVirtualConnectDevice(device);
        told := told + more;
      }
      assert deviceList[..|deviceList|] == deviceList;
    }

    /** A crash of the Bluetooth service, as DisconnectBluetoothA2dpSink and DisconnectBluetoothHfpSink handle it: every
        connected device is disconnected, every virtual one removed, and what is left is cleared. */
    method DisconnectBluetoothSink() returns (ghost order: seq<Device>)
      requires Inv(View())
      modifies this
      ensures Enumerates(order, old(bluetoothDeviceMap))
      ensures var (l, told) := Occur(profile, old(View()), Crash(order));
              View() == l && notices == old(notices) + told
    {
      hide Inv, Enumerates, ForEach;
      order := DisconnectConnected();
      RemoveVirtual();
      ClearAllBluetoothDevice();
    }

    /** SetMediaStack and SetHfpStack: the invariant holds before and after every action. */
    method SetStack(device: Device, action: Action, facts: Facts)
      requires Inv(View())
      modifies this
      ensures Inv(View())
      ensures var (l, told) := Handle(profile, old(View()), device, action, facts);
              View() == l && notices == old(notices) + told
    {
      HandleKeeps(profile, View(), device, action, facts);
      hide Inv;
      match action {
        case Connecting => HandleConnectingDevice(device);
        case Connect => HandleConnectDevice(device, facts);
        case Disconnect => HandleDisconnectDevice(device);
        case WearOn => HandleWearDevice(device);
        case WearOff => HandleUnwearDevice(device);
        case Enable => HandleEnableDevice(device, true);
        case Disable => HandleEnableDevice(device, false);
        case WearEnable => HandleWearEnable(device);
        case WearDisable => HandleWearDisable(device);
        case UserSelection => HandleUserSelection(device, facts);
        case StopVirtualCall =>
          if profile == Hfp {
            HandleStopVirtualCall(device);
          }
        case VirtualAdd => HandleVirtualConnectDevice(device, facts);
        case VirtualRemove => HandleRemoveVirtualConnectDevice(device);
        case CategoryUpdate => HandleUpdateDeviceCategory(device, facts);
      }
    }
  }
}

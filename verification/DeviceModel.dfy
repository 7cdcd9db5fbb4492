/** What the Bluetooth device managers keep per profile, and what each action of the stack makes of it. */
module DeviceModel {
  datatype Profile = A2dp | Hfp

  datatype Device = Device(addr: string, name: string)

  datatype Category = Default | Headphone | Soundbox | Car | Glasses | Watch | UnwearHeadphone

  datatype Wear = Worn | Unworn

  datatype Action =
    | Connecting | Connect | Disconnect
    | WearOn | WearOff | Enable | Disable | WearEnable | WearDisable
    | UserSelection | StopVirtualCall | VirtualAdd | VirtualRemove | CategoryUpdate

  /** What the rest of the system answers while an action is handled: the category of the device class, whether wear
      detection is on and supported, whether the device is being worn, and whether the hands-free profile is there. */
  datatype Facts = Facts(category: Category, wearDetection: bool, wearing: bool, profilePresent: bool)

  /** What observers are told, and the requests to drop a call link. */
  datatype Notice =
    | Status(addr: string, category: Category, connected: bool)
    | VirtualStatus(addr: string, category: Category, connected: bool)
    | CategoryUpdated(addr: string, category: Category)
    | EnableUpdated(addr: string, enabled: bool)
    | Selected(addr: string)
    | DropLink(addr: string)

  /** The part of a device descriptor the handlers fill in. */
  datatype Descriptor = Descriptor(addr: string, category: Category)

  datatype Lists = Lists(
    connected: map<string, Device>, wear: map<string, Wear>,
    privacy: seq<Device>, common: seq<Device>, negative: seq<Device>, connecting: seq<Device>, virtuals: seq<Device>)

  const EMPTY := Lists(map[], map[], [], [], [], [], [])

  // ---------------------------------------------------------------- lists

  predicate Has(v: seq<Device>, addr: string) {
    exists i :: 0 <= i < |v| && v[i].addr == addr
  }

  function Added(v: seq<Device>, d: Device): seq<Device> {
    if Has(v, d.addr) then v else v + [d]
  }

  /** Without the first entry for an address. */
  function Removed(v: seq<Device>, addr: string): seq<Device> {
    if v == [] then [] else if v[0].addr == addr then v[1..] else [v[0]] + Removed(v[1..], addr)
  }

  // ---------------------------------------------------------------- handlers

  function ConnectingDevice(l: Lists, d: Device): Lists {
    if d.addr in l.connected then l else l.(connecting := Added(l.connecting, d))
  }

  /** The category told for a connected device. */
  function TellCategory(facts: Facts): Category {
    match facts.category
    case Glasses => if facts.wearDetection then UnwearHeadphone else Glasses
    case Headphone => if facts.wearDetection then UnwearHeadphone else Headphone
    case Soundbox => Soundbox
    case Car => Car
    case Watch => Watch
    case _ => Headphone
  }

  function TakenOut(l: Lists, d: Device): Lists {
    l.(connecting := Removed(l.connecting, d.addr), negative := Removed(l.negative, d.addr))
  }

  function Filed(l: Lists, d: Device, facts: Facts): Lists {
    match facts.category
    case Glasses => if facts.wearDetection then l.(negative := Added(l.negative, d))
                    else l.(privacy := Added(l.privacy, d))
    case Headphone => if facts.wearDetection then l.(negative := Added(l.negative, d))
                      else l.(privacy := Added(l.privacy, d))
    case Soundbox => l.(common := Added(l.common, d))
    case Car => l.(common := Added(l.common, d))
    case Watch => l.(negative := Added(l.negative, d))
    case _ => l.(privacy := Added(l.privacy, d))
  }

  /** HandleConnectDeviceInner: file the device by category.  Without a hands-free profile the descriptor is an error and
      the device is filed nowhere. */
  function ConnectInner(p: Profile, l: Lists, d: Device, facts: Facts): (Lists, Descriptor) {
    if p == Hfp && !facts.profilePresent then (TakenOut(l, d), Descriptor("", Default))
    else (Filed(TakenOut(l, d), d, facts), Descriptor(d.addr, TellCategory(facts)))
  }

  function ConnectDevice(p: Profile, l: Lists, d: Device, facts: Facts): (Lists, seq<Notice>) {
    if d.addr in l.connected then (l, [])
    else
      var (l1, desc) := ConnectInner(p, l, d, facts);
      (l1.(connected := l1.connected[d.addr := d]), [Status(d.addr, desc.category, true)])
  }

  function DisconnectDevice(l: Lists, d: Device): (Lists, seq<Notice>) {
    var l1 := l.(connecting := Removed(l.connecting, d.addr));
    if d.addr !in l.connected then (l1, [])
    else
      (l1.(privacy := Removed(l.privacy, d.addr), common := Removed(l.common, d.addr),
           negative := Removed(l.negative, d.addr), wear := l.wear - {d.addr},
           connected := l.connected - {d.addr}),
       [Status(d.addr, Default, false)])
  }

  /** The hands-free side drops the call link of a device it reports unworn. */
  function Update(p: Profile, d: Device, desc: Descriptor): seq<Notice> {
    [CategoryUpdated(desc.addr, desc.category)]
    + if p == Hfp && desc.category == UnwearHeadphone then [DropLink(d.addr)] else []
  }

  function ToPrivacy(l: Lists, d: Device): Lists {
    l.(negative := Removed(l.negative, d.addr), privacy := Added(Removed(l.privacy, d.addr), d))
  }

  function ToNegative(l: Lists, d: Device): Lists {
    l.(privacy := Removed(l.privacy, d.addr), negative := Added(Removed(l.negative, d.addr), d))
  }

  function WearDevice(p: Profile, l: Lists, d: Device): (Lists, seq<Notice>) {
    if d.addr !in l.connected then (l, [])
    else (ToPrivacy(l, d).(wear := l.wear[d.addr := Worn]), Update(p, d, Descriptor(d.addr, Headphone)))
  }

  function UnwearDevice(p: Profile, l: Lists, d: Device): (Lists, seq<Notice>) {
    if d.addr !in l.connected then (l, [])
    else (ToNegative(l, d).(wear := l.wear[d.addr := Unworn]), Update(p, d, Descriptor(d.addr, UnwearHeadphone)))
  }

  function EnableDevice(p: Profile, l: Lists, d: Device, enabled: bool): seq<Notice> {
    if d.addr !in l.connected then []
    else [EnableUpdated(d.addr, enabled)] + if p == Hfp && !enabled then [DropLink(d.addr)] else []
  }

  function WearEnableDevice(p: Profile, l: Lists, d: Device): (Lists, seq<Notice>) {
    if d.addr !in l.connected then (l, [])
    else if d.addr in l.wear && l.wear[d.addr] == Worn then (ToPrivacy(l, d), Update(p, d, Descriptor(d.addr, Headphone)))
    else (ToNegative(l, d), Update(p, d, Descriptor(d.addr, UnwearHeadphone)))
  }

  function WearDisableDevice(p: Profile, l: Lists, d: Device): (Lists, seq<Notice>) {
    if d.addr !in l.connected then (l, []) else (ToPrivacy(l, d), Update(p, d, Descriptor(d.addr, Headphone)))
  }

  /** Looking a device up in the wear map enters it there as worn if it is missing. */
  function LookedUp(wear: map<string, Wear>, addr: string): map<string, Wear> {
    if addr in wear then wear else wear[addr := Worn]
  }

  /** The scan of the first `n` privacy devices from the back: how many are left when a worn one is found, at the end of
      the prefix, and the wear map with what the scan entered. */
  function Scan(privacy: seq<Device>, n: nat, wear: map<string, Wear>): (nat, map<string, Wear>)
    requires n <= |privacy|
  {
    if n == 0 then (0, wear)
    else
      var wear' := LookedUp(wear, privacy[n - 1].addr);
      if wear'[privacy[n - 1].addr] == Worn then (n, wear') else Scan(privacy, n - 1, wear')
  }

  /** Selecting a watch for calls selects a worn headphone instead, if there is one. */
  function SelectDevice(p: Profile, l: Lists, d: Device, facts: Facts): (Lists, seq<Notice>) {
    if p == Hfp && facts.category == Watch then
      var (k, wear) := Scan(l.privacy, |l.privacy|, l.wear);
      (l.(wear := wear), [Selected(if 0 < k <= |l.privacy| then l.privacy[k - 1].addr else d.addr)])
    else (l, [Selected(d.addr)])
  }

  function VirtualConnect(l: Lists, d: Device, facts: Facts): (Lists, seq<Notice>) {
    (l.(virtuals := Added(l.virtuals, d), negative := Added(l.negative, d)),
     [VirtualStatus(d.addr, facts.category, true)])
  }

  function VirtualDisconnect(l: Lists, d: Device): (Lists, seq<Notice>) {
    (l.(virtuals := Removed(l.virtuals, d.addr), negative := Removed(l.negative, d.addr)),
     [VirtualStatus(d.addr, Default, false)])
  }

  function UpdateCategory(p: Profile, l: Lists, d: Device, facts: Facts): (Lists, seq<Notice>) {
    if d.addr !in l.connected then (l, [])
    else
      var (l1, desc) := ConnectInner(p, l, d, facts);
      (l1, Update(p, d, if facts.wearing && desc.category == UnwearHeadphone then desc.(category := Headphone) else desc))
  }

  /** SetMediaStack and SetHfpStack: dispatch on the action. */
  function Handle(p: Profile, l: Lists, d: Device, a: Action, facts: Facts): (Lists, seq<Notice>) {
    match a
    case Connecting => (ConnectingDevice(l, d), [])
    case Connect => ConnectDevice(p, l, d, facts)
    case Disconnect => DisconnectDevice(l, d)
    case WearOn => WearDevice(p, l, d)
    case WearOff => UnwearDevice(p, l, d)
    case Enable => (l, EnableDevice(p, l, d, true))
    case Disable => (l, EnableDevice(p, l, d, false))
    case WearEnable => WearEnableDevice(p, l, d)
    case WearDisable => WearDisableDevice(p, l, d)
    case UserSelection => SelectDevice(p, l, d, facts)
    case StopVirtualCall => (l, if p == Hfp then [DropLink(d.addr)] else [])
    case VirtualAdd => VirtualConnect(l, d, facts)
    case VirtualRemove => VirtualDisconnect(l, d)
    case CategoryUpdate => UpdateCategory(p, l, d, facts)
  }

  // ---------------------------------------------------------------- the invariant

  predicate Distinct(v: seq<Device>) {
    forall i, j :: 0 <= i < j < |v| ==> v[i].addr != v[j].addr
  }

  ghost predicate Inv(l: Lists) {
    && Distinct(l.privacy) && Distinct(l.common) && Distinct(l.negative)
    && Distinct(l.connecting) && Distinct(l.virtuals)
    && (forall a :: Has(l.connecting, a) ==> a !in l.connected)
    && (forall a :: Has(l.privacy, a) || Has(l.common, a) ==> a in l.connected)
    && (forall a :: a in l.connected ==> l.connected[a].addr == a)
    && (forall a :: a in l.wear ==> a in l.connected)
    && (forall a :: Has(l.negative, a) ==> a in l.connected || Has(l.virtuals, a))
  }

  lemma AddedHas(v: seq<Device>, d: Device)
    ensures Distinct(v) ==> Distinct(Added(v, d))
    ensures forall a :: Has(Added(v, d), a) <==> Has(v, a) || a == d.addr
    ensures v <= Added(v, d)
  {
    var r := Added(v, d);
    forall a ensures Has(r, a) <==> Has(v, a) || a == d.addr {
      if Has(v, a) {
        var i :| 0 <= i < |v| && v[i].addr == a;
        assert r[i].addr == a;
      }
      if a == d.addr && !Has(v, a) {
        assert r[|v|].addr == a;
      }
    }
    if Distinct(v) && !Has(v, d.addr) {
      forall i, j | 0 <= i < j < |r| ensures r[i].addr != r[j].addr {
        assert v[i].addr != d.addr;
      }
    }
  }

  /** Erasing the first entry erases the device, given no address occurs twice. */
  lemma {:induction false} RemovedHas(v: seq<Device>, addr: string)
    requires Distinct(v)
    ensures Distinct(Removed(v, addr))
    ensures forall a :: Has(Removed(v, addr), a) <==> Has(v, a) && a != addr
  {
    if v != [] {
      var rest := v[1..];
      assert forall i, j :: 0 <= i < j < |rest| ==> rest[i].addr == v[i + 1].addr && rest[j].addr == v[j + 1].addr;
      RemovedHas(rest, addr);
      HasSplit(v);
      if v[0].addr == addr {
        assert !Has(rest, addr);
      } else {
        var r := [v[0]] + Removed(rest, addr);
        HasSplit(r);
        assert r[1..] == Removed(rest, addr);
        forall i, j | 0 <= i < j < |r| ensures r[i].addr != r[j].addr {
          assert Has(r[1..], r[1..][j - 1].addr);
          if i == 0 {
            assert !Has(rest, v[0].addr);
          } else {
            assert r[1..][i - 1].addr != r[1..][j - 1].addr;
          }
        }
      }
    }
  }

  lemma HasSplit(v: seq<Device>)
    requires v != []
    ensures forall a :: Has(v, a) <==> v[0].addr == a || Has(v[1..], a)
  {
    forall a ensures Has(v, a) <==> v[0].addr == a || Has(v[1..], a) {
      if Has(v[1..], a) {
        var i :| 0 <= i < |v[1..]| && v[1..][i].addr == a;
        assert v[i + 1].addr == a;
      }
      if Has(v, a) && v[0].addr != a {
        var i :| 0 <= i < |v| && v[i].addr == a;
        assert v[1..][i - 1].addr == a;
      }
    }
  }

  // ---------------------------------------------------------------- every handler keeps the invariant

  /** Fit for entering the device among the connected ones. */
  ghost predicate Ready(l: Lists, d: Device) {
    Inv(l.(connected := l.connected[d.addr := d]))
  }

  lemma TakenOutReady(l: Lists, d: Device)
    requires Inv(l)
    ensures Ready(TakenOut(l, d), d)
  {
    RemovedHas(l.connecting, d.addr);
    RemovedHas(l.negative, d.addr);
    hide Has, Added, Removed, Distinct;
  }

  lemma FiledReady(l: Lists, d: Device, facts: Facts)
    requires Ready(l, d)
    ensures Ready(Filed(l, d, facts), d)
  {
    AddedHas(l.privacy, d);
    AddedHas(l.common, d);
    AddedHas(l.negative, d);
    hide Has, Added, Removed, Distinct;
  }

  lemma ConnectInnerKeeps(p: Profile, l: Lists, d: Device, facts: Facts)
    requires Inv(l)
    ensures Ready(ConnectInner(p, l, d, facts).0, d)
  {
    TakenOutReady(l, d);
    FiledReady(TakenOut(l, d), d, facts);
    hide Ready, TakenOut, Filed;
  }

  lemma ConnectInnerMap(p: Profile, l: Lists, d: Device, facts: Facts)
    ensures ConnectInner(p, l, d, facts).0.connected == l.connected
  {
  }

  /** Re-filing a connected device between the worn and the unworn list. */
  lemma RefileKeeps(l: Lists, d: Device)
    requires Inv(l) && d.addr in l.connected
    ensures Inv(ToPrivacy(l, d)) && Inv(ToNegative(l, d))
    ensures Has(ToPrivacy(l, d).privacy, d.addr) && !Has(ToPrivacy(l, d).negative, d.addr)
    ensures Has(ToNegative(l, d).negative, d.addr) && !Has(ToNegative(l, d).privacy, d.addr)
  {
    RemovedHas(l.privacy, d.addr);
    RemovedHas(l.negative, d.addr);
    AddedHas(Removed(l.privacy, d.addr), d);
    AddedHas(Removed(l.negative, d.addr), d);
    hide Has, Added, Removed, Distinct;
  }

  lemma DisconnectKeeps(l: Lists, d: Device)
    requires Inv(l)
    ensures var l' := DisconnectDevice(l, d).0;
            && Inv(l')
            && d.addr !in l'.connected && d.addr !in l'.wear && !Has(l'.connecting, d.addr)
            && !Has(l'.privacy, d.addr) && !Has(l'.common, d.addr)
            && (d.addr in l.connected || !Has(l.virtuals, d.addr) ==> !Has(l'.negative, d.addr))
  {
    RemovedHas(l.connecting, d.addr);
    RemovedHas(l.privacy, d.addr);
    RemovedHas(l.common, d.addr);
    RemovedHas(l.negative, d.addr);
    hide Has, Added, Removed, Distinct;
  }

  lemma ConnectingKeeps(l: Lists, d: Device)
    requires Inv(l)
    ensures Inv(ConnectingDevice(l, d))
  {
    AddedHas(l.connecting, d);
    hide Has, Added, Removed, Distinct;
  }

  lemma VirtualKeeps(l: Lists, d: Device, facts: Facts)
    requires Inv(l)
    ensures Inv(VirtualConnect(l, d, facts).0) && Inv(VirtualDisconnect(l, d).0)
  {
    AddedHas(l.virtuals, d);
    AddedHas(l.negative, d);
    RemovedHas(l.virtuals, d.addr);
    RemovedHas(l.negative, d.addr);
    hide Has, Added, Removed, Distinct;
  }

  /** The scan for a worn headphone stops at the last privacy device not known unworn, and enters at most that device in
      the wear map. */
  lemma {:induction false} ScanFinds(privacy: seq<Device>, n: nat, wear: map<string, Wear>)
    requires n <= |privacy|
    ensures var (k, wear') := Scan(privacy, n, wear);
            && k <= n
            && (forall i :: k <= i < n ==> privacy[i].addr in wear && wear[privacy[i].addr] == Unworn)
            && (k > 0 ==> wear' == LookedUp(wear, privacy[k - 1].addr) && wear'[privacy[k - 1].addr] == Worn)
            && (k == 0 ==> wear' == wear)
  {
    if n != 0 && privacy[n - 1].addr in wear && wear[privacy[n - 1].addr] == Unworn {
      ScanFinds(privacy, n - 1, wear);
    }
  }

  predicate KnownUnworn(l: Lists, addr: string) {
    addr in l.wear && l.wear[addr] == Unworn
  }

  /** The last privacy device not known to be unworn. */
  ghost predicate Candidate(l: Lists, addr: string) {
    exists k :: 0 <= k < |l.privacy| && l.privacy[k].addr == addr && !KnownUnworn(l, addr)
                && (forall i :: k < i < |l.privacy| ==> KnownUnworn(l, l.privacy[i].addr))
  }

  /** A watch is selected for calls. */
  predicate WatchSelected(p: Profile, facts: Facts) {
    p == Hfp && facts.category == Watch
  }

  /** The scan ends at the candidate, and enters nothing else. */
  lemma ScanFindsCandidate(l: Lists)
    requires Inv(l)
    ensures var (k, wear) := Scan(l.privacy, |l.privacy|, l.wear);
            && k <= |l.privacy|
            && (k > 0 ==>
                  var chosen := l.privacy[k - 1].addr;
                  Candidate(l, chosen) && chosen in l.connected && wear == LookedUp(l.wear, chosen))
            && (k == 0 ==> wear == l.wear && forall a :: !Candidate(l, a))
  {
    var (k, wear) := Scan(l.privacy, |l.privacy|, l.wear);
    ScanFinds(l.privacy, |l.privacy|, l.wear);
    hide Scan, Distinct;
    if k > 0 {
      assert Has(l.privacy, l.privacy[k - 1].addr);
    }
  }

  /** Selecting keeps the invariant.  What is selected is the device itself, or, for a watch on the hands-free side, the
      last privacy device not known to be unworn, if there is one; that device, and no other, is entered in the wear map
      as worn if it was missing there. */
  lemma SelectMeans(p: Profile, l: Lists, d: Device, facts: Facts)
    requires Inv(l)
    ensures var (l', notices) := SelectDevice(p, l, d, facts);
            && Inv(l') && l' == l.(wear := l'.wear)
            && |notices| == 1 && notices[0].Selected?
            && var chosen := notices[0].addr;
               if WatchSelected(p, facts) && exists a :: Candidate(l, a) then
                 Candidate(l, chosen) && chosen in l.connected && l'.wear == LookedUp(l.wear, chosen)
               else chosen == d.addr && l'.wear == l.wear
  {
    var (k, wear) := Scan(l.privacy, |l.privacy|, l.wear);
    ScanFindsCandidate(l);
    hide Scan, Distinct, Has, Candidate;
  }

  /** There is at most one. */
  lemma CandidateUnique(l: Lists, a: string, b: string)
    requires Candidate(l, a) && Candidate(l, b)
    ensures a == b
  {
  }

  /** Every action of the stack keeps the invariant, on both profiles and whatever the rest of the system answers. */
  lemma HandleKeeps(p: Profile, l: Lists, d: Device, a: Action, facts: Facts)
    requires Inv(l)
    ensures Inv(Handle(p, l, d, a, facts).0)
  {
    match a
    case Connecting => ConnectingKeeps(l, d);
    case Connect => ConnectInnerKeeps(p, l, d, facts);
    case Disconnect => DisconnectKeeps(l, d);
    case WearOn => if d.addr in l.connected { RefileKeeps(l, d); }
    case WearOff => if d.addr in l.connected { RefileKeeps(l, d); }
    case WearEnable => if d.addr in l.connected { RefileKeeps(l, d); }
    case WearDisable => if d.addr in l.connected { RefileKeeps(l, d); }
    case UserSelection => SelectMeans(p, l, d, facts);
    case VirtualAdd => VirtualKeeps(l, d, facts);
    case VirtualRemove => VirtualKeeps(l, d, facts);
    case CategoryUpdate =>
      if d.addr in l.connected {
        UpdateKeeps(p, l, d, facts);
      }
    case _ =>
  }

  lemma UpdateKeeps(p: Profile, l: Lists, d: Device, facts: Facts)
    requires Inv(l) && d.addr in l.connected
    ensures Inv(UpdateCategory(p, l, d, facts).0)
  {
    ConnectInnerKeeps(p, l, d, facts);
    ConnectInnerMap(p, l, d, facts);
    hide ConnectInner, Has, Distinct;
  }
}

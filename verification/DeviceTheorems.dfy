/** What the device lists keep over every run of stack actions and service crashes. */
module DeviceTheorems {
  import opened Options
  import opened DeviceModel

  // ---------------------------------------------------------------- runs

  /** An action of the stack, or a crash of the Bluetooth service; `order` is the order in which the crash goes through
      the connected devices. */
  datatype Event = Stack(d: Device, a: Action, facts: Facts) | Crash(order: seq<Device>)

  const NO_FACTS := Facts(Default, false, false, false)

  /** The same action for each of some devices. */
  function ForEach(p: Profile, l: Lists, devices: seq<Device>, a: Action): (Lists, seq<Notice>)
    decreases |devices|
  {
    if devices == [] then (l, [])
    else
      var (l1, told) := Handle(p, l, devices[0], a, NO_FACTS);
      var (l2, later) := ForEach(p, l1, devices[1..], a);
      (l2, told + later)
  }

  lemma {:induction false} ForEachLast(p: Profile, l: Lists, devices: seq<Device>, d: Device, a: Action)
    ensures var (l1, told) := ForEach(p, l, devices, a);
            var (l2, more) := Handle(p, l1, d, a, NO_FACTS);
            ForEach(p, l, devices + [d], a) == (l2, told + more)
    decreases |devices|
  {
    hide Handle;
    if devices == [] {
      assert [] + [d] == [d] && [d][1..] == [];
      assert Handle(p, l, d, a, NO_FACTS).1 + [] == [] + Handle(p, l, d, a, NO_FACTS).1;
    } else {
      var (l1, told) := Handle(p, l, devices[0], a, NO_FACTS);
      ForEachLast(p, l1, devices[1..], d, a);
      assert (devices + [d])[1..] == devices[1..] + [d];
      var (l2, later) := ForEach(p, l1, devices[1..], a);
      var more := Handle(p, l2, d, a, NO_FACTS).1;
      assert told + (later + more) == told + later + more;
    }
  }

  /** `order` lists the connected devices, each once. */
  ghost predicate Enumerates(order: seq<Device>, connected: map<string, Device>) {
    && Distinct(order)
    && (forall i :: 0 <= i < |order| ==> order[i].addr in connected && connected[order[i].addr] == order[i])
    && (forall a :: a in connected ==> Has(order, a))
  }

  /** DisconnectBluetoothA2dpSink and DisconnectBluetoothHfpSink up to the clearing: disconnect every connected device,
      then remove every virtual one. */
  function Farewell(p: Profile, l: Lists, order: seq<Device>): (Lists, seq<Notice>) {
    var (l1, told) := ForEach(p, l, order, Disconnect);
    var (l2, later) := ForEach(p, l1, l1.virtuals, VirtualRemove);
    (l2, told + later)
  }

  /** One event; a crash with an order that is not one of the connected devices does not happen. */
  ghost function Occur(p: Profile, l: Lists, e: Event): (Lists, seq<Notice>) {
    match e
    case Stack(d, a, facts) => Handle(p, l, d, a, facts)
    case Crash(order) => if Enumerates(order, l.connected) then (EMPTY, Farewell(p, l, order).1) else (l, [])
  }

  ghost function Run(p: Profile, l: Lists, events: seq<Event>): (Lists, seq<Notice>)
    decreases |events|
  {
    if events == [] then (l, [])
    else
      var (l1, told) := Occur(p, l, events[0]);
      var (l2, later) := Run(p, l1, events[1..]);
      (l2, told + later)
  }

  lemma OccurKeeps(p: Profile, l: Lists, e: Event)
    requires Inv(l)
    ensures Inv(Occur(p, l, e).0)
  {
    if e.Stack? {
      HandleKeeps(p, l, e.d, e.a, e.facts);
    }
  }

  lemma {:induction false} RunKeeps(p: Profile, l: Lists, events: seq<Event>)
    requires Inv(l)
    ensures Inv(Run(p, l, events).0)
    decreases |events|
  {
    if events != [] {
      OccurKeeps(p, l, events[0]);
      hide Inv, Occur;
      RunKeeps(p, Occur(p, l, events[0]).0, events[1..]);
    }
  }

  lemma {:induction false} RunLast(p: Profile, l: Lists, events: seq<Event>, e: Event)
    ensures Run(p, l, events + [e]).0 == Occur(p, Run(p, l, events).0, e).0
    decreases |events|
  {
    hide Occur;
    if events == [] {
      assert [] + [e] == [e] && [e][1..] == [];
    } else {
      assert (events + [e])[1..] == events[1..] + [e];
      RunLast(p, Occur(p, l, events[0]).0, events[1..], e);
    }
  }

  /** Erasing the first occurrence is enough: after any events, disconnecting a device leaves it in neither map and in
      none of the lists but the virtual ones. */
  lemma DisconnectedIsGone(p: Profile, events: seq<Event>, d: Device, facts: Facts)
    ensures var l := Run(p, EMPTY, events).0;
            var l' := Handle(p, l, d, Disconnect, facts).0;
            && d.addr !in l'.connected && d.addr !in l'.wear
            && !Has(l'.privacy, d.addr) && !Has(l'.common, d.addr) && !Has(l'.connecting, d.addr)
            && (Has(l'.negative, d.addr) ==> d.addr !in l.connected && Has(l.virtuals, d.addr))
  {
    RunKeeps(p, EMPTY, events);
    DisconnectKeeps(Run(p, EMPTY, events).0, d);
  }

  // ---------------------------------------------------------------- a crash of the service

  lemma {:induction false} DisconnectEach(p: Profile, l: Lists, devices: seq<Device>)
    requires Inv(l)
    ensures var l' := ForEach(p, l, devices, Disconnect).0;
            && Inv(l') && l'.virtuals == l.virtuals
            && (forall a :: a in l'.connected <==> a in l.connected && !Has(devices, a))
    decreases |devices|
  {
    if devices != [] {
      var d := devices[0];
      HandleKeeps(p, l, d, Disconnect, NO_FACTS);
      DisconnectEach(p, DisconnectDevice(l, d).0, devices[1..]);
      HasSplit(devices);
      hide Inv, Has, Removed, ForEach;
    }
  }

  lemma {:induction false} RemoveEach(p: Profile, l: Lists, devices: seq<Device>)
    requires Inv(l)
    ensures var l' := ForEach(p, l, devices, VirtualRemove).0;
            && Inv(l') && l'.connected == l.connected
            && (forall a :: Has(l'.virtuals, a) <==> Has(l.virtuals, a) && !Has(devices, a))
    decreases |devices|
  {
    if devices != [] {
      var d := devices[0];
      HandleKeeps(p, l, d, VirtualRemove, NO_FACTS);
      RemovedHas(l.virtuals, d.addr);
      RemoveEach(p, VirtualDisconnect(l, d).0, devices[1..]);
      HasSplit(devices);
      hide Inv, Has, Removed, ForEach;
    }
  }

  lemma NoneHas(v: seq<Device>)
    requires forall a :: !Has(v, a)
    ensures v == []
  {
    if v != [] {
      assert Has(v, v[0].addr);
    }
  }

  /** Before a crash clears anything, every connected and every virtual device has been dealt with: the clearing finds
      nothing but devices that are connecting. */
  lemma FarewellEmpties(p: Profile, l: Lists, order: seq<Device>)
    requires Inv(l) && Enumerates(order, l.connected)
    ensures var l' := Farewell(p, l, order).0; l' == EMPTY.(connecting := l'.connecting)
  {
    var l1 := ForEach(p, l, order, Disconnect).0;
    DisconnectEach(p, l, order);
    RemoveEach(p, l1, l1.virtuals);
    var l' := Farewell(p, l, order).0;
    hide ForEach, Farewell;
    assert forall a :: a !in l'.connected;
    assert l'.connected == map[] && l'.wear == map[];
    NoneHas(l'.virtuals);
    NoneHas(l'.privacy);
    NoneHas(l'.common);
    NoneHas(l'.negative);
  }

  // ---------------------------------------------------------------- what observers are told

  /** The connection states told about one device. */
  function Told(notices: seq<Notice>, addr: string): seq<bool> {
    if notices == [] then []
    else (if notices[0].Status? && notices[0].addr == addr then [notices[0].connected] else []) + Told(notices[1..], addr)
  }

  /** Alternating, starting from the opposite of what was known before. */
  ghost predicate Alternates(told: seq<bool>, before: bool) {
    forall i :: 0 <= i < |told| ==> (told[i] == (if i % 2 == 0 then !before else before))
  }

  /** What was told about a device between two states of the lists alternates and leads from one state to the other. */
  ghost predicate Leads(told: seq<bool>, before: bool, after: bool) {
    Alternates(told, before) && (|told| % 2 == 0 <==> before == after)
  }

  lemma LeadsOn(first: seq<bool>, rest: seq<bool>, before: bool, mid: bool, after: bool)
    requires Leads(first, before, mid) && Leads(rest, mid, after)
    ensures Leads(first + rest, before, after)
  {
    var n, all := |first|, first + rest;
    forall i | n <= i < |all| ensures all[i] == (if i % 2 == 0 then !before else before) {
      SumParity(n, i - n);
      assert all[i] == rest[i - n];
    }
    SumParity(n, |rest|);
  }

  lemma SumParity(a: nat, b: nat)
    ensures (a + b) % 2 == 0 <==> a % 2 == b % 2
  {
  }

  lemma {:induction false} ToldOfAppend(a: seq<Notice>, b: seq<Notice>, addr: string)
    ensures Told(a + b, addr) == Told(a, addr) + Told(b, addr)
  {
    if a == [] {
      assert a + b == b;
    } else {
      assert (a + b)[1..] == a[1..] + b;
      ToldOfAppend(a[1..], b, addr);
    }
  }

  lemma {:induction false} NothingTold(notices: seq<Notice>, addr: string)
    requires forall n :: n in notices ==> !n.Status?
    ensures Told(notices, addr) == []
  {
    if notices != [] {
      NothingTold(notices[1..], addr);
    }
  }

  /** Only connecting and disconnecting changes the map or tells a connection state. */
  lemma OthersAreSilent(p: Profile, l: Lists, d: Device, a: Action, facts: Facts)
    requires a != Connect && a != Disconnect
    ensures var (l', notices) := Handle(p, l, d, a, facts);
            l'.connected == l.connected && (forall n :: n in notices ==> !n.Status?)
  {
    ConnectInnerMap(p, l, d, facts);
    hide ConnectInner, Removed, Added, Scan;
  }

  /** One action tells the connection state of a device exactly when it changes. */
  lemma OneTold(p: Profile, l: Lists, d: Device, a: Action, facts: Facts, addr: string)
    ensures var (l', notices) := Handle(p, l, d, a, facts);
            Told(notices, addr) == if (addr in l.connected) == (addr in l'.connected) then [] else [addr in l'.connected]
  {
    hide ConnectInner, Removed, Added, Scan;
    if a == Connect {
      ConnectInnerMap(p, l, d, facts);
    } else if a != Disconnect {
      OthersAreSilent(p, l, d, a, facts);
      NothingTold(Handle(p, l, d, a, facts).1, addr);
      hide Handle;
    }
  }

  lemma {:induction false} EachLeads(p: Profile, l: Lists, devices: seq<Device>, a: Action, addr: string)
    ensures var (l', notices) := ForEach(p, l, devices, a);
            Leads(Told(notices, addr), addr in l.connected, addr in l'.connected)
    decreases |devices|
  {
    if devices != [] {
      var (l1, told) := Handle(p, l, devices[0], a, NO_FACTS);
      var (l2, later) := ForEach(p, l1, devices[1..], a);
      OneTold(p, l, devices[0], a, NO_FACTS, addr);
      EachLeads(p, l1, devices[1..], a, addr);
      ToldOfAppend(told, later, addr);
      hide Handle, Told;
      LeadsOn(Told(told, addr), Told(later, addr), addr in l.connected, addr in l1.connected, addr in l2.connected);
    }
  }

  /** A crash tells that each connected device is gone, once, and nothing about the connection of any other. */
  lemma CrashTellsEveryone(p: Profile, l: Lists, order: seq<Device>, addr: string)
    requires Inv(l) && Enumerates(order, l.connected)
    ensures Told(Farewell(p, l, order).1, addr) == if addr in l.connected then [false] else []
  {
    var (l1, told) := ForEach(p, l, order, Disconnect);
    var (l2, later) := ForEach(p, l1, l1.virtuals, VirtualRemove);
    DisconnectedOnce(p, l, order, addr);
    RemovalsSilent(p, l1, l1.virtuals, addr);
    ToldOfAppend(told, later, addr);
    assert Told(told, addr) + [] == Told(told, addr);
  }

  lemma {:induction false} DisconnectedOnce(p: Profile, l: Lists, devices: seq<Device>, addr: string)
    ensures Told(ForEach(p, l, devices, Disconnect).1, addr)
            == if addr in l.connected && Has(devices, addr) then [false] else []
    decreases |devices|
  {
    if devices != [] {
      var (l1, told) := Handle(p, l, devices[0], Disconnect, NO_FACTS);
      OneTold(p, l, devices[0], Disconnect, NO_FACTS, addr);
      DisconnectedOnce(p, l1, devices[1..], addr);
      ToldOfAppend(told, ForEach(p, l1, devices[1..], Disconnect).1, addr);
      HasSplit(devices);
      hide Has, Told, Removed;
    }
  }

  lemma {:induction false} RemovalsSilent(p: Profile, l: Lists, devices: seq<Device>, addr: string)
    ensures Told(ForEach(p, l, devices, VirtualRemove).1, addr) == []
    decreases |devices|
  {
    if devices != [] {
      var (l1, told) := Handle(p, l, devices[0], VirtualRemove, NO_FACTS);
      OneTold(p, l, devices[0], VirtualRemove, NO_FACTS, addr);
      RemovalsSilent(p, l1, devices[1..], addr);
      ToldOfAppend(told, ForEach(p, l1, devices[1..], VirtualRemove).1, addr);
    }
  }

  lemma EventLeads(p: Profile, l: Lists, e: Event, addr: string)
    requires Inv(l)
    ensures var (l', notices) := Occur(p, l, e);
            Leads(Told(notices, addr), addr in l.connected, addr in l'.connected)
  {
    hide Handle, Farewell, Enumerates, Inv;
    match e
    case Stack(d, a, facts) => OneTold(p, l, d, a, facts, addr);
    case Crash(order) => if Enumerates(order, l.connected) { CrashTellsEveryone(p, l, order, addr); }
  }

  /** Over every run, crashes included, the connections and disconnections told about a device strictly alternate,
      starting with what it was not, and end with what the map says. */
  lemma {:induction false} NoticesAlternate(p: Profile, l: Lists, events: seq<Event>, addr: string)
    requires Inv(l)
    ensures var (l', notices) := Run(p, l, events);
            var told := Told(notices, addr);
            && Alternates(told, addr in l.connected)
            && (|told| % 2 == 0 <==> (addr in l'.connected) == (addr in l.connected))
    decreases |events|
  {
    if events != [] {
      var (l1, told) := Occur(p, l, events[0]);
      var (l2, later) := Run(p, l1, events[1..]);
      OccurKeeps(p, l, events[0]);
      EventLeads(p, l, events[0], addr);
      NoticesAlternate(p, l1, events[1..], addr);
      ToldOfAppend(told, later, addr);
      hide Occur, Inv, Told;
      LeadsOn(Told(told, addr), Told(later, addr), addr in l.connected, addr in l1.connected, addr in l2.connected);
    }
  }

  // ---------------------------------------------------------------- wear reports

  /** A wear report of a device that is connected, the only ones that are not ignored. */
  ghost predicate Reports(l: Lists, e: Event, addr: string) {
    e.Stack? && e.d.addr == addr && addr in l.connected && (e.a == WearOn || e.a == WearOff)
  }

  /** The device's connection ends. */
  ghost predicate Ends(l: Lists, e: Event, addr: string) {
    match e
    case Stack(d, a, _) => d.addr == addr && a == Disconnect
    case Crash(order) => Enumerates(order, l.connected)
  }

  /** The last thing reported about the wearing of a device since it connected. */
  ghost function LastReport(p: Profile, events: seq<Event>, addr: string): Option<Wear> {
    if events == [] then None
    else
      var before, e := events[..|events| - 1], events[|events| - 1];
      var l := Run(p, EMPTY, before).0;
      if Ends(l, e, addr) then None
      else if Reports(l, e, addr) then Some(if e.a == WearOn then Worn else Unworn)
      else LastReport(p, before, addr)
  }

  /** Selecting a watch put the device in the watch's place while nothing was reported about it, and nothing has been
      reported since. */
  ghost predicate Guessed(p: Profile, events: seq<Event>, addr: string) {
    events != [] &&
    var before, e := events[..|events| - 1], events[|events| - 1];
    var l := Run(p, EMPTY, before).0;
    if Ends(l, e, addr) || Reports(l, e, addr) then false
    else if e.Stack? && e.a == UserSelection && WatchSelected(p, e.facts) && Candidate(l, addr)
            && LastReport(p, before, addr) == None then true
    else Guessed(p, before, addr)
  }

  ghost function InWearMap(l: Lists, addr: string): Option<Wear> {
    if addr in l.wear then Some(l.wear[addr]) else None
  }

  /** How one event changes the wear map. */
  lemma WearStep(p: Profile, l: Lists, e: Event, addr: string)
    requires Inv(l)
    ensures var l' := Occur(p, l, e).0;
            InWearMap(l', addr) ==
            if Ends(l, e, addr) then None
            else if Reports(l, e, addr) then Some(if e.a == WearOn then Worn else Unworn)
            else if e.Stack? && e.a == UserSelection && WatchSelected(p, e.facts) && Candidate(l, addr)
                    && InWearMap(l, addr) == None then Some(Worn)
            else InWearMap(l, addr)
  {
    if e.Stack? {
      if e.a == UserSelection {
        SelectMeans(p, l, e.d, e.facts);
        var chosen := SelectDevice(p, l, e.d, e.facts).1[0].addr;
        if Candidate(l, addr) && Candidate(l, chosen) {
          CandidateUnique(l, addr, chosen);
        }
        hide Candidate, Inv;
      } else {
        OtherWear(p, l, e.d, e.a, e.facts, addr);
      }
    }
  }

  lemma OtherWear(p: Profile, l: Lists, d: Device, a: Action, facts: Facts, addr: string)
    requires Inv(l) && a != UserSelection
    ensures InWearMap(Handle(p, l, d, a, facts).0, addr) ==
            if d.addr == addr && a == Disconnect then None
            else if d.addr == addr && addr in l.connected && (a == WearOn || a == WearOff) then
              Some(if a == WearOn then Worn else Unworn)
            else InWearMap(l, addr)
  {
    hide Has, Removed, Added, Scan;
  }

  /** Over whole runs the wear map holds a device's last wear report since it connected, exactly unless selecting a watch
      guessed it: then it says worn although nothing was reported. */
  lemma {:induction false} WearMapIsLastReport(p: Profile, events: seq<Event>, addr: string)
    ensures var l := Run(p, EMPTY, events).0;
            && (InWearMap(l, addr) == LastReport(p, events, addr) <==> !Guessed(p, events, addr))
            && (Guessed(p, events, addr) ==>
                  InWearMap(l, addr) == Some(Worn) && LastReport(p, events, addr) == None)
  {
    if events != [] {
      var before, e := events[..|events| - 1], events[|events| - 1];
      assert events == before + [e];
      WearMapIsLastReport(p, before, addr);
      RunKeeps(p, EMPTY, before);
      RunLast(p, EMPTY, before, e);
      WearStep(p, Run(p, EMPTY, before).0, e, addr);
      hide Run, Occur, Ends, Reports, Inv, Candidate;
    }
  }

  lemma ToggleRefiles(p: Profile, l: Lists, d: Device, facts: Facts)
    requires Inv(l) && d.addr in l.connected
    ensures var off := Handle(p, l, d, WearDisable, facts).0;
            var on := Handle(p, off, d, WearEnable, facts).0;
            && Has(off.privacy, d.addr) && !Has(off.negative, d.addr)
            && (if InWearMap(l, d.addr) == Some(Worn)
                then Has(on.privacy, d.addr) && !Has(on.negative, d.addr)
                else Has(on.negative, d.addr) && !Has(on.privacy, d.addr))
  {
    RefileKeeps(l, d);
    RefileKeeps(ToPrivacy(l, d), d);
  }

  /** After any run, switching the wear detection of a connected device off and on files it as worn exactly when its last
      wear report said so, or there was none and selecting a watch guessed it. */
  lemma WearToggleRestores(p: Profile, events: seq<Event>, d: Device, facts: Facts)
    requires d.addr in Run(p, EMPTY, events).0.connected
    ensures var l := Run(p, EMPTY, events).0;
            var off := Handle(p, l, d, WearDisable, facts).0;
            var on := Handle(p, off, d, WearEnable, facts).0;
            && Has(off.privacy, d.addr) && !Has(off.negative, d.addr)
            && (if LastReport(p, events, d.addr) == Some(Worn) || Guessed(p, events, d.addr)
                then Has(on.privacy, d.addr) && !Has(on.negative, d.addr)
                else Has(on.negative, d.addr) && !Has(on.privacy, d.addr))
  {
    RunKeeps(p, EMPTY, events);
    WearMapIsLastReport(p, events, d.addr);
    ToggleRefiles(p, Run(p, EMPTY, events).0, d, facts);
  }

  /** A headphone that connects without wear detection is the candidate to replace a watch. */
  lemma HeadphoneConnects(headphone: Device, facts: Facts)
    requires facts == Facts(Headphone, false, false, true)
    ensures var l := Handle(Hfp, EMPTY, headphone, Connect, facts).0;
            headphone.addr in l.connected && Candidate(l, headphone.addr)
  {
    var l := Handle(Hfp, EMPTY, headphone, Connect, facts).0;
    assert Filed(TakenOut(EMPTY, headphone), headphone, facts).privacy == [headphone];
    assert l.privacy == [headphone] && l.privacy[0].addr == headphone.addr;
    assert !KnownUnworn(l, headphone.addr);
  }

  /** Selecting a watch after that guesses. */
  lemma WatchGuesses(headphone: Device, watch: Device, facts: Facts)
    requires facts == Facts(Headphone, false, false, true)
    ensures var events := [Stack(headphone, Connect, facts),
                           Stack(watch, UserSelection, facts.(category := Watch))];
            var l0 := Handle(Hfp, EMPTY, headphone, Connect, facts).0;
            && events[..1] == [events[0]]
            && Run(Hfp, EMPTY, events[..1]).0 == l0
            && Run(Hfp, EMPTY, events).0 == Handle(Hfp, l0, watch, UserSelection, facts.(category := Watch)).0
            && LastReport(Hfp, events, headphone.addr) == None && Guessed(Hfp, events, headphone.addr)
  {
    var e0, e1 := Stack(headphone, Connect, facts), Stack(watch, UserSelection, facts.(category := Watch));
    var events := [e0, e1];
    HeadphoneConnects(headphone, facts);
    hide Handle, Has, Candidate, Inv;
    RunLast(Hfp, EMPTY, [], e0);
    RunLast(Hfp, EMPTY, [e0], e1);
    assert events[..1] == [e0] && [e0][..0] == [] && [] + [e0] == [e0] && [e0] + [e1] == events;
    hide Run;
    assert LastReport(Hfp, [e0], headphone.addr) == None;
  }

  /** A run in which it was guessed: a headphone connects without ever reporting that it is worn, a watch is selected for
      calls, and switching the headphone's detection off and on files it as worn. */
  lemma GuessedAsWorn(headphone: Device, watch: Device)
    ensures var facts := Facts(Headphone, false, false, true);
            var events := [Stack(headphone, Connect, facts),
                           Stack(watch, UserSelection, facts.(category := Watch))];
            var l := Run(Hfp, EMPTY, events).0;
            var on := Handle(Hfp, Handle(Hfp, l, headphone, WearDisable, facts).0, headphone, WearEnable, facts).0;
            LastReport(Hfp, events, headphone.addr) == None && Has(on.privacy, headphone.addr)
  {
    var facts := Facts(Headphone, false, false, true);
    var e0, e1 := Stack(headphone, Connect, facts), Stack(watch, UserSelection, facts.(category := Watch));
    var events, l0 := [e0, e1], Handle(Hfp, EMPTY, headphone, Connect, facts).0;
    HeadphoneConnects(headphone, facts);
    hide Handle, Has, Candidate, Inv, Guessed, LastReport, Run;
    WatchGuesses(headphone, watch, facts);
    WearMapIsLastReport(Hfp, events, headphone.addr);
    RunKeeps(Hfp, EMPTY, [e0]);
    OthersAreSilent(Hfp, l0, watch, UserSelection, e1.facts);
    WearToggleRestores(Hfp, events, headphone, facts);
  }
}

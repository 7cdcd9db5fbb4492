/** Into which lists each action files a device, what is told about it, and when its call link is dropped. */
module DeviceFiling {
  import opened DeviceModel

  // ---------------------------------------------------------------- by category

  /** A device worn on the head whose wear detection is on is taken for unworn. */
  predicate TakenForUnworn(facts: Facts) {
    facts.wearDetection && (facts.category == Headphone || facts.category == Glasses)
  }

  predicate GoesToCommon(facts: Facts) {
    facts.category == Soundbox || facts.category == Car
  }

  predicate GoesToNegative(facts: Facts) {
    facts.category == Watch || TakenForUnworn(facts)
  }

  predicate GoesToPrivacy(facts: Facts) {
    || (!facts.wearDetection && (facts.category == Headphone || facts.category == Glasses))
    || facts.category == Default || facts.category == UnwearHeadphone
  }

  /** The category told: unknown categories pass for headphones, and unworn devices are told as such. */
  predicate ToldAs(c: Category, facts: Facts) {
    && (TakenForUnworn(facts) ==> c == UnwearHeadphone)
    && (facts.category == Default || facts.category == UnwearHeadphone ==> c == Headphone)
    && (!TakenForUnworn(facts) && facts.category != Default && facts.category != UnwearHeadphone ==> c == facts.category)
  }

  /** The hands-free side is asked about a device although its profile is gone. */
  predicate NoProfile(p: Profile, facts: Facts) {
    p == Hfp && !facts.profilePresent
  }

  lemma TakenOutMeans(l: Lists, d: Device)
    requires Inv(l)
    ensures var l' := TakenOut(l, d);
            && !Has(l'.connecting, d.addr) && !Has(l'.negative, d.addr)
            && l' == l.(connecting := l'.connecting, negative := l'.negative)
  {
    RemovedHas(l.connecting, d.addr);
    RemovedHas(l.negative, d.addr);
    hide Has, Removed, Distinct;
  }

  lemma FiledMeans(l: Lists, d: Device, facts: Facts)
    requires !Has(l.negative, d.addr)
    ensures var l' := Filed(l, d, facts);
            && (Has(l'.common, d.addr) <==> Has(l.common, d.addr) || GoesToCommon(facts))
            && (Has(l'.negative, d.addr) <==> GoesToNegative(facts))
            && (Has(l'.privacy, d.addr) <==> Has(l.privacy, d.addr) || GoesToPrivacy(facts))
            && l.common <= l'.common && l.privacy <= l'.privacy
            && l' == l.(common := l'.common, negative := l'.negative, privacy := l'.privacy)
  {
    AddedHas(l.privacy, d);
    AddedHas(l.common, d);
    AddedHas(l.negative, d);
    hide Has, Added, Distinct;
  }

  /** Filing puts the device into the list of its category and takes it out of none but the connecting and negative
      ones. */
  lemma FilingMeans(p: Profile, l: Lists, d: Device, facts: Facts)
    requires Inv(l)
    ensures var (l', desc) := ConnectInner(p, l, d, facts);
            var home := !NoProfile(p, facts);
            && (Has(l'.common, d.addr) <==> Has(l.common, d.addr) || (home && GoesToCommon(facts)))
            && (Has(l'.negative, d.addr) <==> home && GoesToNegative(facts))
            && (Has(l'.privacy, d.addr) <==> Has(l.privacy, d.addr) || (home && GoesToPrivacy(facts)))
            && !Has(l'.connecting, d.addr)
            && l.common <= l'.common && l.privacy <= l'.privacy
            && l'.virtuals == l.virtuals && l'.connected == l.connected && l'.wear == l.wear
            && (if home then desc.addr == d.addr && ToldAs(desc.category, facts) else desc == Descriptor("", Default))
  {
    TakenOutMeans(l, d);
    FiledMeans(TakenOut(l, d), d, facts);
    hide Has, TakenOut, Filed, Inv, GoesToCommon, GoesToNegative, GoesToPrivacy;
  }

  /** A device that connects is entered in the map, filed into exactly the list of its category, and told once, under the
      category it passes for.  Without a hands-free profile it is filed nowhere and told without one. */
  lemma ConnectFiles(p: Profile, l: Lists, d: Device, facts: Facts)
    requires Inv(l) && d.addr !in l.connected
    ensures var (l', told) := Handle(p, l, d, Connect, facts);
            var home := !NoProfile(p, facts);
            && l'.connected == l.connected[d.addr := d] && l'.wear == l.wear && l'.virtuals == l.virtuals
            && (Has(l'.common, d.addr) <==> home && GoesToCommon(facts))
            && (Has(l'.negative, d.addr) <==> home && GoesToNegative(facts))
            && (Has(l'.privacy, d.addr) <==> home && GoesToPrivacy(facts))
            && !Has(l'.connecting, d.addr)
            && |told| == 1 && told[0].Status? && told[0].addr == d.addr && told[0].connected
            && (if home then ToldAs(told[0].category, facts) else told[0].category == Default)
  {
    FilingMeans(p, l, d, facts);
    hide Has, ConnectInner, Distinct;
  }

  /** The three lists divide what there is to file. */
  lemma OneHome(facts: Facts)
    ensures GoesToCommon(facts) || GoesToNegative(facts) || GoesToPrivacy(facts)
    ensures !(GoesToCommon(facts) && GoesToNegative(facts)) && !(GoesToCommon(facts) && GoesToPrivacy(facts))
    ensures !(GoesToNegative(facts) && GoesToPrivacy(facts))
  {
  }

  /** A connected device whose category is updated is filed again, but not taken out of the privacy and common lists: it
      is in two lists afterwards exactly if it was in one of those and now belongs elsewhere. */
  lemma CategoryUpdateFiles(p: Profile, l: Lists, d: Device, facts: Facts)
    requires Inv(l) && d.addr in l.connected
    ensures var l' := Handle(p, l, d, CategoryUpdate, facts).0;
            var home := !NoProfile(p, facts);
            && l'.connected == l.connected && l'.wear == l.wear && l'.virtuals == l.virtuals
            && (Has(l'.common, d.addr) <==> Has(l.common, d.addr) || (home && GoesToCommon(facts)))
            && (Has(l'.negative, d.addr) <==> home && GoesToNegative(facts))
            && (Has(l'.privacy, d.addr) <==> Has(l.privacy, d.addr) || (home && GoesToPrivacy(facts)))
            && (InTwo(l', d.addr) <==>
                  || (Has(l.privacy, d.addr) && Has(l.common, d.addr))
                  || (home && Has(l.privacy, d.addr) && !GoesToPrivacy(facts))
                  || (home && Has(l.common, d.addr) && !GoesToCommon(facts)))
  {
    FilingMeans(p, l, d, facts);
    OneHome(facts);
    hide Has, ConnectInner, Distinct, GoesToCommon, GoesToNegative, GoesToPrivacy;
  }

  predicate InTwo(l: Lists, addr: string) {
    || (Has(l.privacy, addr) && Has(l.common, addr))
    || (Has(l.privacy, addr) && Has(l.negative, addr))
    || (Has(l.common, addr) && Has(l.negative, addr))
  }

  /** A run in which that happens: a headphone connects and then turns out to be a car kit; it stays among the privacy
      devices. */
  lemma CarKitStaysPrivate(d: Device)
    ensures var headphone := Facts(Headphone, false, false, true);
            var l := Handle(A2dp, EMPTY, d, Connect, headphone).0;
            var l' := Handle(A2dp, l, d, CategoryUpdate, headphone.(category := Car)).0;
            Has(l'.privacy, d.addr) && Has(l'.common, d.addr)
  {
    var headphone := Facts(Headphone, false, false, true);
    ConnectFiles(A2dp, EMPTY, d, headphone);
    HandleKeeps(A2dp, EMPTY, d, Connect, headphone);
    var l := Handle(A2dp, EMPTY, d, Connect, headphone).0;
    hide Handle, Has, Inv;
    CategoryUpdateFiles(A2dp, l, d, headphone.(category := Car));
  }

  // ---------------------------------------------------------------- by wear reports

  /** A wear report of a connected device files it as worn or unworn, out of the other of the two lists, and is
      remembered; one of a device that is not connected is ignored. */
  lemma WearReportFiles(p: Profile, l: Lists, d: Device, worn: bool, facts: Facts)
    requires Inv(l)
    ensures var (l', told) := Handle(p, l, d, if worn then WearOn else WearOff, facts);
            if d.addr !in l.connected then l' == l && told == []
            else
              && (Has(l'.privacy, d.addr) <==> worn) && (Has(l'.negative, d.addr) <==> !worn)
              && l'.wear == l.wear[d.addr := if worn then Worn else Unworn]
              && l' == l.(privacy := l'.privacy, negative := l'.negative, wear := l'.wear)
  {
    if d.addr in l.connected {
      RefileKeeps(l, d);
    }
    hide Has, Added, Removed, Distinct;
  }

  /** Switching wear detection files a connected device by what the wear map holds, or as worn when it goes off; nothing is
      reported, so the map stays. */
  lemma DetectionFiles(p: Profile, l: Lists, d: Device, on: bool, facts: Facts)
    requires Inv(l)
    ensures var (l', told) := Handle(p, l, d, if on then WearEnable else WearDisable, facts);
            var worn := !on || (d.addr in l.wear && l.wear[d.addr] == Worn);
            if d.addr !in l.connected then l' == l && told == []
            else
              && (Has(l'.privacy, d.addr) <==> worn) && (Has(l'.negative, d.addr) <==> !worn)
              && l' == l.(privacy := l'.privacy, negative := l'.negative)
  {
    if d.addr in l.connected {
      RefileKeeps(l, d);
    }
    hide Has, Added, Removed, Distinct;
  }

  /** A connecting device is listed as such unless it is connected; a virtual one as virtual and negative, until it is
      removed. */
  lemma WaitingFiles(p: Profile, l: Lists, d: Device, facts: Facts)
    requires Inv(l)
    ensures var (l1, told1) := Handle(p, l, d, Connecting, facts);
            && (Has(l1.connecting, d.addr) <==> d.addr !in l.connected)
            && l1 == l.(connecting := l1.connecting) && told1 == []
    ensures var (l2, told2) := Handle(p, l, d, VirtualAdd, facts);
            && Has(l2.virtuals, d.addr) && Has(l2.negative, d.addr)
            && l2 == l.(virtuals := l2.virtuals, negative := l2.negative)
            && told2 == [VirtualStatus(d.addr, facts.category, true)]
    ensures var (l3, told3) := Handle(p, l, d, VirtualRemove, facts);
            && !Has(l3.virtuals, d.addr) && !Has(l3.negative, d.addr)
            && l3 == l.(virtuals := l3.virtuals, negative := l3.negative)
            && told3 == [VirtualStatus(d.addr, Default, false)]
  {
    AddedHas(l.connecting, d);
    AddedHas(l.virtuals, d);
    AddedHas(l.negative, d);
    RemovedHas(l.virtuals, d.addr);
    RemovedHas(l.negative, d.addr);
    hide Has, Added, Removed, Distinct;
  }

  // ---------------------------------------------------------------- other devices

  ghost predicate SameElsewhere(v: seq<Device>, v': seq<Device>, addr: string) {
    forall a :: a != addr ==> (Has(v, a) <==> Has(v', a))
  }

  ghost predicate SameMapElsewhere(m: map<string, Device>, m': map<string, Device>, addr: string) {
    forall a :: a != addr ==> (a in m <==> a in m') && (a in m ==> m[a] == m'[a])
  }

  /** Apart from one device the lists and the map of connected devices are the same. */
  ghost predicate SameOthers(l: Lists, l': Lists, addr: string) {
    && SameElsewhere(l.privacy, l'.privacy, addr) && SameElsewhere(l.common, l'.common, addr)
    && SameElsewhere(l.negative, l'.negative, addr) && SameElsewhere(l.connecting, l'.connecting, addr)
    && SameElsewhere(l.virtuals, l'.virtuals, addr)
    && SameMapElsewhere(l.connected, l'.connected, addr)
  }

  lemma SameOthersChain(l1: Lists, l2: Lists, l3: Lists, addr: string)
    requires SameOthers(l1, l2, addr) && SameOthers(l2, l3, addr)
    ensures SameOthers(l1, l3, addr)
  {
    hide Has;
  }

  lemma Unmoved(l: Lists, addr: string)
    ensures SameOthers(l, l, addr)
  {
    hide Has;
  }

  lemma MapStays(m: map<string, Device>, d: Device)
    ensures SameMapElsewhere(m, m, d.addr) && SameMapElsewhere(m, m[d.addr := d], d.addr)
    ensures SameMapElsewhere(m, m - {d.addr}, d.addr)
  {
  }

  lemma StaysElsewhere(v: seq<Device>, d: Device)
    ensures SameElsewhere(v, Added(v, d), d.addr)
    ensures Distinct(v) ==>
              SameElsewhere(v, Removed(v, d.addr), d.addr)
              && SameElsewhere(v, Added(Removed(v, d.addr), d), d.addr)
  {
    AddedHas(v, d);
    AddedHas(Removed(v, d.addr), d);
    if Distinct(v) {
      RemovedHas(v, d.addr);
    }
    hide Has, Added, Removed, Distinct;
  }

  lemma FiledStays(l: Lists, d: Device, facts: Facts)
    ensures SameOthers(l, Filed(l, d, facts), d.addr)
  {
    Unmoved(l, d.addr);
    StaysElsewhere(l.privacy, d);
    StaysElsewhere(l.common, d);
    StaysElsewhere(l.negative, d);
    hide Added, Removed, Distinct, SameElsewhere, SameMapElsewhere;
  }

  lemma FilingStays(p: Profile, l: Lists, d: Device, facts: Facts)
    requires Inv(l)
    ensures SameOthers(l, ConnectInner(p, l, d, facts).0, d.addr)
  {
    Unmoved(l, d.addr);
    StaysElsewhere(l.connecting, d);
    StaysElsewhere(l.negative, d);
    assert SameOthers(l, TakenOut(l, d), d.addr) by {
      hide Has, Added, Removed, Distinct, SameElsewhere, SameMapElsewhere;
    }
    FiledStays(TakenOut(l, d), d, facts);
    SameOthersChain(l, TakenOut(l, d), Filed(TakenOut(l, d), d, facts), d.addr);
    hide Inv, SameOthers, TakenOut, Filed;
  }

  lemma ListsStay(l: Lists, d: Device)
    requires Inv(l)
    ensures SameOthers(l, ConnectingDevice(l, d), d.addr)
    ensures SameOthers(l, ToPrivacy(l, d), d.addr) && SameOthers(l, ToNegative(l, d), d.addr)
    ensures forall facts :: SameOthers(l, VirtualConnect(l, d, facts).0, d.addr)
    ensures SameOthers(l, VirtualDisconnect(l, d).0, d.addr)
  {
    Unmoved(l, d.addr);
    StaysElsewhere(l.privacy, d);
    StaysElsewhere(l.negative, d);
    StaysElsewhere(l.connecting, d);
    StaysElsewhere(l.virtuals, d);
    assert Distinct(l.privacy) && Distinct(l.negative) && Distinct(l.connecting) && Distinct(l.virtuals);
    hide Inv, Has, Added, Removed, Distinct, SameElsewhere, SameMapElsewhere;
  }

  lemma DisconnectStays(l: Lists, d: Device)
    requires Inv(l)
    ensures SameOthers(l, DisconnectDevice(l, d).0, d.addr)
  {
    Unmoved(l, d.addr);
    MapStays(l.connected, d);
    StaysElsewhere(l.privacy, d);
    StaysElsewhere(l.common, d);
    StaysElsewhere(l.negative, d);
    StaysElsewhere(l.connecting, d);
    assert Distinct(l.privacy) && Distinct(l.common) && Distinct(l.negative) && Distinct(l.connecting);
    hide Inv, Has, Added, Removed, Distinct, SameElsewhere, SameMapElsewhere;
  }

  lemma ConnectStays(p: Profile, l: Lists, d: Device, facts: Facts)
    requires Inv(l)
    ensures SameOthers(l, ConnectDevice(p, l, d, facts).0, d.addr)
  {
    Unmoved(l, d.addr);
    FilingStays(p, l, d, facts);
    ConnectInnerMap(p, l, d, facts);
    MapStays(l.connected, d);
    hide Inv, ConnectInner, SameElsewhere, SameMapElsewhere;
  }

  /** No action moves any other device: each list keeps the others, and so does the map of connected devices. */
  lemma OthersStay(p: Profile, l: Lists, d: Device, a: Action, facts: Facts)
    requires Inv(l)
    ensures SameOthers(l, Handle(p, l, d, a, facts).0, d.addr)
  {
    hide Inv, ConnectInner, Scan, SameElsewhere, SameMapElsewhere, ToPrivacy, ToNegative, ConnectingDevice,
      DisconnectDevice, ConnectDevice, VirtualConnect, VirtualDisconnect, Update, EnableDevice;
    Unmoved(l, d.addr);
    ListsStay(l, d);
    DisconnectStays(l, d);
    ConnectStays(p, l, d, facts);
    FilingStays(p, l, d, facts);
  }

  // ---------------------------------------------------------------- what is told

  /** The category a device is told to have now, if an action tells one. */
  ghost predicate Retold(p: Profile, l: Lists, d: Device, a: Action, facts: Facts, c: Category) {
    match a
    case WearOn => c == Headphone
    case WearDisable => c == Headphone
    case WearOff => c == UnwearHeadphone
    case WearEnable => c == if d.addr in l.wear && l.wear[d.addr] == Worn then Headphone else UnwearHeadphone
    case CategoryUpdate => if TakenForUnworn(facts) && facts.wearing then c == Headphone else ToldAs(c, facts)
    case _ => false
  }

  /** Category updates are told of connected devices only, and of no other device; with its profile gone, a device whose
      category is updated is told without address and category. */
  lemma CategoryTold(p: Profile, l: Lists, d: Device, a: Action, facts: Facts, addr: string, c: Category)
    ensures CategoryUpdated(addr, c) in Handle(p, l, d, a, facts).1 <==>
            d.addr in l.connected &&
            if a == CategoryUpdate && NoProfile(p, facts) then addr == "" && c == Default
            else addr == d.addr && Retold(p, l, d, a, facts, c)
  {
    hide Filed, TakenOut, ToPrivacy, ToNegative, Scan, Removed, Added;
  }

  /** Enabling and disabling changes no list and is told of connected devices only. */
  lemma EnableTold(p: Profile, l: Lists, d: Device, a: Action, facts: Facts, addr: string, enabled: bool)
    ensures EnableUpdated(addr, enabled) in Handle(p, l, d, a, facts).1 <==>
            d.addr in l.connected && addr == d.addr && a == if enabled then Enable else Disable
    ensures a == Enable || a == Disable ==> Handle(p, l, d, a, facts).0 == l
  {
    hide Filed, TakenOut, ToPrivacy, ToNegative, Scan, Removed, Added;
  }

  /** The call link of a device is dropped by the hands-free side alone, and exactly when the end of a virtual call is
      asked for, or the device, being connected, is disabled, reported unworn, or filed as unworn again because its wear
      detection is switched on or its category updated while it is not known, or not found, to be worn. */
  lemma LinkDroppedWhen(p: Profile, l: Lists, d: Device, a: Action, facts: Facts, addr: string)
    ensures DropLink(addr) in Handle(p, l, d, a, facts).1 <==>
            && p == Hfp && addr == d.addr
            && (a == StopVirtualCall
                || (d.addr in l.connected
                    && (a == Disable || a == WearOff
                        || (a == WearEnable && !(d.addr in l.wear && l.wear[d.addr] == Worn))
                        || (a == CategoryUpdate && facts.profilePresent && TakenForUnworn(facts) && !facts.wearing))))
  {
    hide Filed, TakenOut, ToPrivacy, ToNegative, Scan, Removed, Added;
  }
}

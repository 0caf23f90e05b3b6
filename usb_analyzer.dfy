/** scripts/bin/usb_analyzer.py: the choice of USB block devices from the `lsblk` device
    tree, the text bars of the report, the accounting of a directory scan over the files it
    visits, and the de-duplicated, size-ordered list of devices to report. Running `lsblk`,
    walking the file system and printing are not part of this model: the device tree and the
    visited files are inputs. */
module UsbAnalyzer {
  import opened PyNum
  import opened PySort
  import opened PyStr

  // ---------------------------------------------------------------- the device tree

  /** One block device of `lsblk -J` output. Fields the program reads with `dev.get(..)`
      are the empty string when absent or null, which the program treats alike; a missing
      `children` list is the empty list. `size` is `None` when it is a string `int()` cannot
      parse, and a missing or null size is `Some(0)`. */
  datatype Device = Device(name: string, tran: string, mountpoint: string, size: Option<int>, children: seq<Device>)

  /** The USB devices among `devs` and their descendants, in pre-order: a device counts when
      it or one of its ancestors (`parentUsb`) has transport `usb`. */
  function UsbIn(devs: seq<Device>, parentUsb: bool): seq<Device>
    decreases devs
  {
    if devs == [] then []
    else
      var isUsb := parentUsb || devs[0].tran == "usb";
      (if isUsb then [devs[0]] else []) + UsbIn(devs[0].children, isUsb) + UsbIn(devs[1..], parentUsb)
  }

  /** The walk of a forest splits at any point of the top-level list. */
  lemma {:induction false} UsbInAppend(a: seq<Device>, b: seq<Device>, parentUsb: bool)
    ensures UsbIn(a + b, parentUsb) == UsbIn(a, parentUsb) + UsbIn(b, parentUsb)
    decreases |a|
  {
    if a == [] {
      assert a + b == b;
    } else {
      assert (a + b)[0] == a[0];
      assert (a + b)[1..] == a[1..] + b;
      UsbInAppend(a[1..], b, parentUsb);
    }
  }

  /** One more device of the top-level list adds it (when it counts) and then what its
      children add. */
  lemma UsbInSnoc(devs: seq<Device>, i: int, parentUsb: bool)
    requires 0 <= i < |devs|
    ensures var isUsb := parentUsb || devs[i].tran == "usb";
      UsbIn(devs[..i + 1], parentUsb) == UsbIn(devs[..i], parentUsb) + ((if isUsb then [devs[i]] else []) + UsbIn(devs[i].children, isUsb))
  {
    var dev := devs[i];
    var isUsb := parentUsb || dev.tran == "usb";
    assert devs[..i + 1] == devs[..i] + [dev];
    UsbInAppend(devs[..i], [dev], parentUsb);
    assert [dev][1..] == [];
    assert UsbIn([dev], parentUsb) == (if isUsb then [dev] else []) + UsbIn(dev.children, isUsb) + [];
  }

  /** `recurse_devices(devices, is_usb_parent)`: the loop over the devices, descending into
      each device's children, appending to the list `acc` being built. */
  method RecurseDevices(devs: seq<Device>, parentUsb: bool, acc: seq<Device>) returns (r: seq<Device>)
    ensures r == acc + UsbIn(devs, parentUsb)
    decreases devs
  {
    r := acc;
    for i := 0 to |devs|
      invariant r == acc + UsbIn(devs[..i], parentUsb)
    {
      var dev := devs[i];
      var isUsb := parentUsb || dev.tran == "usb";
      if isUsb {
        r := r + [dev];
      }
      r := RecurseDevices(dev.children, isUsb, r);
      UsbInSnoc(devs, i, parentUsb);
    }
    assert devs[..|devs|] == devs;
  }

  /** `find_usb_devices(lsblk_data)`, where `blockdevices` is `None` when the data is empty
      or has no `blockdevices` entry: nothing then, else the USB walk of the whole tree. */
  method FindUsbDevices(blockdevices: Option<seq<Device>>) returns (usb: seq<Device>)
    ensures blockdevices.None? ==> usb == []
    ensures blockdevices.Some? ==> usb == UsbIn(blockdevices.value, false)
  {
    if blockdevices.None? {
      return [];
    }
    usb := RecurseDevices(blockdevices.value, false, []);
  }

  // ---------------------------------------------------------------- what the walk finds

  /** Some device of a line of ancestors uses the USB transport. */
  predicate AnyUsb(line: seq<Device>) {
    exists i :: 0 <= i < |line| && line[i].tran == "usb"
  }

  /** Every device of the forest `devs` in pre-order, each with its line of ancestors
      (`above` for the top level). */
  function Walk(devs: seq<Device>, above: seq<Device>): seq<(Device, seq<Device>)>
    decreases devs
  {
    if devs == [] then []
    else [(devs[0], above)] + Walk(devs[0].children, above + [devs[0]]) + Walk(devs[1..], above)
  }

  /** A device on the walk is on a USB line when it or one of its ancestors uses USB. */
  predicate OnUsbLine(e: (Device, seq<Device>)) {
    AnyUsb(e.1 + [e.0])
  }

  function Devices(es: seq<(Device, seq<Device>)>): (r: seq<Device>)
    ensures |r| == |es| && forall i :: 0 <= i < |es| ==> r[i] == es[i].0
  {
    if es == [] then [] else [es[0].0] + Devices(es[1..])
  }

  lemma {:induction false} DevicesAppend(a: seq<(Device, seq<Device>)>, b: seq<(Device, seq<Device>)>)
    ensures Devices(a + b) == Devices(a) + Devices(b)
  {
  }

  lemma AnyUsbSnoc(line: seq<Device>, d: Device)
    ensures AnyUsb(line + [d]) <==> AnyUsb(line) || d.tran == "usb"
  {
    if AnyUsb(line) {
      var i :| 0 <= i < |line| && line[i].tran == "usb";
      assert (line + [d])[i] == line[i];
    }
    if AnyUsb(line + [d]) {
      var i :| 0 <= i < |line + [d]| && (line + [d])[i].tran == "usb";
      if i < |line| {
        assert line[i] == (line + [d])[i];
      }
    }
    if d.tran == "usb" {
      assert (line + [d])[|line|] == d;
    }
  }

  /** `find_usb_devices` reports exactly the devices that use USB or hang below one that
      does, each once, in pre-order: the walk of every device with the devices not on a USB
      line taken out. */
  lemma {:induction false} UsbInIsUsbLines(devs: seq<Device>, above: seq<Device>)
    ensures UsbIn(devs, AnyUsb(above)) == Devices(Filter(Walk(devs, above), OnUsbLine))
    decreases devs
  {
    if devs != [] {
      var d := devs[0];
      var isUsb := AnyUsb(above) || d.tran == "usb";
      AnyUsbSnoc(above, d);
      UsbInIsUsbLines(d.children, above + [d]);
      UsbInIsUsbLines(devs[1..], above);
      var head := [(d, above)];
      var kids := Walk(d.children, above + [d]);
      var rest := Walk(devs[1..], above);
      assert Walk(devs, above) == head + kids + rest;
      FilterAppend(head + kids, rest, OnUsbLine);
      FilterAppend(head, kids, OnUsbLine);
      assert OnUsbLine((d, above)) == isUsb;
      assert Filter(head, OnUsbLine) == if isUsb then head else [];
      var fh, fk, fr := Filter(head, OnUsbLine), Filter(kids, OnUsbLine), Filter(rest, OnUsbLine);
      DevicesAppend(fh + fk, fr);
      DevicesAppend(fh, fk);
      assert Devices(fh) == if isUsb then [d] else [];
    }
  }

  /** The tree of the program's own test: a SATA disk `sda` with partition `sda1`, and a
      USB stick `sdb` with the mounted partition `sdb1`. Exactly `sdb` and `sdb1` are
      reported. */
  lemma FindsTestStick()
    ensures var sda1 := Device("sda1", "sata", "", Some(0), []);
      var sda := Device("sda", "sata", "", Some(0), [sda1]);
      var sdb1 := Device("sdb1", "usb", "/run/media/user/USBSTICK", Some(1024000), []);
      var sdb := Device("sdb", "usb", "", Some(0), [sdb1]);
      UsbIn([sda, sdb], false) == [sdb, sdb1]
  {
    var sda1 := Device("sda1", "sata", "", Some(0), []);
    var sda := Device("sda", "sata", "", Some(0), [sda1]);
    var sdb1 := Device("sdb1", "usb", "/run/media/user/USBSTICK", Some(1024000), []);
    var sdb := Device("sdb", "usb", "", Some(0), [sdb1]);
    assert [sda, sdb][1..] == [sdb];
    assert [sdb][1..] == [];
    assert UsbIn([sda1], false) == [];
    assert UsbIn([sda], false) == [];
    assert UsbIn([sdb1], true) == [sdb1];
    assert UsbIn([sdb], false) == [sdb, sdb1];
  }

  // ---------------------------------------------------------------- the devices to report

  /** `main` reports a device that is mounted, and a leaf that is not. */
  predicate Reportable(d: Device) {
    d.mountpoint != "" || d.children == []
  }

  /** The names of a list of devices. */
  function NameSet(ds: seq<Device>): set<string> {
    set d | d in ds :: d.name
  }

  /** The devices of `ds` whose name no earlier device has, in order. */
  function FirstByName(ds: seq<Device>): seq<Device>
  {
    if ds == [] then []
    else
      var init := ds[..|ds| - 1];
      if ds[|ds| - 1].name in NameSet(init) then FirstByName(init) else FirstByName(init) + [ds[|ds| - 1]]
  }

  /** The key `get_size` sorts by: the size in bytes, and infinity for a size `int()`
      cannot parse. */
  function SizeKey(d: Device): Ext {
    match d.size
    case Some(n) => Fin(n)
    case None => PosInf
  }

  /** The devices `main` reports, in the order it reports them. */
  function Selected(usb: seq<Device>): seq<Device> {
    SortBy(FirstByName(Filter(usb, Reportable)), SizeKey)
  }

  lemma NameSetSnoc(ds: seq<Device>, d: Device)
    ensures NameSet(ds + [d]) == NameSet(ds) + {d.name}
  {
    assert forall e :: e in ds + [d] <==> e in ds || e == d;
  }

  /** The first devices of a list grown by one device. */
  lemma FirstByNameSnoc(ds: seq<Device>, d: Device)
    ensures FirstByName(ds + [d]) == if d.name in NameSet(ds) then FirstByName(ds) else FirstByName(ds) + [d]
  {
    assert (ds + [d])[..|ds|] == ds;
  }

  /** De-duplication keeps one device per name, every name, and only first occurrences. */
  lemma FirstByNameSpec(ds: seq<Device>)
    ensures var r := FirstByName(ds);
      && (forall i, j :: 0 <= i < j < |r| ==> r[i].name != r[j].name)
      && NameSet(r) == NameSet(ds)
      && (forall d :: d in r ==> d in ds)
      && (forall i :: 0 <= i < |ds| && (forall j :: 0 <= j < i ==> ds[j].name != ds[i].name) ==> ds[i] in r)
  {
    FirstByNameNames(ds);
    FirstByNameKeepsFirst(ds);
  }

  /** The kept devices have distinct names, every name of the list among them, and come
      from the list. */
  lemma {:induction false} FirstByNameNames(ds: seq<Device>)
    ensures var r := FirstByName(ds);
      && (forall i, j :: 0 <= i < j < |r| ==> r[i].name != r[j].name)
      && NameSet(r) == NameSet(ds)
      && (forall d :: d in r ==> d in ds)
    decreases |ds|
  {
    if ds != [] {
      var init := ds[..|ds| - 1];
      var d := ds[|ds| - 1];
      FirstByNameNames(init);
      assert ds == init + [d];
      NameSetSnoc(init, d);
      var r0 := FirstByName(init);
      if d.name !in NameSet(init) {
        NameSetSnoc(r0, d);
        forall i, j | 0 <= i < j < |r0 + [d]| ensures (r0 + [d])[i].name != (r0 + [d])[j].name {
          if j == |r0| {
            assert r0[i] in r0;
            assert r0[i].name in NameSet(r0);
          }
        }
      }
    }
  }

  /** Every device whose name no earlier device has is kept. */
  lemma {:induction false} FirstByNameKeepsFirst(ds: seq<Device>)
    ensures forall i :: 0 <= i < |ds| && (forall j :: 0 <= j < i ==> ds[j].name != ds[i].name) ==> ds[i] in FirstByName(ds)
    decreases |ds|
  {
    if ds != [] {
      var init := ds[..|ds| - 1];
      var d := ds[|ds| - 1];
      FirstByNameKeepsFirst(init);
      assert ds == init + [d];
      forall i | 0 <= i < |ds| - 1 && (forall j :: 0 <= j < i ==> ds[j].name != ds[i].name)
        ensures ds[i] in FirstByName(ds)
      {
        assert init[i] == ds[i];
        assert forall j :: 0 <= j < i ==> init[j].name != init[i].name;
      }
    }
  }

  /** One more device joins the reportable ones exactly when it is reportable. */
  lemma ReportStep(usb: seq<Device>, i: nat)
    requires i < |usb|
    ensures Filter(usb[..i + 1], Reportable) == Filter(usb[..i], Reportable) + (if Reportable(usb[i]) then [usb[i]] else [])
  {
    assert usb[..i + 1] == usb[..i] + [usb[i]];
    FilterSnoc(usb[..i], usb[i], Reportable);
  }

  /** The first loop of `main`: the devices that are mounted, and the leaves that are not. */
  method ToReport(usb: seq<Device>) returns (toReport: seq<Device>)
    ensures toReport == Filter(usb, Reportable)
  {
    toReport := [];
    for i := 0 to |usb|
      invariant toReport == Filter(usb[..i], Reportable)
    {
      var dev := usb[i];
      ReportStep(usb, i);
      if dev.mountpoint != "" {
        toReport := toReport + [dev];
      } else if dev.children == [] && dev.mountpoint == "" {
        toReport := toReport + [dev];
      }
    }
    assert usb[..|usb|] == usb;
  }

  /** The `seen_names` loop of `main`: the first device of each name, in order. */
  method UniqueByName(ds: seq<Device>) returns (unique: seq<Device>)
    ensures unique == FirstByName(ds)
  {
    unique := [];
    var seen: set<string> := {};
    for i := 0 to |ds|
      invariant unique == FirstByName(ds[..i]) && seen == NameSet(ds[..i])
    {
      var d := ds[i];
      assert ds[..i + 1] == ds[..i] + [d];
      NameSetSnoc(ds[..i], d);
      FirstByNameSnoc(ds[..i], d);
      if d.name !in seen {
        unique := unique + [d];
        seen := seen + {d.name};
      }
    }
    assert ds[..|ds|] == ds;
  }

  /** `main`'s selection: the reportable USB devices, the first device of each name,
      sorted stably by size (`unique_devices.sort`). */
  method SelectDevices(usb: seq<Device>) returns (devices: seq<Device>)
    ensures devices == Selected(usb)
  {
    var toReport := ToReport(usb);
    var unique := UniqueByName(toReport);
    devices := SortBy(unique, SizeKey);
  }

  /** Sorting by size keeps the devices and orders them, smallest first and unparsable
      sizes last. */
  lemma SelectedOrder(usb: seq<Device>)
    ensures SortedBy(Selected(usb), SizeKey)
    ensures multiset(Selected(usb)) == multiset(FirstByName(Filter(usb, Reportable)))
  {
    SortBySorted(FirstByName(Filter(usb, Reportable)), SizeKey);
  }

  /** Devices of one size `k` keep the order in which they were found. */
  lemma SelectedStable(usb: seq<Device>, k: Ext)
    ensures Filter(Selected(usb), KeyIs(SizeKey, k)) == Filter(FirstByName(Filter(usb, Reportable)), KeyIs(SizeKey, k))
  {
    SortByStable(FirstByName(Filter(usb, Reportable)), SizeKey, k);
  }

  /** Two devices of one list with one name are one device. */
  lemma SameNameSameDevice(u: seq<Device>, x: Device, y: Device)
    requires forall i, j :: 0 <= i < j < |u| ==> u[i].name != u[j].name
    requires x in u && y in u && x.name == y.name
    ensures x == y
  {
    var a :| 0 <= a < |u| && u[a] == x;
    var b :| 0 <= b < |u| && u[b] == y;
    assert !(a < b) && !(b < a);
  }

  /** The report lists every reportable USB device's name once and no other device. */
  lemma SelectedNames(usb: seq<Device>)
    ensures var r := Selected(usb);
      && (forall i, j :: 0 <= i < j < |r| ==> r[i].name != r[j].name)
      && NameSet(r) == NameSet(Filter(usb, Reportable))
      && (forall d :: d in r ==> d in usb && Reportable(d))
  {
    var u := FirstByName(Filter(usb, Reportable));
    var r := Selected(usb);
    FirstByNameSpec(Filter(usb, Reportable));
    SelectedOrder(usb);
    assert forall d :: d in r <==> d in u by {
      assert forall d :: d in r <==> d in multiset(r);
      assert forall d :: d in u <==> d in multiset(u);
    }
    assert Distinct(u);
    DistinctPermutation(u, r);
    forall i, j | 0 <= i < j < |r| && r[i].name == r[j].name ensures false {
      SameNameSameDevice(u, r[i], r[j]);
    }
    assert NameSet(r) == NameSet(u);
  }

}

/** Facts of ordered-field and integer arithmetic the bar lemmas use. */
module BarArith {
  lemma RealLeFromProduct(a: real, b: real, m: real)
    requires m > 0.0 && a * m <= b * m
    ensures a <= b
  {
  }

  lemma RealLtFromProduct(a: real, b: real, m: real)
    requires m > 0.0 && a * m < b * m
    ensures a < b
  {
  }

  lemma DivTimes(c: int, m: int, w: int)
    requires m > 0
    ensures ((c as real / m as real) * w as real) * m as real == (c * w) as real
  {
  }

  lemma ShareTimes(c: int, m: int)
    requires m > 0
    ensures (c as real / m as real) * m as real == c as real
  {
  }

  lemma CastMul(a: int, b: int)
    ensures (a * b) as real == a as real * b as real
  {
  }

  lemma RealMulMono(a: real, b: real, w: real)
    requires a <= b && w >= 0.0
    ensures a * w <= b * w
  {
  }

  lemma ScaledShareMono(c1: int, c2: int, m: int, w: int)
    requires c1 <= c2 && m > 0 && w >= 0
    ensures (c1 as real / m as real) * w as real <= (c2 as real / m as real) * w as real
  {
    var q1 := c1 as real / m as real;
    var q2 := c2 as real / m as real;
    ShareTimes(c1, m);
    ShareTimes(c2, m);
    RealLeFromProduct(q1, q2, m as real);
    RealMulMono(q1, q2, w as real);
  }
}

/** The text bars of scripts/bin/usb_analyzer.py's report. */
module UsbBars {
  import opened PyNum
  import opened PyStr
  import opened BarArith

  /** How many of `width` cells a bar for `count` out of `maxCount` fills:
      `int((count / max_count) * width)`, and none when `max_count` is 0. */
  function Filled(count: int, maxCount: int, width: int): int {
    if maxCount == 0 then 0 else Trunc((count as real / maxCount as real) * width as real)
  }

  const FULL: char := '\U{2588}'
  const EMPTY: char := '\U{2591}'

  /** `draw_bar(count, max_count, width)`: `filled` full blocks, then light shade up to
      `width`; Python's repetition by a negative count gives the empty string. */
  function DrawBar(count: int, maxCount: int, width: int): (bar: string)
    ensures 0 <= count <= maxCount && width >= 0 ==>
      |bar| == width && forall i :: 0 <= i < width ==> (bar[i] == FULL <==> i < Filled(count, maxCount, width))
  {
    var filled := Filled(count, maxCount, width);
    FilledInRange(count, maxCount, width);
    Repeat(FULL, Max(0, filled)) + Repeat(EMPTY, Max(0, width - filled))
  }

  /** With exact arithmetic, a bar fills the floor of `count * width / max_count` cells. */
  lemma FilledIsDiv(count: int, maxCount: int, width: int)
    requires count >= 0 && maxCount > 0 && width >= 0
    ensures Filled(count, maxCount, width) == (count * width) / maxCount
  {
    var r := (count as real / maxCount as real) * width as real;
    var k := (count * width) / maxCount;
    DivTimes(count, maxCount, width);
    assert k * maxCount <= count * width < (k + 1) * maxCount;
    CastMul(k, maxCount);
    CastMul(k + 1, maxCount);
    RealLeFromProduct(k as real, r, maxCount as real);
    RealLtFromProduct(r, (k + 1) as real, maxCount as real);
  }

  /** The share `count / max_count` of a count between 0 and a positive maximum is
      between 0 and 1. */
  lemma ShareInRange(count: int, maxCount: int)
    requires 0 <= count <= maxCount && maxCount > 0
    ensures 0.0 <= count as real / maxCount as real <= 1.0
  {
    var q := count as real / maxCount as real;
    ShareTimes(count, maxCount);
    RealLeFromProduct(0.0, q, maxCount as real);
    RealLeFromProduct(q, 1.0, maxCount as real);
  }

  /** For a count between 0 and the maximum a bar fills between none and all of its cells. */
  lemma FilledInRange(count: int, maxCount: int, width: int)
    ensures 0 <= count <= maxCount && width >= 0 ==> 0 <= Filled(count, maxCount, width) <= width
  {
    if 0 <= count <= maxCount && width >= 0 && maxCount != 0 {
      var q := count as real / maxCount as real;
      ShareInRange(count, maxCount);
      RealMulMono(0.0, q, width as real);
      RealMulMono(q, 1.0, width as real);
      assert 1.0 * width as real == width as real;
      TruncMono(0.0, q * width as real);
      TruncMono(q * width as real, width as real);
    }
  }

  /** The maximum fills the whole bar and a count of 0 none of it. */
  lemma BarEnds(maxCount: int, width: int)
    requires maxCount > 0 && width >= 0
    ensures DrawBar(maxCount, maxCount, width) == Repeat(FULL, width)
    ensures DrawBar(0, maxCount, width) == Repeat(EMPTY, width)
  {
    ShareTimes(maxCount, maxCount);
    assert maxCount as real / maxCount as real == 1.0;
    assert Filled(maxCount, maxCount, width) == width;
    assert Filled(0, maxCount, width) == 0;
  }

  /** A larger count never fills fewer cells. */
  lemma BarMonotone(c1: int, c2: int, maxCount: int, width: int)
    requires 0 <= c1 <= c2 && maxCount > 0 && width >= 0
    ensures Filled(c1, maxCount, width) <= Filled(c2, maxCount, width)
  {
    ScaledShareMono(c1, c2, maxCount, width);
    TruncMono((c1 as real / maxCount as real) * width as real, (c2 as real / maxCount as real) * width as real);
  }
}

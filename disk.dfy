/** The `Disks` node: the device nodes listed by `ls -1d /dev/sd[a-z]` as
    its description, and one detail line per record read from the
    `smartctl -i` report of each device.

    The reports of all devices are read by one loop whose state (the
    `parsing` flag, the open record and the list of records) is shared: a
    report that ends inside a block leaves that block open for the next
    device. A capacity without a bracketed part raises inside the `try`,
    and the records completed so far are returned. */
module Disk {
  import opened Outcomes
  import opened PyStr
  import opened BlockParser
  import opened Report

  /** Blocks open on a line containing "START OF INFORMATION"; fields are
      split at the first ':' and their value is stripped. */
  const Format := BlockFormat(LineHas("START OF INFORMATION"), ":", SmartctlFields)

  /** `disk['node'] = i`, merged into a record when it is completed. */
  function Stamp(node: string): Record {
    map["node" := node]
  }

  /** The loop state after the reports of `nodes`, in order; `smartctl`
      gives the stripped lines of the report of one device. */
  function ScanDevices(nodes: seq<string>, smartctl: string -> seq<string>): (r: Parser)
    ensures nodes != [] ==>
              var q := ScanDevices(nodes[..|nodes| - 1], smartctl);
              |q.done| <= |r.done| && r.done[..|q.done|] == q.done
    decreases |nodes|
  {
    if nodes == [] then Start
    else
      var last := nodes[|nodes| - 1];
      Scan(Format, Stamp(last), ScanDevices(nodes[..|nodes| - 1], smartctl), smartctl(last))
  }

  /** The list `disks_detail` returns: each record names the device whose
      report completed it and holds no key but the model, device, capacity
      and node. */
  function DisksDetail(nodes: seq<string>, smartctl: string -> seq<string>): (r: seq<Record>)
    ensures forall d :: d in r ==> d.Keys <= {"model", "device", "capacity", "node"} && "node" in d && d["node"] in nodes
  {
    RecordsTagged(nodes, smartctl);
    ScanDevices(nodes, smartctl).done
  }

  /** `disks_detail`: the outer loop over the devices. Each report continues
      from the state the previous one left; after a failed capacity the
      loop is left and the records so far are returned. */
  method ParseDisks(nodes: seq<string>, smartctl: string -> seq<string>) returns (disks: seq<Record>)
    ensures disks == DisksDetail(nodes, smartctl)
  {
    var p := Start;
    var k := 0;
    while k < |nodes|
      invariant 0 <= k <= |nodes|
      invariant p == ScanDevices(nodes[..k], smartctl) && !p.aborted
    {
      assert nodes[..k + 1][..k] == nodes[..k];
      p := Feed(Format, Stamp(nodes[k]), p, smartctl(nodes[k]));
      k := k + 1;
      if p.aborted {
        DevicesAfterAbort(nodes, smartctl, k);
        return p.done;
      }
    }
    assert nodes[..k] == nodes;
    disks := p.done;
  }

  /** Once a report has failed, the later devices add nothing. */
  lemma {:induction false} DevicesAfterAbort(nodes: seq<string>, smartctl: string -> seq<string>, k: nat)
    requires k <= |nodes| && ScanDevices(nodes[..k], smartctl).aborted
    ensures ScanDevices(nodes, smartctl) == ScanDevices(nodes[..k], smartctl)
    decreases |nodes|
  {
    if k < |nodes| {
      var n := |nodes| - 1;
      assert nodes[..n][..k] == nodes[..k];
      DevicesAfterAbort(nodes[..n], smartctl, k);
      AbortedStays(Format, Stamp(nodes[n]), ScanDevices(nodes[..n], smartctl), smartctl(nodes[n]));
    } else {
      assert nodes[..k] == nodes;
    }
  }

  /** Every record carries the node of the device whose report completed it,
      and otherwise only the model, device and capacity keys. */
  lemma {:induction false} RecordsTagged(nodes: seq<string>, smartctl: string -> seq<string>)
    ensures forall r :: r in ScanDevices(nodes, smartctl).done ==>
              r.Keys <= {"model", "device", "capacity", "node"} && "node" in r && r["node"] in nodes
    ensures ScanDevices(nodes, smartctl).acc.Keys <= {"model", "device", "capacity", "node"}
    decreases |nodes|
  {
    var keys := {"model", "device", "capacity", "node"};
    if nodes != [] {
      var n := |nodes| - 1;
      var p := ScanDevices(nodes[..n], smartctl);
      RecordsTagged(nodes[..n], smartctl);
      ScanKeys(Format, Stamp(nodes[n]), p, smartctl(nodes[n]), keys);
      ScanStamps(Format, Stamp(nodes[n]), p, smartctl(nodes[n]));
      var q := Scan(Format, Stamp(nodes[n]), p, smartctl(nodes[n]));
      forall r | r in q.done
        ensures "node" in r && r["node"] in nodes
      {
        var i :| 0 <= i < |q.done| && q.done[i] == r;
        if i < |p.done| {
          assert r == p.done[i];
          assert r in p.done;
          assert r["node"] in nodes[..n];
        } else {
          assert "node" in Stamp(nodes[n]);
        }
      }
    }
  }

  /** Over stripped reports every value but the node is stripped: the model
      and device are stripped explicitly and the capacity is bracketed. */
  lemma DiskValues(nodes: seq<string>, smartctl: string -> seq<string>)
    requires forall n, j :: 0 <= j < |smartctl(n)| ==> Stripped(smartctl(n)[j])
    ensures forall d, k :: d in DisksDetail(nodes, smartctl) && k in d && k != "node" ==> Stripped(d[k])
  {
    DeviceValues(nodes, smartctl);
    forall d | d in DisksDetail(nodes, smartctl)
      ensures forall k :: k in d && k != "node" ==> Stripped(d[k])
    {
      assert ShapedRecord(SmartctlFields, Stamp(""), d);
    }
  }

  lemma {:induction false} DeviceValues(nodes: seq<string>, smartctl: string -> seq<string>)
    requires forall n, j :: 0 <= j < |smartctl(n)| ==> Stripped(smartctl(n)[j])
    ensures ShapedRecord(SmartctlFields, Stamp(""), ScanDevices(nodes, smartctl).acc)
    ensures forall r :: r in ScanDevices(nodes, smartctl).done ==> ShapedRecord(SmartctlFields, Stamp(""), r)
    decreases |nodes|
  {
    if nodes != [] {
      var n := |nodes| - 1;
      var p := ScanDevices(nodes[..n], smartctl);
      DeviceValues(nodes[..n], smartctl);
      SameShape(nodes[n], p.acc);
      forall r | r in p.done
        ensures ShapedRecord(SmartctlFields, Stamp(nodes[n]), r)
      {
        SameShape(nodes[n], r);
      }
      ScanValues(Format, Stamp(nodes[n]), p, smartctl(nodes[n]));
      var q := Scan(Format, Stamp(nodes[n]), p, smartctl(nodes[n]));
      SameShape(nodes[n], q.acc);
      forall r | r in q.done
        ensures ShapedRecord(SmartctlFields, Stamp(""), r)
      {
        SameShape(nodes[n], r);
      }
    }
  }

  /** Every stamp has the one key "node". */
  lemma SameShape(node: string, r: Record)
    ensures ShapedRecord(SmartctlFields, Stamp(node), r) == ShapedRecord(SmartctlFields, Stamp(""), r)
  {
  }

  /** A `key:value` line inside a block, with no ':' in the key: the first
      of the three field names that contains the key decides what is kept. */
  lemma FieldLine(stamp: Record, p: Parser, key: string, value: string)
    requires p.parsing && !p.aborted && ':' !in key
    ensures Step(Format, stamp, p, key + ":" + value)
         == match Field(SmartctlFields, key, value)
            case Store(k, v) => p.(acc := p.acc[k := v])
            case Ignore => p
            case Fail => p.(aborted := true)
  {
    NoEarlierOccurrence(key, ":", value);
    SplitFirstAt(key, ":", value);
  }

  /** "Device Model: …" stores the stripped value as the device. */
  lemma DeviceModelLine(stamp: Record, p: Parser, value: string)
    requires p.parsing && !p.aborted
    ensures Step(Format, stamp, p, "Device Model" + ":" + value) == p.(acc := p.acc["device" := Strip(value)])
  {
    DeviceModelKey(value);
    FieldNamesPlain();
    FieldLine(stamp, p, "Device Model", value);
  }

  lemma DeviceModelKey(value: string)
    ensures Field(SmartctlFields, "Device Model", value) == Store("device", Strip(value))
  {
    MissingHead("Model Family", "Device Model");
    ContainsSelf("Device Model");
  }

  /** "Model Family: …" stores the stripped value as the model. */
  lemma ModelFamilyKey(value: string)
    ensures Field(SmartctlFields, "Model Family", value) == Store("model", Strip(value))
  {
    ContainsSelf("Model Family");
  }

  /** The field names are tested as `key in name`, in the order model,
      device, capacity: a key is stored under the first name it is a
      substring of, and a key that is a substring of none is skipped. */
  lemma FieldOrder(key: string, value: string)
    ensures Contains("Model Family", key) ==> Field(SmartctlFields, key, value) == Store("model", Strip(value))
    ensures !Contains("Model Family", key) && Contains("Device Model", key)
            ==> Field(SmartctlFields, key, value) == Store("device", Strip(value))
    ensures !Contains("Model Family", key) && !Contains("Device Model", key) && Contains("User Capacity", key)
            ==> (Field(SmartctlFields, key, value)
                 == match BracketSearch(Strip(value)) case Some(c) => Store("capacity", c) case None => Fail)
    ensures !Contains("Model Family", key) && !Contains("Device Model", key) && !Contains("User Capacity", key)
            ==> Field(SmartctlFields, key, value) == Ignore
  {
  }

  /** A "Model Family:" line with nothing after the colon stores an empty
      model. */
  lemma EmptyModelFamily(stamp: Record, p: Parser)
    requires p.parsing && !p.aborted
    ensures Step(Format, stamp, p, "Model Family:") == p.(acc := p.acc["model" := ""])
  {
    assert "Model Family" + ":" + "" == "Model Family:";
    ModelFamilyKey("");
    assert Strip("") == "";
    FamilyNamePlain();
    FieldLine(stamp, p, "Model Family", "");
  }

  lemma FamilyNamePlain()
    ensures ':' !in "Model Family"
  {
  }

  /** "Model", shared by the first two names, is taken as the model. */
  lemma ModelKey(value: string)
    ensures Field(SmartctlFields, "Model", value) == Store("model", Strip(value))
  {
    ModelInFamily();
  }

  lemma ModelInFamily()
    ensures Contains("Model Family", "Model")
  {
    assert OccursAt("Model Family", "Model", 0);
    OccursContains("Model Family", "Model", 0);
  }

  /** The empty key, from a line that starts with ':', is taken as the
      model as well. */
  lemma EmptyKey(value: string)
    ensures Field(SmartctlFields, "", value) == Store("model", Strip(value))
  {
    assert OccursAt("Model Family", "", 0);
    OccursContains("Model Family", "", 0);
  }

  /** "Capacity" is only part of the third name. */
  lemma CapacityKey(value: string)
    ensures Field(SmartctlFields, "Capacity", value)
         == match BracketSearch(Strip(value)) case Some(c) => Store("capacity", c) case None => Fail
  {
    CapacityOnlyInThird();
  }

  lemma CapacityOnlyInThird()
    ensures !Contains("Model Family", "Capacity") && !Contains("Device Model", "Capacity")
    ensures Contains("User Capacity", "Capacity")
  {
    MissingHead("Model Family", "Capacity");
    MissingHead("Device Model", "Capacity");
    CapacityInThird();
  }

  lemma CapacityInThird()
    ensures Contains("User Capacity", "Capacity")
  {
    assert "User Capacity"[5..] == "Capacity";
    assert OccursAt("User Capacity", "Capacity", 5);
    OccursContains("User Capacity", "Capacity", 5);
  }

  /** The two field names hold no ':', so a line starting with one of them
      splits right after it. */
  lemma FieldNamesPlain()
    ensures ':' !in "Device Model" && ':' !in "User Capacity"
  {
  }

  /** "User Capacity: …" stores the bracketed part of the stripped value,
      and fails when there is none. */
  lemma UserCapacityLine(stamp: Record, p: Parser, value: string)
    requires p.parsing && !p.aborted
    ensures Step(Format, stamp, p, "User Capacity" + ":" + value)
         == match BracketSearch(Strip(value))
            case Some(c) => p.(acc := p.acc["capacity" := c])
            case None => p.(aborted := true)
  {
    UserCapacityKey(value);
    FieldNamesPlain();
    FieldLine(stamp, p, "User Capacity", value);
    match BracketSearch(Strip(value))
    case Some(c) =>
      assert Field(SmartctlFields, "User Capacity", value) == Store("capacity", c);
    case None =>
      assert Field(SmartctlFields, "User Capacity", value) == Fail;
  }

  lemma UserCapacityKey(value: string)
    ensures Field(SmartctlFields, "User Capacity", value)
         == match BracketSearch(Strip(value)) case Some(c) => Store("capacity", c) case None => Fail
  {
    MissingHead("Model Family", "User Capacity");
    MissingHead("Device Model", "User Capacity");
    ContainsSelf("User Capacity");
  }

  /** The capacity of a smartctl value such as "500,107,862,016 bytes
      [500 GB]" is its bracketed tail, brackets included; a value without
      an opening bracket has none. */
  lemma CapacityBracket(a: string, b: string)
    requires '[' !in a && '[' !in b && ']' !in b
    ensures BracketSearch(a + "[" + b + "]") == Some("[" + b + "]")
    ensures BracketSearch(a) == None
  {
    BracketTail(a, b);
  }

  lemma BracketTail(a: string, b: string)
    requires '[' !in a && '[' !in b && ']' !in b
    ensures BracketSearch(a + "[" + b + "]") == Some("[" + b + "]")
  {
    var s := a + "[" + b + "]";
    BracketTailShape(a, b);
    BracketAt(s, |a|, |s| - 1);
  }

  /** The only '[' is the one after `a`, the only ']' the last character. */
  lemma BracketTailShape(a: string, b: string)
    requires '[' !in a && '[' !in b && ']' !in b
    ensures var s := a + "[" + b + "]";
            && |a| < |s| - 1 && s[|a|] == '[' && s[|s| - 1] == ']'
            && (forall k :: 0 <= k < |a| ==> s[k] != '[')
            && (forall k :: |a| < k < |s| - 1 ==> s[k] != ']')
            && s[|a|..|s|] == "[" + b + "]"
  {
    var s := a + "[" + b + "]";
    assert forall k :: 0 <= k < |a| ==> s[k] == a[k];
    assert forall k :: |a| < k < |s| - 1 ==> s[k] == b[k - |a| - 1];
    assert s[|a|..|s|] == "[" + b + "]";
  }

  /** A block left open at the end of one report is completed by the next
      one: the fields read under the earlier device stay in the record, and
      the record is tagged with the device whose report closes it. */
  lemma CarriedOver(p: Parser, node: string, lines: seq<string>)
    requires p.parsing && lines != [] && lines[|lines| - 1] == ""
    requires forall j :: 0 <= j < |lines| - 1 ==> lines[j] != ""
    requires !Scan(Format, Stamp(node), p, lines).aborted
    ensures var q := Scan(Format, Stamp(node), p, lines);
            && |q.done| == |p.done| + 1 && q.done[..|p.done|] == p.done
            && p.acc.Keys - {"node"} <= q.done[|p.done|].Keys
            && "node" in q.done[|p.done|] && q.done[|p.done|]["node"] == node
  {
    var n := |lines| - 1;
    var st := Stamp(node);
    OpenRun(Format, st, p, lines[..n]);
    ScanNext(Format, st, p, lines, n);
    assert lines[..n + 1] == lines;
    var m := Scan(Format, st, p, lines[..n]);
    BlankCloses(Format, st, m);
  }

  /** `extract_disk_detail`: "<node>: <device> <capacity>\n", the keys being
      looked up in the order node, device, capacity. */
  function ExtractDiskDetail(disk: Record): (r: Result<string>)
    ensures r.Ok? <==> "node" in disk && "device" in disk && "capacity" in disk
    ensures r.Ok? ==> r.value == disk["node"] + ": " + disk["device"] + " " + disk["capacity"] + "\n"
    ensures r.Err? ==> r.error == KeyError(if "node" !in disk then "node"
                                           else if "device" !in disk then "device"
                                           else "capacity")
  {
    var node :- Lookup(disk, "node");
    var device :- Lookup(disk, "device");
    var capacity :- Lookup(disk, "capacity");
    Ok(node + ": " + device + " " + capacity + "\n")
  }

  /** The detail line begins with the device node it was read for: every
      detail line of the node names one of the listed devices. */
  lemma DetailNamesDevice(nodes: seq<string>, smartctl: string -> seq<string>, i: nat)
    requires i < |DisksDetail(nodes, smartctl)|
    requires ExtractDiskDetail(DisksDetail(nodes, smartctl)[i]).Ok?
    ensures exists d :: d in nodes && |d| <= |ExtractDiskDetail(DisksDetail(nodes, smartctl)[i]).value|
                        && ExtractDiskDetail(DisksDetail(nodes, smartctl)[i]).value[..|d|] == d
  {
    var r := DisksDetail(nodes, smartctl)[i];
    RecordsTagged(nodes, smartctl);
    assert r in DisksDetail(nodes, smartctl);
    var d := r["node"];
    assert ExtractDiskDetail(r).value[..|d|] == d;
  }

  /** The node `Disk.__init__` builds from the output of the device listing. */
  function DiskNode(sdOut: string, smartctl: string -> seq<string>): (r: Result<Node>)
    ensures var ds := DisksDetail(NonEmptyLines(sdOut), smartctl);
            r.Ok? <==> forall i :: 0 <= i < |ds| ==> ExtractDiskDetail(ds[i]).Ok?
    ensures var ds := DisksDetail(NonEmptyLines(sdOut), smartctl);
            r.Ok? ==> && r.value.name == "Disks" && r.value.desc == Join(NonEmptyLines(sdOut), " ")
                      && |r.value.subInfo| == |ds|
                      && forall i :: 0 <= i < |ds| ==> r.value.subInfo[i] == ExtractDiskDetail(ds[i]).value
    ensures var ds := DisksDetail(NonEmptyLines(sdOut), smartctl);
            r.Err? ==> exists i :: 0 <= i < |ds| && ExtractDiskDetail(ds[i]) == Err(r.error)
                                   && forall j :: 0 <= j < i ==> ExtractDiskDetail(ds[j]).Ok?
  {
    var nodes := NonEmptyLines(sdOut);
    var ds := DisksDetail(nodes, smartctl);
    var subs :- MapAll(ExtractDiskDetail, ds);
    Ok(Node("Disks", Join(nodes, " "), subs))
  }

  /** `Disk.__init__`. */
  method NewDisks(sdOut: string, smartctl: string -> seq<string>) returns (r: Result<Info>)
    ensures r.Ok? <==> DiskNode(sdOut, smartctl).Ok?
    ensures r.Ok? ==> fresh(r.value) && Holds(r.value, DiskNode(sdOut, smartctl).value)
    ensures r.Err? ==> r.error == DiskNode(sdOut, smartctl).error
  {
    var nodes := NonEmptyLines(sdOut);
    var details := ParseDisks(nodes, smartctl);
    var subs := MapAll(ExtractDiskDetail, details);
    if subs.Err? {
      return Err(subs.error);
    }
    var info := NewInfo(Node("Disks", Join(nodes, " "), subs.value));
    return Ok(info);
  }
}

/** The `Onboard` node: the blocks of `dmidecode -t 41`, one detail line per
    onboard device and no description. */
module Onboard {
  import opened Outcomes
  import opened PyStr
  import opened BlockParser
  import opened Report

  const Attrs := ["Reference Designation", "Type"]

  /** Blocks open on a line that is exactly "Onboard Device"; fields are
      `key: value` lines whose key is one of `Attrs`. */
  const Format := BlockFormat(LineIs("Onboard Device"), ": ", Allowlist(Attrs))

  /** `onboard_device()`: the device records of the stream. */
  method ParseOnboard(lines: seq<string>) returns (obs: seq<Record>)
    ensures obs == Blocks(Format, lines)
  {
    var q := Feed(Format, map[], Start, lines);
    obs := q.done;
  }

  /** Every device record has only keys from `Attrs`. */
  lemma RecordsUseAttrs(lines: seq<string>)
    ensures forall r :: r in Blocks(Format, lines) ==> r.Keys <= {"Reference Designation", "Type"}
  {
    ScanKeys(Format, map[], Start, lines, set a | a in Attrs);
  }

  /** Over stripped lines every value stored in an Onboard Device block is not
      empty and does not end in whitespace: the line it came from went on
      past ": " and ends where the value ends. */
  lemma RecordValues(lines: seq<string>)
    requires forall j :: 0 <= j < |lines| ==> Stripped(lines[j])
    ensures forall r, k :: r in Blocks(Format, lines) && k in r ==> r[k] != "" && !IsSpace(r[k][|r[k]| - 1])
  {
    assert IsSpace(Format.sep[|Format.sep| - 1]);
    ScanValues(Format, map[], Start, lines);
  }

  /** Inside a block, a line `key: value` whose key has no colon stores the
      text after the first ": " under `key` when `key` is one of `Attrs`;
      any other key changes nothing. */
  lemma FieldLine(p: Parser, key: string, value: string)
    requires p.parsing && !p.aborted && ':' !in key
    ensures Step(Format, map[], p, key + ": " + value)
         == if key in Attrs then p.(acc := p.acc[key := value]) else p
  {
    NoEarlierOccurrence(key, ": ", value);
    KeyValueLine(Attrs, Format.trigger, ": ", map[], p, key, value);
  }

  /** `ob_to_str`: "<Type>: <Reference Designation>\n"; `Type` is looked up
      first. */
  function ObToStr(ob: Record): (r: Result<string>)
    ensures r.Ok? <==> "Type" in ob && "Reference Designation" in ob
    ensures r.Err? ==> r.error == KeyError(if "Type" !in ob then "Type" else "Reference Designation")
  {
    var tvalue :- Lookup(ob, "Type");
    var desvalue :- Lookup(ob, "Reference Designation");
    Ok(tvalue + ": " + desvalue + "\n")
  }

  /** The detail line gives the two fields back: it ends in a newline and,
      split at its first ": ", yields the type and the designation, provided
      the type has no colon. */
  lemma DetailRoundTrip(ob: Record)
    requires "Type" in ob && "Reference Designation" in ob && ':' !in ob["Type"]
    ensures var line := ObToStr(ob).value;
            && line != [] && line[|line| - 1] == '\n'
            && Contains(line[..|line| - 1], ": ")
            && SplitFirst(line[..|line| - 1], ": ") == (ob["Type"], ob["Reference Designation"])
  {
    var t, d := ob["Type"], ob["Reference Designation"];
    var line := ObToStr(ob).value;
    assert line[..|line| - 1] == t + ": " + d;
    NoEarlierOccurrence(t, ": ", d);
    SplitFirstAt(t, ": ", d);
  }

  /** The node `OnboardDevice.__init__` builds. */
  function OnboardNode(lines: seq<string>): (r: Result<Node>)
    ensures var obs := Blocks(Format, lines);
            r.Ok? <==> forall i :: 0 <= i < |obs| ==> ObToStr(obs[i]).Ok?
    ensures var obs := Blocks(Format, lines);
            r.Ok? ==> && r.value.name == "Onboard" && r.value.desc == ""
                      && |r.value.subInfo| == |obs|
                      && forall i :: 0 <= i < |obs| ==> r.value.subInfo[i] == ObToStr(obs[i]).value
    ensures var obs := Blocks(Format, lines);
            r.Err? ==> exists i :: 0 <= i < |obs| && ObToStr(obs[i]) == Err(r.error)
                                   && forall j :: 0 <= j < i ==> ObToStr(obs[j]).Ok?
  {
    var subs :- MapAll(ObToStr, Blocks(Format, lines));
    Ok(Node("Onboard", "", subs))
  }

  /** `OnboardDevice.__init__`. */
  method NewOnboard(lines: seq<string>) returns (r: Result<Info>)
    ensures r.Ok? <==> OnboardNode(lines).Ok?
    ensures r.Ok? ==> fresh(r.value) && Holds(r.value, OnboardNode(lines).value)
    ensures r.Err? ==> r.error == OnboardNode(lines).error
  {
    var obs := ParseOnboard(lines);
    var subs := MapAll(ObToStr, obs);
    if subs.Err? {
      return Err(subs.error);
    }
    var info := NewInfo(Node("Onboard", "", subs.value));
    return Ok(info);
  }

  /** A line for one of the listed fields stores its value. */
  lemma StoreField(p: Parser, key: string, v: string)
    requires p.parsing && !p.aborted && key in Attrs
    ensures Step(Format, map[], p, key + ": " + v) == p.(acc := p.acc[key := v])
  {
    assert ':' !in Attrs[0] && ':' !in Attrs[1];
    FieldLine(p, key, v);
  }

  /** Inside a block: the two listed fields are kept, a field of another
      name is dropped and the blank line closes the block. */
  lemma DeviceFields(p: Parser, rd: string, ty: string, other: string, v: string)
    requires p.parsing && !p.aborted && p.acc == map[]
    requires ':' !in other && other !in Attrs
    ensures Scan(Format, map[], p, ["Reference Designation" + ": " + rd, "Type" + ": " + ty, other + ": " + v, ""]).done
         == p.done + [map["Reference Designation" := rd, "Type" := ty]]
  {
    var f, st := Format, map[];
    var l2, l3, l4 := "Reference Designation" + ": " + rd, "Type" + ": " + ty, other + ": " + v;
    var p3 := p.(acc := map["Reference Designation" := rd]);
    var p4 := p3.(acc := p3.acc["Type" := ty]);
    var q1 := Step(f, st, p, l2);
    assert q1 == p3 by { StoreField(p, "Reference Designation", rd); }
    var q2 := Step(f, st, q1, l3);
    assert q2 == p4 by { StoreField(p3, "Type", ty); }
    var q3 := Step(f, st, q2, l4);
    assert q3 == p4 by { FieldLine(p4, other, v); }
    var q4 := Step(f, st, q3, "");
    assert q4.done == p.done + [map["Reference Designation" := rd, "Type" := ty]] by {
      BlankCloses(f, st, p4);
      NoStamp(p4.acc);
    }
    ScanFour(f, st, p, l2, l3, l4, "");
  }

  lemma ConsTwo(a: string, b: string, rest: seq<string>)
    ensures [a, b] + rest == [a] + ([b] + rest)
  {
  }

  /** The empty stamp adds nothing to a record. */
  lemma NoStamp(r: Record)
    ensures r + map[] == r
  {
  }

  /** A handle line is skipped and the "Onboard Device" line opens a block,
      whatever follows. */
  lemma OpensAfterHandle(handle: string, rest: seq<string>)
    requires handle != "Onboard Device"
    ensures Scan(Format, map[], Start, [handle, "Onboard Device"] + rest)
         == Scan(Format, map[], Start.(parsing := true), rest)
  {
    var f, st := Format, map[];
    assert Step(f, st, Step(f, st, Start, handle), "Onboard Device") == Start.(parsing := true) by {
      IdleLine(f, st, Start, handle);
      MissingHead("Onboard Device", ": ");
      TriggerOpens(f, st, Start, "Onboard Device");
    }
    ConsTwo(handle, "Onboard Device", rest);
    ScanCons(f, st, Start, handle, ["Onboard Device"] + rest);
    ScanCons(f, st, Step(f, st, Start, handle), "Onboard Device", rest);
  }

  /** One device as `dmidecode -t 41` prints it, after a handle line: the
      handle line is skipped, the two listed fields are kept and the other
      field is dropped. */
  lemma OneDevice(handle: string, rd: string, ty: string, other: string, v: string)
    requires handle != "Onboard Device"
    requires ':' !in other && other !in Attrs
    ensures Blocks(Format, [handle, "Onboard Device", "Reference Designation" + ": " + rd, "Type" + ": " + ty,
                            other + ": " + v, ""])
         == [map["Reference Designation" := rd, "Type" := ty]]
  {
    var l2, l3, l4 := "Reference Designation" + ": " + rd, "Type" + ": " + ty, other + ": " + v;
    var rest := [l2, l3, l4, ""];
    assert [handle, "Onboard Device", l2, l3, l4, ""] == [handle, "Onboard Device"] + rest;
    OpensAfterHandle(handle, rest);
    DeviceFields(Start.(parsing := true), rd, ty, other, v);
  }
}

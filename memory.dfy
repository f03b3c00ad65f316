/** The `Memory` node: the blocks of `dmidecode -t memory`, the total size
    as its description and one detail line per populated slot. */
module Memory {
  import opened Outcomes
  import opened PyStr
  import opened BlockParser
  import opened Report

  const Attrs := ["Size", "Type", "Speed", "Manufacturer", "Locator"]

  /** Blocks open on a line that is exactly "Memory Device"; fields are
      `key: value` lines whose key is one of `Attrs`. */
  const Format := BlockFormat(LineIs("Memory Device"), ": ", Allowlist(Attrs))

  /** `memory()`: the slot records of the stream. */
  method ParseMemory(lines: seq<string>) returns (mems: seq<Record>)
    ensures mems == Blocks(Format, lines)
  {
    var q := Feed(Format, map[], Start, lines);
    mems := q.done;
  }

  /** Every slot record has only keys from `Attrs`. */
  lemma RecordsUseAttrs(lines: seq<string>)
    ensures forall r :: r in Blocks(Format, lines) ==> r.Keys <= {"Size", "Type", "Speed", "Manufacturer", "Locator"}
  {
    ScanKeys(Format, map[], Start, lines, set a | a in Attrs);
  }

  /** A doubled space after the colon is kept: only the first ": " is the
      separator. */
  lemma LeadingSpaceKept(p: Parser)
    requires p.parsing && !p.aborted
    ensures Step(Format, map[], p, "Size:  4096 MB") == p.(acc := p.acc["Size" := " 4096 MB"])
  {
    assert "Size" + ": " + " 4096 MB" == "Size:  4096 MB";
    FieldLine(p, "Size", " 4096 MB");
  }

  /** Over stripped lines every value stored in a Memory Device block is not
      empty and does not end in whitespace: the line it came from went on
      past ": " and ends where the value ends. */
  lemma RecordValues(lines: seq<string>)
    requires forall j :: 0 <= j < |lines| ==> Stripped(lines[j])
    ensures forall r, k :: r in Blocks(Format, lines) && k in r ==> r[k] != "" && !IsSpace(r[k][|r[k]| - 1])
  {
    assert IsSpace(Format.sep[|Format.sep| - 1]);
    ScanValues(Format, map[], Start, lines);
  }

  /** Inside a block, a line `key: value` whose key has no colon stores the
      whole text after the first ": " under `key` when `key` is one of
      `Attrs`, replacing an earlier value; any other key changes nothing. */
  lemma FieldLine(p: Parser, key: string, value: string)
    requires p.parsing && !p.aborted && ':' !in key
    ensures Step(Format, map[], p, key + ": " + value)
         == if key in Attrs then p.(acc := p.acc[key := value]) else p
  {
    NoEarlierOccurrence(key, ": ", value);
    KeyValueLine(Attrs, Format.trigger, ": ", map[], p, key, value);
  }

  /** `conv_memsize`: the number before the first space, 0 when that word is
      not an integer; a size without a space fails to unpack. */
  function ConvMemsize(sizeStr: string): (r: Result<int>)
    ensures r.Err? <==> !Contains(sizeStr, " ")
    ensures r.Err? ==> r.error == ValueError
  {
    if !Contains(sizeStr, " ") then Err(ValueError)
    else
      var (size, _) := SplitFirst(sizeStr, " ");
      match ParseInt(size)
      case Some(n) => Ok(n)
      case None => Ok(0)
  }

  /** A size whose first word is `w`. */
  lemma ConvMemsizeWord(w: string, rest: string)
    requires ' ' !in w
    ensures ConvMemsize(w + " " + rest) == Ok(match ParseInt(w) case Some(n) => n case None => 0)
  {
    NoEarlierOccurrence(w, " ", rest);
    SplitFirstAt(w, " ", rest);
  }

  /** A printed number followed by a unit reads back as that number. */
  lemma ConvMemsizeShown(n: int, unit: string)
    ensures ConvMemsize(ShowInt(n) + " " + unit) == Ok(n)
  {
    ShowIntNoSpace(n);
    ConvMemsizeWord(ShowInt(n), unit);
    ParseShowInt(n);
  }

  lemma ShowIntNoSpace(n: int)
    ensures ' ' !in ShowInt(n)
  {
    var s := ShowInt(n);
    if n < 0 {
      assert s == "-" + ShowNat(-n);
      assert forall i :: 1 <= i < |s| ==> s[i] == ShowNat(-n)[i - 1];
    }
  }

  lemma ShowInt4096()
    ensures ShowInt(4096) == "4096"
  {
    assert ShowNat(4) == "4";
    assert ShowNat(40) == "40";
    assert ShowNat(409) == "409";
  }

  lemma ConvMemsizeModule()
    ensures ConvMemsize("4096 MB") == Ok(4096)
  {
    ShowInt4096();
    ConvMemsizeShown(4096, "MB");
    assert "4096 MB" == ShowInt(4096) + " " + "MB";
  }

  /** "No Module Installed" starts with a word that is not a number. */
  lemma ConvMemsizeNoModule()
    ensures ConvMemsize("No Module Installed") == Ok(0)
  {
    assert ParseInt("No") == None;
    ConvMemsizeWord("No", "Module Installed");
    EmptySlotWords();
  }

  lemma EmptySlotWords()
    ensures "No Module Installed" == "No" + " " + "Module Installed"
  {
  }

  lemma ConvMemsizeNoSpace()
    ensures ConvMemsize("4096") == Err(ValueError)
  {
    ContainsIff("4096", " ");
    forall i: nat ensures !OccursAt("4096", " ", i) {
      if i + 1 <= 4 {
        assert "4096"[i..i + 1] == ["4096"[i]];
      }
    }
  }

  /** `sum(conv_memsize(i['Size']) for i in mem_list)`; the first missing
      `Size` or unsplittable size, from the left, is raised. */
  function TotalSize(mems: seq<Record>): Result<int>
    decreases |mems|
  {
    if mems == [] then Ok(0) else Plus(SlotSize(mems[0]), TotalSize(mems[1..]))
  }

  /** The total exists exactly when every slot has a size with a space in
      it; otherwise the first slot, from the left, without one raises: a
      `KeyError` when the size is missing, a `ValueError` when it does not
      split. */
  lemma {:induction false} TotalSizeSpec(mems: seq<Record>)
    ensures TotalSize(mems).Ok? <==> forall i :: 0 <= i < |mems| ==> Sized(mems[i])
    decreases |mems|
  {
    if mems != [] {
      var rest := mems[1..];
      TotalSizeSpec(rest);
      SlotSizeSpec(mems[0]);
      assert forall i :: 1 <= i < |mems| ==> mems[i] == rest[i - 1];
    }
  }

  /** A failed total is the error of the first slot, from the left, without
      a usable size. */
  lemma {:induction false} TotalSizeError(mems: seq<Record>)
    requires TotalSize(mems).Err?
    ensures exists i :: 0 <= i < |mems|
                        && (forall j :: 0 <= j < i ==> Sized(mems[j]))
                        && !Sized(mems[i])
                        && TotalSize(mems).error == SlotError(mems[i])
    decreases |mems|
  {
    var rest := mems[1..];
    SlotSizeSpec(mems[0]);
    if !Sized(mems[0]) {
      assert TotalSize(mems).error == SlotError(mems[0]);
    } else {
      TotalSizeError(rest);
      var i :| 0 <= i < |rest|
               && (forall j :: 0 <= j < i ==> Sized(rest[j]))
               && !Sized(rest[i])
               && TotalSize(rest).error == SlotError(rest[i]);
      assert mems[i + 1] == rest[i];
      assert forall j :: 1 <= j <= i ==> mems[j] == rest[j - 1];
    }
  }

  /** The slot has a size with a space in it. */
  predicate Sized(mem: Record) {
    "Size" in mem && ConvMemsize(mem["Size"]).Ok?
  }

  /** What a slot without a usable size raises. */
  function SlotError(mem: Record): Error {
    if "Size" in mem then ValueError else KeyError("Size")
  }

  lemma SlotSizeSpec(mem: Record)
    ensures SlotSize(mem).Ok? <==> Sized(mem)
    ensures SlotSize(mem).Err? ==> SlotSize(mem).error == SlotError(mem)
  {
  }

  /** The total of a concatenation is the sum of the totals, the first
      failure winning. */
  lemma {:induction false} TotalSizeAppend(a: seq<Record>, b: seq<Record>)
    ensures TotalSize(a + b) == Plus(TotalSize(a), TotalSize(b))
    decreases |a|
  {
    if a == [] {
      assert a + b == b;
    } else {
      var ab := a + b;
      assert ab[0] == a[0];
      assert ab[1..] == a[1..] + b;
      TotalSizeAppend(a[1..], b);
      PlusAssoc(SlotSize(a[0]), TotalSize(a[1..]), TotalSize(b));
    }
  }

  /** `conv_memsize(i['Size'])` for one slot. */
  function SlotSize(mem: Record): Result<int> {
    var size :- Lookup(mem, "Size");
    ConvMemsize(size)
  }

  /** Adding two sums that may have raised: the left failure wins. */
  function Plus(x: Result<int>, y: Result<int>): Result<int> {
    match x
    case Err(e) => Err(e)
    case Ok(m) => match y case Err(e) => Err(e) case Ok(n) => Ok(m + n)
  }

  lemma PlusAssoc(x: Result<int>, y: Result<int>, z: Result<int>)
    ensures Plus(x, Plus(y, z)) == Plus(Plus(x, y), z)
  {
  }

  /** An empty slot counts for nothing in the total. */
  lemma EmptySlotAddsNothing(mems: seq<Record>, slot: Record)
    requires "Size" in slot && slot["Size"] == "No Module Installed"
    ensures TotalSize(mems + [slot]) == TotalSize(mems)
  {
    TotalSizeAppend(mems, [slot]);
    EmptySlotTotal(slot);
  }

  lemma EmptySlotTotal(slot: Record)
    requires "Size" in slot && slot["Size"] == "No Module Installed"
    ensures TotalSize([slot]) == Ok(0)
  {
    EmptySlotSize(slot);
    assert [slot][1..] == [];
  }

  lemma EmptySlotSize(slot: Record)
    requires "Size" in slot && slot["Size"] == "No Module Installed"
    ensures SlotSize(slot) == Ok(0)
  {
    ConvMemsizeNoModule();
  }

  /** `get_desc`. */
  function GetDesc(mems: seq<Record>): (r: Result<string>)
    ensures r.Ok? <==> TotalSize(mems).Ok?
    ensures r.Ok? ==> r.value == ShowInt(TotalSize(mems).value) + " MB Total"
  {
    var total :- TotalSize(mems);
    Ok(ShowInt(total) + " MB Total")
  }

  /** `'Unknown' in mem['Type'] and 'No Module Installed' in mem['Size']`:
      the slot holds no module. `Size` is only looked up when the type
      contains "Unknown". */
  function IsEmptySlot(mem: Record): (r: Result<bool>)
    ensures "Type" !in mem ==> r == Err(KeyError("Type"))
    ensures "Type" in mem && !Contains(mem["Type"], "Unknown") ==> r == Ok(false)
    ensures "Type" in mem && Contains(mem["Type"], "Unknown") && "Size" !in mem ==> r == Err(KeyError("Size"))
    ensures "Type" in mem && Contains(mem["Type"], "Unknown") && "Size" in mem
            ==> r == Ok(Contains(mem["Size"], "No Module Installed"))
  {
    var ty :- Lookup(mem, "Type");
    if Contains(ty, "Unknown") then
      var size :- Lookup(mem, "Size");
      Ok(Contains(size, "No Module Installed"))
    else Ok(false)
  }

  /** The slot reports an unknown type and no installed module. */
  predicate NoModule(mem: Record) {
    && "Type" in mem && "Size" in mem
    && Contains(mem["Type"], "Unknown")
    && Contains(mem["Size"], "No Module Installed")
  }

  /** `extract_mem_detail`: nothing for an empty slot, otherwise
      "<Locator>: <Manufacturer> <Type> <Speed>\n". */
  function ExtractMemDetail(mem: Record): (r: Result<string>)
    ensures r == Ok("") <==> NoModule(mem)
    ensures r.Ok? && r.value != "" ==>
              && {"Locator", "Manufacturer", "Type", "Speed"} <= mem.Keys
              && r.value == mem["Locator"] + ": " + mem["Manufacturer"] + " " + mem["Type"] + " " + mem["Speed"] + "\n"
    ensures r.Err? <==> || "Type" !in mem
                        || (Contains(mem["Type"], "Unknown") && "Size" !in mem)
                        || (!NoModule(mem) && !({"Locator", "Manufacturer", "Speed"} <= mem.Keys))
    ensures r.Err? ==> r.error == KeyError(if "Type" !in mem then "Type"
                                           else if Contains(mem["Type"], "Unknown") && "Size" !in mem then "Size"
                                           else if "Locator" !in mem then "Locator"
                                           else if "Manufacturer" !in mem then "Manufacturer"
                                           else "Speed")
  {
    var empty :- IsEmptySlot(mem);
    if empty then Ok("")
    else
      var slot :- Lookup(mem, "Locator");
      var manufa :- Lookup(mem, "Manufacturer");
      var ty := mem["Type"];  // looked up once already, so it cannot fail
      var speed :- Lookup(mem, "Speed");
      Ok(slot + ": " + manufa + " " + ty + " " + speed + "\n")
  }

  /** The node `Memory.__init__` builds. */
  function MemoryNode(lines: seq<string>): (r: Result<Node>)
    ensures var mems := Blocks(Format, lines);
            r.Ok? <==> GetDesc(mems).Ok? && forall i :: 0 <= i < |mems| ==> ExtractMemDetail(mems[i]).Ok?
    ensures var mems := Blocks(Format, lines);
            r.Ok? ==> && r.value.name == "Memory" && r.value.desc == GetDesc(mems).value
                      && |r.value.subInfo| == |mems|
                      && forall i :: 0 <= i < |mems| ==> r.value.subInfo[i] == ExtractMemDetail(mems[i]).value
    ensures var mems := Blocks(Format, lines);
            GetDesc(mems).Err? ==> r == Err(GetDesc(mems).error)
    ensures var mems := Blocks(Format, lines);
            GetDesc(mems).Ok? && r.Err? ==>
              exists i :: 0 <= i < |mems| && ExtractMemDetail(mems[i]) == Err(r.error)
                          && forall j :: 0 <= j < i ==> ExtractMemDetail(mems[j]).Ok?
  {
    var mems := Blocks(Format, lines);
    var desc :- GetDesc(mems);
    var subs :- MapAll(ExtractMemDetail, mems);
    Ok(Node("Memory", desc, subs))
  }

  /** `Memory.__init__`. */
  method NewMemory(lines: seq<string>) returns (r: Result<Info>)
    ensures r.Ok? <==> MemoryNode(lines).Ok?
    ensures r.Ok? ==> fresh(r.value) && Holds(r.value, MemoryNode(lines).value)
    ensures r.Err? ==> r.error == MemoryNode(lines).error
  {
    var mems := ParseMemory(lines);
    var desc := GetDesc(mems);
    if desc.Err? {
      return Err(desc.error);
    }
    var subs := MapAll(ExtractMemDetail, mems);
    if subs.Err? {
      return Err(subs.error);
    }
    var info := NewInfo(Node("Memory", desc.value, subs.value));
    return Ok(info);
  }

  /** A populated 4096 MB slot and an empty slot: 4096 MB in total. */
  lemma TwoSlotTotal(full: Record, empty: Record)
    requires "Size" in full && full["Size"] == "4096 MB"
    requires "Size" in empty && empty["Size"] == "No Module Installed"
    ensures GetDesc([full, empty]) == Ok("4096 MB Total")
  {
    TwoSlotSum(full, empty);
    TotalText();
  }

  lemma TwoSlotSum(full: Record, empty: Record)
    requires "Size" in full && full["Size"] == "4096 MB"
    requires "Size" in empty && empty["Size"] == "No Module Installed"
    ensures TotalSize([full, empty]) == Ok(4096)
  {
    assert [full] + [empty] == [full, empty];
    TotalSizeAppend([full], [empty]);
    FullSlotTotal(full);
    EmptySlotTotal(empty);
  }

  lemma TotalText()
    ensures ShowInt(4096) + " MB Total" == "4096 MB Total"
  {
    ShowInt4096();
  }

  lemma FullSlotTotal(full: Record)
    requires "Size" in full && full["Size"] == "4096 MB"
    ensures TotalSize([full]) == Ok(4096)
  {
    FullSlotSize(full);
    assert [full][1..] == [];
  }

  lemma FullSlotSize(full: Record)
    requires "Size" in full && full["Size"] == "4096 MB"
    ensures SlotSize(full) == Ok(4096)
  {
    ConvMemsizeModule();
  }

  /** A slot of unknown type reported as "No Module Installed" gives no
      detail line. */
  lemma EmptySlotNoDetail(empty: Record)
    requires "Size" in empty && empty["Size"] == "No Module Installed"
    requires "Type" in empty && empty["Type"] == "Unknown"
    ensures ExtractMemDetail(empty) == Ok("")
  {
    assert OccursAt("Unknown", "Unknown", 0);
    OccursContains("Unknown", "Unknown", 0);
    assert OccursAt("No Module Installed", "No Module Installed", 0);
    OccursContains("No Module Installed", "No Module Installed", 0);
  }
}

/** The whole report: the one-line categories read from single commands
    (product, distro, kernel, processor, baseboard), the four categories
    with their own parsers, and `Hwinfo`, which builds the nine nodes in a
    fixed order and prints them one after the other.

    Every command's output is a parameter: `Sources` holds what each
    command printed. */
module SysInfo {
  import opened Outcomes
  import opened PyStr
  import opened Report
  import Rom
  import Memory
  import Disk
  import Onboard

  /** What the commands printed. `smartctl` gives the `smartctl -i` report
      of a device node. */
  datatype Sources = Sources(
    productName: string,    // dmidecode -s system-product-name | head -1
    osRelease: string,      // the NAME= and VERSION= lines of /etc/os-release
    kernel: string,         // uname -o -r
    processor: string,      // dmidecode -s processor-version | head -1
    boardVendor: string,    // /sys/devices/virtual/dmi/id/board_vendor
    boardName: string,      // /sys/devices/virtual/dmi/id/board_name
    chipset: string,        // the ISA bridge named by lspci
    romListing: string,     // lsblk -dP -o VENDOR,TYPE,MODEL, rom lines only
    memoryDump: string,     // dmidecode -t memory
    sdListing: string,      // ls -1d /dev/sd[a-z]
    smartctl: string -> string,
    onboardDump: string)    // dmidecode -t 41

  /** The category names, in the order `Hwinfo` builds and prints them. */
  const Categories := ["Product", "Distro", "Kernel", "Processor", "BaseBoard", "Rom", "Memory", "Disks", "Onboard"]

  // ---------------------------------------------------------- command output

  /** The lines a loop over a command's output sees: the text between line
      breaks, with no extra empty line after a final line break. */
  function Lines(output: string): (r: seq<string>)
    ensures forall i :: 0 <= i < |r| ==> '\n' !in r[i]
  {
    var pieces := SplitOn(output, '\n');
    if pieces[|pieces| - 1] == "" then pieces[..|pieces| - 1] else pieces
  }

  /** The lines of an output, each stripped. */
  function OutputLines(output: string): (r: seq<string>)
    ensures forall i :: 0 <= i < |r| ==> Stripped(r[i]) && '\n' !in r[i]
  {
    var lines := Lines(output);
    forall i | 0 <= i < |lines|
      ensures '\n' !in Strip(lines[i])
    {
      StripKeeps(lines[i], '\n');
    }
    StripAll(lines)
  }

  /** `line.strip()` applied to each line. */
  function StripAll(lines: seq<string>): (r: seq<string>)
    ensures |r| == |lines|
    ensures forall i :: 0 <= i < |r| ==> r[i] == Strip(lines[i])
  {
    if lines == [] then [] else [Strip(lines[0])] + StripAll(lines[1..])
  }

  /** Lines that each end with a line break are read back as they are. */
  lemma LinesOf(lines: seq<string>)
    requires forall i :: 0 <= i < |lines| ==> '\n' !in lines[i]
    ensures Lines(Join(lines + [""], "\n")) == lines
  {
    var parts := lines + [""];
    forall i | 0 <= i < |parts|
      ensures '\n' !in parts[i]
    {
      if i < |lines| {
        assert parts[i] == lines[i];
      }
    }
    SplitOnJoin(parts, '\n');
    assert "\n" == ['\n'];
    assert parts[..|parts| - 1] == lines;
  }

  /** An output whose last line has no line break loses nothing: that line
      is read like the others. */
  lemma LinesNoFinalBreak(lines: seq<string>)
    requires lines != [] && lines[|lines| - 1] != ""
    requires forall i :: 0 <= i < |lines| ==> '\n' !in lines[i]
    ensures Lines(Join(lines, "\n")) == lines
  {
    assert "\n" == ['\n'];
    SplitOnJoin(lines, '\n');
    LinesOfPieces(Join(lines, "\n"), lines);
  }

  lemma LinesOfPieces(output: string, pieces: seq<string>)
    requires SplitOn(output, '\n') == pieces && pieces != [] && |pieces[|pieces| - 1]| > 0
    ensures Lines(output) == pieces
  {
  }

  /** ... and each of them is then stripped. */
  lemma OutputLinesOf(lines: seq<string>)
    requires forall i :: 0 <= i < |lines| ==> '\n' !in lines[i]
    ensures OutputLines(Join(lines + [""], "\n")) == StripAll(lines)
  {
    LinesOf(lines);
  }

  /** The stripped lines of each device's `smartctl -i` report. */
  function Reports(smartctl: string -> string): string -> seq<string> {
    node => OutputLines(smartctl(node))
  }

  // ------------------------------------------------------ one-line categories

  /** `Info(name, output.strip())` with no sub-info lines: product, kernel
      and processor. */
  function LineNode(name: string, output: string): (r: Node)
    ensures r.name == name && r.subInfo == [] && Stripped(r.desc)
  {
    Node(name, Strip(output), [])
  }

  /** A command that prints one line shows that line. */
  lemma LineNodeOfLine(name: string, line: string)
    requires Stripped(line)
    ensures LineNode(name, line + "\n").desc == line
  {
    StripTrailingSpace(line, '\n');
    StripAround([], line, []);
    assert [] + line + [] == line;
  }

  /** `distro`: the text after the first '=' of the first line, up to any
      second '=', then the same of the second line with its double quotes
      removed. A missing line or a line without '=' raises IndexError. */
  function Distro(output: string): (r: Result<string>)
    ensures r.Ok? <==> var ls := SplitOn(output, '\n');
                       |SplitOn(ls[0], '=')| >= 2 && |ls| >= 2 && |SplitOn(ls[1], '=')| >= 2
    ensures r.Err? ==> r.error == IndexError
  {
    var ls := SplitOn(output, '\n');
    var nameParts := SplitOn(ls[0], '=');
    if |nameParts| < 2 then Err(IndexError)
    else if |ls| < 2 then Err(IndexError)
    else
      var versionParts := SplitOn(ls[1], '=');
      if |versionParts| < 2 then Err(IndexError)
      else Ok(nameParts[1] + " " + RemoveAll(versionParts[1], '"'))
  }

  /** Two line-terminated lines split into the two lines and the empty
      text after the last break. */
  lemma TwoLines(l1: string, l2: string)
    requires '\n' !in l1 && '\n' !in l2
    ensures SplitOn(l1 + "\n" + l2 + "\n", '\n') == [l1, l2, ""]
  {
    JoinTwoLines(l1, l2);
    SplitTwoLines(l1, l2);
  }

  lemma JoinTwoLines(l1: string, l2: string)
    ensures Join([l1, l2, ""], "\n") == l1 + "\n" + l2 + "\n"
  {
    assert [l1] + [l2, ""] == [l1, l2, ""] && [l2] + [""] == [l2, ""];
    JoinCons(l1, [l2, ""], "\n");
    JoinCons(l2, [""], "\n");
  }

  lemma SplitTwoLines(l1: string, l2: string)
    requires '\n' !in l1 && '\n' !in l2
    ensures SplitOn(Join([l1, l2, ""], "\n"), '\n') == [l1, l2, ""]
  {
    var parts := [l1, l2, ""];
    assert forall i :: 0 <= i < |parts| ==> '\n' !in parts[i];
    SplitOnJoin(parts, '\n');
  }

  /** A `key=value` line splits into its key and value. */
  lemma KeyValue(k: string, v: string)
    requires '=' !in k && '=' !in v
    ensures SplitOn(k + "=" + v, '=') == [k, v]
  {
    assert forall i :: 0 <= i < |[k, v]| ==> '=' !in [k, v][i];
    SplitOnJoin([k, v], '=');
    assert [k, v][1..] == [v];
  }

  /** Two `KEY=value` lines give the first value as it stands and the
      second without its quotes. */
  lemma DistroOfLines(k1: string, name: string, k2: string, version: string)
    requires '=' !in k1 && '=' !in name && '=' !in k2 && '=' !in version
    requires '\n' !in k1 && '\n' !in name && '\n' !in k2 && '\n' !in version
    ensures Distro((k1 + "=" + name) + "\n" + (k2 + "=" + version) + "\n") == Ok(name + " " + RemoveAll(version, '"'))
  {
    TwoLines(k1 + "=" + name, k2 + "=" + version);
    KeyValue(k1, name);
    KeyValue(k2, version);
  }

  /** On a release file with a quoted name and version, the name keeps its
      quotes and the version loses them. */
  lemma DistroQuotes(name: string, version: string)
    requires '=' !in name && '"' !in name && '\n' !in name
    requires '=' !in version && '"' !in version && '\n' !in version
    ensures Distro(("NAME" + "=" + Quote(name)) + "\n" + ("VERSION" + "=" + Quote(version)) + "\n")
         == Ok(Quote(name) + " " + version)
  {
    DistroOfLines("NAME", Quote(name), "VERSION", Quote(version));
    QuoteRemoved(version);
  }

  /** A release file without a VERSION line: the second line of the output
      is the empty text after the final line break, and it has no '='. */
  lemma DistroWithoutVersion(k1: string, name: string)
    requires '=' !in k1 && '=' !in name && '\n' !in k1 && '\n' !in name
    ensures Distro(k1 + "=" + name + "\n") == Err(IndexError)
  {
    var l1 := k1 + "=" + name;
    assert forall i :: 0 <= i < |[l1, ""]| ==> '\n' !in [l1, ""][i];
    SplitOnJoin([l1, ""], '\n');
    assert Join([l1, ""], "\n") == l1 + "\n";
    SplitOnJoin([k1, name], '=');
    assert Join([k1, name], "=") == l1;
    SplitOnJoin([""], '=');
  }

  function DistroNode(output: string): (r: Result<Node>)
    ensures r.Ok? <==> Distro(output).Ok?
    ensures r.Ok? ==> r.value.name == "Distro" && r.value.desc == Distro(output).value && r.value.subInfo == []
    ensures r.Err? ==> r.error == Distro(output).error
  {
    var desc :- Distro(output);
    Ok(Node("Distro", desc, []))
  }

  /** `baseboard`: vendor, name and chipset run together, the first two line
      breaks made spaces, then stripped. */
  function Baseboard(vendor: string, name: string, chipset: string): (r: string)
    ensures Stripped(r)
  {
    Strip(ReplaceFirst(vendor + name + chipset, '\n', ' ', 2))
  }

  /** A line break within the budget becomes a space. */
  lemma ReplaceLineEnd(x: string, rest: string, k: nat)
    requires '\n' !in x && k > 0
    ensures ReplaceFirst(x + "\n" + rest, '\n', ' ', k) == x + " " + ReplaceFirst(rest, '\n', ' ', k - 1)
  {
    assert x + "\n" + rest == x + ("\n" + rest);
    ReplaceFirstAppend(x, "\n" + rest, '\n', ' ', k);
    ReplaceFirstAbsent(x, '\n', ' ', k);
    assert ("\n" + rest)[1..] == rest;
  }

  /** Three one-line outputs are shown on one line, separated by spaces. */
  lemma BaseboardOfLines(vendor: string, name: string, chipset: string)
    requires '\n' !in vendor && '\n' !in name && '\n' !in chipset
    ensures Baseboard(vendor + "\n", name + "\n", chipset + "\n") == Strip(vendor + " " + name + " " + chipset)
  {
    assert vendor + "\n" + (name + "\n") + (chipset + "\n") == vendor + "\n" + (name + "\n" + (chipset + "\n"));
    ReplaceLineEnd(vendor, name + "\n" + (chipset + "\n"), 2);
    ReplaceLineEnd(name, chipset + "\n", 1);
    ReplaceFirstNone(chipset + "\n", '\n', ' ');
    assert vendor + " " + (name + " " + (chipset + "\n")) == vendor + " " + name + " " + chipset + "\n";
    StripTrailingSpace(vendor + " " + name + " " + chipset, '\n');
  }

  /** Without an ISA bridge the chipset output is empty and the vendor and
      name are shown. */
  lemma BaseboardNoChipset(vendor: string, name: string)
    requires '\n' !in vendor && '\n' !in name
    ensures Baseboard(vendor + "\n", name + "\n", "") == Strip(vendor + " " + name)
  {
    assert vendor + "\n" + (name + "\n") + "" == vendor + "\n" + (name + "\n" + "");
    ReplaceLineEnd(vendor, name + "\n" + "", 2);
    ReplaceLineEnd(name, "", 1);
    assert ReplaceFirst("", '\n', ' ', 0) == "";
    assert vendor + " " + (name + " " + "") == vendor + " " + name + [' '];
    StripTrailingSpace(vendor + " " + name, ' ');
  }

  /** Only two line breaks are replaced: with two chipset lines the break
      between them stays in the description. */
  lemma BaseboardTwoChipsets(vendor: string, name: string, c1: string, c2: string)
    requires '\n' !in vendor && '\n' !in name && '\n' !in c1 && '\n' !in c2
    ensures Baseboard(vendor + "\n", name + "\n", c1 + "\n" + c2 + "\n") == Strip(vendor + " " + name + " " + c1 + "\n" + c2)
  {
    var rest := c1 + "\n" + c2 + "\n";
    TwoBreaksReplaced(vendor, name, rest);
    var kept := vendor + " " + name + " " + c1 + "\n" + c2;
    assert vendor + " " + (name + " " + rest) == kept + "\n";
    StripTrailingSpace(kept, '\n');
  }

  /** The line breaks after the vendor and after the name use up the
      budget of two. */
  lemma TwoBreaksReplaced(vendor: string, name: string, rest: string)
    requires '\n' !in vendor && '\n' !in name
    ensures ReplaceFirst(vendor + "\n" + (name + "\n") + rest, '\n', ' ', 2) == vendor + " " + (name + " " + rest)
  {
    assert vendor + "\n" + (name + "\n") + rest == vendor + "\n" + (name + "\n" + rest);
    ReplaceLineEnd(vendor, name + "\n" + rest, 2);
    ReplaceLineEnd(name, rest, 1);
    ReplaceFirstNone(rest, '\n', ' ');
  }

  // ------------------------------------------------------------------ Hwinfo

  /** The nine categories, each built by its own class method or class. */
  datatype Category =
    | ProductInfo | DistroInfo | KernelInfo | ProcessorInfo | BaseBoardInfo
    | RomInfo | MemoryInfo | DiskInfo | OnboardInfo

  /** The order of the appends in `Hwinfo.__init__`. */
  const Order := [ProductInfo, DistroInfo, KernelInfo, ProcessorInfo, BaseBoardInfo,
                  RomInfo, MemoryInfo, DiskInfo, OnboardInfo]

  function Name(c: Category): string {
    match c
    case ProductInfo => "Product"
    case DistroInfo => "Distro"
    case KernelInfo => "Kernel"
    case ProcessorInfo => "Processor"
    case BaseBoardInfo => "BaseBoard"
    case RomInfo => "Rom"
    case MemoryInfo => "Memory"
    case DiskInfo => "Disks"
    case OnboardInfo => "Onboard"
  }

  /** The node of one category; only the distro and the four classes can
      raise. */
  function Build(c: Category, src: Sources): (r: Result<Node>)
    ensures r.Ok? ==> r.value.name == Name(c)
    ensures c in {ProductInfo, KernelInfo, ProcessorInfo, BaseBoardInfo} ==> r.Ok? && r.value.subInfo == []
  {
    match c
    case ProductInfo => Ok(LineNode("Product", src.productName))
    case DistroInfo => DistroNode(src.osRelease)
    case KernelInfo => Ok(LineNode("Kernel", src.kernel))
    case ProcessorInfo => Ok(LineNode("Processor", src.processor))
    case BaseBoardInfo => Ok(Node("BaseBoard", Baseboard(src.boardVendor, src.boardName, src.chipset), []))
    case RomInfo => Rom.RomNode(src.romListing)
    case MemoryInfo => Memory.MemoryNode(OutputLines(src.memoryDump))
    case DiskInfo => Disk.DiskNode(src.sdListing, Reports(src.smartctl))
    case OnboardInfo => Onboard.OnboardNode(OutputLines(src.onboardDump))
  }

  /** The nodes `Hwinfo.__init__` builds, in order; the first category that
      raises ends the construction with its exception. */
  function Nodes(src: Sources): (r: Result<seq<Node>>)
    ensures r.Ok? ==> |r.value| == |Order| && forall i :: 0 <= i < |Order| ==> r.value[i].name == Name(Order[i])
  {
    MapAll(Builder(src), Order)
  }

  function Builder(src: Sources): Category -> Result<Node> {
    c => Build(c, src)
  }

  /** The categories are named, in order, product, distro, kernel,
      processor, baseboard, rom, memory, disks and onboard. */
  lemma OrderNames()
    ensures |Order| == |Categories|
    ensures forall i :: 0 <= i < |Order| ==> Name(Order[i]) == Categories[i]
  {
  }

  class Hwinfo {
    const infoList: seq<Info>

    constructor (infos: seq<Info>)
      ensures infoList == infos
    {
      infoList := infos;
    }

    /** `__str__`: the messages of the nodes, one after the other. */
    function ToString(): (r: string)
      reads infoList
      ensures r == Page(Values(infoList))
    {
      Msgs(infoList)
    }

    /** An object list holding the nodes prints the page of those nodes:
        each category's header line followed by its indented detail lines. */
    lemma Printed(nodes: seq<Node>)
      requires AllHold(infoList, nodes)
      ensures ToString() == Page(nodes)
    {
      MsgsPage(infoList, nodes);
    }
  }

  /** The objects hold the nodes, pairwise. */
  predicate AllHold(infos: seq<Info>, nodes: seq<Node>)
    reads infos
  {
    |infos| == |nodes| && forall i :: 0 <= i < |infos| ==> Holds(infos[i], nodes[i])
  }

  /** One category's object: its class method or its class's constructor. */
  method NewCategory(c: Category, src: Sources) returns (r: Result<Info>)
    ensures r.Ok? <==> Build(c, src).Ok?
    ensures r.Err? ==> r.error == Build(c, src).error
    ensures r.Ok? ==> fresh(r.value) && Holds(r.value, Build(c, src).value)
  {
    match c
    case ProductInfo =>
      var info := NewInfo(LineNode("Product", src.productName));
      r := Ok(info);
    case DistroInfo =>
      var node := DistroNode(src.osRelease);
      if node.Err? {
        return Err(node.error);
      }
      var info := NewInfo(node.value);
      r := Ok(info);
    case KernelInfo =>
      var info := NewInfo(LineNode("Kernel", src.kernel));
      r := Ok(info);
    case ProcessorInfo =>
      var info := NewInfo(LineNode("Processor", src.processor));
      r := Ok(info);
    case BaseBoardInfo =>
      var info := NewInfo(Node("BaseBoard", Baseboard(src.boardVendor, src.boardName, src.chipset), []));
      r := Ok(info);
    case RomInfo =>
      r := Rom.NewRom(src.romListing);
    case MemoryInfo =>
      r := Memory.NewMemory(OutputLines(src.memoryDump));
    case DiskInfo =>
      r := Disk.NewDisks(src.sdListing, Reports(src.smartctl));
    case OnboardInfo =>
      r := Onboard.NewOnboard(OutputLines(src.onboardDump));
  }

  /** The appends of `Hwinfo.__init__`, over the categories `cats` in
      order: the objects built hold the nodes that `MapAll` computes, and
      the first category that raises ends the loop with its exception. */
  method AppendAll(cats: seq<Category>, src: Sources) returns (r: Result<seq<Info>>, ghost nodes: seq<Node>)
    ensures r.Ok? <==> MapAll(Builder(src), cats).Ok?
    ensures r.Err? ==> r.error == MapAll(Builder(src), cats).error
    ensures r.Ok? ==> MapAll(Builder(src), cats).value == nodes && AllHold(r.value, nodes)
  {
    var infos: seq<Info> := [];
    nodes := [];
    for k := 0 to |cats|
      invariant AllHold(infos, nodes)
      invariant MapAll(Builder(src), cats[..k]) == Ok(nodes)
    {
      var info := NewCategory(cats[k], src);
      if info.Err? {
        MapAllPrefixError(Builder(src), cats, k);
        return Err(info.error), nodes;
      }
      MapAllSnoc(Builder(src), cats, k);
      infos, nodes := infos + [info.value], nodes + [Build(cats[k], src).value];
    }
    assert cats[..|cats|] == cats;
    r := Ok(infos);
  }

  /** `Hwinfo()`: the nine objects, in order, kept in the list that
      `__str__` prints. */
  method Collect(src: Sources) returns (r: Result<Hwinfo>)
    ensures r.Ok? <==> Nodes(src).Ok?
    ensures r.Err? ==> r.error == Nodes(src).error
    ensures r.Ok? ==> fresh(r.value) && AllHold(r.value.infoList, Nodes(src).value)
  {
    var infos, nodes := AppendAll(Order, src);
    if infos.Err? {
      return Err(infos.error);
    }
    var hw := new Hwinfo(infos.value);
    return Ok(hw);
  }
}

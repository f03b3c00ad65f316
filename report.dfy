/** The report node `Info` and its text rendering.

    A node has a name, a one-line description and a list of sub-info lines
    that `add_subInfo` appends to. `msg()` prints the name padded to
    `fieldWidth`, ": " and the description, then every non-empty sub-info line
    behind the "│──" connector; in the last of those every '│' becomes '└'. */
module Report {
  import opened PyStr

  const FieldWidth := 10
  const Bar := "│──"
  const Corner := "└──"

  /** `' ' * n`: empty when `n` is zero or negative. */
  function Spaces(n: int): (r: string)
    ensures |r| == if n > 0 then n else 0
    ensures forall i :: 0 <= i < |r| ==> r[i] == ' '
    decreases if n > 0 then n else 0
  {
    if n <= 0 then "" else " " + Spaces(n - 1)
  }

  /** The first line of a node: the name, spaces up to the field width
      (none for a longer name), ": ", the description and a line break. */
  function Header(name: string, desc: string): (r: string)
    ensures var w := if |name| < FieldWidth then FieldWidth else |name|;
            && |r| == w + 3 + |desc|
            && r[..|name|] == name
            && (forall i :: |name| <= i < w ==> r[i] == ' ')
            && r[w..w + 2] == ": "
            && r[w + 2..w + 2 + |desc|] == desc
            && r[w + 2 + |desc|] == '\n'
  {
    name + Spaces(FieldWidth - |name|) + ": " + desc + "\n"
  }

  /** `indent_subInfo`. */
  function Indent(line: string): string {
    Bar + line
  }

  function IndentAll(lines: seq<string>): (r: seq<string>)
    ensures |r| == |lines| && forall i :: 0 <= i < |lines| ==> r[i] == Indent(lines[i])
  {
    seq(|lines|, i requires 0 <= i < |lines| => Indent(lines[i]))
  }

  /** `sub_msg[-1] = sub_msg[-1].replace('│', '└')` when there is a last line. */
  function MarkLast(lines: seq<string>): (r: seq<string>)
    ensures |r| == |lines|
    ensures forall i :: 0 <= i < |lines| - 1 ==> r[i] == lines[i]
    ensures lines != [] ==> r[|r| - 1] == ReplaceAll(lines[|lines| - 1], '│', '└')
  {
    if lines == [] then []
    else lines[..|lines| - 1] + [ReplaceAll(lines[|lines| - 1], '│', '└')]
  }

  /** `msg()` on the node's values, written as the source computes it; it
      agrees with the first line followed by the line-by-line reference
      rendering. */
  function Render(name: string, desc: string, subInfo: seq<string>): (r: string)
    ensures r == Header(name, desc) + Tree(subInfo)
  {
    BodyIsTree(subInfo);
    Header(name, desc) + Join(MarkLast(IndentAll(NonEmpty(subInfo))), "")
  }

  predicate AllEmpty(lines: seq<string>) {
    forall i :: 0 <= i < |lines| ==> lines[i] == ""
  }

  /** A reference rendering of the sub-info lines, one line at a time: an
      empty line shows nothing, the last non-empty one is drawn with the
      corner (and every bar in it becomes a corner), every other one with
      the bar. */
  function Tree(subInfo: seq<string>): (r: string)
    ensures r == "" <==> AllEmpty(subInfo)
    decreases |subInfo|
  {
    if subInfo == [] then ""
    else if subInfo[0] == "" then Tree(subInfo[1..])
    else if AllEmpty(subInfo[1..]) then Corner + ReplaceAll(subInfo[0], '│', '└')
    else Bar + subInfo[0] + Tree(subInfo[1..])
  }

  /** The source's filter-indent-mark-join body agrees with the reference. */
  lemma {:induction false} BodyIsTree(subInfo: seq<string>)
    ensures Join(MarkLast(IndentAll(NonEmpty(subInfo))), "") == Tree(subInfo)
    decreases |subInfo|
  {
    if subInfo != [] {
      var s := subInfo[0];
      var rest := subInfo[1..];
      BodyIsTree(rest);
      if s != "" {
        assert NonEmpty(subInfo) == [s] + NonEmpty(rest);
        if AllEmpty(rest) {
          BodyLast(s, rest);
        } else {
          BodyCons(s, rest);
        }
      }
    }
  }

  /** The last non-empty line is drawn with the corner. */
  lemma BodyLast(s: string, rest: seq<string>)
    requires AllEmpty(rest)
    ensures Join(MarkLast(IndentAll([s] + NonEmpty(rest))), "") == Corner + ReplaceAll(s, '│', '└')
  {
    NonEmptyOfEmpties(rest);
    assert [s] + NonEmpty(rest) == [s];
    ReplaceAllAppend(Bar, s, '│', '└');
    assert ReplaceAll(Bar, '│', '└') == Corner;
  }

  /** A line with more non-empty lines after it is drawn with the bar. */
  lemma BodyCons(s: string, rest: seq<string>)
    requires !AllEmpty(rest)
    ensures Join(MarkLast(IndentAll([s] + NonEmpty(rest))), "")
         == Bar + s + Join(MarkLast(IndentAll(NonEmpty(rest))), "")
  {
    NonEmptyOfSome(rest);
    var ne := IndentAll(NonEmpty(rest));
    IndentAllCons(s, NonEmpty(rest));
    MarkLastCons(Indent(s), ne);
    JoinCons(Indent(s), MarkLast(ne), "");
  }

  lemma IndentAllCons(s: string, lines: seq<string>)
    ensures IndentAll([s] + lines) == [Indent(s)] + IndentAll(lines)
  {
    var l, r := IndentAll([s] + lines), [Indent(s)] + IndentAll(lines);
    assert |l| == |r|;
    forall i | 0 <= i < |l|
      ensures l[i] == r[i]
    {
      if i > 0 {
        assert ([s] + lines)[i] == lines[i - 1];
      }
    }
  }

  lemma MarkLastCons(x: string, ys: seq<string>)
    requires ys != []
    ensures MarkLast([x] + ys) == [x] + MarkLast(ys)
  {
    var xs := [x] + ys;
    assert xs[|xs| - 1] == ys[|ys| - 1];
    assert xs[..|xs| - 1] == [x] + ys[..|ys| - 1];
  }

  lemma {:induction false} NonEmptyOfEmpties(lines: seq<string>)
    requires AllEmpty(lines)
    ensures NonEmpty(lines) == []
    decreases |lines|
  {
    if lines != [] {
      NonEmptyOfEmpties(lines[1..]);
    }
  }

  lemma {:induction false} NonEmptyOfSome(lines: seq<string>)
    requires !AllEmpty(lines)
    ensures NonEmpty(lines) != []
    decreases |lines|
  {
    if lines[0] == "" {
      NonEmptyOfSome(lines[1..]);
    }
  }

  /** Empty sub-info lines make no difference to the rendering. */
  lemma {:induction false} EmptyLinesIgnored(name: string, desc: string, before: seq<string>, after: seq<string>)
    ensures Render(name, desc, before + [""] + after) == Render(name, desc, before + after)
  {
    assert [""][1..] == [];
    assert NonEmpty([""]) == [];
    NonEmptyAppend(before + [""], after);
    NonEmptyAppend(before, [""]);
    NonEmptyAppend(before, after);
    assert NonEmpty(before + [""] + after) == NonEmpty(before + after);
  }

  /** A node with two detail lines: the first is drawn with the bar, the
      last with the corner. */
  lemma TwoDetailLines(name: string, desc: string, first: string, last: string)
    requires first != "" && last != "" && '│' !in last
    ensures Render(name, desc, [first, last]) == Header(name, desc) + Bar + first + Corner + last
  {
    TreeTwo(first, last);
  }

  lemma TreeTwo(first: string, last: string)
    requires first != "" && last != "" && '│' !in last
    ensures Tree([first, last]) == Bar + first + (Corner + last)
  {
    var subs := [first, last];
    assert subs[1..] == [last] && [last][1..] == [];
    assert AllEmpty([last][1..]);
    assert !AllEmpty(subs[1..]) by {
      assert subs[1..][0] != "";
    }
    ReplaceAllAbsent(last, '│', '└');
  }

  /** A short name is padded to the field width. */
  lemma MemoryHeader()
    ensures Header("Memory", "4096 MB Total") == "Memory    : 4096 MB Total\n"
  {
    assert Spaces(4) == "    ";
  }

  /** A node's values: what a category builder puts into an `Info`. */
  datatype Node = Node(name: string, desc: string, subInfo: seq<string>)

  class Info {
    const name: string
    const desc: string
    var subInfo: seq<string>

    constructor (name: string, desc: string)
      ensures this.name == name && this.desc == desc && subInfo == []
    {
      this.name := name;
      this.desc := desc;
      subInfo := [];
    }

    method AddSubInfo(line: string)
      modifies this
      ensures subInfo == old(subInfo) + [line]
    {
      subInfo := subInfo + [line];
    }

    /** `msg()`: reads the node and changes nothing. */
    function Msg(): (r: string)
      reads this
      ensures r == Header(name, desc) + Tree(subInfo)
    {
      Render(name, desc, subInfo)
    }
  }

  /** The node holds exactly these values. */
  predicate Holds(info: Info, n: Node)
    reads info
  {
    info.name == n.name && info.desc == n.desc && info.subInfo == n.subInfo
  }

  /** The constructor followed by the `add_subInfo` loop of the category
      classes. */
  method NewInfo(n: Node) returns (info: Info)
    ensures fresh(info) && Holds(info, n)
  {
    info := new Info(n.name, n.desc);
    for i := 0 to |n.subInfo|
      invariant info.name == n.name && info.desc == n.desc
      invariant info.subInfo == n.subInfo[..i]
    {
      info.AddSubInfo(n.subInfo[i]);
    }
    assert n.subInfo[..|n.subInfo|] == n.subInfo;
  }

  /** The values the objects hold now. */
  ghost function Values(infos: seq<Info>): (r: seq<Node>)
    reads infos
    ensures |r| == |infos| && forall i :: 0 <= i < |infos| ==> Holds(infos[i], r[i])
    decreases |infos|
  {
    if infos == [] then [] else [Node(infos[0].name, infos[0].desc, infos[0].subInfo)] + Values(infos[1..])
  }

  /** `''.join([i.msg() for i in infos])`: the page of the values the
      objects hold. */
  function Msgs(infos: seq<Info>): (r: string)
    reads infos
    ensures r == Page(Values(infos))
    decreases |infos|
  {
    if infos == [] then ""
    else
      assert Values(infos)[1..] == Values(infos[1..]);
      infos[0].Msg() + Msgs(infos[1..])
  }

  /** The text of a report made of these nodes; every node prints at least
      its first line. */
  function Page(nodes: seq<Node>): (r: string)
    ensures r == "" <==> nodes == []
    decreases |nodes|
  {
    if nodes == [] then "" else Render(nodes[0].name, nodes[0].desc, nodes[0].subInfo) + Page(nodes[1..])
  }

  /** The page of two lists of nodes is the two pages one after the other. */
  lemma {:induction false} PageAppend(a: seq<Node>, b: seq<Node>)
    ensures Page(a + b) == Page(a) + Page(b)
    decreases |a|
  {
    if a == [] {
      assert a + b == b;
    } else {
      assert (a + b)[0] == a[0];
      assert (a + b)[1..] == a[1..] + b;
      PageAppend(a[1..], b);
    }
  }

  /** Objects holding the nodes print the page of the nodes. */
  lemma MsgsPage(infos: seq<Info>, nodes: seq<Node>)
    requires |infos| == |nodes| && forall i :: 0 <= i < |infos| ==> Holds(infos[i], nodes[i])
    ensures Msgs(infos) == Page(nodes)
  {
    var vs := Values(infos);
    assert forall i :: 0 <= i < |vs| ==> vs[i] == nodes[i];
    assert vs == nodes;
  }
}

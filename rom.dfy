/** The `Rom` node: the optical drives listed by
    `lsblk -dP -o VENDOR,TYPE,MODEL`, whose lines read
    `VENDOR="…" TYPE="rom" MODEL="…"`. The description is "<vendor> <model>"
    for each drive, joined by spaces; the node has no detail lines. */
module Rom {
  import opened Outcomes
  import opened PyStr
  import opened Report

  /** The dict `transform` builds for one line. */
  type Rom = map<string, string>

  // ------------------------------------------------- re.split(r'(?<=") ', s)

  /** Index `j` of `s` is a space right after a double quote. */
  predicate SplitsAt(s: string, j: int) {
    1 <= j < |s| && s[j] == ' ' && s[j - 1] == '"'
  }

  predicate Unsplit(s: string) {
    forall j :: 0 <= j < |s| ==> !SplitsAt(s, j)
  }

  predicate EndsWithQuote(s: string) {
    s != [] && s[|s| - 1] == '"'
  }

  /** The first split point at or after `k`. */
  function FirstSplit(s: string, k: nat): (r: Option<nat>)
    requires k <= |s|
    ensures r.Some? ==> k <= r.value < |s| && SplitsAt(s, r.value)
    ensures r.Some? ==> forall j :: k <= j < r.value ==> !SplitsAt(s, j)
    ensures r.None? ==> forall j :: k <= j < |s| ==> !SplitsAt(s, j)
    decreases |s| - k
  {
    if k == |s| then None
    else if SplitsAt(s, k) then Some(k)
    else FirstSplit(s, k + 1)
  }

  /** `re.split(r'(?<=") ', s)`: the pieces between the spaces that follow a
      double quote, those spaces removed. */
  function SplitAfterQuote(s: string): (r: seq<string>)
    ensures |r| >= 1 && Join(r, " ") == s
    ensures forall i :: 0 <= i < |r| ==> Unsplit(r[i])
    ensures forall i :: 0 <= i < |r| - 1 ==> EndsWithQuote(r[i])
    decreases |s|
  {
    match FirstSplit(s, 0)
    case None => [s]
    case Some(j) =>
      var head, rest := s[..j], SplitAfterQuote(s[j + 1..]);
      assert forall i :: 0 <= i < j ==> head[i] == s[i];
      assert forall i :: 0 <= i < |head| ==> SplitsAt(head, i) == SplitsAt(s, i);
      JoinCons(head, rest, " ");
      assert s == head + " " + s[j + 1..];
      [head] + rest
  }

  /** Joining pieces that end in a quote and hold no split point, and
      splitting again, gives the pieces back. */
  lemma {:induction false} SplitJoinRoundTrip(tokens: seq<string>)
    requires |tokens| >= 1
    requires forall i :: 0 <= i < |tokens| ==> Unsplit(tokens[i])
    requires forall i :: 0 <= i < |tokens| - 1 ==> EndsWithQuote(tokens[i])
    ensures SplitAfterQuote(Join(tokens, " ")) == tokens
    decreases |tokens|
  {
    var s := Join(tokens, " ");
    var t := tokens[0];
    if |tokens| == 1 {
      assert s == t;
      assert FirstSplit(s, 0) == None by {
        assert Unsplit(t);
      }
    } else {
      var rest := Join(tokens[1..], " ");
      JoinCons(t, tokens[1..], " ");
      assert tokens == [t] + tokens[1..];
      assert s == t + " " + rest;
      assert forall i :: 0 <= i < |t| ==> s[i] == t[i];
      assert SplitsAt(s, |t|);
      assert forall j :: 0 <= j < |t| ==> SplitsAt(s, j) == SplitsAt(t, j);
      assert FirstSplit(s, 0) == Some(|t|);
      assert s[..|t|] == t && s[|t| + 1..] == rest;
      SplitJoinRoundTrip(tokens[1..]);
    }
  }

  // ------------------------------------------------------------- transform

  /** `key in 'VENDOR' or key in 'MODEL'`: substring tests, so "VEN" or the
      empty key qualify as well. */
  predicate RomKey(key: string) {
    Contains("VENDOR", key) || Contains("MODEL", key)
  }

  /** The stored values carry no double quote and no surrounding whitespace,
      under keys that pass the test. */
  predicate Clean(rom: Rom) {
    forall k :: k in rom ==> RomKey(k) && '"' !in rom[k] && Stripped(rom[k])
  }

  /** `value.replace('"', '').strip()`. */
  function CleanValue(value: string): (r: string)
    ensures '"' !in r && Stripped(r)
  {
    StripKeeps(RemoveAll(value, '"'), '"');
    Strip(RemoveAll(value, '"'))
  }

  /** A piece that unpacks into more than two parts at '='. */
  predicate TooManyParts(token: string) {
    |SplitOn(token, '=')| > 2
  }

  /** The loop of `transform` from the dict `rom`: a piece with one '=' is
      split into key and value, the value losing its double quotes and its
      surrounding whitespace; a piece with more than one '=' fails to
      unpack. */
  function Absorb(tokens: seq<string>, rom: Rom): (r: Result<Rom>)
    requires Clean(rom)
    ensures r.Ok? ==> Clean(r.value) && rom.Keys <= r.value.Keys
    ensures r.Err? ==> r.error == ValueError
    decreases |tokens|
  {
    if tokens == [] then Ok(rom)
    else
      var token := tokens[0];
      if '=' !in token then Absorb(tokens[1..], rom)
      else
        var parts := SplitOn(token, '=');
        if |parts| != 2 then Err(ValueError)
        else
          var key, value := parts[0], parts[1];
          if RomKey(key) then
            var v := CleanValue(value);
            Absorb(tokens[1..], rom[key := v])
          else Absorb(tokens[1..], rom)
  }

  /** The loop fails exactly when some piece has more than one '='. */
  lemma {:induction false} AbsorbFails(tokens: seq<string>, rom: Rom)
    requires Clean(rom)
    ensures Absorb(tokens, rom).Err? <==> exists token :: token in tokens && TooManyParts(token)
    decreases |tokens|
  {
    if tokens != [] {
      var token := tokens[0];
      TooManyCons(tokens);
      if '=' !in token {
        assert !TooManyParts(token);
        AbsorbFails(tokens[1..], rom);
      } else {
        var parts := SplitOn(token, '=');
        if |parts| == 2 {
          var key, value := parts[0], parts[1];
          if RomKey(key) {
            AbsorbFails(tokens[1..], rom[key := CleanValue(value)]);
          } else {
            AbsorbFails(tokens[1..], rom);
          }
        } else {
          assert TooManyParts(token);
        }
      }
    }
  }

  /** Some piece of a non-empty list has too many parts when the first one
      does or some later one does. */
  lemma TooManyCons(tokens: seq<string>)
    requires tokens != []
    ensures (exists t :: t in tokens && TooManyParts(t))
        <==> TooManyParts(tokens[0]) || exists t :: t in tokens[1..] && TooManyParts(t)
  {
    assert tokens == [tokens[0]] + tokens[1..];
    forall t | t in tokens && TooManyParts(t)
      ensures TooManyParts(tokens[0]) || t in tokens[1..]
    {
      if t != tokens[0] {
        var i :| 0 <= i < |tokens| && tokens[i] == t;
        assert tokens[1..][i - 1] == t;
      }
    }
    forall t | t in tokens[1..] && TooManyParts(t)
      ensures t in tokens
    {
    }
  }

  /** `transform`. */
  function Transform(line: string): (r: Result<Rom>)
    ensures r.Ok? ==> Clean(r.value)
    ensures r.Err? <==> exists token :: token in SplitAfterQuote(line) && TooManyParts(token)
    ensures r.Err? ==> r.error == ValueError
  {
    AbsorbFails(SplitAfterQuote(line), map[]);
    Absorb(SplitAfterQuote(line), map[])
  }

  /** One `key=value` piece, with no '=' in key or value. */
  lemma TokenStep(key: string, value: string, rest: seq<string>, rom: Rom)
    requires Clean(rom) && '=' !in key && '=' !in value
    ensures var rom' := if RomKey(key) then rom[key := CleanValue(value)] else rom;
            Clean(rom') && Absorb([key + "=" + value] + rest, rom) == Absorb(rest, rom')
  {
    var token := key + "=" + value;
    assert token == Join([key, value], "=");
    SplitOnJoin([key, value], '=');
    assert token[|key|] == '=';
    assert ([token] + rest)[1..] == rest;
  }

  /** `VENDOR="v"` and the like: a key, '=', and a quoted value. */
  function Quoted(key: string, v: string): string {
    key + "=" + "\"" + v + "\""
  }

  /** A quoted value with no quote inside that does not start with a space
      is one piece of the split. */
  lemma QuotedPiece(key: string, v: string)
    requires '"' !in key && '"' !in v && (v == [] || v[0] != ' ')
    ensures Unsplit(Quoted(key, v)) && EndsWithQuote(Quoted(key, v))
  {
    var s := Quoted(key, v);
    var o := |key| + 1;
    assert forall i :: 0 <= i < |key| ==> s[i] == key[i];
    assert s[|key|] == '=' && s[o] == '"';
    assert forall i :: o < i < |s| - 1 ==> s[i] == v[i - o - 1];
    assert s[|s| - 1] == '"';
  }

  /** One line of `lsblk -dP -o VENDOR,TYPE,MODEL` for an optical drive. */
  function LsblkLine(vendor: string, model: string): string {
    Quoted("VENDOR", vendor) + " " + Quoted("TYPE", "rom") + " " + Quoted("MODEL", model)
  }

  predicate PlainValue(v: string) {
    '"' !in v && '=' !in v && (v == [] || v[0] != ' ')
  }

  /** The three pieces of a drive's line. */
  lemma LsblkSplit(vendor: string, model: string)
    requires PlainValue(vendor) && PlainValue(model)
    ensures SplitAfterQuote(LsblkLine(vendor, model))
         == [Quoted("VENDOR", vendor), Quoted("TYPE", "rom"), Quoted("MODEL", model)]
  {
    var t1, t2, t3 := Quoted("VENDOR", vendor), Quoted("TYPE", "rom"), Quoted("MODEL", model);
    QuotedPiece("VENDOR", vendor);
    QuotedPiece("TYPE", "rom");
    QuotedPiece("MODEL", model);
    JoinCons(t2, [t3], " ");
    assert [t2] + [t3] == [t2, t3];
    JoinCons(t1, [t2, t3], " ");
    assert [t1] + [t2, t3] == [t1, t2, t3];
    assert LsblkLine(vendor, model) == t1 + " " + (t2 + " " + t3);
    SplitJoinRoundTrip([t1, t2, t3]);
  }

  lemma KeysOfLsblk()
    ensures RomKey("VENDOR") && !RomKey("TYPE") && RomKey("MODEL")
  {
    ContainsSelf("VENDOR");
    MissingHead("VENDOR", "TYPE");
    MissingHead("MODEL", "TYPE");
    ContainsSelf("MODEL");
  }

  /** A quoted piece under a key that passes the test stores the
      unquoted, stripped value. */
  lemma KeepPiece(key: string, v: string, rest: seq<string>, rom: Rom)
    requires Clean(rom) && RomKey(key) && '=' !in key && PlainValue(v)
    ensures Clean(rom[key := Strip(v)])
    ensures Absorb([Quoted(key, v)] + rest, rom) == Absorb(rest, rom[key := Strip(v)])
  {
    var q := Quote(v);
    QuoteRemoved(v);
    assert Quoted(key, v) == key + "=" + q;
    TokenStep(key, q, rest, rom);
  }

  /** A quoted piece under any other key is dropped. */
  lemma DropPiece(key: string, v: string, rest: seq<string>, rom: Rom)
    requires Clean(rom) && !RomKey(key) && '=' !in key && PlainValue(v)
    ensures Absorb([Quoted(key, v)] + rest, rom) == Absorb(rest, rom)
  {
    var q := "\"" + v + "\"";
    assert Quoted(key, v) == key + "=" + q;
    TokenStep(key, q, rest, rom);
  }

  lemma VendorPiece(vendor: string, t2: string, t3: string)
    requires PlainValue(vendor)
    ensures Clean(map["VENDOR" := Strip(vendor)])
    ensures Absorb([Quoted("VENDOR", vendor), t2, t3], map[]) == Absorb([t2, t3], map["VENDOR" := Strip(vendor)])
  {
    KeysOfLsblk();
    assert [Quoted("VENDOR", vendor), t2, t3] == [Quoted("VENDOR", vendor)] + [t2, t3];
    KeepPiece("VENDOR", vendor, [t2, t3], map[]);
    assert map[]["VENDOR" := Strip(vendor)] == map["VENDOR" := Strip(vendor)];
  }

  lemma TypePiece(t3: string, rom: Rom)
    requires Clean(rom)
    ensures Absorb([Quoted("TYPE", "rom"), t3], rom) == Absorb([t3], rom)
  {
    KeysOfLsblk();
    assert [Quoted("TYPE", "rom"), t3] == [Quoted("TYPE", "rom")] + [t3];
    DropPiece("TYPE", "rom", [t3], rom);
  }

  lemma ModelPiece(model: string, rom: Rom)
    requires PlainValue(model) && Clean(rom)
    ensures Absorb([Quoted("MODEL", model)], rom) == Ok(rom["MODEL" := Strip(model)])
  {
    KeysOfLsblk();
    assert [Quoted("MODEL", model)] == [Quoted("MODEL", model)] + [];
    KeepPiece("MODEL", model, [], rom);
  }

  /** The three pieces of a drive's line give its vendor and model. */
  lemma LsblkPieces(vendor: string, model: string)
    requires PlainValue(vendor) && PlainValue(model)
    ensures Absorb([Quoted("VENDOR", vendor), Quoted("TYPE", "rom"), Quoted("MODEL", model)], map[])
         == Ok(map["VENDOR" := Strip(vendor), "MODEL" := Strip(model)])
  {
    var t2, t3 := Quoted("TYPE", "rom"), Quoted("MODEL", model);
    var r1 := map["VENDOR" := Strip(vendor)];
    VendorPiece(vendor, t2, t3);
    TypePiece(t3, r1);
    ModelPiece(model, r1);
  }

  /** A drive's line yields its vendor and model, stripped, and the type is
      dropped. */
  lemma TransformLsblkLine(vendor: string, model: string)
    requires PlainValue(vendor) && PlainValue(model)
    ensures Transform(LsblkLine(vendor, model)) == Ok(map["VENDOR" := Strip(vendor), "MODEL" := Strip(model)])
  {
    LsblkSplit(vendor, model);
    LsblkPieces(vendor, model);
  }

  lemma LsblkFields(vendor: string, model: string)
    requires PlainValue(vendor) && PlainValue(model)
    ensures var r := Transform(LsblkLine(vendor, model));
            r.Ok? && "VENDOR" in r.value && "MODEL" in r.value
            && r.value["VENDOR"] == Strip(vendor) && r.value["MODEL"] == Strip(model)
  {
    TransformLsblkLine(vendor, model);
    TwoKeys(Strip(vendor), Strip(model));
  }

  lemma TwoKeys(v: string, m: string)
    ensures var r := map["VENDOR" := v, "MODEL" := m];
            "VENDOR" in r && "MODEL" in r && r["VENDOR"] == v && r["MODEL"] == m
  {
    assert "VENDOR" != "MODEL";
  }

  // -------------------------------------------------------------- get_desc

  /** `'{0} {1}'.format(i['VENDOR'], i['MODEL'])`. */
  function RomLabel(rom: Rom): (r: Result<string>)
    ensures r.Ok? <==> "VENDOR" in rom && "MODEL" in rom
    ensures r.Ok? ==> r.value == rom["VENDOR"] + " " + rom["MODEL"]
    ensures r.Err? ==> r.error == KeyError(if "VENDOR" !in rom then "VENDOR" else "MODEL")
  {
    var vendor :- Lookup(rom, "VENDOR");
    var model :- Lookup(rom, "MODEL");
    Ok(vendor + " " + model)
  }

  /** The line parses and its record names both a vendor and a model. */
  ghost predicate Labelled(line: string) {
    Transform(line).Ok? && "VENDOR" in Transform(line).value && "MODEL" in Transform(line).value
  }

  /** "<VENDOR> <MODEL>" of a labelled line. */
  ghost function DriveLabel(line: string): string
    requires Labelled(line)
  {
    Transform(line).value["VENDOR"] + " " + Transform(line).value["MODEL"]
  }

  /** The labels of labelled lines, in order. */
  ghost function Labels(lines: seq<string>): (r: seq<string>)
    requires forall i :: 0 <= i < |lines| ==> Labelled(lines[i])
    ensures |r| == |lines| && forall i :: 0 <= i < |lines| ==> r[i] == DriveLabel(lines[i])
    decreases |lines|
  {
    if lines == [] then [] else [DriveLabel(lines[0])] + Labels(lines[1..])
  }

  /** `get_desc`: the labels of all lines joined by spaces. Every line is
      transformed before any label is built, so a line that `transform`
      rejects wins over an earlier record that lacks a key. */
  function GetDesc(romList: seq<string>): (r: Result<string>)
    ensures r.Ok? <==> forall i :: 0 <= i < |romList| ==> Labelled(romList[i])
    ensures r.Ok? ==> r.value == Join(Labels(romList), " ")
    ensures (exists i :: 0 <= i < |romList| && Transform(romList[i]).Err?) ==> r == Err(ValueError)
    ensures (forall i :: 0 <= i < |romList| ==> Transform(romList[i]).Ok?) && r.Err? ==>
              exists i :: 0 <= i < |romList| && !Labelled(romList[i])
                          && (forall j :: 0 <= j < i ==> Labelled(romList[j]))
                          && r.error == KeyError(if "VENDOR" !in Transform(romList[i]).value then "VENDOR" else "MODEL")
  {
    var roms := MapAll(Transform, romList);
    if roms.Err? then Err(roms.error)
    else
      var msgs := MapAll(RomLabel, roms.value);
      LabelsOfLines(romList, roms.value);
      if msgs.Err? then Err(msgs.error) else Ok(Join(msgs.value, " "))
  }

  /** Once every line is transformed, the labels are those of the lines. */
  lemma LabelsOfLines(romList: seq<string>, roms: seq<Rom>)
    requires MapAll(Transform, romList) == Ok(roms)
    ensures var msgs := MapAll(RomLabel, roms);
            msgs.Ok? <==> forall i :: 0 <= i < |romList| ==> Labelled(romList[i])
    ensures var msgs := MapAll(RomLabel, roms);
            msgs.Ok? ==> msgs.value == Labels(romList)
    ensures var msgs := MapAll(RomLabel, roms);
            msgs.Err? ==>
              exists i :: 0 <= i < |romList| && !Labelled(romList[i])
                          && (forall j :: 0 <= j < i ==> Labelled(romList[j]))
                          && msgs.error == KeyError(if "VENDOR" !in Transform(romList[i]).value then "VENDOR" else "MODEL")
  {
    LabelsPointwise(romList, roms);
    if MapAll(RomLabel, roms).Ok? {
      LabelsValue(romList, roms);
    } else {
      LabelsError(romList, roms);
      var i :| 0 <= i < |romList| && !Labelled(romList[i]);
    }
  }

  lemma LabelsValue(romList: seq<string>, roms: seq<Rom>)
    requires |roms| == |romList| && forall i :: 0 <= i < |romList| ==> Transform(romList[i]) == Ok(roms[i])
    requires MapAll(RomLabel, roms).Ok?
    ensures forall i :: 0 <= i < |romList| ==> Labelled(romList[i])
    ensures MapAll(RomLabel, roms).value == Labels(romList)
  {
    forall i | 0 <= i < |romList|
      ensures Labelled(romList[i])
    {
      LabelOfLine(romList[i], roms[i]);
    }
    var msgs, labels := MapAll(RomLabel, roms).value, Labels(romList);
    forall i | 0 <= i < |labels|
      ensures msgs[i] == labels[i]
    {
      LabelOfLine(romList[i], roms[i]);
    }
  }

  lemma LabelsError(romList: seq<string>, roms: seq<Rom>)
    requires |roms| == |romList| && forall i :: 0 <= i < |romList| ==> Transform(romList[i]) == Ok(roms[i])
    requires MapAll(RomLabel, roms).Err?
    ensures exists i :: 0 <= i < |romList| && !Labelled(romList[i])
                        && (forall j :: 0 <= j < i ==> Labelled(romList[j]))
                        && MapAll(RomLabel, roms).error
                           == KeyError(if "VENDOR" !in Transform(romList[i]).value then "VENDOR" else "MODEL")
  {
    var i :| 0 <= i < |roms| && RomLabel(roms[i]) == Err(MapAll(RomLabel, roms).error)
             && forall j :: 0 <= j < i ==> RomLabel(roms[j]).Ok?;
    LabelOfLine(romList[i], roms[i]);
    forall j | 0 <= j < i
      ensures Labelled(romList[j])
    {
      LabelOfLine(romList[j], roms[j]);
    }
  }

  lemma LabelsPointwise(romList: seq<string>, roms: seq<Rom>)
    requires MapAll(Transform, romList) == Ok(roms)
    ensures |roms| == |romList| && forall i :: 0 <= i < |romList| ==> Transform(romList[i]) == Ok(roms[i])
  {
  }

  lemma LabelOfLine(line: string, rom: Rom)
    requires Transform(line) == Ok(rom)
    ensures RomLabel(rom).Ok? <==> Labelled(line)
    ensures Labelled(line) ==> RomLabel(rom).value == DriveLabel(line)
    ensures RomLabel(rom).Err? ==> RomLabel(rom).error == KeyError(if "VENDOR" !in Transform(line).value then "VENDOR" else "MODEL")
  {
  }

  /** A listing of one line is described by the label of its record. */
  lemma DescOfOne(line: string, vendor: string, model: string)
    requires Transform(line).Ok? && "VENDOR" in Transform(line).value && "MODEL" in Transform(line).value
    requires Transform(line).value["VENDOR"] == vendor && Transform(line).value["MODEL"] == model
    ensures GetDesc([line]) == Ok(vendor + " " + model)
  {
    MapAllOne(Transform, line);
    MapAllOne(RomLabel, Transform(line).value);
  }

  /** A single drive is described by its stripped vendor and model. */
  lemma OneDriveDesc(vendor: string, model: string)
    requires PlainValue(vendor) && PlainValue(model)
    ensures GetDesc([LsblkLine(vendor, model)]) == Ok(Strip(vendor) + " " + Strip(model))
  {
    LsblkFields(vendor, model);
    DescOfOne(LsblkLine(vendor, model), Strip(vendor), Strip(model));
  }

  /** The node `Rom.__init__` builds from the `lsblk` output. */
  function RomNode(output: string): (r: Result<Node>)
    ensures r.Ok? <==> GetDesc(NonEmptyLines(output)).Ok?
    ensures r.Ok? ==> && r.value.name == "Rom" && r.value.subInfo == []
                      && r.value.desc == GetDesc(NonEmptyLines(output)).value
    ensures r.Err? ==> r.error == GetDesc(NonEmptyLines(output)).error
  {
    var desc :- GetDesc(NonEmptyLines(output));
    Ok(Node("Rom", desc, []))
  }

  /** `Rom.__init__`. */
  method NewRom(output: string) returns (r: Result<Info>)
    ensures r.Ok? <==> RomNode(output).Ok?
    ensures r.Ok? ==> fresh(r.value) && Holds(r.value, RomNode(output).value)
    ensures r.Err? ==> r.error == RomNode(output).error
  {
    var desc := GetDesc(NonEmptyLines(output));
    if desc.Err? {
      return Err(desc.error);
    }
    var info := new Info("Rom", desc.value);
    return Ok(info);
  }
}

/** The two-state line-block parser shared by `Memory.memory`,
    `OnboardDevice.onboard_device` and `Disk.disks_detail`.

    Each of them walks stripped lines with a `parsing` flag and a dict
    accumulator: a trigger line (tested only while not parsing) opens a block
    with an empty dict, a line holding the separator is split at its first
    occurrence and its key may be kept, and a blank line while parsing closes
    the block and appends the dict. `Step` is one iteration of that loop body,
    `Scan` the loop as a left fold, and `Feed` the loop itself. */
module BlockParser {
  import opened Outcomes
  import opened PyStr

  /** A parsed block: the Python dict from field name to value. */
  type Record = map<string, string>

  /** How the line that opens a block is recognised. */
  datatype Trigger =
    | LineIs(text: string)    // `line == text`
    | LineHas(text: string)   // `text in line`

  /** Which `key sep value` lines a block keeps, and under which name. */
  datatype KeyRule =
    | Allowlist(attrs: seq<string>)   // `if key in attrs: d[key] = value`
    | SmartctlFields                  // the substring key tests of `disks_detail`

  datatype BlockFormat = BlockFormat(trigger: Trigger, sep: string, rule: KeyRule)

  /** What one key/value line does to the accumulator. */
  datatype FieldAction = Store(key: string, value: string) | Ignore | Fail

  /** Loop state: the `parsing` flag, the dict being filled, the list of
      finished dicts, and whether an exception has left the loop. */
  datatype Parser = Parser(parsing: bool, acc: Record, done: seq<Record>, aborted: bool)

  const Start := Parser(false, map[], [], false)

  predicate Triggers(t: Trigger, line: string) {
    match t
    case LineIs(x) => line == x
    case LineHas(x) => Contains(line, x)
  }

  function TriggerText(t: Trigger): string {
    match t
    case LineIs(x) => x
    case LineHas(x) => x
  }

  /** The keys a rule can store. */
  function RuleKeys(rule: KeyRule): set<string> {
    match rule
    case Allowlist(attrs) => set a | a in attrs
    case SmartctlFields => {"model", "device", "capacity"}
  }

  /** The per-line key handling. For the disk parser the value is stripped
      first; a key that is a substring of "Model Family", "Device Model" or
      "User Capacity" (tested in that order) is stored as model, device or
      capacity, the capacity being the bracketed part of the value. A
      capacity without one makes `m.group()` raise. */
  function Field(rule: KeyRule, key: string, value: string): (f: FieldAction)
    ensures f.Store? ==> f.key in RuleKeys(rule)
    ensures f.Fail? ==> rule.SmartctlFields?
  {
    match rule
    case Allowlist(attrs) => if key in attrs then Store(key, value) else Ignore
    case SmartctlFields =>
      var v := Strip(value);
      if Contains("Model Family", key) then Store("model", v)
      else if Contains("Device Model", key) then Store("device", v)
      else if Contains("User Capacity", key) then
        match BracketSearch(v)
        case Some(c) => Store("capacity", c)
        case None => Fail
      else Ignore
  }

  /** One pass of the loop body on `line`. `stamp` is merged into the dict
      when a block closes (the disk parser's `disk['node'] = i`; empty for the
      other two). A step either completes no record, or appends one that
      carries the stamp and is left in the accumulator as parsing stops;
      after an exception nothing changes. */
  function Step(f: BlockFormat, stamp: Record, p: Parser, line: string): (r: Parser)
    requires f.sep != []
    ensures p.aborted ==> r == p
    ensures r.done == p.done || (r.done == p.done + [r.acc] && Stamped(r.acc, stamp) && !r.parsing)
  {
    if p.aborted then p
    else
      var p1 := if !p.parsing && Triggers(f.trigger, line) then p.(parsing := true, acc := map[]) else p;
      if p1.parsing && Contains(line, f.sep) then
        var (key, value) := SplitFirst(line, f.sep);
        match Field(f.rule, key, value)
        case Store(k, v) => p1.(acc := p1.acc[k := v])
        case Ignore => p1
        case Fail => p1.(aborted := true)
      else if p1.parsing && line == "" then
        var rec := p1.acc + stamp;
        p1.(parsing := false, acc := rec, done := p1.done + [rec])
      else p1
  }

  /** The loop over a whole stream, from state `p`: records are only ever
      appended. */
  function Scan(f: BlockFormat, stamp: Record, p: Parser, lines: seq<string>): (r: Parser)
    requires f.sep != []
    ensures |p.done| <= |r.done| && r.done[..|p.done|] == p.done
    decreases |lines|
  {
    if lines == [] then p
    else
      var q := Scan(f, stamp, p, lines[..|lines| - 1]);
      var r := Step(f, stamp, q, lines[|lines| - 1]);
      assert r.done[..|q.done|] == q.done;
      assert r.done[..|p.done|] == q.done[..|p.done|];
      r
  }

  /** The records a single-stream parser returns: each holds only keys its
      rule can store. */
  function Blocks(f: BlockFormat, lines: seq<string>): (r: seq<Record>)
    requires f.sep != []
    ensures forall rec :: rec in r ==> rec.Keys <= RuleKeys(f.rule)
  {
    ScanKeys(f, map[], Start, lines, RuleKeys(f.rule));
    Scan(f, map[], Start, lines).done
  }

  /** The parsing loop: consumes `lines` from state `p`, leaving at the first
      exception. */
  method Feed(f: BlockFormat, stamp: Record, p: Parser, lines: seq<string>) returns (q: Parser)
    requires f.sep != [] && !p.aborted
    ensures q == Scan(f, stamp, p, lines)
  {
    q := p;
    var i := 0;
    while i < |lines|
      invariant 0 <= i <= |lines|
      invariant q == Scan(f, stamp, p, lines[..i]) && !q.aborted
    {
      ScanNext(f, stamp, p, lines, i);
      q := FeedLine(f, stamp, q, lines[i]);
      i := i + 1;
      if q.aborted {
        AbortedRest(f, stamp, p, lines, i);
        return;
      }
    }
    assert lines[..i] == lines;
  }

  /** One iteration of the loop body: the trigger test, then the field or
      the blank line. `Step` is its specification. */
  method FeedLine(f: BlockFormat, stamp: Record, p: Parser, line: string) returns (q: Parser)
    requires f.sep != [] && !p.aborted
    ensures q == Step(f, stamp, p, line)
  {
    var parsing, acc, done := p.parsing, p.acc, p.done;
    if !parsing && Triggers(f.trigger, line) {
      parsing := true;
      acc := map[];
    }
    if parsing && Contains(line, f.sep) {
      var (key, value) := SplitFirst(line, f.sep);
      var field := Field(f.rule, key, value);
      if field.Fail? {
        return Parser(parsing, acc, done, true);
      }
      if field.Store? {
        acc := acc[field.key := field.value];
      }
    } else if parsing && line == "" {
      parsing := false;
      acc := acc + stamp;
      done := done + [acc];
    }
    q := Parser(parsing, acc, done, false);
  }

  // --------------------------------------------------------------- lemmas

  lemma ScanNext(f: BlockFormat, stamp: Record, p: Parser, lines: seq<string>, i: nat)
    requires f.sep != [] && i < |lines|
    ensures Scan(f, stamp, p, lines[..i + 1]) == Step(f, stamp, Scan(f, stamp, p, lines[..i]), lines[i])
  {
    assert lines[..i + 1][..i] == lines[..i];
  }

  /** Once the run has failed on the first `i` lines, the rest change
      nothing. */
  lemma AbortedRest(f: BlockFormat, stamp: Record, p: Parser, lines: seq<string>, i: nat)
    requires f.sep != [] && i <= |lines| && Scan(f, stamp, p, lines[..i]).aborted
    ensures Scan(f, stamp, p, lines) == Scan(f, stamp, p, lines[..i])
  {
    var before, after := lines[..i], lines[i..];
    assert before + after == lines;
    ScanAppend(f, stamp, p, before, after);
    AbortedStays(f, stamp, Scan(f, stamp, p, before), after);
  }

  /** Running over two pieces is running over their concatenation. */
  lemma {:induction false} ScanAppend(f: BlockFormat, stamp: Record, p: Parser, a: seq<string>, b: seq<string>)
    requires f.sep != []
    ensures Scan(f, stamp, p, a + b) == Scan(f, stamp, Scan(f, stamp, p, a), b)
    decreases |b|
  {
    if b == [] {
      assert a + b == a;
    } else {
      var n := |b| - 1;
      assert (a + b)[..|a + b| - 1] == a + b[..n];
      ScanAppend(f, stamp, p, a, b[..n]);
    }
  }

  /** The first line is handled first. */
  lemma ScanCons(f: BlockFormat, stamp: Record, p: Parser, line: string, rest: seq<string>)
    requires f.sep != []
    ensures Scan(f, stamp, p, [line] + rest) == Scan(f, stamp, Step(f, stamp, p, line), rest)
  {
    ScanAppend(f, stamp, p, [line], rest);
    assert [line][..0] == [];
  }

  /** Four lines are four steps. */
  lemma ScanFour(f: BlockFormat, stamp: Record, p: Parser, a: string, b: string, c: string, d: string)
    requires f.sep != []
    ensures Scan(f, stamp, p, [a, b, c, d])
         == Step(f, stamp, Step(f, stamp, Step(f, stamp, Step(f, stamp, p, a), b), c), d)
  {
    var p0: seq<string> := [];
    assert p0 + [a] == [a] && [a] + [b] == [a, b] && [a, b] + [c] == [a, b, c] && [a, b, c] + [d] == [a, b, c, d];
    ScanLast(f, stamp, p, p0, a);
    ScanLast(f, stamp, p, [a], b);
    ScanLast(f, stamp, p, [a, b], c);
    ScanLast(f, stamp, p, [a, b, c], d);
  }

  /** The last line is handled last. */
  lemma ScanLast(f: BlockFormat, stamp: Record, p: Parser, lines: seq<string>, line: string)
    requires f.sep != []
    ensures Scan(f, stamp, p, lines + [line]) == Step(f, stamp, Scan(f, stamp, p, lines), line)
  {
    assert (lines + [line])[..|lines|] == lines;
  }

  /** After an exception nothing more happens. */
  lemma {:induction false} AbortedStays(f: BlockFormat, stamp: Record, p: Parser, lines: seq<string>)
    requires f.sep != [] && p.aborted
    ensures Scan(f, stamp, p, lines) == p
    decreases |lines|
  {
    if lines != [] {
      AbortedStays(f, stamp, p, lines[..|lines| - 1]);
    }
  }

  /** Once the run has failed it stays failed. */
  lemma {:induction false} AbortedPrefix(f: BlockFormat, stamp: Record, p: Parser, lines: seq<string>)
    requires f.sep != [] && lines != []
    requires !Scan(f, stamp, p, lines).aborted
    ensures !Scan(f, stamp, p, lines[..|lines| - 1]).aborted
  {
  }

  /** An allowlist never raises. */
  lemma {:induction false} AllowlistNeverAborts(f: BlockFormat, stamp: Record, p: Parser, lines: seq<string>)
    requires f.sep != [] && f.rule.Allowlist? && !p.aborted
    ensures !Scan(f, stamp, p, lines).aborted
    decreases |lines|
  {
    if lines != [] {
      AllowlistNeverAborts(f, stamp, p, lines[..|lines| - 1]);
    }
  }

  /** Lines that are not blank never finish a record. */
  lemma {:induction false} NonBlankEmitsNothing(f: BlockFormat, stamp: Record, p: Parser, lines: seq<string>)
    requires f.sep != []
    requires forall j :: 0 <= j < |lines| ==> lines[j] != ""
    ensures Scan(f, stamp, p, lines).done == p.done
    decreases |lines|
  {
    if lines != [] {
      var n := |lines| - 1;
      NonBlankEmitsNothing(f, stamp, p, lines[..n]);
      StepNonBlank(f, stamp, Scan(f, stamp, p, lines[..n]), lines[n]);
    }
  }

  /** One line that is not blank finishes no record. */
  lemma StepNonBlank(f: BlockFormat, stamp: Record, p: Parser, line: string)
    requires f.sep != [] && line != ""
    ensures Step(f, stamp, p, line).done == p.done
  {
  }

  /** While no blank line arrives an open block stays open, keeps every key
      it has and emits nothing; the end of a stream does not close it. */
  lemma {:induction false} OpenRun(f: BlockFormat, stamp: Record, p: Parser, lines: seq<string>)
    requires f.sep != [] && p.parsing
    requires forall j :: 0 <= j < |lines| ==> lines[j] != ""
    ensures Scan(f, stamp, p, lines).parsing
    ensures p.acc.Keys <= Scan(f, stamp, p, lines).acc.Keys
    ensures Scan(f, stamp, p, lines).done == p.done
    decreases |lines|
  {
    if lines != [] {
      var n := |lines| - 1;
      OpenRun(f, stamp, p, lines[..n]);
      StepOpen(f, stamp, Scan(f, stamp, p, lines[..n]), lines[n]);
    }
  }

  /** Inside a block, a line that is not blank keeps the block open and
      loses no key. */
  lemma StepOpen(f: BlockFormat, stamp: Record, p: Parser, line: string)
    requires f.sep != [] && p.parsing && line != ""
    ensures Step(f, stamp, p, line).parsing
    ensures p.acc.Keys <= Step(f, stamp, p, line).acc.Keys
    ensures Step(f, stamp, p, line).done == p.done
  {
  }

  /** Drop-on-EOF: a block whose opening line at `t` is followed by no blank
      line before the end of the stream is never appended; the result is what
      the stream before that block gave. */
  lemma DropOnEof(f: BlockFormat, lines: seq<string>, t: nat)
    requires f.sep != [] && t < |lines|
    requires Triggers(f.trigger, lines[t])
    requires forall j :: t <= j < |lines| ==> lines[j] != ""
    ensures Blocks(f, lines) == Blocks(f, lines[..t])
  {
    assert lines == lines[..t] + lines[t..];
    ScanAppend(f, map[], Start, lines[..t], lines[t..]);
    NonBlankEmitsNothing(f, map[], Scan(f, map[], Start, lines[..t]), lines[t..]);
  }

  /** Outside a block, a line that does not trigger changes nothing. */
  lemma IdleLine(f: BlockFormat, stamp: Record, p: Parser, line: string)
    requires f.sep != [] && !p.parsing && !Triggers(f.trigger, line)
    ensures Step(f, stamp, p, line) == p
  {
  }

  /** Outside a block, a trigger line without a separator opens a fresh
      block. */
  lemma TriggerOpens(f: BlockFormat, stamp: Record, p: Parser, line: string)
    requires f.sep != [] && !p.parsing && !p.aborted
    requires Triggers(f.trigger, line) && !Contains(line, f.sep) && line != ""
    ensures Step(f, stamp, p, line) == p.(parsing := true, acc := map[])
  {
  }

  /** No nesting: while a block is open a second trigger line does not reset
      the accumulator. */
  lemma NoNesting(f: BlockFormat, stamp: Record, p: Parser, line: string)
    requires f.sep != [] && p.parsing
    requires Triggers(f.trigger, line) && !Contains(line, f.sep) && line != ""
    ensures Step(f, stamp, p, line) == p
  {
  }

  /** A `key sep value` line inside an allowlist block: the value is the
      whole text after the first separator, and it replaces any earlier
      value of the same key; other keys leave the block unchanged. */
  lemma KeyValueLine(attrs: seq<string>, trigger: Trigger, sep: string, stamp: Record, p: Parser,
                     key: string, value: string)
    requires sep != [] && p.parsing && !p.aborted
    requires forall j :: 0 <= j < |key| ==> !OccursAt(key + sep + value, sep, j)
    ensures Step(BlockFormat(trigger, sep, Allowlist(attrs)), stamp, p, key + sep + value)
         == if key in attrs then p.(acc := p.acc[key := value]) else p
  {
    SplitFirstAt(key, sep, value);
  }

  /** A blank line inside a block closes it: the accumulated dict, with the
      stamp merged in, is appended once and parsing stops. */
  lemma BlankCloses(f: BlockFormat, stamp: Record, p: Parser)
    requires f.sep != [] && p.parsing && !p.aborted
    ensures Step(f, stamp, p, "") == p.(parsing := false, acc := p.acc + stamp, done := p.done + [p.acc + stamp])
  {
    assert !Contains("", f.sep) by {
      if Contains("", f.sep) {
        ContainsFits("", f.sep);
      }
    }
  }

  // --------------------------------------------- a declarative reference

  /** The stream leaves a block open: some trigger line is followed by no
      blank line. */
  ghost predicate Open(t: Trigger, lines: seq<string>) {
    exists k :: 0 <= k < |lines| && Triggers(t, lines[k]) && forall j :: k < j < |lines| ==> lines[j] != ""
  }

  /** The number of blank lines that arrive while a block is open. */
  ghost function Closings(t: Trigger, lines: seq<string>): nat
    decreases |lines|
  {
    if lines == [] then 0
    else
      var n := |lines| - 1;
      Closings(t, lines[..n]) + (if lines[n] == "" && Open(t, lines[..n]) then 1 else 0)
  }

  /** The parser is in the `parsing` state exactly when the lines read so
      far leave a block open, and it has emitted exactly one record per blank
      line that arrived while a block was open (unless it has raised). */
  lemma {:induction false} ScanMatchesReference(f: BlockFormat, stamp: Record, lines: seq<string>)
    requires f.sep != [] && TriggerText(f.trigger) != []
    requires !Scan(f, stamp, Start, lines).aborted
    ensures Scan(f, stamp, Start, lines).parsing <==> Open(f.trigger, lines)
    ensures |Scan(f, stamp, Start, lines).done| == Closings(f.trigger, lines)
    decreases |lines|
  {
    if lines != [] {
      var n := |lines| - 1;
      var init := lines[..n];
      AbortedPrefix(f, stamp, Start, lines);
      ScanMatchesReference(f, stamp, init);
      var p := Scan(f, stamp, Start, init);
      assert Scan(f, stamp, Start, lines) == Step(f, stamp, p, lines[n]);
      StepShape(f, stamp, p, lines[n]);
      OpenStep(f.trigger, lines);
    }
  }

  /** What one step does to the flag and the count of records. */
  lemma StepShape(f: BlockFormat, stamp: Record, p: Parser, line: string)
    requires f.sep != [] && TriggerText(f.trigger) != [] && !p.aborted
    requires !Step(f, stamp, p, line).aborted
    ensures line == "" ==> !Step(f, stamp, p, line).parsing
    ensures line == "" ==> |Step(f, stamp, p, line).done| == |p.done| + (if p.parsing then 1 else 0)
    ensures line != "" ==> |Step(f, stamp, p, line).done| == |p.done|
    ensures line != "" && Triggers(f.trigger, line) ==> Step(f, stamp, p, line).parsing
    ensures line != "" && !Triggers(f.trigger, line) ==> Step(f, stamp, p, line).parsing == p.parsing
  {
    if line == "" {
      assert !Triggers(f.trigger, line) by {
        if f.trigger.LineHas? && Contains(line, f.trigger.text) {
          ContainsFits(line, f.trigger.text);
        }
      }
      assert !Contains(line, f.sep) by {
        if Contains(line, f.sep) {
          ContainsFits(line, f.sep);
        }
      }
    }
  }

  /** How `Open` changes when one more line is read. */
  lemma OpenStep(t: Trigger, lines: seq<string>)
    requires lines != [] && TriggerText(t) != []
    ensures var n := |lines| - 1;
            if lines[n] == "" then !Open(t, lines)
            else if Triggers(t, lines[n]) then Open(t, lines)
            else Open(t, lines) == Open(t, lines[..n])
  {
    var n := |lines| - 1;
    if lines[n] == "" {
      assert !Triggers(t, lines[n]) by {
        if t.LineHas? && Contains(lines[n], t.text) {
          ContainsFits(lines[n], t.text);
        }
      }
    } else if !Triggers(t, lines[n]) {
      OpenPlainLine(t, lines);
    }
  }

  /** A line that neither opens nor closes a block leaves the state as it
      was. */
  lemma OpenPlainLine(t: Trigger, lines: seq<string>)
    requires lines != [] && lines[|lines| - 1] != "" && !Triggers(t, lines[|lines| - 1])
    ensures Open(t, lines) == Open(t, lines[..|lines| - 1])
  {
    OpenKept(t, lines);
    OpenFromEarlier(t, lines);
  }

  /** A block open before a non-blank line is still open after it. */
  lemma OpenKept(t: Trigger, lines: seq<string>)
    requires lines != [] && lines[|lines| - 1] != ""
    ensures Open(t, lines[..|lines| - 1]) ==> Open(t, lines)
  {
    var n := |lines| - 1;
    var init := lines[..n];
    if Open(t, init) {
      var k :| 0 <= k < n && Triggers(t, init[k]) && forall j :: k < j < n ==> init[j] != "";
      assert init[k] == lines[k];
      forall j | k < j < |lines|
        ensures lines[j] != ""
      {
        if j < n {
          assert init[j] == lines[j];
        }
      }
      assert Triggers(t, lines[k]);
    }
  }

  /** A block open after a line that does not trigger was opened earlier. */
  lemma OpenFromEarlier(t: Trigger, lines: seq<string>)
    requires lines != [] && !Triggers(t, lines[|lines| - 1])
    ensures Open(t, lines) ==> Open(t, lines[..|lines| - 1])
  {
    var n := |lines| - 1;
    var init := lines[..n];
    if Open(t, lines) {
      var k :| 0 <= k < |lines| && Triggers(t, lines[k]) && forall j :: k < j < |lines| ==> lines[j] != "";
      assert k < n;
      assert init[k] == lines[k];
      forall j | k < j < n
        ensures init[j] != ""
      {
        assert init[j] == lines[j];
      }
      assert Triggers(t, init[k]);
    }
  }

  /** Every record carries only keys the rule can store, plus the stamp's. */
  lemma {:induction false} ScanKeys(f: BlockFormat, stamp: Record, p: Parser, lines: seq<string>, keys: set<string>)
    requires f.sep != [] && RuleKeys(f.rule) + stamp.Keys <= keys
    requires p.acc.Keys <= keys && forall r :: r in p.done ==> r.Keys <= keys
    ensures Scan(f, stamp, p, lines).acc.Keys <= keys
    ensures forall r :: r in Scan(f, stamp, p, lines).done ==> r.Keys <= keys
    decreases |lines|
  {
    if lines != [] {
      ScanKeys(f, stamp, p, lines[..|lines| - 1], keys);
      StepKeys(f, stamp, Scan(f, stamp, p, lines[..|lines| - 1]), lines[|lines| - 1], keys);
    }
  }

  lemma StepKeys(f: BlockFormat, stamp: Record, p: Parser, line: string, keys: set<string>)
    requires f.sep != [] && RuleKeys(f.rule) + stamp.Keys <= keys
    requires p.acc.Keys <= keys && forall r :: r in p.done ==> r.Keys <= keys
    ensures Step(f, stamp, p, line).acc.Keys <= keys
    ensures forall r :: r in Step(f, stamp, p, line).done ==> r.Keys <= keys
  {
    if !p.aborted {
      var p1 := if !p.parsing && Triggers(f.trigger, line) then p.(parsing := true, acc := map[]) else p;
      if p1.parsing && Contains(line, f.sep) {
        var (key, value) := SplitFirst(line, f.sep);
        var a := Field(f.rule, key, value);
        assert a.Store? ==> a.key in keys;
      } else if p1.parsing && line == "" {
        var rec := p1.acc + stamp;
        assert rec.Keys <= keys;
        assert Step(f, stamp, p, line).done == p.done + [rec];
      }
    }
  }

  /** The records emitted by a run extend the earlier ones, and each new one
      carries the stamp. */
  lemma {:induction false} ScanStamps(f: BlockFormat, stamp: Record, p: Parser, lines: seq<string>)
    requires f.sep != []
    ensures |p.done| <= |Scan(f, stamp, p, lines).done|
    ensures Scan(f, stamp, p, lines).done[..|p.done|] == p.done
    ensures forall i :: |p.done| <= i < |Scan(f, stamp, p, lines).done| ==> Stamped(Scan(f, stamp, p, lines).done[i], stamp)
    decreases |lines|
  {
    if lines != [] {
      var n := |lines| - 1;
      var q := Scan(f, stamp, p, lines[..n]);
      ScanStamps(f, stamp, p, lines[..n]);
      StepStamps(f, stamp, q, lines[n]);
      var r := Step(f, stamp, q, lines[n]);
      if r.done == q.done {
        assert r.done[..|p.done|] == q.done[..|p.done|];
      } else {
        assert r.done[..|q.done|] == q.done;
        assert r.done[..|p.done|] == q.done[..|p.done|];
        forall i | |p.done| <= i < |r.done|
          ensures Stamped(r.done[i], stamp)
        {
          if i < |q.done| {
            assert r.done[i] == r.done[..|q.done|][i] == q.done[i];
          } else {
            assert i == |q.done|;
          }
        }
      }
    }
  }

  /** The record carries the stamp's keys with the stamp's values. */
  predicate Stamped(r: Record, stamp: Record) {
    stamp.Keys <= r.Keys && forall k :: k in stamp ==> r[k] == stamp[k]
  }

  /** One line either finishes no record or appends one that carries the
      stamp. */
  lemma StepStamps(f: BlockFormat, stamp: Record, p: Parser, line: string)
    requires f.sep != []
    ensures var q := Step(f, stamp, p, line);
            || q.done == p.done
            || (|q.done| == |p.done| + 1 && q.done[..|p.done|] == p.done && Stamped(q.done[|p.done|], stamp))
  {
    var q := Step(f, stamp, p, line);
    if q.done != p.done {
      assert q.done[..|p.done|] == p.done;
    }
  }

  // ------------------------------------------------------- stored values

  /** What a stored value looks like when the lines are stripped: with an
      allowlist whose separator ends in whitespace, it is not empty and does
      not end in whitespace (it may start with some: "Size:  4096 MB" stores
      " 4096 MB"); with the disk rule it is stripped (possibly empty). */
  predicate ShapedValue(rule: KeyRule, v: string) {
    match rule
    case Allowlist(_) => v != [] && !IsSpace(v[|v| - 1])
    case SmartctlFields => Stripped(v)
  }

  /** Every value the rule stored in the record has that shape; the stamp's
      keys are not the rule's to check. */
  predicate ShapedRecord(rule: KeyRule, stamp: Record, r: Record) {
    forall k :: k in r && k !in stamp ==> ShapedValue(rule, r[k])
  }

  /** A run over stripped lines stores only shaped values. */
  lemma {:induction false} ScanValues(f: BlockFormat, stamp: Record, p: Parser, lines: seq<string>)
    requires f.sep != [] && (f.rule.Allowlist? ==> IsSpace(f.sep[|f.sep| - 1]))
    requires forall j :: 0 <= j < |lines| ==> Stripped(lines[j])
    requires ShapedRecord(f.rule, stamp, p.acc) && forall r :: r in p.done ==> ShapedRecord(f.rule, stamp, r)
    ensures ShapedRecord(f.rule, stamp, Scan(f, stamp, p, lines).acc)
    ensures forall r :: r in Scan(f, stamp, p, lines).done ==> ShapedRecord(f.rule, stamp, r)
    decreases |lines|
  {
    if lines != [] {
      var n := |lines| - 1;
      ScanValues(f, stamp, p, lines[..n]);
      StepValues(f, stamp, Scan(f, stamp, p, lines[..n]), lines[n]);
    }
  }

  lemma StepValues(f: BlockFormat, stamp: Record, p: Parser, line: string)
    requires f.sep != [] && (f.rule.Allowlist? ==> IsSpace(f.sep[|f.sep| - 1])) && Stripped(line)
    requires ShapedRecord(f.rule, stamp, p.acc) && forall r :: r in p.done ==> ShapedRecord(f.rule, stamp, r)
    ensures ShapedRecord(f.rule, stamp, Step(f, stamp, p, line).acc)
    ensures forall r :: r in Step(f, stamp, p, line).done ==> ShapedRecord(f.rule, stamp, r)
  {
    StepAccValue(f, stamp, p, line);
    var q := Step(f, stamp, p, line);
    assert q.done == p.done || q.done == p.done + [q.acc];
  }

  /** The accumulator after one step is shaped: a stored value is, and a
      closed record is the shaped accumulator with the stamp merged in. */
  lemma StepAccValue(f: BlockFormat, stamp: Record, p: Parser, line: string)
    requires f.sep != [] && (f.rule.Allowlist? ==> IsSpace(f.sep[|f.sep| - 1])) && Stripped(line)
    requires ShapedRecord(f.rule, stamp, p.acc)
    ensures ShapedRecord(f.rule, stamp, Step(f, stamp, p, line).acc)
  {
    if !p.aborted {
      var p1 := if !p.parsing && Triggers(f.trigger, line) then p.(parsing := true, acc := map[]) else p;
      if p1.parsing && Contains(line, f.sep) {
        StoredValue(f.rule, f.sep, line);
        var (key, value) := SplitFirst(line, f.sep);
        match Field(f.rule, key, value)
        case Store(k, v) => StoreShaped(f.rule, stamp, p1.acc, k, v);
        case Ignore =>
        case Fail =>
      }
    }
  }

  lemma StoreShaped(rule: KeyRule, stamp: Record, acc: Record, k: string, v: string)
    requires ShapedRecord(rule, stamp, acc) && ShapedValue(rule, v)
    ensures ShapedRecord(rule, stamp, acc[k := v])
  {
  }

  /** The value a key/value line stores has the rule's shape. */
  lemma StoredValue(rule: KeyRule, sep: string, line: string)
    requires sep != [] && Contains(line, sep) && Stripped(line) && (rule.Allowlist? ==> IsSpace(sep[|sep| - 1]))
    ensures var (key, value) := SplitFirst(line, sep);
            Field(rule, key, value).Store? ==> ShapedValue(rule, Field(rule, key, value).value)
  {
    var (key, value) := SplitFirst(line, sep);
    if rule.Allowlist? {
      AllowlistValue(key, sep, value);
    } else {
      SmartctlValue(key, value);
    }
  }

  /** After a separator ending in whitespace, the rest of a stripped line is
      not empty and does not end in whitespace. */
  lemma AllowlistValue(key: string, sep: string, value: string)
    requires sep != [] && IsSpace(sep[|sep| - 1]) && Stripped(key + sep + value)
    ensures value != [] && !IsSpace(value[|value| - 1])
  {
    var line := key + sep + value;
    if value != [] {
      assert line[|line| - 1] == value[|value| - 1];
    }
  }

  /** The disk rule stores stripped values. */
  lemma SmartctlValue(key: string, value: string)
    ensures Field(SmartctlFields, key, value).Store? ==> Stripped(Field(SmartctlFields, key, value).value)
  {
    var v := Strip(value);
    if !Contains("Model Family", key) && !Contains("Device Model", key) && Contains("User Capacity", key) {
      var m := BracketSearch(v);
    }
  }
}

/** The Python `str` operations the report code relies on, over Dafny strings.
    A Dafny `string` is a sequence of Unicode scalar values, as a Python `str`
    is a sequence of code points, so lengths and indices agree. */
module PyStr {
  import opened Outcomes

  // ---------------------------------------------------------------- search

  /** `t` occurs in `s` starting at index `i`. */
  predicate OccursAt(s: string, t: string, i: nat) {
    i + |t| <= |s| && s[i..i + |t|] == t
  }

  /** `s.find(t, k)`: the first index at or after `k` where `t` occurs. */
  function FindFrom(s: string, t: string, k: nat): (r: Option<nat>)
    requires k <= |s|
    ensures r.Some? ==> k <= r.value <= |s| && OccursAt(s, t, r.value)
    ensures r.Some? ==> forall j :: k <= j < r.value ==> !OccursAt(s, t, j)
    ensures r.None? ==> forall j :: k <= j ==> !OccursAt(s, t, j)
    decreases |s| - k
  {
    if OccursAt(s, t, k) then Some(k)
    else if k == |s| then None
    else FindFrom(s, t, k + 1)
  }

  /** Python's `t in s` on strings. */
  predicate Contains(s: string, t: string) {
    FindFrom(s, t, 0).Some?
  }

  lemma ContainsIff(s: string, t: string)
    ensures Contains(s, t) <==> exists i: nat :: OccursAt(s, t, i)
  {
    if !Contains(s, t) {
      assert forall i: nat :: 0 <= i ==> !OccursAt(s, t, i);
    }
  }

  lemma OccursContains(s: string, t: string, i: nat)
    requires OccursAt(s, t, i)
    ensures Contains(s, t)
  {
    ContainsIff(s, t);
  }

  /** Every string contains itself. */
  lemma ContainsSelf(s: string)
    ensures Contains(s, s)
  {
    assert OccursAt(s, s, 0);
    OccursContains(s, s, 0);
  }

  /** A string that lacks the first character of `t` does not contain `t`. */
  lemma MissingHead(s: string, t: string)
    requires t != [] && t[0] !in s
    ensures !Contains(s, t)
  {
    ContainsIff(s, t);
    forall i: nat ensures !OccursAt(s, t, i) {
      if i + |t| <= |s| {
        assert s[i..i + |t|][0] == s[i];
      }
    }
  }

  lemma ContainsFits(s: string, t: string)
    requires Contains(s, t)
    ensures |t| <= |s|
  {
  }

  /** A separator whose first character is absent from `key` cannot occur
      before the end of `key` in `key + sep + value`. */
  lemma NoEarlierOccurrence(key: string, sep: string, value: string)
    requires sep != [] && sep[0] !in key
    ensures forall j :: 0 <= j < |key| ==> !OccursAt(key + sep + value, sep, j)
  {
    var line := key + sep + value;
    forall j | 0 <= j < |key|
      ensures !OccursAt(line, sep, j)
    {
      assert line[j] == key[j] != sep[0];
      if j + |sep| <= |line| {
        assert line[j..j + |sep|][0] == line[j];
      }
    }
  }

  /** `s.split(sep, 1)` when `sep in s`: the text before the first `sep` and
      the text after it. */
  function SplitFirst(s: string, sep: string): (r: (string, string))
    requires sep != [] && Contains(s, sep)
    ensures s == r.0 + sep + r.1
    ensures forall j :: 0 <= j < |r.0| ==> !OccursAt(s, sep, j)
  {
    var i := FindFrom(s, sep, 0).value;
    assert s == s[..i] + s[i..i + |sep|] + s[i + |sep|..];
    (s[..i], s[i + |sep|..])
  }

  /** The split is determined by where the first separator is. */
  lemma {:induction false} SplitFirstAt(key: string, sep: string, value: string)
    requires sep != []
    requires forall j :: 0 <= j < |key| ==> !OccursAt(key + sep + value, sep, j)
    ensures Contains(key + sep + value, sep)
    ensures SplitFirst(key + sep + value, sep) == (key, value)
  {
    var line := key + sep + value;
    assert line[|key|..|key| + |sep|] == sep;
    assert OccursAt(line, sep, |key|);
    OccursContains(line, sep, |key|);
    var (k, v) := SplitFirst(line, sep);
    assert line[|k|..|k| + |sep|] == sep;
    assert OccursAt(line, sep, |k|);
    if |k| < |key| {
      assert false;
    } else if |k| > |key| {
      assert false;
    }
    assert k == line[..|key|] == key;
    assert v == line[|key| + |sep|..] == value;
  }

  /** The first index of `c` in `s`. */
  function FirstIndex(s: string, c: char): (i: nat)
    requires c in s
    ensures i < |s| && s[i] == c && c !in s[..i]
  {
    if s[0] == c then 0
    else
      var j := FirstIndex(s[1..], c);
      assert s[..j + 1] == [s[0]] + s[1..][..j];
      j + 1
  }

  /** The last index of `c` in `s`. */
  function LastIndex(s: string, c: char): (i: nat)
    requires c in s
    ensures i < |s| && s[i] == c && c !in s[i + 1..]
    decreases |s|
  {
    if s[|s| - 1] == c then |s| - 1
    else
      var j := LastIndex(s[..|s| - 1], c);
      assert s[j + 1..] == s[..|s| - 1][j + 1..] + [s[|s| - 1]];
      j
  }

  // ----------------------------------------------------------- split & join

  /** `sep.join(parts)`. */
  function Join(parts: seq<string>, sep: string): string
    decreases |parts|
  {
    if |parts| == 0 then ""
    else if |parts| == 1 then parts[0]
    else parts[0] + sep + Join(parts[1..], sep)
  }

  lemma JoinCons(x: string, rest: seq<string>, sep: string)
    requires rest != []
    ensures Join([x] + rest, sep) == x + sep + Join(rest, sep)
  {
    assert ([x] + rest)[1..] == rest;
  }

  /** Joining two non-empty lists is joining each and putting one separator
      between the two. */
  lemma {:induction false} JoinAppend(a: seq<string>, b: seq<string>, sep: string)
    requires a != [] && b != []
    ensures Join(a + b, sep) == Join(a, sep) + sep + Join(b, sep)
    decreases |a|
  {
    if |a| == 1 {
      assert a + b == [a[0]] + b;
      JoinCons(a[0], b, sep);
    } else {
      JoinAppend(a[1..], b, sep);
      assert a + b == [a[0]] + (a[1..] + b);
      JoinCons(a[0], a[1..] + b, sep);
      assert a == [a[0]] + a[1..];
      JoinCons(a[0], a[1..], sep);
    }
  }

  /** `s.split(c)`: the pieces between the occurrences of `c`. */
  function SplitOn(s: string, c: char): (r: seq<string>)
    ensures |r| >= 1
    ensures forall i :: 0 <= i < |r| ==> c !in r[i]
    ensures Join(r, [c]) == s
    decreases |s|
  {
    if c in s then
      var i := FirstIndex(s, c);
      var rest := SplitOn(s[i + 1..], c);
      JoinCons(s[..i], rest, [c]);
      assert s == s[..i] + [c] + s[i + 1..];
      [s[..i]] + rest
    else [s]
  }

  /** Splitting a join at a character none of the parts contains gives the
      parts back. */
  lemma {:induction false} SplitOnJoin(parts: seq<string>, c: char)
    requires |parts| >= 1
    requires forall i :: 0 <= i < |parts| ==> c !in parts[i]
    ensures SplitOn(Join(parts, [c]), c) == parts
    decreases |parts|
  {
    if |parts| > 1 {
      var s := Join(parts, [c]);
      var rest := Join(parts[1..], [c]);
      assert s == parts[0] + [c] + rest;
      assert s[|parts[0]|] == c;
      assert s[..|parts[0]|] == parts[0];
      assert FirstIndex(s, c) == |parts[0]| by {
        var i := FirstIndex(s, c);
        assert forall k :: 0 <= k < i ==> s[k] == s[..i][k] != c;
        assert forall k :: 0 <= k < |parts[0]| ==> s[k] == parts[0][k] != c;
      }
      assert s[|parts[0]| + 1..] == rest;
      SplitOnJoin(parts[1..], c);
    }
  }

  /** `[x for x in xs if x]`. */
  function NonEmpty(xs: seq<string>): (r: seq<string>)
    ensures forall i :: 0 <= i < |r| ==> r[i] != ""
    ensures forall x :: x in r ==> x in xs
    decreases |xs|
  {
    if xs == [] then []
    else if xs[0] == "" then NonEmpty(xs[1..])
    else [xs[0]] + NonEmpty(xs[1..])
  }

  lemma {:induction false} NonEmptyAppend(xs: seq<string>, ys: seq<string>)
    ensures NonEmpty(xs + ys) == NonEmpty(xs) + NonEmpty(ys)
    decreases |xs|
  {
    if xs == [] {
      assert xs + ys == ys;
    } else {
      assert (xs + ys)[0] == xs[0];
      assert (xs + ys)[1..] == xs[1..] + ys;
      NonEmptyAppend(xs[1..], ys);
      if xs[0] != "" {
        assert NonEmpty(xs + ys) == [xs[0]] + NonEmpty(xs[1..] + ys);
      }
    }
  }

  lemma {:induction false} NonEmptyKeeps(xs: seq<string>)
    requires forall i :: 0 <= i < |xs| ==> xs[i] != ""
    ensures NonEmpty(xs) == xs
    decreases |xs|
  {
    if xs != [] {
      NonEmptyKeeps(xs[1..]);
    }
  }

  /** `[x for x in output.split('\n') if x]`: the non-empty lines of a tool's output. */
  function NonEmptyLines(output: string): (r: seq<string>)
    ensures forall i :: 0 <= i < |r| ==> r[i] != "" && '\n' !in r[i]
  {
    var pieces := SplitOn(output, '\n');
    var r := NonEmpty(pieces);
    assert forall i :: 0 <= i < |r| ==> r[i] in pieces;
    r
  }

  /** Newline-terminated non-empty lines without newlines come back unchanged. */
  lemma LinesRoundTrip(lines: seq<string>)
    requires forall i :: 0 <= i < |lines| ==> lines[i] != "" && '\n' !in lines[i]
    ensures NonEmptyLines(Join(lines + [""], "\n")) == lines
  {
    var all := lines + [""];
    assert forall i :: 0 <= i < |all| ==> '\n' !in all[i];
    SplitOnJoin(all, '\n');
    NonEmptyAppend(lines, [""]);
    NonEmptyKeeps(lines);
  }

  // ------------------------------------------------------------- whitespace

  /** Python's `str.isspace()` on one character. */
  predicate IsSpace(c: char) {
    || c == ' ' || ('\t' <= c <= '\r') || ('\U{1C}' <= c <= '\U{1F}')
    || c == '\U{85}' || c == '\U{A0}' || c == '\U{1680}' || ('\U{2000}' <= c <= '\U{200A}')
    || c == '\U{2028}' || c == '\U{2029}' || c == '\U{202F}' || c == '\U{205F}' || c == '\U{3000}'
  }

  predicate AllSpace(s: string) {
    forall i :: 0 <= i < |s| ==> IsSpace(s[i])
  }

  /** No leading and no trailing whitespace. */
  predicate Stripped(s: string) {
    s == [] || (!IsSpace(s[0]) && !IsSpace(s[|s| - 1]))
  }

  lemma AllSpaceCons(c: char, s: string)
    requires IsSpace(c) && AllSpace(s)
    ensures AllSpace([c] + s)
  {
    assert forall k :: 1 <= k <= |s| ==> ([c] + s)[k] == s[k - 1];
  }

  /** Removing the leading whitespace of the tail of a text that starts
      with whitespace removes that of the text. */
  lemma StripLeftStep(s: string, r: string)
    requires s != [] && IsSpace(s[0])
    requires var t := s[1..]; |r| <= |t| && r == t[|t| - |r|..] && AllSpace(t[..|t| - |r|])
    ensures |r| <= |s| && r == s[|s| - |r|..] && AllSpace(s[..|s| - |r|])
  {
    var t := s[1..];
    assert s[|s| - |r|..] == t[|t| - |r|..];
    assert s[..|s| - |r|] == [s[0]] + t[..|t| - |r|];
    AllSpaceCons(s[0], t[..|t| - |r|]);
  }

  function StripLeft(s: string): (r: string)
    ensures |r| <= |s| && r == s[|s| - |r|..]
    ensures AllSpace(s[..|s| - |r|])
    ensures r == [] || !IsSpace(r[0])
    decreases |s|
  {
    if s != [] && IsSpace(s[0]) then
      var r := StripLeft(s[1..]);
      StripLeftStep(s, r);
      r
    else s
  }

  function StripRight(s: string): (r: string)
    ensures |r| <= |s| && r == s[..|r|]
    ensures AllSpace(s[|r|..])
    ensures r == [] || !IsSpace(r[|r| - 1])
    decreases |s|
  {
    if s != [] && IsSpace(s[|s| - 1]) then
      var t := s[..|s| - 1];
      var r := StripRight(t);
      assert s[..|r|] == t[..|r|];
      forall k | |r| <= k < |s|
        ensures IsSpace(s[k])
      {
        if k < |t| {
          assert s[k] == t[|r|..][k - |r|];
        }
      }
      assert AllSpace(s[|r|..]) by {
        forall k | 0 <= k < |s| - |r|
          ensures IsSpace(s[|r|..][k])
        {
          assert s[|r|..][k] == s[|r| + k];
        }
      }
      r
    else s
  }

  /** `s.strip()`. */
  function Strip(s: string): (r: string)
    ensures Stripped(r) && |r| <= |s|
  {
    var l := StripLeft(s);
    var r := StripRight(l);
    assert r == [] || r[0] == l[0];
    r
  }

  /** Stripping adds no character. */
  lemma StripKeeps(s: string, c: char)
    requires c !in s
    ensures c !in Strip(s)
  {
    var l := StripLeft(s);
    assert c !in l by {
      assert forall k :: 0 <= k < |l| ==> l[k] == s[|s| - |l| + k];
    }
    var r := StripRight(l);
    assert forall k :: 0 <= k < |r| ==> r[k] == l[k];
  }

  /** Stripping removes exactly the whitespace around a core that has none at
      its ends. */
  lemma {:induction false} StripAround(a: string, core: string, b: string)
    requires AllSpace(a) && AllSpace(b) && Stripped(core)
    ensures Strip(a + core + b) == core
  {
    assert a + core + b == a + (core + b);
    StripLeftSpaces(a, core + b);
    StripLeftCore(core, b);
    StripRightSpaces(core, b);
  }

  lemma StripLeftCore(core: string, b: string)
    requires AllSpace(b) && Stripped(core)
    ensures StripLeft(core + b) == (if core == [] then [] else core + b)
  {
    if core == [] {
      assert core + b == b;
      StripLeftAllSpace(b);
    } else {
      assert (core + b)[0] == core[0];
    }
  }

  lemma {:induction false} StripLeftSpaces(a: string, s: string)
    requires AllSpace(a)
    ensures StripLeft(a + s) == StripLeft(s)
    decreases |a|
  {
    if a != [] {
      assert (a + s)[1..] == a[1..] + s;
      StripLeftSpaces(a[1..], s);
    } else {
      assert a + s == s;
    }
  }

  lemma StripLeftAllSpace(s: string)
    requires AllSpace(s)
    ensures StripLeft(s) == []
  {
  }

  lemma {:induction false} StripRightSpaces(core: string, b: string)
    requires AllSpace(b) && Stripped(core)
    ensures StripRight(core + b) == core
    decreases |b|
  {
    if b == [] {
      assert core + b == core;
    } else {
      var n := |b| - 1;
      assert (core + b)[..|core + b| - 1] == core + b[..n];
      StripRightSpaces(core, b[..n]);
    }
  }

  /** A trailing whitespace character makes no difference to `strip()`. */
  lemma {:induction false} StripTrailingSpace(s: string, c: char)
    requires IsSpace(c)
    ensures Strip(s + [c]) == Strip(s)
  {
    StripLeftSpaceSuffix(s, c);
    var l := StripLeft(s);
    if l != [] {
      assert (l + [c])[..|l + [c]| - 1] == l;
    }
  }

  lemma {:induction false} StripLeftSpaceSuffix(s: string, c: char)
    requires IsSpace(c)
    ensures StripLeft(s + [c]) == if StripLeft(s) == [] then [] else StripLeft(s) + [c]
    decreases |s|
  {
    if s == [] {
    } else if IsSpace(s[0]) {
      assert (s + [c])[1..] == s[1..] + [c];
      StripLeftSpaceSuffix(s[1..], c);
    }
  }

  // ------------------------------------------------------------ replacement

  /** `s.replace(a, b)` for single characters. */
  function ReplaceAll(s: string, a: char, b: char): (r: string)
    ensures |r| == |s|
    ensures forall i :: 0 <= i < |s| ==> r[i] == if s[i] == a then b else s[i]
    decreases |s|
  {
    if s == [] then [] else [if s[0] == a then b else s[0]] + ReplaceAll(s[1..], a, b)
  }

  lemma ReplaceAllAppend(s: string, t: string, a: char, b: char)
    ensures ReplaceAll(s + t, a, b) == ReplaceAll(s, a, b) + ReplaceAll(t, a, b)
  {
    assert ReplaceAll(s + t, a, b) == ReplaceAll(s, a, b) + ReplaceAll(t, a, b);
  }

  lemma ReplaceAllAbsent(s: string, a: char, b: char)
    requires a !in s
    ensures ReplaceAll(s, a, b) == s
  {
    assert forall i :: 0 <= i < |s| ==> s[i] != a;
  }

  /** `s.replace(c, '')`. */
  function RemoveAll(s: string, c: char): (r: string)
    ensures c !in r
    ensures multiset(r) == multiset(s)[c := 0]
    decreases |s|
  {
    if s == [] then []
    else
      var rest := RemoveAll(s[1..], c);
      assert s == [s[0]] + s[1..];
      if s[0] == c then rest else [s[0]] + rest
  }
  /** A value in double quotes. */
  function Quote(v: string): string {
    "\"" + v + "\""
  }

  /** Removing the quotes around a value without quotes gives the value. */
  lemma QuoteRemoved(v: string)
    requires '"' !in v
    ensures RemoveAll(Quote(v), '"') == v
  {
    RemoveAllAppend("\"" + v, "\"", '"');
    RemoveAllAppend("\"", v, '"');
    RemoveAllAbsent(v, '"');
    assert RemoveAll("\"", '"') == "";
  }


  /** Number of occurrences of `c` in `s`. */
  lemma {:induction false} RemoveAllAppend(s: string, t: string, c: char)
    ensures RemoveAll(s + t, c) == RemoveAll(s, c) + RemoveAll(t, c)
    decreases |s|
  {
    if s != [] {
      assert (s + t)[1..] == s[1..] + t;
      RemoveAllAppend(s[1..], t, c);
    } else {
      assert s + t == t;
    }
  }

  lemma {:induction false} RemoveAllAbsent(s: string, c: char)
    requires c !in s
    ensures RemoveAll(s, c) == s
    decreases |s|
  {
    if s != [] {
      RemoveAllAbsent(s[1..], c);
    }
  }

  function Count(s: string, c: char): nat
    decreases |s|
  {
    if s == [] then 0 else (if s[0] == c then 1 else 0) + Count(s[1..], c)
  }

  /** `s.replace(a, b, n)` for single characters: only the first `n`
      occurrences of `a` are replaced. */
  function ReplaceFirst(s: string, a: char, b: char, n: nat): (r: string)
    ensures |r| == |s|
    decreases |s|
  {
    if s == [] then []
    else if s[0] == a && n > 0 then [b] + ReplaceFirst(s[1..], a, b, n - 1)
    else [s[0]] + ReplaceFirst(s[1..], a, b, n)
  }

  /** Position by position: a character changes exactly when it is one of the
      first `n` occurrences of `a`. */
  lemma {:induction false} ReplaceFirstAt(s: string, a: char, b: char, n: nat, i: nat)
    requires i < |s|
    ensures ReplaceFirst(s, a, b, n)[i] == if s[i] == a && Count(s[..i], a) < n then b else s[i]
    decreases |s|
  {
    if i > 0 {
      var m := if s[0] == a && n > 0 then n - 1 else n;
      ReplaceFirstAt(s[1..], a, b, m, i - 1);
      assert s[..i] == [s[0]] + s[1..][..i - 1];
      assert s[..i][1..] == s[1..][..i - 1];
    } else {
      assert s[..i] == [];
    }
  }

  /** Replacing over a concatenation: the second part gets what is left of
      the budget. */
  lemma {:induction false} ReplaceFirstAppend(s: string, t: string, a: char, b: char, n: nat)
    ensures ReplaceFirst(s + t, a, b, n)
         == ReplaceFirst(s, a, b, n) + ReplaceFirst(t, a, b, if Count(s, a) < n then n - Count(s, a) else 0)
    decreases |s|
  {
    if s == [] {
      assert s + t == t;
    } else {
      var m := if s[0] == a && n > 0 then n - 1 else n;
      assert (s + t)[1..] == s[1..] + t;
      ReplaceFirstAppend(s[1..], t, a, b, m);
      if s[0] == a && n == 0 {
        ReplaceFirstNone(t, a, b);
        ReplaceFirstNone(s[1..] + t, a, b);
        ReplaceFirstNone(s[1..], a, b);
      }
    }
  }

  lemma {:induction false} ReplaceFirstNone(s: string, a: char, b: char)
    ensures ReplaceFirst(s, a, b, 0) == s
    decreases |s|
  {
    if s != [] {
      ReplaceFirstNone(s[1..], a, b);
    }
  }

  lemma {:induction false} ReplaceFirstAbsent(s: string, a: char, b: char, n: nat)
    requires a !in s
    ensures ReplaceFirst(s, a, b, n) == s && Count(s, a) == 0
    decreases |s|
  {
    if s != [] {
      ReplaceFirstAbsent(s[1..], a, b, n);
    }
  }

  // ---------------------------------------------------------------- numbers

  predicate IsDigit(c: char) { '0' <= c <= '9' }

  predicate AllDigits(s: string) {
    forall i :: 0 <= i < |s| ==> IsDigit(s[i])
  }

  function DigitsValue(s: string): nat
    requires AllDigits(s)
    decreases |s|
  {
    if s == [] then 0 else 10 * DigitsValue(s[..|s| - 1]) + (s[|s| - 1] as int - '0' as int)
  }

  /** Python's `int(s)` on an optionally signed decimal numeral; `None` where
      `int` raises `ValueError`. */
  function ParseInt(s: string): Option<int> {
    if |s| > 1 && (s[0] == '-' || s[0] == '+') && AllDigits(s[1..]) then
      var v: int := DigitsValue(s[1..]);
      Some(if s[0] == '-' then -v else v)
    else if |s| > 0 && AllDigits(s) then Some(DigitsValue(s))
    else None
  }

  /** What `int` accepts: a digit or a sign, then digits only; a negative
      result needs the '-' sign, and a plain numeral reads as its value. */
  lemma ParseIntSpec(s: string)
    ensures ParseInt(s).Some? ==> s != [] && AllDigits(s[1..]) && (IsDigit(s[0]) || s[0] == '-' || s[0] == '+')
    ensures ParseInt(s).Some? && ParseInt(s).value < 0 ==> s[0] == '-'
    ensures ParseInt(s).Some? && s[0] == '-' ==> ParseInt(s).value <= 0
    ensures AllDigits(s) && s != [] ==> ParseInt(s) == Some(DigitsValue(s))
  {
  }

  function ShowNat(n: nat): (r: string)
    ensures |r| > 0 && AllDigits(r)
    ensures n == 0 ==> r == "0"
    ensures n > 0 ==> r[0] != '0'
  {
    var d := ['0' + ((n % 10) as char)];
    if n < 10 then d else ShowNat(n / 10) + d
  }

  /** Python's `str(n)` for an int: a '-' exactly for a negative number,
      then the digits without a leading zero. */
  function ShowInt(n: int): (r: string)
    ensures r != [] && (r[0] == '-' <==> n < 0)
    ensures var digits := if n < 0 then r[1..] else r;
            digits != [] && AllDigits(digits) && (digits[0] == '0' ==> digits == "0")
  {
    if n < 0 then "-" + ShowNat(-n) else ShowNat(n)
  }

  lemma {:induction false} ShowNatValue(n: nat)
    ensures DigitsValue(ShowNat(n)) == n
  {
    var s := ShowNat(n);
    if n >= 10 {
      ShowNatValue(n / 10);
      assert s[..|s| - 1] == ShowNat(n / 10);
    }
  }

  /** Reading back a number that was printed gives the number. */
  lemma ParseShowInt(n: int)
    ensures ParseInt(ShowInt(n)) == Some(n)
  {
    if n < 0 {
      ShowNatValue(-n);
      assert ShowInt(n)[1..] == ShowNat(-n);
    } else {
      ShowNatValue(n);
    }
  }

  // ----------------------------------------------------------- bracket search

  /** `re.search(r'\[.*\]', s)`: the leftmost '[' that has a ']' after it,
      up to the last ']' (the star is greedy). */
  function BracketSearch(s: string): (r: Option<string>)
    ensures r.Some? ==> |r.value| >= 2 && r.value[0] == '[' && r.value[|r.value| - 1] == ']'
    ensures r.Some? ==> Stripped(r.value)
  {
    if '[' in s && ']' in s[FirstIndex(s, '[') + 1..] then Some(BracketMatch(s)) else None
  }

  /** The text from the first '[' to the last ']' after it. */
  function BracketMatch(s: string): (r: string)
    requires '[' in s && ']' in s[FirstIndex(s, '[') + 1..]
    ensures |r| >= 2 && r[0] == '[' && r[|r| - 1] == ']'
  {
    var i := FirstIndex(s, '[');
    var j := i + 1 + LastIndex(s[i + 1..], ']');
    BracketFound(s, i, j);
    SliceEnds(s, i, j);
    s[i..j + 1]
  }

  /** A match exists exactly when some '[' has a ']' after it; it runs from
      the first '[' to the last ']', with none of either outside it. */
  lemma BracketSearchSpec(s: string)
    ensures BracketSearch(s).Some? <==> exists i, j :: 0 <= i < j < |s| && s[i] == '[' && s[j] == ']'
    ensures BracketSearch(s).Some? ==>
              exists i, j :: 0 <= i < j < |s| && s[i] == '[' && s[j] == ']'
                             && BracketSearch(s).value == s[i..j + 1] && '[' !in s[..i] && ']' !in s[j + 1..]
  {
    if '[' in s && ']' in s[FirstIndex(s, '[') + 1..] {
      var i := FirstIndex(s, '[');
      var j := i + 1 + LastIndex(s[i + 1..], ']');
      BracketFound(s, i, j);
      BracketSearchValue(s, i, j);
    } else {
      assert BracketSearch(s) == None;
      BracketAbsent(s);
    }
  }

  lemma BracketSearchValue(s: string, i: nat, j: nat)
    requires '[' in s && i == FirstIndex(s, '[')
    requires ']' in s[i + 1..] && j == i + 1 + LastIndex(s[i + 1..], ']')
    ensures BracketSearch(s) == Some(s[i..j + 1])
  {
  }

  lemma BracketFound(s: string, i: nat, j: nat)
    requires '[' in s && i == FirstIndex(s, '[')
    requires ']' in s[i + 1..] && j == i + 1 + LastIndex(s[i + 1..], ']')
    ensures i < j < |s| && s[i] == '[' && s[j] == ']' && '[' !in s[..i] && ']' !in s[j + 1..]
  {
    assert s[j + 1..] == s[i + 1..][j - i..];
  }

  /** The ends of a slice of at least two characters. */
  lemma SliceEnds(s: string, i: nat, j: nat)
    requires i < j < |s|
    ensures var m := s[i..j + 1]; |m| >= 2 && m[0] == s[i] && m[|m| - 1] == s[j]
  {
  }

  lemma BracketAbsent(s: string)
    requires !('[' in s && ']' in s[FirstIndex(s, '[') + 1..])
    ensures forall i, j :: 0 <= i < j < |s| && s[i] == '[' ==> s[j] != ']'
  {
    if '[' in s {
      var f := FirstIndex(s, '[');
      var before, after := s[..f], s[f + 1..];
      assert forall k :: 0 <= k < f ==> before[k] == s[k];
      forall i, j | 0 <= i < j < |s| && s[i] == '['
        ensures s[j] != ']'
      {
        assert f <= i;
        assert s[j] == after[j - f - 1];
      }
    }
  }

  /** The match is fixed by the first '[' and the last ']' after it. */
  lemma BracketAt(s: string, i: nat, j: nat)
    requires i < j < |s| && s[i] == '[' && s[j] == ']'
    requires forall k :: 0 <= k < i ==> s[k] != '['
    requires forall k :: j < k < |s| ==> s[k] != ']'
    ensures BracketSearch(s) == Some(s[i..j + 1])
  {
    FirstIndexAt(s, '[', i);
    var t := s[i + 1..];
    assert t[j - i - 1] == ']';
    forall k | j - i - 1 < k < |t|
      ensures t[k] != ']'
    {
      assert t[k] == s[i + 1 + k];
    }
    LastIndexAt(t, ']', j - i - 1);
    BracketSearchValue(s, i, j);
  }

  /** The first occurrence is the one with none before it. */
  lemma {:induction false} FirstIndexAt(s: string, c: char, i: nat)
    requires i < |s| && s[i] == c && forall k :: 0 <= k < i ==> s[k] != c
    ensures c in s && FirstIndex(s, c) == i
    decreases i
  {
    if i > 0 {
      assert s[1..][i - 1] == c;
      FirstIndexAt(s[1..], c, i - 1);
    }
  }

  /** The last occurrence is the one with none after it. */
  lemma {:induction false} LastIndexAt(s: string, c: char, i: nat)
    requires i < |s| && s[i] == c && forall k :: i < k < |s| ==> s[k] != c
    ensures c in s && LastIndex(s, c) == i
    decreases |s|
  {
    if i < |s| - 1 {
      var t := s[..|s| - 1];
      assert t[i] == c;
      LastIndexAt(t, c, i);
    }
  }

}

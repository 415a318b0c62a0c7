/** Vocabulary shared by the readers and writers of the basis-set conversion layer:
    the exceptions the code raises, the canonical shell and ECP records, pre-tokenised
    input lines, the small text helpers several formats use, the element lookup
    service, and the dictionary a reader fills in. */
module Basis {

  /** The exception classes the Python code raises, one constructor per class.
      `FormatError` is the exception the line helpers (`partition_lines`,
      `parse_line_regex_dict`) raise when a line does not match their pattern. */
  datatype Error =
    | AssertionError
    | IndexError
    | KeyError
    | ValueError
    | TypeError
    | AttributeError
    | RuntimeError
    | NotImplementedError
    | UnboundLocalError
    | FormatError
    | LookupError

  /** A value, or the exception that aborted the computation. */
  datatype Result<+T> = Ok(value: T) | Err(error: Error) {
    predicate IsFailure() { Err? }
    function PropagateFailure<U>(): Result<U> requires Err? { Err(error) }
    function Extract(): T requires Ok? { value }
  }

  datatype Option<+T> = None | Some(value: T)

  /** One input line after comment pruning, split into its tokens. */
  type Line = seq<string>

  /** A shell of the canonical object. Exponents and coefficients stay decimal text. */
  datatype Shell = Shell(
    functionType: string,
    region: string,
    angularMomentum: seq<nat>,
    exponents: seq<string>,
    coefficients: seq<seq<string>>)

  /** One ECP term of the canonical object. */
  datatype EcpTerm = EcpTerm(
    ecpType: string,
    angularMomentum: seq<nat>,
    rExponents: seq<int>,
    gaussianExponents: seq<string>,
    coefficients: seq<seq<string>>)

  /** An element entry of the canonical object; each field is a dict key that may be absent. */
  datatype Element = Element(
    electronShells: Option<seq<Shell>>,
    ecpPotentials: Option<seq<EcpTerm>>,
    ecpElectrons: Option<int>)

  /** The element lookup service (`lut`), which this model receives rather than defines.
      A `None` result is a failed lookup. */
  datatype Lookup = Lookup(
    zFromSym: string -> Option<nat>,
    symFromZ: nat -> Option<string>,
    nameFromZ: nat -> Option<string>,
    amFromChar: char -> seq<nat>,
    amToChar: seq<nat> -> string)

  // ---------------------------------------------------------------------------
  // Digits and number text

  predicate IsDigit(c: char) { '0' <= c <= '9' }

  predicate AllDigits(s: string) { forall i :: 0 <= i < |s| ==> IsDigit(s[i]) }

  /** One or more decimal digits: the text `\d+` matches. */
  predicate IsDigits(s: string) { |s| > 0 && AllDigits(s) }

  /** `int(s)` for a run of decimal digits. */
  function DigitsValue(s: string): nat
    requires AllDigits(s)
  {
    if |s| == 0 then 0 else 10 * DigitsValue(s[..|s| - 1]) + (s[|s| - 1] as int - '0' as int)
  }

  function DigitChar(d: nat): (c: char)
    requires d < 10
    ensures IsDigit(c) && c as int - '0' as int == d
  {
    ('0' as int + d) as char
  }

  /** `str(n)` for a natural number: its decimal digits, which `int` reads back as `n`. */
  function NatToString(n: nat): (s: string)
    ensures IsDigits(s)
    ensures DigitsValue(s) == n
    decreases n
  {
    if n < 10 then [DigitChar(n)]
    else
      var prefix := NatToString(n / 10);
      var s := prefix + [DigitChar(n % 10)];
      assert s[..|s| - 1] == prefix;
      s
  }

  /** `str(i)` (and `'{:.0f}'` of an integer) for any integer. */
  function IntToString(i: int): (s: string)
    ensures |s| > 0
    ensures i >= 0 <==> s[0] != '-'
  {
    if i < 0 then "-" + NatToString(-i) else NatToString(i)
  }

  /** The letters that introduce an exponent: `E`, `e` and the Fortran `D`, `d`. */
  predicate IsExponentMark(c: char) { c == 'E' || c == 'e' || c == 'D' || c == 'd' }

  /** Index of the first `.` of `s`, or `|s|` when there is none. */
  function IndexOfDot(s: string): (k: nat)
    ensures k <= |s|
    ensures k < |s| ==> s[k] == '.'
  {
    if |s| == 0 || s[0] == '.' then 0 else 1 + IndexOfDot(s[1..])
  }

  /** Index of the first exponent letter of `s`, or `|s|` when there is none. */
  function IndexOfExponent(s: string): (k: nat)
    ensures k <= |s|
    ensures k < |s| ==> IsExponentMark(s[k])
  {
    if |s| == 0 || IsExponentMark(s[0]) then 0 else 1 + IndexOfExponent(s[1..])
  }

  /** `s` without one leading `+` or `-`. */
  function Unsigned(s: string): string {
    if |s| > 0 && (s[0] == '+' || s[0] == '-') then s[1..] else s
  }

  /** Digits with at most one decimal point and at least one digit. */
  predicate IsMantissa(m: string) {
    var d := IndexOfDot(m);
    && AllDigits(m[..d])
    && (d < |m| ==> AllDigits(m[d + 1..]))
    && |m| > (if d < |m| then 1 else 0)
  }

  /** A decimal number token: optional sign, mantissa, optional exponent introduced by
      `E`, `e` or the Fortran `D`, `d`. This model's stand-in for the token grammar
      `helpers.floating_re_str` (integers included), which is not part of this model. */
  predicate IsFloatToken(t: string) {
    var b := Unsigned(t);
    var e := IndexOfExponent(b);
    && IsMantissa(b[..e])
    && (e < |b| ==> IsDigits(Unsigned(b[e + 1..])))
  }

  /** A whole token that `\d+.\d+` matches: digits, any one character, digits. */
  predicate IsRangeToken(t: string) {
    exists k :: 1 <= k <= |t| - 2 && IsDigits(t[..k]) && IsDigits(t[k + 1..])
  }

  // ---------------------------------------------------------------------------
  // Splitting and joining text

  /** The characters `str.split()` and `str.strip()` treat as whitespace (ASCII ones). */
  predicate IsSpace(c: char) {
    c == ' ' || c == '\t' || c == '\n' || c == '\r' || c == '\U{000B}' || c == '\U{000C}'
  }

  predicate NoSpace(t: string) { forall i :: 0 <= i < |t| ==> !IsSpace(t[i]) }

  /** Length of the run of non-whitespace characters that starts `s`. */
  function WordLen(s: string): (n: nat)
    ensures n <= |s|
    ensures forall i :: 0 <= i < n ==> !IsSpace(s[i])
    ensures n < |s| ==> IsSpace(s[n])
  {
    if |s| == 0 || IsSpace(s[0]) then 0 else 1 + WordLen(s[1..])
  }

  /** `s.split()`: the maximal runs of non-whitespace characters, in order. */
  function Words(s: string): (ws: seq<string>)
    ensures forall i :: 0 <= i < |ws| ==> ws[i] != [] && NoSpace(ws[i])
    decreases |s|
  {
    if |s| == 0 then []
    else if IsSpace(s[0]) then Words(s[1..])
    else
      var n := WordLen(s);
      [s[..n]] + Words(s[n..])
  }

  /** `sep.join(ts)`. */
  function Join(sep: string, ts: seq<string>): string {
    if |ts| == 0 then "" else ts[0] + Prefixed(sep, ts[1..])
  }

  /** Every element of `ts`, each preceded by `sep`, concatenated. */
  function Prefixed(sep: string, ts: seq<string>): string {
    if |ts| == 0 then "" else sep + ts[0] + Prefixed(sep, ts[1..])
  }

  /** Tokens a writer may emit so that `split()` gives them back. */
  predicate IsToken(t: string) { t != [] && NoSpace(t) }

  lemma {:induction false} WordLenOfWord(t: string, s: string)
    requires IsToken(t)
    requires s == [] || IsSpace(s[0])
    ensures WordLen(t + s) == |t|
    decreases |t|
  {
    if |t| > 1 {
      assert (t + s)[1..] == t[1..] + s;
      WordLenOfWord(t[1..], s);
    } else {
      assert (t + s)[1..] == s;
    }
  }

  lemma {:induction false} WordsOfWordThen(t: string, s: string)
    requires IsToken(t)
    requires s == [] || IsSpace(s[0])
    ensures Words(t + s) == [t] + Words(s)
  {
    WordLenOfWord(t, s);
    assert (t + s)[..|t|] == t;
    assert (t + s)[|t|..] == s;
  }

  /** A join of two or more tokens is the first, a separator, and the join of the rest. */
  lemma JoinCons(sep: string, ts: seq<string>)
    requires |ts| > 1
    ensures Join(sep, ts) == ts[0] + (sep + Join(sep, ts[1..]))
  {
    assert Prefixed(sep, ts[1..]) == sep + ts[1] + Prefixed(sep, ts[2..]);
    assert ts[1..][1..] == ts[2..];
  }

  /** Leading whitespace does not change the words. */
  lemma WordsOfSpaceThen(s: string)
    ensures Words(" " + s) == Words(s)
  {
    assert (" " + s)[1..] == s;
  }

  /** Splitting a space-joined list of tokens on whitespace gives the tokens back. */
  lemma {:induction false} WordsOfJoin(ts: seq<string>)
    requires forall i :: 0 <= i < |ts| ==> IsToken(ts[i])
    ensures Words(Join(" ", ts)) == ts
    decreases |ts|
  {
    if |ts| == 1 {
      assert Join(" ", ts) == ts[0] + "";
      WordsOfWordThen(ts[0], "");
    } else if |ts| > 1 {
      var rest := Join(" ", ts[1..]);
      JoinCons(" ", ts);
      WordsOfWordThen(ts[0], " " + rest);
      WordsOfSpaceThen(rest);
      WordsOfJoin(ts[1..]);
    }
  }

  /** `s.split(c)`: the pieces between occurrences of `c`, empty pieces kept. */
  function Split(s: string, c: char): (parts: seq<string>)
    ensures |parts| >= 1
    decreases |s|
  {
    if |s| == 0 then [""]
    else
      var rest := Split(s[1..], c);
      if s[0] == c then [""] + rest else [[s[0]] + rest[0]] + rest[1..]
  }

  /** No piece of a split contains the separator. */
  lemma {:induction false} SplitPieces(s: string, c: char)
    ensures forall k :: 0 <= k < |Split(s, c)| ==> c !in Split(s, c)[k]
    decreases |s|
  {
    if |s| > 0 {
      SplitPieces(s[1..], c);
    }
  }

  lemma {:induction false} SplitNoSep(a: string, c: char)
    requires forall i :: 0 <= i < |a| ==> a[i] != c
    ensures Split(a, c) == [a]
    decreases |a|
  {
    if |a| > 0 {
      SplitNoSep(a[1..], c);
      assert [a[0]] + a[1..] == a;
    }
  }

  /** Splitting `a + [c] + b` on `c` gives `a` and `b` when neither contains `c`. */
  lemma {:induction false} SplitAtSep(a: string, b: string, c: char)
    requires forall i :: 0 <= i < |a| ==> a[i] != c
    requires forall i :: 0 <= i < |b| ==> b[i] != c
    ensures Split(a + [c] + b, c) == [a, b]
    decreases |a|
  {
    if |a| == 0 {
      assert a + [c] + b == [c] + b;
      assert ([c] + b)[1..] == b;
      SplitNoSep(b, c);
    } else {
      assert (a + [c] + b)[1..] == a[1..] + [c] + b;
      SplitAtSep(a[1..], b, c);
      assert [a[0]] + a[1..] == a;
    }
  }

  /** `s.rstrip(c)`. */
  function RStrip(s: string, c: char): (r: string)
    ensures |r| <= |s| && r == s[..|r|]
    ensures |r| > 0 ==> r[|r| - 1] != c
    ensures forall i :: |r| <= i < |s| ==> s[i] == c
  {
    if |s| > 0 && s[|s| - 1] == c then RStrip(s[..|s| - 1], c) else s
  }

  // ---------------------------------------------------------------------------
  // Sequences

  /** `n` copies of the padding coefficient `'0.0'`. */
  function Zeros(n: nat): (z: seq<string>)
    ensures |z| == n && forall i :: 0 <= i < n ==> z[i] == "0.0"
  {
    seq(n, _ => "0.0")
  }

  /** The zero padding of a contraction given over primitives `start..end` (1-based)
      out of `nprim`, as the libmol and molpro readers write it. */
  function Pad(cc: seq<string>, start: nat, end: nat, nprim: nat): seq<string> {
    (if start > 1 then Zeros(start - 1) else []) + cc + (if end < nprim then Zeros(nprim - end) else [])
  }

  /** For a range inside the primitives, padding gives a vector of length `nprim`
      that holds `cc` at positions `start..end` and `'0.0'` everywhere else. */
  lemma PadInRange(cc: seq<string>, start: nat, end: nat, nprim: nat)
    requires 1 <= start <= end <= nprim && |cc| == end - start + 1
    ensures var p := Pad(cc, start, end, nprim);
      && |p| == nprim
      && p[start - 1..end] == cc
      && (forall k :: 0 <= k < start - 1 || end <= k < nprim ==> p[k] == "0.0")
  {
    var p := Pad(cc, start, end, nprim);
    var pre := if start > 1 then Zeros(start - 1) else [];
    var post := if end < nprim then Zeros(nprim - end) else [];
    assert p == pre + cc + post;
    assert p[start - 1..end] == cc;
  }

  /** A padded contraction of one or more coefficients has exactly `nprim` entries
      if and only if its range starts at 1 or later and ends at `nprim` or earlier. */
  lemma PadLengthIff(cc: seq<string>, start: nat, end: nat, nprim: nat)
    requires |cc| > 0 && |cc| == end - start + 1
    ensures |Pad(cc, start, end, nprim)| == nprim <==> 1 <= start && end <= nprim
  {
  }

  /** Python's index normalisation for a slice bound. */
  function PyIndex(i: int, n: nat): (k: nat)
    ensures k <= n
  {
    if i < 0 then (if i + n < 0 then 0 else i + n) else if i > n then n else i
  }

  /** `s[i:j]` with Python's treatment of negative and out-of-range bounds. */
  function PySlice<T>(s: seq<T>, i: int, j: int): seq<T> {
    var a := PyIndex(i, |s|);
    var b := PyIndex(j, |s|);
    if a < b then s[a..b] else []
  }

  /** Concatenation of a sequence of sequences. */
  function Flatten<T>(ss: seq<seq<T>>): seq<T> {
    if |ss| == 0 then [] else ss[0] + Flatten(ss[1..])
  }

  /** Appending leaves the earlier entries where they were. */
  lemma SnocIndex<T>(s: seq<T>, x: T, k: nat)
    requires k < |s|
    ensures (s + [x])[k] == s[k]
  {
  }

  lemma {:induction false} FlattenAppend<T>(ss: seq<seq<T>>, s: seq<T>)
    ensures Flatten(ss + [s]) == Flatten(ss) + s
    decreases |ss|
  {
    if |ss| == 0 {
      assert ss + [s] == [s];
    } else {
      assert (ss + [s])[1..] == ss[1..] + [s];
      FlattenAppend(ss[1..], s);
    }
  }

  /** An accumulator `pre + Flatten(ss)` grown by one more piece. */
  lemma FlattenAppendAfter<T>(pre: seq<T>, ss: seq<seq<T>>, s: seq<T>)
    ensures pre + Flatten(ss) + s == pre + Flatten(ss + [s])
  {
    FlattenAppend(ss, s);
    assert pre + Flatten(ss) + s == pre + (Flatten(ss) + s);
  }

  lemma {:induction false} FlattenConcat<T>(a: seq<seq<T>>, b: seq<seq<T>>)
    ensures Flatten(a + b) == Flatten(a) + Flatten(b)
    decreases |a|
  {
    if |a| == 0 {
      assert a + b == b;
    } else {
      assert (a + b)[1..] == a[1..] + b;
      FlattenConcat(a[1..], b);
    }
  }

  /** Rows of at most `n` values, as `common.reshape(data, n)` lays out a data block. */
  function Reshape<T>(s: seq<T>, n: nat): (rows: seq<seq<T>>)
    requires n > 0
    ensures Flatten(rows) == s
    ensures forall i :: 0 <= i < |rows| ==> 0 < |rows[i]| <= n
    decreases |s|
  {
    if |s| == 0 then []
    else if |s| <= n then [s]
    else
      var rest := Reshape(s[n..], n);
      assert s[..n] + s[n..] == s;
      [s[..n]] + rest
  }

  // ---------------------------------------------------------------------------
  // Partitioning lines into blocks (helpers.partition_lines)

  /** Number of lines at the front of `lines` that do not start a block. */
  function RunLen(lines: seq<Line>, isStart: Line -> bool): (n: nat)
    ensures n <= |lines|
    ensures forall i :: 0 <= i < n ==> !isStart(lines[i])
    ensures n < |lines| ==> isStart(lines[n])
  {
    if |lines| == 0 || isStart(lines[0]) then 0 else 1 + RunLen(lines[1..], isStart)
  }

  /** A block of the partition: at least one and at least `minSize` lines, the first
      a start line and no other. */
  predicate IsBlock(b: seq<Line>, isStart: Line -> bool, minSize: nat) {
    && |b| >= 1 && |b| >= minSize && isStart(b[0])
    && forall j :: 0 < j < |b| ==> !isStart(b[j])
  }

  /** Blocks each beginning at a line `isStart` accepts and running to the next such
      line; a first line that is not a start, or a block shorter than `minSize`, is a
      FormatError. */
  function Partition(lines: seq<Line>, isStart: Line -> bool, minSize: nat): (r: Result<seq<seq<Line>>>)
    ensures r.Ok? ==> Flatten(r.value) == lines
    ensures r.Ok? ==> forall k :: 0 <= k < |r.value| ==> IsBlock(r.value[k], isStart, minSize)
    ensures |lines| > 0 && !isStart(lines[0]) ==> r.Err?
    ensures |lines| > 0 && isStart(lines[0]) && 1 + RunLen(lines[1..], isStart) < minSize ==> r.Err?
    decreases |lines|
  {
    if |lines| == 0 then Ok([])
    else if !isStart(lines[0]) then Err(FormatError)
    else
      var n := 1 + RunLen(lines[1..], isStart);
      if n < minSize then Err(FormatError)
      else
        var rest :- Partition(lines[n..], isStart, minSize);
        FirstBlock(lines, isStart, minSize, n);
        ConsBlock(lines[..n], rest, isStart, minSize);
        Ok([lines[..n]] + rest)
  }

  /** The first block runs up to the next start line. */
  lemma FirstBlock(lines: seq<Line>, isStart: Line -> bool, minSize: nat, n: nat)
    requires |lines| > 0 && isStart(lines[0]) && n == 1 + RunLen(lines[1..], isStart) && n >= minSize
    ensures n <= |lines| && lines[..n] + lines[n..] == lines && IsBlock(lines[..n], isStart, minSize)
  {
    assert forall j :: 0 < j < n ==> lines[..n][j] == lines[1..][j - 1];
  }

  /** A block in front of blocks. */
  lemma ConsBlock(b: seq<Line>, rest: seq<seq<Line>>, isStart: Line -> bool, minSize: nat)
    requires IsBlock(b, isStart, minSize) && forall k :: 0 <= k < |rest| ==> IsBlock(rest[k], isStart, minSize)
    ensures Flatten([b] + rest) == b + Flatten(rest)
    ensures forall k :: 0 <= k < |[b] + rest| ==> IsBlock(([b] + rest)[k], isStart, minSize)
  {
    assert ([b] + rest)[1..] == rest;
    assert forall k :: 0 < k < |[b] + rest| ==> ([b] + rest)[k] == rest[k - 1];
  }

  /** A run of `n` non-start lines that ends the input or stops at a start line has
      length `n`. */
  lemma {:induction false} RunLenIs(lines: seq<Line>, isStart: Line -> bool, n: nat)
    requires n <= |lines| && forall i :: 0 <= i < n ==> !isStart(lines[i])
    requires n < |lines| ==> isStart(lines[n])
    ensures RunLen(lines, isStart) == n
    decreases n
  {
    if n > 0 {
      RunLenIs(lines[1..], isStart, n - 1);
    }
  }

  /** The blocks are the only ones possible: any split of the lines into blocks that
      start at a start line, hold no other start line and have `minSize` lines or
      more is the partition. So the partition fails exactly when no such split exists. */
  lemma {:induction false} PartitionUnique(lines: seq<Line>, isStart: Line -> bool, minSize: nat, bs: seq<seq<Line>>)
    requires Flatten(bs) == lines
    requires forall k :: 0 <= k < |bs| ==> IsBlock(bs[k], isStart, minSize)
    ensures Partition(lines, isStart, minSize) == Ok(bs)
    decreases |bs|
  {
    if |bs| > 0 {
      var b := bs[0];
      var rest := Flatten(bs[1..]);
      assert lines == b + rest;
      assert lines[0] == b[0];
      if |bs| > 1 {
        assert bs[1..][0] == bs[1];
        assert rest[0] == bs[1][0];
      }
      forall i | 0 <= i < |b| - 1
        ensures !isStart(lines[1..][i])
      {
        assert lines[1..][i] == b[i + 1];
      }
      if |b| - 1 < |lines[1..]| {
        assert lines[1..][|b| - 1] == rest[0];
      }
      RunLenIs(lines[1..], isStart, |b| - 1);
      assert lines[..|b|] == b && lines[|b|..] == rest;
      PartitionUnique(rest, isStart, minSize, bs[1..]);
      PartitionStep(lines, isStart, minSize, |b|, bs[1..]);
      assert [b] + bs[1..] == bs;
    }
  }

  /** One step of the partition: the first block, then the partition of the rest. */
  lemma PartitionStep(lines: seq<Line>, isStart: Line -> bool, minSize: nat, n: nat, rest: seq<seq<Line>>)
    requires |lines| > 0 && isStart(lines[0]) && n == 1 + RunLen(lines[1..], isStart) && n >= minSize
    requires Partition(lines[n..], isStart, minSize) == Ok(rest)
    ensures Partition(lines, isStart, minSize) == Ok([lines[..n]] + rest)
  {
  }

  // ---------------------------------------------------------------------------
  // The dictionary a reader fills in: element key -> its electron shells

  /** No element of `xs` occurs twice. */
  predicate Distinct(xs: seq<nat>)
    decreases |xs|
  {
    |xs| == 0 || (xs[0] !in xs[1..] && Distinct(xs[1..]))
  }

  /** A new element at the end keeps the elements distinct. */
  lemma {:induction false} DistinctSnoc(xs: seq<nat>, x: nat)
    requires Distinct(xs) && x !in xs
    ensures Distinct(xs + [x])
    decreases |xs|
  {
    if |xs| > 0 {
      assert (xs + [x])[1..] == xs[1..] + [x];
      DistinctSnoc(xs[1..], x);
    }
  }

  /** Element keys in insertion order, and each key's `electron_shells` list. */
  datatype BasisMap = BasisMap(keys: seq<nat>, shells: map<nat, seq<Shell>>) {
    ghost predicate WellFormed() {
      && Distinct(keys)
      && (forall z :: z in shells <==> z in keys)
    }
  }

  const EmptyBasis := BasisMap([], map[])

  /** The dictionary after `helpers.create_element_data` for key `z`: a new, empty
      entry at the end when `z` is absent, the same dictionary when it is present. */
  function WithEntry(m: BasisMap, z: nat): (r: BasisMap)
    requires m.WellFormed()
    ensures r.WellFormed() && z in r.shells
    ensures z in m.shells ==> r == m
    ensures z !in m.shells ==> r.keys == m.keys + [z] && r.shells == m.shells[z := []]
  {
    if z in m.shells then m
    else
      DistinctSnoc(m.keys, z);
      BasisMap(m.keys + [z], m.shells[z := []])
  }

  /** The dictionary after appending `sh` to the shells of the existing key `z`. */
  function WithShell(m: BasisMap, z: nat, sh: Shell): (r: BasisMap)
    requires m.WellFormed() && z in m.shells
    ensures r.WellFormed() && r.keys == m.keys
    ensures r.shells == m.shells[z := m.shells[z] + [sh]]
  {
    BasisMap(m.keys, m.shells[z := m.shells[z] + [sh]])
  }

  /** Updating a key twice keeps only the second value. */
  lemma UpdateTwice<K, V>(m: map<K, V>, k: K, a: V, b: V)
    ensures m[k := a][k := b] == m[k := b]
  {
  }

  /** The dictionary after appending `shs`, in order, to the shells of key `z`. */
  function WithShells(m: BasisMap, z: nat, shs: seq<Shell>): (r: BasisMap)
    requires m.WellFormed() && z in m.shells
    ensures r.WellFormed() && r.keys == m.keys
    ensures r.shells == m.shells[z := m.shells[z] + shs]
    decreases |shs|
  {
    if |shs| == 0 then
      assert m.shells[z] + shs == m.shells[z];
      m
    else
      var m1 := WithShell(m, z, shs[0]);
      assert m.shells[z] + [shs[0]] + shs[1..] == m.shells[z] + shs;
      UpdateTwice(m.shells, z, m.shells[z] + [shs[0]], m.shells[z] + shs);
      WithShells(m1, z, shs[1..])
  }

  /** The dictionary `bs_data` that `_parse_electron_lines` updates in place. */
  class BasisData {
    var keys: seq<nat>
    var shells: map<nat, seq<Shell>>

    function Value(): BasisMap
      reads this
    {
      BasisMap(keys, shells)
    }

    ghost predicate Valid()
      reads this
    {
      Value().WellFormed()
    }

    constructor ()
      ensures Valid() && Value() == EmptyBasis
    {
      keys := [];
      shells := map[];
    }

    /** `helpers.create_element_data(bs_data, z, 'electron_shells')`. */
    method CreateElementData(z: nat)
      requires Valid()
      modifies this
      ensures Valid() && Value() == WithEntry(old(Value()), z)
    {
      if z !in shells {
        DistinctSnoc(keys, z);
        keys := keys + [z];
        shells := shells[z := []];
      }
    }

    /** `element_data['electron_shells'].append(sh)`. */
    method AppendShell(z: nat, sh: Shell)
      requires Valid() && z in shells
      modifies this
      ensures Valid() && Value() == WithShell(old(Value()), z, sh)
    {
      shells := shells[z := shells[z] + [sh]];
    }
  }

  /** The function type the libmol and molpro readers assign: `'gto'` below d,
      otherwise the module default `'gto_spherical'`. */
  function ReaderFunctionType(am: seq<nat>): (r: Result<string>)
    ensures r.Err? <==> am == []
    ensures r.Ok? ==> (r.value == "gto" <==> am[0] < 2)
    ensures r.Ok? ==> r.value in {"gto", "gto_spherical"}
  {
    if |am| == 0 then Err(IndexError) else Ok(if am[0] < 2 then "gto" else "gto_spherical")
  }

  /** `xs` in front of a successful result; a failure unchanged. */
  function Prepend<T>(xs: seq<T>, r: Result<seq<T>>): Result<seq<T>> {
    if r.Err? then r else Ok(xs + r.value)
  }

  lemma PrependNothing<T>(r: Result<seq<T>>)
    ensures Prepend([], r) == r
  {
    if r.Ok? {
      assert [] + r.value == r.value;
    }
  }

  lemma PrependTwice<T>(xs: seq<T>, ys: seq<T>, r: Result<seq<T>>)
    ensures Prepend(xs, Prepend(ys, r)) == Prepend(xs + ys, r)
  {
    if r.Ok? {
      assert xs + (ys + r.value) == (xs + ys) + r.value;
    }
  }
}

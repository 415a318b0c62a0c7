/** The Molpro system-library reader (`readers/libmol.py`). A shell is a header
    `sym am aliases : nprim ncontr s.e ...`, a comment line, and a stream of values:
    the `nprim` exponents followed by the `end - start + 1` coefficients of each range.

    The model keeps the code's cursor: after the value stream it is left on the last
    value line, which the loop then re-tests as a header. */
module LibmolReader {
  import opened Basis

  // ---------------------------------------------------------------------------
  // Line grammars (lines 13-15)

  predicate IsAmLetter(c: char) {
    c in "spdfghikSPDFGHIK"
  }

  /** The characters `\w` matches (ASCII letters, digits and `_`). */
  predicate IsWordChar(c: char) {
    'a' <= c <= 'z' || 'A' <= c <= 'Z' || '0' <= c <= '9' || c == '_'
  }

  predicate IsWordToken(t: string) {
    |t| > 0 && forall i :: 0 <= i < |t| ==> IsWordChar(t[i])
  }

  /** Index of the last `:` token, or -1. */
  function LastColon(line: Line): (k: int)
    ensures -1 <= k < |line|
    ensures k >= 0 ==> line[k] == ":"
    ensures forall j :: k < j < |line| ==> line[j] != ":"
    decreases |line|
  {
    if |line| == 0 then -1
    else if line[|line| - 1] == ":" then |line| - 1
    else LastColon(line[..|line| - 1])
  }

  /** `element_shell_re`: a symbol, one angular-momentum letter, one or more aliases, a
      colon, the counts `nprim ncontr` and one or more ranges. The colon is the last
      one on the line, since no count or range contains one. */
  predicate IsHeader(line: Line) {
    var c := LastColon(line);
    && c >= 3 && c + 4 <= |line|
    && IsWordToken(line[0])
    && |line[1]| == 1 && IsAmLetter(line[1][0])
    && IsDigits(line[c + 1]) && IsDigits(line[c + 2])
    && forall k :: c + 3 <= k < |line| ==> IsRangeToken(line[k])
  }

  /** `entry_re`: one or more numbers. */
  predicate IsEntryLine(line: Line) {
    |line| > 0 && forall i :: 0 <= i < |line| ==> IsFloatToken(line[i])
  }

  /** A colon is no number. */
  lemma ColonNotFloat()
    ensures !IsFloatToken(":")
  {
    assert Unsigned(":") == ":";
    assert IndexOfExponent(":") == 1;
    assert IndexOfDot(":") == 1;
  }

  /** No value line is a shell header. */
  lemma EntryIsNoHeader(line: Line)
    requires IsEntryLine(line)
    ensures !IsHeader(line)
  {
    var c := LastColon(line);
    if c >= 0 {
      ColonNotFloat();
    }
  }

  /** The fields of a header line. */
  datatype Header = Header(sym: string, am: char, nprim: nat, ncontr: nat, ranges: seq<string>)

  function HeaderOf(line: Line): (h: Header)
    requires IsHeader(line)
    ensures |h.ranges| >= 1
  {
    var c := LastColon(line);
    Header(line[0], line[1][0], DigitsValue(line[c + 1]), DigitsValue(line[c + 2]), line[c + 3..])
  }

  // ---------------------------------------------------------------------------
  // Ranges and the read count (lines 53-69)

  /** `[int(v) for v in pieces]`: a piece that is not a run of digits is a ValueError. */
  function PieceValues(ps: seq<string>): (r: Result<seq<nat>>)
    ensures r.Ok? ==> |r.value| == |ps|
  {
    if |ps| == 0 then Ok([])
    else if !IsDigits(ps[0]) then Err(ValueError)
    else
      var rest :- PieceValues(ps[1..]);
      Ok([DigitsValue(ps[0])] + rest)
  }

  /** The pieces read exactly when every piece is a run of digits, and then as their values. */
  lemma {:induction false} PieceValuesSpec(ps: seq<string>)
    ensures PieceValues(ps).Ok? <==> forall i :: 0 <= i < |ps| ==> IsDigits(ps[i])
    ensures PieceValues(ps).Err? ==> PieceValues(ps).error == ValueError
    ensures PieceValues(ps).Ok? ==> forall i :: 0 <= i < |ps| ==> PieceValues(ps).value[i] == DigitsValue(ps[i])
    decreases |ps|
  {
    if |ps| > 0 {
      PieceValuesSpec(ps[1..]);
      assert forall i :: 0 < i < |ps| ==> ps[1..][i - 1] == ps[i];
    }
  }

  /** `[int(v) for v in r.split('.')]`. */
  function ParseRange(t: string): (r: Result<seq<nat>>)
    ensures r.Ok? ==> |r.value| == |Split(t, '.')|
  {
    PieceValues(Split(t, '.'))
  }

  /** A range `s.e` with both parts digits reads as `[s, e]`. */
  lemma ParseRangeOfDotted(s: string, e: string)
    requires IsDigits(s) && IsDigits(e)
    ensures ParseRange(s + "." + e) == Ok([DigitsValue(s), DigitsValue(e)])
  {
    assert s + "." + e == s + ['.'] + e;
    assert forall i :: 0 <= i < |s| ==> s[i] != '.';
    assert forall i :: 0 <= i < |e| ==> e[i] != '.';
    SplitAtSep(s, e, '.');
    PairValues(s, e);
  }

  /** The token `m.n` written with decimal digits reads back as `[m, n]`. */
  lemma ParseRangeOfNats(m: nat, n: nat)
    ensures ParseRange(NatToString(m) + "." + NatToString(n)) == Ok([m, n])
  {
    ParseRangeOfDotted(NatToString(m), NatToString(n));
  }

  lemma {:induction false} PairValues(s: string, e: string)
    requires IsDigits(s) && IsDigits(e)
    ensures PieceValues([s, e]) == Ok([DigitsValue(s), DigitsValue(e)])
  {
    assert [s, e][1..] == [e];
    assert [e][1..] == [];
    assert [DigitsValue(e)] + [] == [DigitsValue(e)];
    assert PieceValues([e]) == Ok([DigitsValue(e)]);
    assert [DigitsValue(s)] + [DigitsValue(e)] == [DigitsValue(s), DigitsValue(e)];
  }

  function ParseRanges(ts: seq<string>): (r: Result<seq<seq<nat>>>)
    ensures r.Ok? ==> |r.value| == |ts|
    decreases |ts|
  {
    if |ts| == 0 then Ok([])
    else
      var p :- ParseRange(ts[0]);
      var rest :- ParseRanges(ts[1..]);
      Ok([p] + rest)
  }

  /** Range `i` read is the range token `i` parsed. */
  lemma {:induction false} ParseRangesAt(ts: seq<string>, i: nat)
    requires i < |ts| && ParseRanges(ts).Ok?
    ensures ParseRange(ts[i]) == Ok(ParseRanges(ts).value[i])
    decreases |ts|
  {
    if i > 0 {
      ParseRangesAt(ts[1..], i - 1);
      assert ts[1..][i - 1] == ts[i];
    }
  }

  /** Every range has a start and an end. */
  predicate TwoParts(cr: seq<seq<nat>>) {
    forall i :: 0 <= i < |cr| ==> |cr[i]| >= 2
  }

  /** The entries of a range `[start, end, ...]`: `end - start + 1`. */
  function Width(r: seq<nat>): int
    requires |r| >= 2
  {
    r[1] as int - r[0] + 1
  }

  /** `sum(r[1] - r[0] + 1 for r in cranges)`; a range with one part is an IndexError. */
  function RangeTotal(cr: seq<seq<nat>>): (t: Result<int>)
    ensures t.Ok? <==> TwoParts(cr)
    decreases |cr|
  {
    if |cr| == 0 then Ok(0)
    else
      var t :- RangeTotal(cr[..|cr| - 1]);
      var last := cr[|cr| - 1];
      assert forall i :: 0 <= i < |cr| - 1 ==> cr[..|cr| - 1][i] == cr[i];
      if |last| < 2 then Err(IndexError) else Ok(t + Width(last))
  }

  /** Lines 66-69: `nread`, the number of values to collect: the exponents and the
      width of every range. */
  function ToRead(nprim: nat, cr: seq<seq<nat>>): (r: Result<int>)
    ensures r.Ok? <==> TwoParts(cr)
  {
    var total :- RangeTotal(cr);
    Ok(nprim + total)
  }

  /** Lines 66-69: `nread` in place. */
  method CountToRead(nprim: nat, cr: seq<seq<nat>>) returns (r: Result<int>)
    ensures RangeTotal(cr).Err? ==> r == Err(IndexError)
    ensures r == ToRead(nprim, cr)
  {
    var nread: int := nprim;
    var i := 0;
    while i < |cr|
      invariant 0 <= i <= |cr|
      invariant RangeTotal(cr[..i]) == Ok(nread - nprim)
    {
      assert cr[..i + 1][..i] == cr[..i];
      if |cr[i]| < 2 {
        RangeTotalPrefixErr(cr, i + 1);
        return Err(IndexError);
      }
      nread := nread + Width(cr[i]);
      i := i + 1;
    }
    assert cr[..i] == cr;
    return Ok(nread);
  }

  /** A failing prefix makes the whole total fail, with an IndexError. */
  lemma {:induction false} RangeTotalPrefixErr(cr: seq<seq<nat>>, n: nat)
    requires n <= |cr| && RangeTotal(cr[..n]).Err?
    ensures RangeTotal(cr) == Err(IndexError)
  {
    var i :| 0 <= i < n && |cr[..n][i]| < 2;
    assert cr[i] == cr[..n][i];
    RangeTotalErrIsIndex(cr);
  }

  lemma {:induction false} RangeTotalErrIsIndex(cr: seq<seq<nat>>)
    requires RangeTotal(cr).Err?
    ensures RangeTotal(cr) == Err(IndexError)
    decreases |cr|
  {
    if |cr| > 0 && RangeTotal(cr[..|cr| - 1]).Err? {
      RangeTotalErrIsIndex(cr[..|cr| - 1]);
    }
  }

  // ---------------------------------------------------------------------------
  // The value stream (lines 71-80)

  /** `k if k.find('.') != -1 else k + '.0'` on every value of a line. */
  function Normalized(line: Line): (vs: seq<string>)
    ensures |vs| == |line|
  {
    seq(|line|, i requires 0 <= i < |line| => if '.' in line[i] then line[i] else line[i] + ".0")
  }

  /** Every normalized value holds a `.`; a value is kept exactly when it has one, and
      otherwise gains `.0`. */
  lemma NormalizedFacts(line: Line)
    ensures forall i :: 0 <= i < |line| ==> '.' in Normalized(line)[i]
    ensures forall i :: 0 <= i < |line| ==> Normalized(line)[i] == line[i] || Normalized(line)[i] == line[i] + ".0"
    ensures forall i :: 0 <= i < |line| ==> ('.' in line[i] <==> Normalized(line)[i] == line[i])
  {
    forall i | 0 <= i < |line|
      ensures '.' in Normalized(line)[i]
    {
      if '.' !in line[i] {
        assert (line[i] + ".0")[|line[i]|] == '.';
      }
    }
  }

  /** The values collected after cursor `i`, and the cursor on the line read last. */
  datatype Collected = Collected(values: seq<string>, last: nat)

  /** The loop of lines 74-80: value lines after line `i` are read until at least `need`
      values are in. Running past the end is an IndexError; a line that is not a value
      line is a FormatError. */
  function Collect(lines: seq<Line>, i: nat, need: int): (r: Result<Collected>)
    requires i < |lines|
    ensures r.Ok? ==> i <= r.value.last < |lines|
    ensures r.Ok? ==> |r.value.values| >= need
    ensures r.Ok? ==> (need <= 0 <==> r.value.last == i)
    decreases |lines| - i
  {
    if need <= 0 then Ok(Collected([], i))
    else if i + 1 >= |lines| then Err(IndexError)
    else if !IsEntryLine(lines[i + 1]) then Err(FormatError)
    else
      var vs := Normalized(lines[i + 1]);
      var rest :- Collect(lines, i + 1, need - |vs|);
      Ok(Collected(vs + rest.values, rest.last))
  }

  /** After reading any value the cursor rests on a value line. */
  lemma {:induction false} CollectLast(lines: seq<Line>, i: nat, need: int)
    requires i < |lines| && need > 0 && Collect(lines, i, need).Ok?
    ensures IsEntryLine(lines[Collect(lines, i, need).value.last])
    decreases |lines| - i
  {
    var vs := Normalized(lines[i + 1]);
    if need - |vs| > 0 {
      CollectLast(lines, i + 1, need - |vs|);
    }
  }

  /** Every collected value holds a `.`. */
  lemma {:induction false} CollectDotted(lines: seq<Line>, i: nat, need: int)
    requires i < |lines| && Collect(lines, i, need).Ok?
    ensures forall k :: 0 <= k < |Collect(lines, i, need).value.values| ==> '.' in Collect(lines, i, need).value.values[k]
    decreases |lines| - i
  {
    if need > 0 {
      var vs := Normalized(lines[i + 1]);
      NormalizedFacts(lines[i + 1]);
      CollectDotted(lines, i + 1, need - |vs|);
    }
  }

  function PrependValues(vs: seq<string>, r: Result<Collected>): Result<Collected> {
    if r.Err? then r else Ok(Collected(vs + r.value.values, r.value.last))
  }

  lemma PrependNoValues(r: Result<Collected>)
    ensures PrependValues([], r) == r
  {
    if r.Ok? {
      assert [] + r.value.values == r.value.values;
    }
  }

  /** Lines 71-80 in place: `rawdata`, `nreadin` and the cursor `iline`. */
  method ReadValues(lines: seq<Line>, i: nat, nread: int) returns (r: Result<Collected>)
    requires i < |lines|
    ensures r == Collect(lines, i, nread)
  {
    var rawdata: seq<string> := [];
    var nreadin := 0;
    var iline := i;
    PrependNoValues(Collect(lines, i, nread));
    while nreadin < nread
      invariant i <= iline < |lines|
      invariant Collect(lines, i, nread) == PrependValues(rawdata, Collect(lines, iline, nread - nreadin))
      decreases |lines| - iline
    {
      if iline + 1 >= |lines| {
        return Err(IndexError);
      }
      iline := iline + 1;
      if !IsEntryLine(lines[iline]) {
        return Err(FormatError);
      }
      var readval := Normalized(lines[iline]);
      ghost var tail := Collect(lines, iline, nread - nreadin - |readval|);
      assert Collect(lines, iline - 1, nread - nreadin) == PrependValues(readval, tail);
      if tail.Ok? {
        assert rawdata + (readval + tail.value.values) == (rawdata + readval) + tail.value.values;
      }
      rawdata := rawdata + readval;
      nreadin := nreadin + |readval|;
    }
    assert rawdata + [] == rawdata;
    return Ok(Collected(rawdata, iline));
  }

  // ---------------------------------------------------------------------------
  // Slicing the stream (lines 82-104)

  /** The offset at which range `i` starts in the value stream: `nprim` (the
      exponents come first) plus the widths of the ranges before it. */
  function OffsetOf(cr: seq<seq<nat>>, nprim: nat, i: nat): int
    requires i <= |cr| && TwoParts(cr)
  {
    if i == 0 then nprim else OffsetOf(cr, nprim, i - 1) + Width(cr[i - 1])
  }

  /** Vector `i`: the `end - start + 1` values from its offset on (Python slice
      bounds), padded with `'0.0'` to the range `start..end` of `nprim`. */
  function Vector(raw: seq<string>, cr: seq<seq<nat>>, nprim: nat, i: nat): seq<string>
    requires i < |cr| && TwoParts(cr)
  {
    var off := OffsetOf(cr, nprim, i);
    Pad(PySlice(raw, off, off + Width(cr[i])), cr[i][0], cr[i][1], nprim)
  }

  /** The first `n` coefficient vectors. */
  function ContractionsUpTo(raw: seq<string>, cr: seq<seq<nat>>, n: nat, nprim: nat): (cs: seq<seq<string>>)
    requires n <= |cr| && TwoParts(cr)
    ensures |cs| == n
  {
    if n == 0 then [] else ContractionsUpTo(raw, cr, n - 1, nprim) + [Vector(raw, cr, nprim, n - 1)]
  }

  /** Lines 85-104: all the coefficient vectors. */
  function Contractions(raw: seq<string>, cr: seq<seq<nat>>, nprim: nat): (cs: seq<seq<string>>)
    requires TwoParts(cr)
    ensures |cs| == |cr|
  {
    ContractionsUpTo(raw, cr, |cr|, nprim)
  }

  /** Contraction `k` is vector `k`: it takes the values that follow those of
      contraction `k - 1`, padded to its range. */
  lemma ContractionsSlices(raw: seq<string>, cr: seq<seq<nat>>, nprim: nat, k: nat)
    requires TwoParts(cr) && k < |cr|
    ensures Contractions(raw, cr, nprim)[k] == Vector(raw, cr, nprim, k)
  {
    ContractionsPrefix(raw, cr, nprim, |cr|, k);
  }

  lemma {:induction false} ContractionsPrefix(raw: seq<string>, cr: seq<seq<nat>>, nprim: nat, n: nat, k: nat)
    requires TwoParts(cr) && k < n <= |cr|
    ensures ContractionsUpTo(raw, cr, n, nprim)[k] == Vector(raw, cr, nprim, k)
    decreases n
  {
    if k < n - 1 {
      ContractionsPrefix(raw, cr, nprim, n - 1, k);
      SnocIndex(ContractionsUpTo(raw, cr, n - 1, nprim), Vector(raw, cr, nprim, n - 1), k);
    }
  }

  /** Lines 93-102: one vector, the values from `offset` on padded to `start..end`. */
  method PaddedSlice(raw: seq<string>, offset: int, start: nat, end: nat, nprim: nat) returns (cc: seq<string>)
    ensures cc == Pad(PySlice(raw, offset, offset + (end as int - start + 1)), start, end, nprim)
  {
    cc := PySlice(raw, offset, offset + (end as int - start + 1));
    if start > 1 {
      cc := Zeros(start - 1) + cc;
    }
    if end < nprim {
      cc := cc + Zeros(nprim - end);
    }
  }

  /** Lines 85-104 in place: `coefficients` and `offset`. */
  method BuildContractions(raw: seq<string>, cr: seq<seq<nat>>, ncontr: nat, nprim: nat) returns (cs: seq<seq<string>>)
    requires |cr| == ncontr && TwoParts(cr)
    ensures cs == Contractions(raw, cr, nprim)
  {
    cs := [];
    var offset: int := nprim;
    var i := 0;
    while i < ncontr
      invariant 0 <= i <= ncontr
      invariant offset == OffsetOf(cr, nprim, i)
      invariant cs == ContractionsUpTo(raw, cr, i, nprim)
    {
      var start := cr[i][0];
      var end := cr[i][1];
      var cc := PaddedSlice(raw, offset, start, end, nprim);
      assert cc == Vector(raw, cr, nprim, i);
      offset := offset + (end as int - start + 1);
      cs := cs + [cc];
      i := i + 1;
    }
  }

  // ---------------------------------------------------------------------------
  // One shell (lines 31-116)

  /** A parsed shell: its element, the shell, and where the cursor was left. */
  datatype ShellRead = ShellRead(z: nat, shell: Shell, last: nat)

  /** One pass of the loop of lines 31-116 on the header at line `i`: the comment line
      after it must exist, and the rest is read by `ShellBody`. */
  function ShellAt(lines: seq<Line>, i: nat, lut: Lookup): (r: Result<ShellRead>)
    requires i < |lines| && IsHeader(lines[i])
    ensures i + 1 >= |lines| ==> r == Err(IndexError)
    ensures i + 1 < |lines| ==> r == ShellBody(lines, i + 1, HeaderOf(lines[i]), lut)
  {
    if i + 1 >= |lines| then Err(IndexError) else ShellBody(lines, i + 1, HeaderOf(lines[i]), lut)
  }

  /** The loop body after the comment line `iline`, for header fields `h`: the counts
      must be positive and match the ranges, the ranges must parse, the symbol must
      name an element, every range needs two parts, and the stream must hold the
      values. The cursor is left on the last value line read, or on the comment line
      when nothing was to be read. The exponents are the first `nprim` values (fewer
      only when the ranges' widths add up to a negative count), and the function type
      is `'gto'` below d and `'gto_spherical'` otherwise. */
  function ShellBody(lines: seq<Line>, iline: nat, h: Header, lut: Lookup): (r: Result<ShellRead>)
    requires iline < |lines|
    ensures r.Ok? ==> iline <= r.value.last < |lines|
    ensures r.Ok? ==> |r.value.shell.coefficients| == h.ncontr
    ensures r.Ok? ==> r.value.shell.region == ""
    ensures r.Ok? ==> r.value.shell.angularMomentum == lut.amFromChar(h.am)
    ensures r.Ok? ==> lut.zFromSym(h.sym) == Some(r.value.z)
    ensures r.Ok? ==> ParseRanges(h.ranges).Ok? && RangeTotal(ParseRanges(h.ranges).value).Ok?
    ensures r.Ok? ==> var sh := r.value.shell;
      && |sh.exponents| <= h.nprim
      && (RangeTotal(ParseRanges(h.ranges).value).value >= 0 ==> |sh.exponents| == h.nprim)
      && sh.angularMomentum != []
      && sh.functionType == (if sh.angularMomentum[0] < 2 then "gto" else "gto_spherical")
    ensures h.nprim == 0 || h.ncontr == 0 || |h.ranges| != h.ncontr ==> r == Err(AssertionError)
  {
    var am := lut.amFromChar(h.am);
    if h.nprim == 0 || h.ncontr == 0 || |h.ranges| != h.ncontr then Err(AssertionError)
    else
      var cr :- ParseRanges(h.ranges);
      var z :- if lut.zFromSym(h.sym).None? then Err(LookupError) else Ok(lut.zFromSym(h.sym).value);
      var nread :- ToRead(h.nprim, cr);
      var data :- Collect(lines, iline, nread);
      var ft :- ReaderFunctionType(am);
      var coefficients := Contractions(data.values, cr, h.nprim);
      Ok(ShellRead(z, Shell(ft, "", am, PySlice(data.values, 0, h.nprim), coefficients), data.last))
  }

  /** What a read shell holds: the exponents are the first `nprim` values of the stream
      `Collect` gathered, the vectors are that stream's `Contractions`, and the cursor is
      where the collection stopped. */
  lemma ShellBodyContents(lines: seq<Line>, iline: nat, h: Header, lut: Lookup)
    requires iline < |lines| && ShellBody(lines, iline, h, lut).Ok?
    ensures var r := ShellBody(lines, iline, h, lut).value;
      var cr := ParseRanges(h.ranges).value;
      && TwoParts(cr) && ToRead(h.nprim, cr).Ok? && Collect(lines, iline, ToRead(h.nprim, cr).value).Ok?
      && var data := Collect(lines, iline, ToRead(h.nprim, cr).value).value;
      && r.shell.exponents == PySlice(data.values, 0, h.nprim)
      && r.shell.coefficients == Contractions(data.values, cr, h.nprim)
      && r.last == data.last
  {
  }

  /** What the reader's loop body needs of its parts: header fields `hd` with positive
      counts that match the ranges, ranges `cr`, an element `z`, the collected value
      stream `data`, the angular momentum `am`, and the exponents and vectors cut from
      the stream. */
  predicate BodyReady(lines: seq<Line>, iline: nat, lut: Lookup, hd: Header, z: nat, cr: seq<seq<nat>>,
                      data: Collected, am: seq<nat>, exps: seq<string>, cs: seq<seq<string>>) {
    && iline < |lines|
    && hd.nprim > 0 && hd.ncontr > 0 && |hd.ranges| == hd.ncontr
    && ParseRanges(hd.ranges) == Ok(cr) && lut.zFromSym(hd.sym) == Some(z)
    && ToRead(hd.nprim, cr).Ok? && Collect(lines, iline, ToRead(hd.nprim, cr).value) == Ok(data)
    && lut.amFromChar(hd.am) == am && am != []
    && PySlice(data.values, 0, hd.nprim) == exps && Contractions(data.values, cr, hd.nprim) == cs
  }

  /** The reader's loop body, from the results of its parts. */
  lemma {:induction false} ShellBodyFrom(lines: seq<Line>, iline: nat, lut: Lookup, hd: Header, z: nat, cr: seq<seq<nat>>,
                                         data: Collected, am: seq<nat>, exps: seq<string>, cs: seq<seq<string>>)
    requires BodyReady(lines, iline, lut, hd, z, cr, data, am, exps, cs)
    ensures ShellBody(lines, iline, hd, lut) == Ok(ShellRead(z, Shell(ReaderFunctionType(am).value, "", am, exps, cs), data.last))
  {
  }

  /** The cursor is left on the comment line or on a value line. */
  lemma ShellBodyLast(lines: seq<Line>, iline: nat, h: Header, lut: Lookup)
    requires iline < |lines| && ShellBody(lines, iline, h, lut).Ok?
    ensures var last := ShellBody(lines, iline, h, lut).value.last;
      last == iline || IsEntryLine(lines[last])
  {
    var cr := ParseRanges(h.ranges).value;
    var nread := ToRead(h.nprim, cr).value;
    if nread > 0 {
      CollectLast(lines, iline, nread);
    }
  }

  // ---------------------------------------------------------------------------
  // The loop over shells, as written and as intended

  /** Lines 31-116 as written: while the line under the cursor is a header, read the
      shell and append it to its element's entry; then re-test the line the cursor was
      left on. */
  function ParseFrom(lines: seq<Line>, i: nat, acc: BasisMap, lut: Lookup): (r: Result<BasisMap>)
    requires i < |lines| && acc.WellFormed()
    ensures r.Ok? ==> r.value.WellFormed()
    decreases |lines| - i
  {
    if !IsHeader(lines[i]) then Ok(acc)
    else
      var s :- ShellAt(lines, i, lut);
      var m := WithShell(WithEntry(acc, s.z), s.z, s.shell);
      ParseFrom(lines, s.last, m, lut)
  }

  /** `read_libmol` on pruned lines: empty input is an empty dictionary, and the first
      line must be a header. The `spherical`/`cartesian` scan binds locals only and
      changes nothing. */
  function ReadSpec(lines: seq<Line>, lut: Lookup): (r: Result<BasisMap>)
    ensures lines == [] ==> r == Ok(EmptyBasis)
    ensures lines != [] && !IsHeader(lines[0]) ==> r == Err(AssertionError)
    ensures r.Ok? ==> r.value.WellFormed()
  {
    if |lines| == 0 then Ok(EmptyBasis)
    else if !IsHeader(lines[0]) then Err(AssertionError)
    else ParseFrom(lines, 0, EmptyBasis, lut)
  }

  /** As written, a shell that read any value ends the loop: its last value line is no
      header, so the dictionary holds that one shell more and nothing else. */
  lemma OnlyFirstShell(lines: seq<Line>, i: nat, acc: BasisMap, lut: Lookup)
    requires i < |lines| && acc.WellFormed() && IsHeader(lines[i])
    requires ShellAt(lines, i, lut).Ok? && ShellAt(lines, i, lut).value.last != i + 1
    ensures var s := ShellAt(lines, i, lut).value;
      ParseFrom(lines, i, acc, lut) == Ok(WithShell(WithEntry(acc, s.z), s.z, s.shell))
  {
    var s := ShellAt(lines, i, lut).value;
    ShellBodyLast(lines, i + 1, HeaderOf(lines[i]), lut);
    EntryIsNoHeader(lines[s.last]);
  }

  /** The loop as evidently intended: after a shell the cursor moves past its last
      line, and reading stops at the end of the input or at a line that is no header. */
  function ParseFromIntended(lines: seq<Line>, i: nat, acc: BasisMap, lut: Lookup): (r: Result<BasisMap>)
    requires i <= |lines| && acc.WellFormed()
    ensures r.Ok? ==> r.value.WellFormed()
    decreases |lines| - i
  {
    if i == |lines| || !IsHeader(lines[i]) then Ok(acc)
    else
      match ShellAt(lines, i, lut)
      case Err(e) => Err(e)
      case Ok(s) => ParseFromIntended(lines, s.last + 1, AddShell(acc, s), lut)
  }

  /** The dictionary after one shell read: its element's entry, created when new, with
      the shell appended. */
  function AddShell(acc: BasisMap, s: ShellRead): (r: BasisMap)
    requires acc.WellFormed()
    ensures r.WellFormed()
  {
    WithShell(WithEntry(acc, s.z), s.z, s.shell)
  }

  /** The intended loop on a header fails unless the shell there is read. */
  lemma IntendedNeedsShell(lines: seq<Line>, i: nat, acc: BasisMap, lut: Lookup)
    requires i < |lines| && acc.WellFormed() && IsHeader(lines[i])
    requires ParseFromIntended(lines, i, acc, lut).Ok?
    ensures ShellAt(lines, i, lut).Ok?
  {
  }

  /** One pass of the intended loop on the header at `i` whose shell `s` was read: the
      loop goes on at the line after the shell's last line, with the shell added. */
  lemma IntendedStep(lines: seq<Line>, i: nat, acc: BasisMap, lut: Lookup, s: ShellRead)
    requires i < |lines| && acc.WellFormed() && IsHeader(lines[i]) && ShellAt(lines, i, lut) == Ok(s)
    ensures s.last < |lines|
    ensures ParseFromIntended(lines, i, acc, lut) == ParseFromIntended(lines, s.last + 1, AddShell(acc, s), lut)
  {
  }

  /** `IntendedStep` with the line after the shell named `j`. */
  lemma IntendedStepAt(lines: seq<Line>, i: nat, j: nat, acc: BasisMap, lut: Lookup, s: ShellRead)
    requires i < |lines| && acc.WellFormed() && IsHeader(lines[i]) && ShellAt(lines, i, lut) == Ok(s)
    requires j == s.last + 1
    ensures j <= |lines|
    ensures ParseFromIntended(lines, i, acc, lut) == ParseFromIntended(lines, j, AddShell(acc, s), lut)
  {
    IntendedStep(lines, i, acc, lut, s);
  }

  /** A shell read leaves the cursor on or after its comment line, inside the input. */
  lemma ShellAtBounds(lines: seq<Line>, i: nat, lut: Lookup, s: ShellRead)
    requires i < |lines| && IsHeader(lines[i]) && ShellAt(lines, i, lut) == Ok(s)
    ensures i < s.last < |lines|
  {
  }

  /** `b` grows `a`: `a`'s elements come first in `b`, in the same order, and each
      element's shell list in `a` is the start of its list in `b`. */
  ghost predicate Extends(a: BasisMap, b: BasisMap) {
    && |a.keys| <= |b.keys| && b.keys[..|a.keys|] == a.keys
    && forall k :: k in a.shells ==>
         k in b.shells && |a.shells[k]| <= |b.shells[k]| && b.shells[k][..|a.shells[k]|] == a.shells[k]
  }

  lemma ExtendsTrans(a: BasisMap, b: BasisMap, c: BasisMap)
    requires Extends(a, b) && Extends(b, c)
    ensures Extends(a, c)
  {
    assert c.keys[..|a.keys|] == c.keys[..|b.keys|][..|a.keys|];
    forall k | k in a.shells
      ensures k in c.shells && |a.shells[k]| <= |c.shells[k]| && c.shells[k][..|a.shells[k]|] == a.shells[k]
    {
      assert c.shells[k][..|a.shells[k]|] == c.shells[k][..|b.shells[k]|][..|a.shells[k]|];
    }
  }

  /** Reading a shell grows the dictionary. */
  lemma AddShellExtends(acc: BasisMap, s: ShellRead)
    requires acc.WellFormed()
    ensures Extends(acc, AddShell(acc, s))
  {
    var m := AddShell(acc, s);
    assert m.keys[..|acc.keys|] == acc.keys;
    forall k | k in acc.shells
      ensures k in m.shells && |acc.shells[k]| <= |m.shells[k]| && m.shells[k][..|acc.shells[k]|] == acc.shells[k]
    {
      if k == s.z {
        assert m.shells[k] == acc.shells[k] + [s.shell];
      }
    }
  }

  /** A dictionary that grows the one a shell left grows the one before, and holds that
      shell at the position after the shells its element had. */
  lemma ExtendsThrough(acc: BasisMap, s: ShellRead, r: BasisMap)
    requires acc.WellFormed() && Extends(AddShell(acc, s), r)
    ensures Extends(acc, r)
    ensures var n := |WithEntry(acc, s.z).shells[s.z]|;
      s.z in r.shells && n < |r.shells[s.z]| && r.shells[s.z][n] == s.shell
  {
    var m := AddShell(acc, s);
    AddShellExtends(acc, s);
    ExtendsTrans(acc, m, r);
    var n := |WithEntry(acc, s.z).shells[s.z]|;
    assert m.shells[s.z][n] == s.shell;
    assert r.shells[s.z][..|m.shells[s.z]|][n] == s.shell;
  }

  /** The intended loop only adds: every element already read keeps its place in the
      element order and the shells it had, at the head of its list. */
  lemma {:induction false} IntendedKeeps(lines: seq<Line>, i: nat, acc: BasisMap, lut: Lookup, r: BasisMap)
    requires i <= |lines| && acc.WellFormed() && ParseFromIntended(lines, i, acc, lut) == Ok(r)
    ensures Extends(acc, r)
    decreases |lines| - i
  {
    if i < |lines| && IsHeader(lines[i]) {
      IntendedNeedsShell(lines, i, acc, lut);
      var s := ShellAt(lines, i, lut).value;
      var j := s.last + 1;
      ShellAtBounds(lines, i, lut, s);
      IntendedStepAt(lines, i, j, acc, lut, s);
      IntendedKeeps(lines, j, AddShell(acc, s), lut, r);
      ExtendsThrough(acc, s, r);
    } else {
      assert r == acc;
      assert r.keys[..|acc.keys|] == acc.keys;
      forall k | k in acc.shells ensures r.shells[k][..|acc.shells[k]|] == acc.shells[k] { }
    }
  }

  /** Under the intended loop every shell header it reaches is read: its shell is in the
      result, right after the shells its element had before. */
  lemma IntendedReadsShell(lines: seq<Line>, i: nat, acc: BasisMap, lut: Lookup, s: ShellRead, r: BasisMap)
    requires i < |lines| && acc.WellFormed() && IsHeader(lines[i]) && ShellAt(lines, i, lut) == Ok(s)
    requires ParseFromIntended(lines, i, acc, lut) == Ok(r)
    ensures var n := |WithEntry(acc, s.z).shells[s.z]|;
      s.z in r.shells && n < |r.shells[s.z]| && r.shells[s.z][n] == s.shell
  {
    var j := s.last + 1;
    IntendedStepAt(lines, i, j, acc, lut, s);
    IntendedKeeps(lines, j, AddShell(acc, s), lut, r);
    ExtendsThrough(acc, s, r);
  }

  /** Two shells in a row, the second's header at line `j` right after the first's last
      line: the intended loop reads both, each after the shells its element had, and
      when both belong to one element the second follows the first directly. The loop
      as written (`OnlyFirstShell`) stops after the first whenever that one read any
      value. */
  lemma IntendedReadsNextShell(lines: seq<Line>, i: nat, j: nat, acc: BasisMap, lut: Lookup, s: ShellRead, t: ShellRead, r: BasisMap)
    requires i < |lines| && acc.WellFormed() && IsHeader(lines[i]) && ShellAt(lines, i, lut) == Ok(s)
    requires j == s.last + 1 && j < |lines| && IsHeader(lines[j]) && ShellAt(lines, j, lut) == Ok(t)
    requires ParseFromIntended(lines, i, acc, lut) == Ok(r)
    ensures var n := |WithEntry(acc, s.z).shells[s.z]|;
      s.z in r.shells && n < |r.shells[s.z]| && r.shells[s.z][n] == s.shell
    ensures var n := |WithEntry(AddShell(acc, s), t.z).shells[t.z]|;
      t.z in r.shells && n < |r.shells[t.z]| && r.shells[t.z][n] == t.shell
    ensures s.z == t.z ==>
      |WithEntry(AddShell(acc, s), t.z).shells[t.z]| == |WithEntry(acc, s.z).shells[s.z]| + 1
  {
    IntendedReadsShell(lines, i, acc, lut, s, r);
    IntendedStepAt(lines, i, j, acc, lut, s);
    IntendedReadsShell(lines, j, AddShell(acc, s), lut, t, r);
  }

  // ---------------------------------------------------------------------------
  // The method on `bs_data`

  /** Lines 32-115: one pass of the loop on the header at `at`, creating the
      element's entry in `bs` once the symbol is known. On success the result is
      the one the specification gives, and `bs` has gained the entry only. */
  method ReadShell(lines: seq<Line>, at: nat, bs: BasisData, lut: Lookup) returns (r: Result<ShellRead>)
    requires at < |lines| && IsHeader(lines[at]) && bs.Valid()
    modifies bs
    ensures bs.Valid()
    ensures r == ShellAt(lines, at, lut)
    ensures r.Ok? ==> bs.Value() == WithEntry(old(bs.Value()), r.value.z)
  {
    var h := HeaderOf(lines[at]);
    if at + 1 >= |lines| {
      return Err(IndexError);
    }
    r := ReadShellBody(lines, at + 1, h, bs, lut);
  }

  /** The loop body of `read_libmol` after its comment line `iline`
      (basis_set_exchange/readers/libmol.py:38-115). */
  method ReadShellBody(lines: seq<Line>, iline: nat, h: Header, bs: BasisData, lut: Lookup) returns (r: Result<ShellRead>)
    requires iline < |lines| && bs.Valid()
    modifies bs
    ensures bs.Valid()
    ensures r == ShellBody(lines, iline, h, lut)
    ensures r.Ok? ==> bs.Value() == WithEntry(old(bs.Value()), r.value.z)
  {
    var shellAm := lut.amFromChar(h.am);
    if h.nprim == 0 || h.ncontr == 0 || |h.ranges| != h.ncontr {
      return Err(AssertionError);
    }
    var cr := ParseRanges(h.ranges);
    if cr.Err? {
      return Err(cr.error);
    }
    var zs := lut.zFromSym(h.sym);
    if zs.None? {
      return Err(LookupError);
    }
    var z := zs.value;
    bs.CreateElementData(z);
    var nread := CountToRead(h.nprim, cr.value);
    if nread.Err? {
      RangeTotalErrIsIndex(cr.value);
      return Err(nread.error);
    }
    var data := ReadValues(lines, iline, nread.value);
    if data.Err? {
      return Err(data.error);
    }
    var exponents := PySlice(data.value.values, 0, h.nprim);
    var coefficients := BuildContractions(data.value.values, cr.value, h.ncontr, h.nprim);
    var funcType := ReaderFunctionType(shellAm);
    if funcType.Err? {
      return Err(funcType.error);
    }
    r := Ok(ShellRead(z, Shell(funcType.value, "", shellAm, exponents, coefficients), data.value.last));
  }

  /** `_parse_electron_lines` (lines 20-116) with the cursor `iline`, filling `bs` in
      place. */
  method ParseElectronLines(lines: seq<Line>, bs: BasisData, lut: Lookup) returns (r: Result<()>)
    requires |lines| > 0 && bs.Valid()
    modifies bs
    ensures bs.Valid()
    ensures !IsHeader(lines[0]) ==> r == Err(AssertionError)
    ensures IsHeader(lines[0]) ==> (r.Ok? <==> ParseFrom(lines, 0, old(bs.Value()), lut).Ok?)
    ensures IsHeader(lines[0]) && r.Ok? ==> bs.Value() == ParseFrom(lines, 0, old(bs.Value()), lut).value
  {
    var iline := 0;
    if !IsHeader(lines[iline]) {
      return Err(AssertionError);
    }
    while IsHeader(lines[iline])
      invariant iline < |lines| && bs.Valid()
      invariant ParseFrom(lines, 0, old(bs.Value()), lut) == ParseFrom(lines, iline, bs.Value(), lut)
      decreases |lines| - iline
    {
      var s := ReadShell(lines, iline, bs, lut);
      if s.Err? {
        return Err(s.error);
      }
      bs.AppendShell(s.value.z, s.value.shell);
      iline := s.value.last;
    }
    return Ok(());
  }

  /** `read_libmol`: a fresh `bs_data`, left empty for empty input. */
  method ReadLibmol(lines: seq<Line>, lut: Lookup) returns (bs: BasisData, r: Result<()>)
    ensures fresh(bs) && bs.Valid()
    ensures r.Ok? <==> ReadSpec(lines, lut).Ok?
    ensures r.Ok? ==> bs.Value() == ReadSpec(lines, lut).value
  {
    bs := new BasisData();
    if |lines| == 0 {
      return bs, Ok(());
    }
    r := ParseElectronLines(lines, bs, lut);
  }
}

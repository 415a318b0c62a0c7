/** The Molpro user-input reader (`readers/molpro.py`). A shell is a line
    `am,sym,exp1,exp2,...` followed by contraction lines `c,start.end,coef1,...`,
    read until the first line that is no contraction line; that line is then
    re-tested as the next shell line. Each contraction is padded with `'0.0'` to
    the number of exponents.

    Lines arrive pruned and split at their commas, the whitespace around each field
    removed. */
module MolproReader {
  import opened Basis
  import L = LibmolReader

  // ---------------------------------------------------------------------------
  // Line grammars (lines 16-19)

  /** `element_shell_re`: one angular-momentum letter, an element symbol and one or
      more exponents. The letter and word classes are those of the libmol header. */
  predicate IsShellLine(line: Line) {
    && |line| >= 3
    && |line[0]| == 1 && L.IsAmLetter(line[0][0])
    && L.IsWordToken(line[1])
    && forall k :: 2 <= k < |line| ==> IsFloatToken(line[k])
  }

  /** `contraction_re`: the letter `c`, a range `start.end` and one or more
      coefficients. */
  predicate IsContractionLine(line: Line) {
    && |line| >= 3
    && line[0] == "c"
    && IsRangeToken(line[1])
    && forall k :: 2 <= k < |line| ==> IsFloatToken(line[k])
  }

  /** No contraction line is a shell line: `c` is no angular-momentum letter. */
  lemma ContractionIsNoShell(line: Line)
    requires IsContractionLine(line)
    ensures !IsShellLine(line)
  {
    assert !L.IsAmLetter('c');
  }

  // ---------------------------------------------------------------------------
  // The range `start.end` (lines 19, 67-70)

  /** Length of the run of digits that starts `t`. */
  function DigitRun(t: string): (d: nat)
    ensures d <= |t|
    ensures forall i :: 0 <= i < d ==> IsDigit(t[i])
    ensures d < |t| ==> !IsDigit(t[d])
  {
    if |t| == 0 || !IsDigit(t[0]) then 0 else 1 + DigitRun(t[1..])
  }

  /** Where `(?P<start>\d+).(?P<end>\d+)` puts its any-character `.`: the greedy
      `start` takes every leading digit, and gives back two when the token is
      digits only. */
  function RangeCut(t: string): int {
    if DigitRun(t) < |t| then DigitRun(t) else |t| - 2
  }

  /** A cut of `t` into `\d+`, one character and `\d+`. */
  predicate IsCut(t: string, k: int) {
    1 <= k <= |t| - 2 && IsDigits(t[..k]) && IsDigits(t[k + 1..])
  }

  /** On a range token the cut leaves digits on both sides, and it is the cut the
      greedy `start` group picks: no other cut lies further right. */
  lemma {:induction false} RangeCutGreedy(t: string)
    requires IsRangeToken(t)
    ensures IsCut(t, RangeCut(t))
    ensures forall k :: IsCut(t, k) ==> k <= RangeCut(t)
  {
    var d := DigitRun(t);
    var k0 :| 1 <= k0 <= |t| - 2 && IsDigits(t[..k0]) && IsDigits(t[k0 + 1..]);
    assert IsCut(t, k0);
    if d < |t| {
      assert forall k :: IsCut(t, k) ==> k == d by {
        forall k | IsCut(t, k)
          ensures k == d
        {
          assert forall i :: 0 <= i < k ==> t[..k][i] == t[i];
          assert forall i :: k + 1 <= i < |t| ==> t[k + 1..][i - k - 1] == t[i];
        }
      }
      assert k0 == d;
    } else {
      var k := |t| - 2;
      assert forall i :: 0 <= i < k ==> t[..k][i] == t[i];
      assert forall i :: k + 1 <= i < |t| ==> t[k + 1..][i - k - 1] == t[i];
    }
  }

  /** The values of the `start` and `end` groups. */
  function RangeOf(t: string): (se: (nat, nat))
    requires IsRangeToken(t)
  {
    RangeCutGreedy(t);
    var k := RangeCut(t);
    (DigitsValue(t[..k]), DigitsValue(t[k + 1..]))
  }

  // ---------------------------------------------------------------------------
  // One contraction (lines 62-89)

  /** Lines 65-87 on the contraction line `line` of a shell with `nprim` exponents: the
      line must carry `end - start + 1` coefficients, and once padded with `'0.0'`
      the vector must have `nprim` entries. */
  function ContractionOf(line: Line, nprim: nat): (r: Result<seq<string>>)
    requires IsContractionLine(line)
  {
    var se := RangeOf(line[1]);
    var start := se.0;
    var end := se.1;
    var cc := line[2..];
    if |cc| != end as int - start + 1 then Err(AssertionError)
    else
      var p := Pad(cc, start, end, nprim);
      if |p| != nprim then Err(AssertionError) else Ok(p)
  }

  /** A contraction is read exactly when its range, one-based, lies within the
      primitives and it gives one coefficient per position of the range. Then it has
      `nprim` entries, holds the coefficients at positions `start..end` and `'0.0'`
      everywhere else; otherwise it is an AssertionError. */
  lemma ContractionSpec(line: Line, nprim: nat)
    requires IsContractionLine(line)
    ensures var (start, end) := RangeOf(line[1]);
      ContractionOf(line, nprim).Ok? <==> |line| - 2 == end as int - start + 1 && 1 <= start && end <= nprim
    ensures ContractionOf(line, nprim).Err? ==> ContractionOf(line, nprim).error == AssertionError
    ensures ContractionOf(line, nprim).Ok? ==>
      var (start, end) := RangeOf(line[1]);
      var p := ContractionOf(line, nprim).value;
      && |p| == nprim
      && p[start - 1..end] == line[2..]
      && forall k :: 0 <= k < start - 1 || end <= k < nprim ==> p[k] == "0.0"
  {
    var (start, end) := RangeOf(line[1]);
    var cc := line[2..];
    if |cc| == end as int - start + 1 {
      PadLengthIff(cc, start, end, nprim);
      if 1 <= start && end <= nprim {
        PadInRange(cc, start, end, nprim);
      }
    }
  }

  // ---------------------------------------------------------------------------
  // The contraction loop (lines 60-92)

  /** The vectors read after a shell line, and the first line that is no contraction
      line. */
  datatype Contracted = Contracted(vectors: seq<seq<string>>, next: nat)

  /** The `while True` loop of lines 61-92 after line `i`: contraction lines are read
      until the first line that is none; running past the end is an IndexError. */
  function ContractionsFrom(lines: seq<Line>, i: nat, nprim: nat): (r: Result<Contracted>)
    requires i < |lines|
    ensures r.Ok? ==> i < r.value.next < |lines|
    decreases |lines| - i
  {
    if i + 1 >= |lines| then Err(IndexError)
    else if !IsContractionLine(lines[i + 1]) then Ok(Contracted([], i + 1))
    else
      var cc := ContractionOf(lines[i + 1], nprim);
      if cc.Err? then Err(cc.error)
      else
        var rest := ContractionsFrom(lines, i + 1, nprim);
        if rest.Err? then rest else Ok(Contracted([cc.value] + rest.value.vectors, rest.value.next))
  }

  /** The loop reads one vector per line between line `i` and the line it stops on,
      which is no contraction line. */
  lemma {:induction false} ContractionsFromCount(lines: seq<Line>, i: nat, nprim: nat)
    requires i < |lines| && ContractionsFrom(lines, i, nprim).Ok?
    ensures |ContractionsFrom(lines, i, nprim).value.vectors| == ContractionsFrom(lines, i, nprim).value.next - i - 1
    ensures !IsContractionLine(lines[ContractionsFrom(lines, i, nprim).value.next])
    decreases |lines| - i
  {
    if IsContractionLine(lines[i + 1]) {
      ContractionsFromCount(lines, i + 1, nprim);
    }
  }

  /** Each line `j` the loop passes over is a contraction line, and the vector read
      from it is that line padded. */
  lemma {:induction false} ContractionsFromAt(lines: seq<Line>, i: nat, nprim: nat, j: nat)
    requires i < |lines| && ContractionsFrom(lines, i, nprim).Ok?
    requires i < j < ContractionsFrom(lines, i, nprim).value.next
    ensures IsContractionLine(lines[j])
    ensures j - i - 1 < |ContractionsFrom(lines, i, nprim).value.vectors|
    ensures ContractionOf(lines[j], nprim) == Ok(ContractionsFrom(lines, i, nprim).value.vectors[j - i - 1])
    decreases |lines| - i
  {
    if j > i + 1 {
      ContractionsFromAt(lines, i + 1, nprim, j);
    }
  }

  /** Every vector the loop reads has `nprim` entries. */
  lemma {:induction false} ContractionsFromPadded(lines: seq<Line>, i: nat, nprim: nat)
    requires i < |lines| && ContractionsFrom(lines, i, nprim).Ok?
    ensures forall k :: 0 <= k < |ContractionsFrom(lines, i, nprim).value.vectors| ==>
      |ContractionsFrom(lines, i, nprim).value.vectors[k]| == nprim
    decreases |lines| - i
  {
    if IsContractionLine(lines[i + 1]) {
      ContractionLength(lines[i + 1], nprim);
      ContractionsFromPadded(lines, i + 1, nprim);
    }
  }

  lemma ContractionLength(line: Line, nprim: nat)
    requires IsContractionLine(line) && ContractionOf(line, nprim).Ok?
    ensures |ContractionOf(line, nprim).value| == nprim
  {
  }

  function PrependVectors(vs: seq<seq<string>>, r: Result<Contracted>): Result<Contracted> {
    if r.Err? then r else Ok(Contracted(vs + r.value.vectors, r.value.next))
  }

  lemma PrependNoVectors(r: Result<Contracted>)
    ensures PrependVectors([], r) == r
  {
    if r.Ok? {
      assert [] + r.value.vectors == r.value.vectors;
    }
  }

  /** Lines 78-82 in place: `start - 1` zeros put before `cc`, `nprim - end` after. */
  method PadWithZeros(cc: seq<string>, start: nat, end: nat, nprim: nat) returns (p: seq<string>)
    ensures p == Pad(cc, start, end, nprim)
  {
    p := cc;
    if start > 1 {
      p := Zeros(start - 1) + p;
    }
    if end < nprim {
      p := p + Zeros(nprim - end);
    }
  }

  /** Lines 65-89 in place: the coefficient count checked, `cc` padded, then its
      length checked. */
  method ReadContraction(line: Line, nprim: nat) returns (r: Result<seq<string>>)
    requires IsContractionLine(line)
    ensures r == ContractionOf(line, nprim)
  {
    var se := RangeOf(line[1]);
    var start := se.0;
    var end := se.1;
    var cc := line[2..];
    var ncontr := end as int - start + 1;
    if |cc| != ncontr {
      return Err(AssertionError);
    }
    cc := PadWithZeros(cc, start, end, nprim);
    if |cc| != nprim {
      return Err(AssertionError);
    }
    return Ok(cc);
  }

  /** Lines 60-92 in place: `coefficients` and the cursor `iline`. */
  method ReadContractions(lines: seq<Line>, i: nat, nprim: nat) returns (r: Result<Contracted>)
    requires i < |lines|
    ensures r == ContractionsFrom(lines, i, nprim)
  {
    var coefficients: seq<seq<string>> := [];
    var iline := i;
    PrependNoVectors(ContractionsFrom(lines, i, nprim));
    while true
      invariant i <= iline < |lines|
      invariant ContractionsFrom(lines, i, nprim) == PrependVectors(coefficients, ContractionsFrom(lines, iline, nprim))
      decreases |lines| - iline
    {
      if iline + 1 >= |lines| {
        return Err(IndexError);
      }
      if !IsContractionLine(lines[iline + 1]) {
        break;
      }
      var cc := ReadContraction(lines[iline + 1], nprim);
      if cc.Err? {
        return Err(cc.error);
      }
      ghost var tail := ContractionsFrom(lines, iline + 1, nprim);
      if tail.Ok? {
        assert coefficients + ([cc.value] + tail.value.vectors) == (coefficients + [cc.value]) + tail.value.vectors;
      }
      coefficients := coefficients + [cc.value];
      iline := iline + 1;
    }
    assert coefficients + [] == coefficients;
    return Ok(Contracted(coefficients, iline + 1));
  }

  // ---------------------------------------------------------------------------
  // One shell (lines 35-104)

  /** A parsed shell: its element, the shell, and the line the cursor stopped on. */
  datatype ShellRead = ShellRead(z: nat, shell: Shell, next: nat)

  /** One pass of the loop of lines 35-104 on the shell line `i`: the exponents are
      the fields after the symbol, the symbol must name an element, the contraction
      lines follow, and the function type is `'gto'` below d and `'gto_spherical'`
      otherwise. */
  function ShellAt(lines: seq<Line>, i: nat, lut: Lookup): (r: Result<ShellRead>)
    requires i < |lines| && IsShellLine(lines[i])
    ensures r.Ok? ==> i < r.value.next < |lines|
  {
    var line := lines[i];
    var am := lut.amFromChar(line[0][0]);
    var exponents := line[2..];
    var z :- if lut.zFromSym(line[1]).None? then Err(LookupError) else Ok(lut.zFromSym(line[1]).value);
    var c :- ContractionsFrom(lines, i, |exponents|);
    var ft :- ReaderFunctionType(am);
    Ok(ShellRead(z, Shell(ft, "", am, exponents, c.vectors), c.next))
  }

  /** Every coefficient vector of a shell has one entry per exponent, and there is at
      least one exponent. */
  predicate Padded(sh: Shell) {
    && |sh.exponents| > 0
    && forall k :: 0 <= k < |sh.coefficients| ==> |sh.coefficients[k]| == |sh.exponents|
  }

  /** A shell read from line `i` has the exponents of that line, one or more of them
      (so the assertion of line 50 always holds), a vector per contraction line with
      one entry per exponent, the element the symbol names, the region `''`, and the
      function type `'gto'` exactly below d; the cursor stops on the first line after
      the shell line that is no contraction line. */
  lemma ShellAtSpec(lines: seq<Line>, i: nat, lut: Lookup)
    requires i < |lines| && IsShellLine(lines[i]) && ShellAt(lines, i, lut).Ok?
    ensures var s := ShellAt(lines, i, lut).value;
      && s.shell.exponents == lines[i][2..]
      && Padded(s.shell)
      && |s.shell.coefficients| == s.next - i - 1
      && !IsContractionLine(lines[s.next])
      && lut.zFromSym(lines[i][1]) == Some(s.z)
      && s.shell.region == ""
      && s.shell.angularMomentum == lut.amFromChar(lines[i][0][0])
      && (s.shell.functionType == "gto" <==> s.shell.angularMomentum[0] < 2)
  {
    ContractionsFromCount(lines, i, |lines[i]| - 2);
    ContractionsFromPadded(lines, i, |lines[i]| - 2);
  }

  /** Lines 36-57 and 94-104 in place, the element's entry created before the
      contractions are read. On success the result is the one the specification gives,
      and `bs` has gained the entry only. */
  method ReadShell(lines: seq<Line>, at: nat, bs: BasisData, lut: Lookup) returns (r: Result<ShellRead>)
    requires at < |lines| && IsShellLine(lines[at]) && bs.Valid()
    modifies bs
    ensures bs.Valid()
    ensures r == ShellAt(lines, at, lut)
    ensures r.Ok? ==> bs.Value() == WithEntry(old(bs.Value()), r.value.z)
  {
    var line := lines[at];
    var shellAm := lut.amFromChar(line[0][0]);
    var exponents := line[2..];
    var nprim := |exponents|;
    var zs := lut.zFromSym(line[1]);
    if zs.None? {
      return Err(LookupError);
    }
    var z := zs.value;
    bs.CreateElementData(z);
    var c := ReadContractions(lines, at, nprim);
    if c.Err? {
      return Err(c.error);
    }
    var funcType := ReaderFunctionType(shellAm);
    if funcType.Err? {
      return Err(funcType.error);
    }
    r := Ok(ShellRead(z, Shell(funcType.value, "", shellAm, exponents, c.value.vectors), c.value.next));
  }

  // ---------------------------------------------------------------------------
  // The loop over shells (lines 31-104)

  /** The loop of lines 35-104 from the cursor `i`: while the line under it is a shell
      line, read the shell and append it to its element's entry; the line the cursor
      stops on is re-tested. */
  function ParseFrom(lines: seq<Line>, i: nat, acc: BasisMap, lut: Lookup): (r: Result<BasisMap>)
    requires i < |lines| && acc.WellFormed()
    ensures r.Ok? ==> r.value.WellFormed()
    decreases |lines| - i
  {
    if !IsShellLine(lines[i]) then Ok(acc)
    else
      var s :- ShellAt(lines, i, lut);
      var m := WithShell(WithEntry(acc, s.z), s.z, s.shell);
      ParseFrom(lines, s.next, m, lut)
  }

  /** `read_molpro` on pruned lines: empty input is an empty dictionary; otherwise
      line 1 must exist and be a shell line (line 0, `basis={`, is not examined). The
      `spherical`/`cartesian` scan binds a local only and changes nothing. */
  function ReadSpec(lines: seq<Line>, lut: Lookup): (r: Result<BasisMap>)
    ensures r.Ok? ==> r.value.WellFormed()
  {
    if |lines| == 0 then Ok(EmptyBasis)
    else if |lines| < 2 then Err(IndexError)
    else if !IsShellLine(lines[1]) then Err(AssertionError)
    else ParseFrom(lines, 1, EmptyBasis, lut)
  }

  /** Empty input reads as the empty dictionary, a single line is an IndexError, and
      input whose line 1 is no shell line is an AssertionError. */
  lemma ReadSpecStart(lines: seq<Line>, lut: Lookup)
    ensures lines == [] ==> ReadSpec(lines, lut) == Ok(EmptyBasis)
    ensures |lines| == 1 ==> ReadSpec(lines, lut) == Err(IndexError)
    ensures |lines| >= 2 && !IsShellLine(lines[1]) ==> ReadSpec(lines, lut) == Err(AssertionError)
  {
  }

  /** Every shell of every element is padded. */
  predicate AllPadded(m: BasisMap) {
    forall z :: z in m.shells ==> forall k :: 0 <= k < |m.shells[z]| ==> Padded(m.shells[z][k])
  }

  /** Reading shells keeps every shell padded: the dictionary the loop builds holds
      only shells whose vectors have one entry per exponent. */
  lemma {:induction false} ParseFromPadded(lines: seq<Line>, i: nat, acc: BasisMap, lut: Lookup)
    requires i < |lines| && acc.WellFormed() && AllPadded(acc)
    ensures ParseFrom(lines, i, acc, lut).Ok? ==> AllPadded(ParseFrom(lines, i, acc, lut).value)
    decreases |lines| - i
  {
    if IsShellLine(lines[i]) && ShellAt(lines, i, lut).Ok? {
      var s := ShellAt(lines, i, lut).value;
      ShellAtSpec(lines, i, lut);
      var m := WithShell(WithEntry(acc, s.z), s.z, s.shell);
      AppendPadded(acc, s.z, s.shell);
      ParseFromPadded(lines, s.next, m, lut);
    }
  }

  /** Appending a padded shell to a dictionary of padded shells keeps it padded. */
  lemma AppendPadded(acc: BasisMap, z: nat, sh: Shell)
    requires acc.WellFormed() && AllPadded(acc) && Padded(sh)
    ensures AllPadded(WithShell(WithEntry(acc, z), z, sh))
  {
    var e := WithEntry(acc, z);
    var m := WithShell(e, z, sh);
    assert AllPadded(e);
    forall y | y in m.shells
      ensures forall k :: 0 <= k < |m.shells[y]| ==> Padded(m.shells[y][k])
    {
      if y == z {
        assert m.shells[y] == e.shells[y] + [sh];
      } else {
        assert m.shells[y] == e.shells[y];
      }
    }
  }

  /** Everything `read_molpro` returns is padded. */
  lemma ReadSpecPadded(lines: seq<Line>, lut: Lookup)
    requires ReadSpec(lines, lut).Ok?
    ensures AllPadded(ReadSpec(lines, lut).value)
  {
    if |lines| >= 2 && IsShellLine(lines[1]) {
      ParseFromPadded(lines, 1, EmptyBasis, lut);
    }
  }

  // ---------------------------------------------------------------------------
  // The methods on `bs_data`

  /** `_parse_electron_lines` (lines 24-104) with the cursor `iline`, starting at
      line 1, filling `bs` in place. */
  method ParseElectronLines(lines: seq<Line>, bs: BasisData, lut: Lookup) returns (r: Result<()>)
    requires |lines| > 0 && bs.Valid()
    modifies bs
    ensures bs.Valid()
    ensures |lines| < 2 ==> r == Err(IndexError)
    ensures |lines| >= 2 && !IsShellLine(lines[1]) ==> r == Err(AssertionError)
    ensures |lines| >= 2 && IsShellLine(lines[1]) ==> (r.Ok? <==> ParseFrom(lines, 1, old(bs.Value()), lut).Ok?)
    ensures |lines| >= 2 && IsShellLine(lines[1]) && r.Ok? ==> bs.Value() == ParseFrom(lines, 1, old(bs.Value()), lut).value
  {
    var iline := 1;
    if iline >= |lines| {
      return Err(IndexError);
    }
    if !IsShellLine(lines[iline]) {
      return Err(AssertionError);
    }
    while IsShellLine(lines[iline])
      invariant iline < |lines| && bs.Valid()
      invariant ParseFrom(lines, 1, old(bs.Value()), lut) == ParseFrom(lines, iline, bs.Value(), lut)
      decreases |lines| - iline
    {
      var s := ReadShell(lines, iline, bs, lut);
      if s.Err? {
        return Err(s.error);
      }
      bs.AppendShell(s.value.z, s.value.shell);
      iline := s.value.next;
    }
    return Ok(());
  }

  /** `read_molpro`: a fresh `bs_data`, left empty for empty input. */
  method ReadMolpro(lines: seq<Line>, lut: Lookup) returns (bs: BasisData, r: Result<()>)
    ensures fresh(bs) && bs.Valid()
    ensures r.Ok? <==> ReadSpec(lines, lut).Ok?
    ensures r.Ok? ==> bs.Value() == ReadSpec(lines, lut).value
  {
    bs := new BasisData();
    if |lines| == 0 {
      return bs, Ok(());
    }
    r := ParseElectronLines(lines, bs, lut);
  }
}

/** The CRYSTAL reader (`readers/crystal.py`): element sections headed `Z nshells`,
    shell blocks headed by a five-field descriptor `ityb lat ng che scal`.

    The module keeps the code as written: both line grammars accept only the digits
    1-9 in their integer fields, so the descriptor's `ityb` is never 0 and the
    assertion that it is 0 fails on every shell; the scale factors are read before
    they are assigned and the primitive count is never bound. The pieces of the shell
    parse that the code never reaches (decoding the angular momentum, validating the
    scale factors, trimming the rescaled exponents) are modelled as functions of their
    own, and `ParseShellBlockIntended` assembles them the way the code evidently
    intends. */
module CrystalReader {
  import opened Basis

  /** A token of the digits 1-9 only, the text `[1-9]+` matches. */
  predicate IsNonzeroDigits(t: string) {
    |t| > 0 && forall i :: 0 <= i < |t| ==> '1' <= t[i] <= '9'
  }

  /** `element_re`: an atomic number of one to three digits 1-9 and a shell count of
      digits 1-9. */
  predicate IsElementHeader(line: Line) {
    |line| == 2 && IsNonzeroDigits(line[0]) && |line[0]| <= 3 && IsNonzeroDigits(line[1])
  }

  /** `shell_re`: three integer fields of digits 1-9, then two numbers. */
  predicate IsShellLine(line: Line) {
    && |line| == 5
    && IsNonzeroDigits(line[0]) && IsNonzeroDigits(line[1]) && IsNonzeroDigits(line[2])
    && IsFloatToken(line[3]) && IsFloatToken(line[4])
  }

  /** The shell descriptor with the integer fields `[0-9]+` the code evidently intends. */
  predicate IsShellLineIntended(line: Line) {
    && |line| == 5
    && IsDigits(line[0]) && IsDigits(line[1]) && IsDigits(line[2])
    && IsFloatToken(line[3]) && IsFloatToken(line[4])
  }

  /** A digit field of `[1-9]+` never reads as 0. */
  lemma NonzeroDigitsPositive(t: string)
    requires IsNonzeroDigits(t)
    ensures DigitsValue(t) >= 1
  {
    assert '1' <= t[|t| - 1] <= '9';
  }

  // ---------------------------------------------------------------------------
  // Angular momentum (lines 31-38)

  /** The raw CRYSTAL shell code `lat` as an angular-momentum list: 0 is s, 1 the
      fused SP shell, and any other code is one more than its angular momentum. */
  function DecodeAm(raw: nat): (am: seq<nat>) {
    if raw == 0 then [0] else if raw == 1 then [0, 1] else [raw - 1]
  }

  /** The number of coefficient columns the code asks for (line 66) is 2 for the SP
      code 1 and 1 for every other code; the only fused list is SP. */
  lemma DecodedColumns(raw: nat)
    ensures |DecodeAm(raw)| == (if raw == 1 then 2 else 1)
    ensures |DecodeAm(raw)| == 2 ==> DecodeAm(raw) == [0, 1]
    ensures raw != 1 ==> DecodeAm(raw)[0] == (if raw == 0 then 0 else raw - 1)
  {
  }

  // ---------------------------------------------------------------------------
  // Scale factors (lines 49-61)

  /** The factors that are not 0.0, in order (line 50). */
  function NonZero(fs: seq<real>): (r: seq<real>)
    ensures |r| <= |fs|
    ensures forall i :: 0 <= i < |r| ==> r[i] != 0.0 && r[i] in fs
    ensures forall x :: x in r <==> x in fs && x != 0.0
  {
    if |fs| == 0 then []
    else if fs[0] != 0.0 then [fs[0]] + NonZero(fs[1..])
    else NonZero(fs[1..])
  }

  /** The filter keeps order: filtering a concatenation concatenates the filtered
      parts, and a single factor is kept exactly when it is not 0.0. */
  lemma {:induction false} NonZeroConcat(a: seq<real>, b: seq<real>)
    ensures NonZero(a + b) == NonZero(a) + NonZero(b)
    ensures |a| == 1 ==> NonZero(a) == (if a[0] != 0.0 then [a[0]] else [])
    decreases |a|
  {
    if |a| > 0 {
      assert (a + b)[0] == a[0] && (a + b)[1..] == a[1..] + b;
      NonZeroConcat(a[1..], b);
      if |a| == 1 {
        assert a[1..] == [];
      }
    } else {
      assert a + b == b;
    }
  }

  /** The exponent multiplier: the square of the only nonzero scale factor. No
      nonzero factor is a RuntimeError, more than one a NotImplementedError. */
  function ScaleMultiplier(fs: seq<real>): (r: Result<real>)
    ensures r.Ok? <==> |NonZero(fs)| == 1
    ensures |NonZero(fs)| == 0 ==> r == Err(RuntimeError)
    ensures |NonZero(fs)| > 1 ==> r == Err(NotImplementedError)
    ensures r.Ok? ==> exists f :: f in fs && f != 0.0 && r.value == f * f
  {
    var nz := NonZero(fs);
    if |nz| == 0 then Err(RuntimeError)
    else if |nz| > 1 then Err(NotImplementedError)
    else
      var f := nz[0];
      assert f in fs;
      Ok(f * f)
  }

  /** A factor list whose one nonzero entry is 1 or -1 leaves the exponents alone
      (line 61: `has_scaling` is false). */
  lemma UnitFactorNoScaling(fs: seq<real>, f: real)
    requires f == 1.0 || f == -1.0
    requires NonZero(fs) == [f]
    ensures ScaleMultiplier(fs) == Ok(1.0)
  {
  }

  // ---------------------------------------------------------------------------
  // Trimming a rescaled exponent (lines 80-84)

  /** Trailing zeros of the text before the first `E` are removed, a `0` is put
      back when that leaves a final `.`, and `E` with the second piece is
      reattached. An empty mantissa or a missing `E` is an IndexError. */
  function TrimMantissa(ex: string): (r: Result<string>) {
    var parts := Split(ex, 'E');
    var m := RStrip(parts[0], '0');
    if |m| == 0 then Err(IndexError)
    else
      var m' := if m[|m| - 1] == '.' then m + "0" else m;
      if |parts| < 2 then Err(IndexError) else Ok(m' + "E" + parts[1])
  }

  /** On text shaped like `'{:.16E}'` output (a mantissa with a decimal point, `E`,
      an exponent, and no other `E`) the trim succeeds. Its result keeps the exponent part, and its
      mantissa is the original mantissa with trailing zeros removed, followed by one
      zero exactly when the stripping leaves the point last. */
  lemma {:induction false} TrimSciText(m: string, e: string)
    requires '.' in m && 'E' !in m && 'E' !in e
    ensures var s := RStrip(m, '0');
      && |s| > 0 && '.' in s
      && TrimMantissa(m + "E" + e) == Ok((if s[|s| - 1] == '.' then s + "0" else s) + "E" + e)
  {
    var ex := m + "E" + e;
    assert ex == m + ['E'] + e;
    SplitAtSep(m, e, 'E');
    var s := RStrip(m, '0');
    DotSurvivesRStrip(m);
    assert |s| > 0;
    var m' := if s[|s| - 1] == '.' then s + "0" else s;
    assert TrimMantissa(ex).value == m' + "E" + e;
  }

  /** Stripping zeros never removes the decimal point. */
  lemma {:induction false} DotSurvivesRStrip(m: string)
    requires '.' in m
    ensures '.' in RStrip(m, '0')
    decreases |m|
  {
    if |m| > 0 && m[|m| - 1] == '0' {
      var k :| 0 <= k < |m| && m[k] == '.';
      assert m[..|m| - 1][k] == '.';
      DotSurvivesRStrip(m[..|m| - 1]);
    }
  }

  lemma {:induction false} RStripFixed(m: string)
    requires |m| == 0 || m[|m| - 1] != '0'
    ensures RStrip(m, '0') == m
  {
  }

  /** Trimming is idempotent: trimming a trimmed exponent gives it back. */
  lemma {:induction false} TrimIdempotent(ex: string)
    requires TrimMantissa(ex).Ok?
    ensures TrimMantissa(TrimMantissa(ex).value) == TrimMantissa(ex)
  {
    var parts := Split(ex, 'E');
    SplitPieces(ex, 'E');
    var m := RStrip(parts[0], '0');
    assert 'E' !in parts[0];
    assert 'E' !in m by {
      assert forall i :: 0 <= i < |m| ==> m[i] == parts[0][i];
    }
    assert 'E' !in parts[1];
    TrimFixed(TrimMantissa(ex).value, m, parts[1]);
  }

  /** A trimmed exponent, built from a mantissa `m` with no trailing zero, is its own trim. */
  lemma {:induction false} TrimFixed(t: string, m: string, e: string)
    requires |m| > 0 && m[|m| - 1] != '0' && 'E' !in m && 'E' !in e
    requires t == (if m[|m| - 1] == '.' then m + "0" else m) + "E" + e
    ensures TrimMantissa(t) == Ok(t)
  {
    var p := if m[|m| - 1] == '.' then m + "0" else m;
    assert 'E' !in p;
    assert t == p + ['E'] + e;
    SplitAtSep(p, e, 'E');
    if m[|m| - 1] == '.' {
      assert p[..|p| - 1] == m;
      RStripFixed(m);
    } else {
      RStripFixed(m);
    }
  }

  /** The loop of lines 74-87: every exponent rescaled and rendered (`render`, the
      floating-point product and its `'{:.16E}'` text), then trimmed. */
  function Rescaled(exps: seq<string>, multiplier: real, render: (string, real) -> string): (r: Result<seq<string>>)
    ensures r.Ok? ==> |r.value| == |exps|
  {
    if |exps| == 0 then Ok([])
    else
      var ex :- TrimMantissa(render(exps[0], multiplier));
      var rest :- Rescaled(exps[1..], multiplier, render);
      Ok([ex] + rest)
  }

  /** `new_exponents` built in the loop of lines 74-85. The result holds the trim of
      every rendered exponent, in order, and fails exactly when one trim fails. */
  method RescaleExponents(exps: seq<string>, multiplier: real, render: (string, real) -> string)
    returns (r: Result<seq<string>>)
    ensures r == Rescaled(exps, multiplier, render)
    ensures r.Ok? <==> forall i :: 0 <= i < |exps| ==> TrimMantissa(render(exps[i], multiplier)).Ok?
    ensures r.Ok? ==> forall i :: 0 <= i < |exps| ==> Ok(r.value[i]) == TrimMantissa(render(exps[i], multiplier))
  {
    var newExps: seq<string> := [];
    var i := 0;
    assert exps[0..] == exps;
    PrependNothing(Rescaled(exps, multiplier, render));
    while i < |exps|
      invariant 0 <= i <= |exps|
      invariant Rescaled(exps, multiplier, render) == Prepend(newExps, Rescaled(exps[i..], multiplier, render))
    {
      var t := TrimMantissa(render(exps[i], multiplier));
      assert exps[i..][0] == exps[i] && exps[i..][1..] == exps[i + 1..];
      if t.Err? {
        RescaledPointwise(exps, multiplier, render);
        return Err(t.error);
      }
      assert Rescaled(exps[i..], multiplier, render)
          == Prepend([t.value], Rescaled(exps[i + 1..], multiplier, render));
      PrependTwice(newExps, [t.value], Rescaled(exps[i + 1..], multiplier, render));
      newExps := newExps + [t.value];
      i := i + 1;
    }
    assert exps[i..] == [];
    assert newExps + [] == newExps;
    RescaledPointwise(exps, multiplier, render);
    return Ok(newExps);
  }

  // ---------------------------------------------------------------------------
  // The line grammars the code evidently intends

  /** `element_re` with the digit classes `[0-9]` the code evidently intends. */
  predicate IsElementHeaderIntended(line: Line) {
    |line| == 2 && IsDigits(line[0]) && |line[0]| <= 3 && IsDigits(line[1])
  }

  /** The collaborators the shell parse calls beyond this file: `replace_d` and `float`
      over the scale field, `helpers.parse_primitive_matrix`, the `'{:.16E}'` rendering
      of a rescaled exponent, and `helpers.function_type_from_am(am, 'gto', 'spherical')`. */
  datatype CrystalHelpers = CrystalHelpers(
    parseFactors: string -> Result<seq<real>>,
    parseMatrix: (seq<Line>, nat, nat) -> Result<(seq<string>, seq<seq<string>>)>,
    render: (string, real) -> string,
    functionType: seq<nat> -> string)

  /** The reader as written, or with its evident intent: digit classes `[0-9]` and the
      primitive count and scale factors bound from the descriptor. */
  datatype Grammar = AsWritten | Intended(h: CrystalHelpers)

  predicate IsHeaderIn(g: Grammar, line: Line) {
    if g.AsWritten? then IsElementHeader(line) else IsElementHeaderIntended(line)
  }

  predicate IsShellIn(g: Grammar, line: Line) {
    if g.AsWritten? then IsShellLine(line) else IsShellLineIntended(line)
  }

  /** The two predicates as the block-start tests handed to the partition. */
  function HeaderStart(g: Grammar): Line -> bool { line => IsHeaderIn(g, line) }

  function ShellStart(g: Grammar): Line -> bool { line => IsShellIn(g, line) }

  /** Every line the written grammars accept, the intended ones accept too. */
  lemma AsWrittenWithinIntended(line: Line)
    ensures IsElementHeader(line) ==> IsElementHeaderIntended(line)
    ensures IsShellLine(line) ==> IsShellLineIntended(line)
  {
  }

  // ---------------------------------------------------------------------------
  // One shell block (lines 25-97)

  /** Lines 27-28 as written: the descriptor's `ityb` comes from a field of digits
      1-9, so the assertion that it is 0 fails for every shell. (Were it 0, line 46
      would read `scaling_factors` before any assignment.) */
  function ParseShellBlock(block: seq<Line>): (r: Result<Shell>)
    requires |block| > 0
  {
    var line := block[0];
    if |line| == 0 || !AllDigits(line[0]) then Err(FormatError)
    else if DigitsValue(line[0]) != 0 then Err(AssertionError) else Err(UnboundLocalError)
  }

  /** Every block that opens with a descriptor of `shell_re` fails the assertion. */
  lemma AsWrittenShellFails(block: seq<Line>)
    requires |block| > 0 && IsShellLine(block[0])
    ensures ParseShellBlock(block) == Err(AssertionError)
  {
    NonzeroDigitsPositive(block[0][0]);
  }

  /** The three integer fields a descriptor must hold (`ityb`, `lat`, `ng`) before they
      are read, and the five fields in all. */
  predicate HasDigitFields(line: Line) {
    |line| == 5 && AllDigits(line[0]) && AllDigits(line[1]) && AllDigits(line[2])
  }

  /** Lines 27-95 as intended: `ityb` must be 0, `lat` gives the angular momentum,
      `ng` the number of primitives and `scal` the scale factors; the exponents are
      rescaled by the square of the one nonzero factor unless that square is 1. */
  function ParseShellBlockIntended(block: seq<Line>, h: CrystalHelpers): (r: Result<Shell>)
    requires |block| > 0
  {
    var line := block[0];
    if !HasDigitFields(line) then Err(FormatError)
    else if DigitsValue(line[0]) != 0 then Err(AssertionError)
    else
      var am := DecodeAm(DigitsValue(line[1]));
      var nprim := DigitsValue(line[2]);
      var factors :- h.parseFactors(line[4]);
      var multiplier :- ScaleMultiplier(factors);
      var mx :- h.parseMatrix(block[1..], nprim, |am|);
      var exps :- if multiplier != 1.0 then Rescaled(mx.0, multiplier, h.render) else Ok(mx.0);
      Ok(Shell(h.functionType(am), "", am, exps, mx.1))
  }

  /** A shell read as intended: its function type and angular momentum come from `lat`,
      its coefficients from the matrix, and its exponents are the matrix's first column,
      each rescaled and trimmed when the multiplier is not 1. */
  lemma ShellIntendedContents(block: seq<Line>, h: CrystalHelpers)
    requires |block| > 0 && ParseShellBlockIntended(block, h).Ok?
    ensures HasDigitFields(block[0]) && DigitsValue(block[0][0]) == 0
    ensures var r := ParseShellBlockIntended(block, h);
      var am := DecodeAm(DigitsValue(block[0][1]));
      var fs := h.parseFactors(block[0][4]);
      var mx := h.parseMatrix(block[1..], DigitsValue(block[0][2]), |am|);
      && fs.Ok? && ScaleMultiplier(fs.value).Ok? && mx.Ok?
      && r.value == Shell(h.functionType(am), "", am, r.value.exponents, mx.value.1)
      && |r.value.exponents| == |mx.value.0|
      && (ScaleMultiplier(fs.value).value == 1.0 ==> r.value.exponents == mx.value.0)
      && (ScaleMultiplier(fs.value).value != 1.0 ==>
            forall i :: 0 <= i < |mx.value.0| ==>
              Ok(r.value.exponents[i]) == TrimMantissa(h.render(mx.value.0[i], ScaleMultiplier(fs.value).value)))
  {
    var line := block[0];
    var am := DecodeAm(DigitsValue(line[1]));
    var mx := h.parseMatrix(block[1..], DigitsValue(line[2]), |am|).value;
    var multiplier := ScaleMultiplier(h.parseFactors(line[4]).value).value;
    RescaledPointwise(mx.0, multiplier, h.render);
  }

  /** What `Rescaled` promises element by element. */
  lemma {:induction false} RescaledPointwise(exps: seq<string>, multiplier: real, render: (string, real) -> string)
    ensures var r := Rescaled(exps, multiplier, render);
      && (r.Ok? <==> forall i :: 0 <= i < |exps| ==> TrimMantissa(render(exps[i], multiplier)).Ok?)
      && (r.Ok? ==> forall i :: 0 <= i < |exps| ==> Ok(r.value[i]) == TrimMantissa(render(exps[i], multiplier)))
    decreases |exps|
  {
    if |exps| > 0 {
      RescaledPointwise(exps[1..], multiplier, render);
      assert forall i :: 1 <= i < |exps| ==> exps[1..][i - 1] == exps[i];
    }
  }

  /** The shell parse of the chosen grammar, on any block. A block that does not start
      with a descriptor never reaches it, since the partition starts every block with one. */
  function ParseShell(g: Grammar, block: seq<Line>): Result<Shell> {
    if |block| == 0 then Err(FormatError)
    else if g.AsWritten? then ParseShellBlock(block)
    else ParseShellBlockIntended(block, g.h)
  }

  /** The shells of consecutive blocks, stopping at the first failure. */
  function ParseBlocks(g: Grammar, blocks: seq<seq<Line>>): (r: Result<seq<Shell>>)
    ensures r.Ok? ==> |r.value| == |blocks|
    decreases |blocks|
  {
    if |blocks| == 0 then Ok([])
    else
      var sh :- ParseShell(g, blocks[0]);
      var rest :- ParseBlocks(g, blocks[1..]);
      Ok([sh] + rest)
  }

  /** Each shell is the parse of its own block. */
  lemma {:induction false} ParseBlocksAt(g: Grammar, blocks: seq<seq<Line>>, i: nat)
    requires i < |blocks| && ParseBlocks(g, blocks).Ok?
    ensures ParseShell(g, blocks[i]) == Ok(ParseBlocks(g, blocks).value[i])
    decreases |blocks|
  {
    if i > 0 {
      ParseBlocksAt(g, blocks[1..], i - 1);
      assert blocks[1..][i - 1] == blocks[i];
    }
  }

  /** The shell loop in place: each parsed shell, in order. */
  method ParseShellBlockM(g: Grammar, block: seq<Line>) returns (r: Result<Shell>)
    ensures r == ParseShell(g, block)
  {
    if |block| == 0 {
      return Err(FormatError);
    }
    if g.AsWritten? {
      return ParseShellBlock(block);
    }
    var h := g.h;
    var line := block[0];
    if !HasDigitFields(line) {
      return Err(FormatError);
    }
    if DigitsValue(line[0]) != 0 {
      return Err(AssertionError);
    }
    var am := DecodeAm(DigitsValue(line[1]));
    var nprim := DigitsValue(line[2]);
    var factors := h.parseFactors(line[4]);
    if factors.Err? {
      return Err(factors.error);
    }
    var multiplier := ScaleMultiplier(factors.value);
    if multiplier.Err? {
      return Err(multiplier.error);
    }
    var mx := h.parseMatrix(block[1..], nprim, |am|);
    if mx.Err? {
      return Err(mx.error);
    }
    var exps := mx.value.0;
    if multiplier.value != 1.0 {
      var rescaled := RescaleExponents(exps, multiplier.value, h.render);
      if rescaled.Err? {
        return Err(rescaled.error);
      }
      exps := rescaled.value;
    }
    return Ok(Shell(h.functionType(am), "", am, exps, mx.value.1));
  }

  // ---------------------------------------------------------------------------
  // One element section (lines 10-97)

  /** `_parse_electron_lines` on one section: the header's Z must have a name, its entry
      is created, and the shells of the section's blocks are appended to it in order. */
  function SectionSpec(g: Grammar, es: seq<Line>, acc: BasisMap, lut: Lookup): (r: Result<BasisMap>)
    requires acc.WellFormed()
    ensures r.Ok? ==> r.value.WellFormed()
  {
    if |es| == 0 || |es[0]| == 0 || !AllDigits(es[0][0]) then Err(FormatError)
    else
    var z := DigitsValue(es[0][0]);
    if lut.nameFromZ(z).None? then Err(LookupError)
    else
      var m := WithEntry(acc, z);
      var blocks :- Partition(es[1..], ShellStart(g), 1);
      var shells :- ParseBlocks(g, blocks);
      Ok(WithShells(m, z, shells))
  }

  /** A section touches only its own element: the entry is created when new, and the
      section's shells are appended after those it already had. */
  lemma SectionExtendsItsElement(g: Grammar, es: seq<Line>, acc: BasisMap, lut: Lookup)
    requires acc.WellFormed() && SectionSpec(g, es, acc, lut).Ok?
    ensures |es| > 0 && |es[0]| > 0 && AllDigits(es[0][0])
    ensures var r := SectionSpec(g, es, acc, lut).value;
      var z := DigitsValue(es[0][0]);
      var m := WithEntry(acc, z);
      && r.keys == m.keys
      && exists shs :: r.shells == m.shells[z := m.shells[z] + shs]
  {
    var z := DigitsValue(es[0][0]);
    var m := WithEntry(acc, z);
    var blocks := Partition(es[1..], ShellStart(g), 1).value;
    var shs := ParseBlocks(g, blocks).value;
    assert SectionSpec(g, es, acc, lut).value.shells == m.shells[z := m.shells[z] + shs];
  }

  /** A section whose header names no element raises: `lut.element_sym_from_Z` finds
      nothing for its Z. */
  lemma SectionUnknownElement(g: Grammar, es: seq<Line>, acc: BasisMap, lut: Lookup)
    requires acc.WellFormed() && |es| > 0 && IsHeaderIn(g, es[0])
    ensures var z := (assert AllDigits(es[0][0]); DigitsValue(es[0][0]));
      lut.nameFromZ(z).None? ==> SectionSpec(g, es, acc, lut) == Err(LookupError)
  {
  }

  /** What the shell loop does from block `i` on, starting from the dictionary `acc`:
      each block's shell is appended to the shells of `z` until a block fails. */
  function AppendFrom(g: Grammar, blocks: seq<seq<Line>>, i: nat, acc: BasisMap, z: nat): (r: Result<BasisMap>)
    requires i <= |blocks| && acc.WellFormed() && z in acc.shells
    ensures r.Ok? ==> r.value.WellFormed()
    decreases |blocks| - i
  {
    if i == |blocks| then Ok(acc)
    else
      match ParseShell(g, blocks[i])
      case Err(e) => Err(e)
      case Ok(sh) => AppendFrom(g, blocks, i + 1, WithShell(acc, z, sh), z)
  }

  /** The loop from block `i` on succeeds exactly when the remaining blocks parse, and
      then appends their shells in order. */
  lemma {:induction false} AppendFromBlocks(g: Grammar, blocks: seq<seq<Line>>, i: nat, acc: BasisMap, z: nat)
    requires i <= |blocks| && acc.WellFormed() && z in acc.shells
    ensures AppendFrom(g, blocks, i, acc, z).Ok? <==> ParseBlocks(g, blocks[i..]).Ok?
    ensures AppendFrom(g, blocks, i, acc, z).Ok? ==>
      AppendFrom(g, blocks, i, acc, z).value == WithShells(acc, z, ParseBlocks(g, blocks[i..]).value)
    decreases |blocks| - i
  {
    if i < |blocks| {
      assert blocks[i..][0] == blocks[i] && blocks[i..][1..] == blocks[i + 1..];
      match ParseShell(g, blocks[i])
      case Err(_) =>
      case Ok(sh) =>
        var next := WithShell(acc, z, sh);
        AppendFromBlocks(g, blocks, i + 1, next, z);
        if ParseBlocks(g, blocks[i + 1..]).Ok? {
          var rest := ParseBlocks(g, blocks[i + 1..]).value;
          assert ([sh] + rest)[0] == sh && ([sh] + rest)[1..] == rest;
        }
    } else {
      assert blocks[i..] == [];
    }
  }

  /** The shell loop of lines 10-97 in place: the shells of `blocks`, in order, are
      appended to the entry of `z`; the first block that fails stops it with its error. */
  method AppendShells(g: Grammar, blocks: seq<seq<Line>>, z: nat, bs: BasisData) returns (r: Result<()>)
    requires bs.Valid() && z in bs.shells
    modifies bs
    ensures bs.Valid()
    ensures r.Ok? <==> ParseBlocks(g, blocks).Ok?
    ensures r.Ok? ==> bs.Value() == WithShells(old(bs.Value()), z, ParseBlocks(g, blocks).value)
  {
    ghost var m := bs.Value();
    assert blocks[0..] == blocks;
    AppendFromBlocks(g, blocks, 0, m, z);
    var i := 0;
    while i < |blocks|
      invariant 0 <= i <= |blocks| && bs.Valid() && z in bs.shells
      invariant AppendFrom(g, blocks, 0, m, z) == AppendFrom(g, blocks, i, bs.Value(), z)
    {
      var sh := ParseShellBlockM(g, blocks[i]);
      if sh.Err? {
        return Err(sh.error);
      }
      bs.AppendShell(z, sh.value);
      i := i + 1;
    }
    r := Ok(());
  }

  /** Lines 10-97 on `bs_data` in place. */
  method ParseElectronLines(g: Grammar, es: seq<Line>, bs: BasisData, lut: Lookup) returns (r: Result<()>)
    requires bs.Valid()
    modifies bs
    ensures bs.Valid()
    ensures r.Ok? <==> SectionSpec(g, es, old(bs.Value()), lut).Ok?
    ensures r.Ok? ==> bs.Value() == SectionSpec(g, es, old(bs.Value()), lut).value
  {
    if |es| == 0 || |es[0]| == 0 || !AllDigits(es[0][0]) {
      return Err(FormatError);
    }
    var z := DigitsValue(es[0][0]);
    if lut.nameFromZ(z).None? {
      return Err(LookupError);
    }
    bs.CreateElementData(z);
    var blocks := Partition(es[1..], ShellStart(g), 1);
    if blocks.Err? {
      return Err(blocks.error);
    }
    r := AppendShells(g, blocks.value, z, bs);
  }

  // ---------------------------------------------------------------------------
  // The whole file (lines 100-122)

  /** The sections in order, each applied to the dictionary the previous ones left. */
  function Sections(g: Grammar, secs: seq<seq<Line>>, acc: BasisMap, lut: Lookup): (r: Result<BasisMap>)
    requires acc.WellFormed()
    ensures r.Ok? ==> r.value.WellFormed()
    decreases |secs|
  {
    if |secs| == 0 then Ok(acc)
    else
      var m :- SectionSpec(g, secs[0], acc, lut);
      Sections(g, secs[1..], m, lut)
  }

  /** `read_crystal` on pruned lines: an empty file is an empty dictionary; otherwise
      the lines are split into element sections of at least three lines. */
  function ReadSpec(g: Grammar, lines: seq<Line>, lut: Lookup): (r: Result<BasisMap>)
    ensures lines == [] ==> r == Ok(EmptyBasis)
    ensures r.Ok? ==> r.value.WellFormed()
  {
    if |lines| == 0 then Ok(EmptyBasis)
    else
      var secs :- Partition(lines, HeaderStart(g), 3);
      Sections(g, secs, EmptyBasis, lut)
  }

  /** `read_crystal`, filling a fresh `bs_data` section by section. */
  method ReadCrystal(g: Grammar, lines: seq<Line>, lut: Lookup) returns (bs: BasisData, r: Result<()>)
    ensures fresh(bs) && bs.Valid()
    ensures r.Ok? <==> ReadSpec(g, lines, lut).Ok?
    ensures r.Ok? ==> bs.Value() == ReadSpec(g, lines, lut).value
  {
    bs := new BasisData();
    if |lines| == 0 {
      return bs, Ok(());
    }
    var secs := Partition(lines, HeaderStart(g), 3);
    if secs.Err? {
      return bs, Err(secs.error);
    }
    var i := 0;
    assert secs.value[0..] == secs.value;
    while i < |secs.value|
      invariant 0 <= i <= |secs.value|
      invariant bs.Valid()
      invariant ReadSpec(g, lines, lut) == Sections(g, secs.value[i..], bs.Value(), lut)
    {
      var es := secs.value[i];
      assert secs.value[i..][0] == es && secs.value[i..][1..] == secs.value[i + 1..];
      ghost var before := bs.Value();
      var res := ParseElectronLines(g, es, bs, lut);
      if res.Err? {
        return bs, Err(res.error);
      }
      assert Sections(g, secs.value[i..], before, lut) == Sections(g, secs.value[i + 1..], bs.Value(), lut);
      i := i + 1;
    }
    return bs, Ok(());
  }

  // ---------------------------------------------------------------------------
  // Properties

  /** As written, the reader raises on every file that holds any line: either the
      partition into sections or shells fails, the element has no name, or the
      first shell's assertion `ityb == 0` fails. */
  lemma ReadCrystalAsWrittenFails(lines: seq<Line>, lut: Lookup)
    requires lines != []
    ensures ReadSpec(AsWritten, lines, lut).Err?
  {
    var secs := Partition(lines, HeaderStart(AsWritten), 3);
    if secs.Ok? {
      assert secs.value != [];
      var es := secs.value[0];
      assert |es| >= 3;
      var z := DigitsValue(es[0][0]);
      if lut.nameFromZ(z).Some? {
        var blocks := Partition(es[1..], ShellStart(AsWritten), 1);
        if blocks.Ok? {
          assert blocks.value != [];
          AsWrittenShellFails(blocks.value[0]);
          assert ParseBlocks(AsWritten, blocks.value).Err?;
        }
        assert SectionSpec(AsWritten, es, EmptyBasis, lut).Err?;
      }
    }
  }
}

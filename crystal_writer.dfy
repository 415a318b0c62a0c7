/** The CRYSTAL writer (`writers/crystal.py`). Each element with Z below 99 becomes a
    header `nat nshells`, an optional ECP block, and one descriptor plus primitive
    matrix per shell; the text ends with `99 0`.

    The writer receives the basis after `manip.uncontract_general`,
    `manip.uncontract_spdf` and `sort.sort_basis`, which are not part of this model;
    `printing.write_matrix` is the parameter `writeMatrix`. */
module CrystalWriter {
  import opened Basis
  import CrystalReader

  /** `printing.write_matrix(columns, point_places, convert_exp=True)`. */
  type MatrixWriter = (seq<seq<string>>, seq<nat>) -> string

  // ---------------------------------------------------------------------------
  // Atomic number marking (lines 29-36)

  /** `nat`: the atomic number, displaced by 200 when the element carries an ECP. */
  function NatMarker(z: nat, hasEcp: bool): nat {
    if hasEcp then z + 200 else z
  }

  /** For the elements that are written (Z below 99) the marker gives back both the
      atomic number and whether the element has an ECP. */
  lemma NatMarkerDecodes(z: nat, hasEcp: bool)
    requires z < 99
    ensures NatMarker(z, hasEcp) >= 200 <==> hasEcp
    ensures NatMarker(z, hasEcp) - (if NatMarker(z, hasEcp) >= 200 then 200 else 0) == z
  {
  }

  // ---------------------------------------------------------------------------
  // Angular momentum (lines 88-97)

  /** The shell code `lat`: 0 for s, 1 for the fused SP shell, `l + 1` for any other
      single angular momentum `l`. Another pair or a longer or empty list is a
      RuntimeError. */
  function EncodeAm(am: seq<nat>): (r: Result<nat>)
    ensures r.Err? ==> r.error == RuntimeError
    ensures r.Ok? <==> |am| == 1 || am == [0, 1]
  {
    if |am| == 2 then
      if am[0] != 0 || am[1] != 1 then Err(RuntimeError) else Ok(1)
    else if |am| == 1 then Ok(if am[0] == 0 then 0 else am[0] + 1)
    else Err(RuntimeError)
  }

  /** Decoding a written code gives the angular momentum back. */
  lemma DecodeEncode(am: seq<nat>)
    requires EncodeAm(am).Ok?
    ensures CrystalReader.DecodeAm(EncodeAm(am).value) == am
  {
  }

  /** Every code the reader decodes is written back as the same code. */
  lemma EncodeDecode(raw: nat)
    ensures EncodeAm(CrystalReader.DecodeAm(raw)) == Ok(raw)
  {
  }

  // ---------------------------------------------------------------------------
  // ECP block (lines 42-74)

  /** One ECP data row `exp coef rexp`. */
  function EcpRow(exp: string, coef: string, rexp: int): string {
    exp + " " + coef + " " + IntToString(rexp) + "\n"
  }

  /** The first `n` rows of a term, one per exponent. */
  function RowsUpTo(exps: seq<string>, coefs: seq<string>, rexp: seq<int>, n: nat): (rows: seq<string>)
    requires n <= |exps| && n <= |coefs| && n <= |rexp|
    ensures |rows| == n
  {
    if n == 0 then [] else RowsUpTo(exps, coefs, rexp, n - 1) + [EcpRow(exps[n - 1], coefs[n - 1], rexp[n - 1])]
  }

  /** Row `k` pairs exponent `k` with coefficient `k` and r-exponent `k`. */
  lemma {:induction false} RowsUpToAt(exps: seq<string>, coefs: seq<string>, rexp: seq<int>, n: nat, k: nat)
    requires n <= |exps| && n <= |coefs| && n <= |rexp| && k < n
    ensures RowsUpTo(exps, coefs, rexp, n)[k] == EcpRow(exps[k], coefs[k], rexp[k])
    decreases n
  {
    var prev := RowsUpTo(exps, coefs, rexp, n - 1);
    var row := EcpRow(exps[n - 1], coefs[n - 1], rexp[n - 1]);
    assert RowsUpTo(exps, coefs, rexp, n) == prev + [row];
    if k < n - 1 {
      RowsUpToAt(exps, coefs, rexp, n - 1, k);
      assert (prev + [row])[k] == prev[k];
    } else {
      assert k == n - 1;
      assert (prev + [row])[k] == row;
    }
  }

  lemma RowsUpToRows(exps: seq<string>, coefs: seq<string>, rexp: seq<int>, n: nat)
    requires n <= |exps| && n <= |coefs| && n <= |rexp|
    ensures forall k :: 0 <= k < n ==> RowsUpTo(exps, coefs, rexp, n)[k] == EcpRow(exps[k], coefs[k], rexp[k])
  {
    forall k | 0 <= k < n ensures RowsUpTo(exps, coefs, rexp, n)[k] == EcpRow(exps[k], coefs[k], rexp[k]) {
      RowsUpToAt(exps, coefs, rexp, n, k);
    }
  }

  /** The rows of one term (lines 59-64): its first coefficient vector is taken before
      the loop, and each exponent needs a coefficient and an r-exponent. */
  function TermRows(t: EcpTerm): (r: Result<seq<string>>)
    ensures r.Ok? ==> |r.value| == |t.gaussianExponents|
    ensures r.Err? <==>
      |t.coefficients| == 0
      || |t.coefficients[0]| < |t.gaussianExponents|
      || |t.rExponents| < |t.gaussianExponents|
  {
    if |t.coefficients| == 0 then Err(IndexError)
    else
      var exps := t.gaussianExponents;
      var coefs := t.coefficients[0];
      var rexp := t.rExponents;
      if |coefs| < |exps| || |rexp| < |exps| then Err(IndexError)
      else Ok(RowsUpTo(exps, coefs, rexp, |exps|))
  }

  /** Row `k` of a term is written from its `k`-th exponent, the `k`-th entry of its
      first coefficient vector and its `k`-th r-exponent. */
  lemma TermRowsContents(t: EcpTerm)
    requires TermRows(t).Ok?
    ensures forall k :: 0 <= k < |TermRows(t).value| ==>
      TermRows(t).value[k] == EcpRow(t.gaussianExponents[k], t.coefficients[0][k], t.rExponents[k])
  {
    RowsUpToRows(t.gaussianExponents, t.coefficients[0], t.rExponents, |t.gaussianExponents|);
  }

  /** The loop of lines 62-64 for one term. */
  method WriteTermRows(t: EcpTerm) returns (r: Result<seq<string>>)
    ensures r == TermRows(t)
  {
    if |t.coefficients| == 0 {
      return Err(IndexError);
    }
    var exps := t.gaussianExponents;
    var coefs := t.coefficients[0];
    var rexp := t.rExponents;
    var rows: seq<string> := [];
    var i := 0;
    while i < |exps|
      invariant 0 <= i <= |exps|
      invariant i <= |coefs| && i <= |rexp|
      invariant rows == RowsUpTo(exps, coefs, rexp, i)
    {
      if i >= |coefs| || i >= |rexp| {
        return Err(IndexError);
      }
      rows := rows + [EcpRow(exps[i], coefs[i], rexp[i])];
      i := i + 1;
    }
    return Ok(rows);
  }

  /** The rows of all terms whose angular momentum is exactly `[l]` (lines 56-64), in
      term order. */
  function BucketRows(terms: seq<EcpTerm>, l: nat): Result<seq<string>>
    decreases |terms|
  {
    if |terms| == 0 then Ok([])
    else
      var here :- if terms[0].angularMomentum == [l] then TermRows(terms[0]) else Ok([]);
      var rest :- BucketRows(terms[1..], l);
      Ok(here + rest)
  }

  /** The number of primitives over the terms with angular momentum `[l]`. */
  function PrimitiveCount(terms: seq<EcpTerm>, l: nat): nat
    decreases |terms|
  {
    if |terms| == 0 then 0
    else
      var here := if terms[0].angularMomentum == [l] then |terms[0].gaussianExponents| else 0;
      here + PrimitiveCount(terms[1..], l)
  }

  /** `n_terms` for bucket `l` is the number of primitives of that angular momentum: one
      row per primitive. */
  lemma {:induction false} BucketRowsCount(terms: seq<EcpTerm>, l: nat)
    requires BucketRows(terms, l).Ok?
    ensures |BucketRows(terms, l).value| == PrimitiveCount(terms, l)
    decreases |terms|
  {
    if |terms| > 0 {
      BucketRowsCount(terms[1..], l);
    }
  }

  /** Lines 58-64 for one bucket. */
  method WriteBucketRows(terms: seq<EcpTerm>, l: nat) returns (r: Result<seq<string>>)
    ensures r == BucketRows(terms, l)
  {
    var rows: seq<string> := [];
    var j := 0;
    assert terms[0..] == terms;
    PrependNothing(BucketRows(terms, l));
    while j < |terms|
      invariant 0 <= j <= |terms|
      invariant BucketRows(terms, l) == Prepend(rows, BucketRows(terms[j..], l))
    {
      assert terms[j..][0] == terms[j] && terms[j..][1..] == terms[j + 1..];
      var here: seq<string> := [];
      if terms[j].angularMomentum == [l] {
        var t := WriteTermRows(terms[j]);
        if t.Err? {
          return Err(t.error);
        }
        here := t.value;
      }
      PrependTwice(rows, here, BucketRows(terms[j + 1..], l));
      rows := rows + here;
      j := j + 1;
    }
    assert terms[j..] == [];
    assert rows + [] == rows;
    return Ok(rows);
  }

  /** The five buckets s, p, d, f, g (line 54), in order. */
  function Buckets(terms: seq<EcpTerm>, l: nat): Result<seq<seq<string>>>
    requires l <= 5
    decreases 5 - l
  {
    if l == 5 then Ok([])
    else
      var b :- BucketRows(terms, l);
      var rest :- Buckets(terms, l + 1);
      Ok([b] + rest)
  }

  /** Successful buckets: exactly five, bucket `l` the rows of the terms of angular
      momentum `[l]`. */
  lemma {:induction false} BucketsShape(terms: seq<EcpTerm>, l: nat)
    requires l <= 5 && Buckets(terms, l).Ok?
    ensures |Buckets(terms, l).value| == 5 - l
    ensures forall k :: 0 <= k < 5 - l ==> BucketRows(terms, l + k) == Ok(Buckets(terms, l).value[k])
    decreases 5 - l
  {
    if l < 5 {
      var v := Buckets(terms, l).value;
      var w := Buckets(terms, l + 1).value;
      BucketsShape(terms, l + 1);
      assert v == [BucketRows(terms, l).value] + w;
      forall k | 0 < k < 5 - l
        ensures BucketRows(terms, l + k) == Ok(v[k])
      {
        assert v[k] == w[k - 1];
      }
    }
  }

  /** Lines 52-65: the rows of all five buckets. */
  method WriteBuckets(terms: seq<EcpTerm>) returns (r: Result<seq<seq<string>>>)
    ensures r == Buckets(terms, 0)
  {
    var buckets: seq<seq<string>> := [];
    var l := 0;
    PrependNothing(Buckets(terms, 0));
    while l < 5
      invariant 0 <= l <= 5
      invariant Buckets(terms, 0) == Prepend(buckets, Buckets(terms, l))
    {
      var b := WriteBucketRows(terms, l);
      if b.Err? {
        return Err(b.error);
      }
      PrependTwice(buckets, [b.value], Buckets(terms, l + 1));
      buckets := buckets + [b.value];
      l := l + 1;
    }
    assert buckets + [] == buckets;
    return Ok(buckets);
  }

  /** `max([x['angular_momentum'][0] for x in terms])`: the list is built first, so a
      term with no angular momentum is an IndexError before `max` of no terms is a
      ValueError. */
  function MaxEcpAm(terms: seq<EcpTerm>): (r: Result<nat>)
    decreases |terms|
  {
    if |terms| == 0 then Err(ValueError)
    else if terms[0].angularMomentum == [] then Err(IndexError)
    else
      var a := terms[0].angularMomentum[0];
      var rest := MaxEcpAm(terms[1..]);
      if rest == Err(ValueError) then Ok(a)
      else if rest.Err? then rest
      else Ok(if a > rest.value then a else rest.value)
  }

  /** The maximum raises IndexError exactly when some term has no angular momentum,
      ValueError exactly when there are no terms and otherwise is the largest first
      angular momentum, attained by some term. */
  lemma {:induction false} MaxEcpAmSpec(terms: seq<EcpTerm>)
    ensures (exists i :: 0 <= i < |terms| && terms[i].angularMomentum == []) <==> MaxEcpAm(terms) == Err(IndexError)
    ensures terms == [] <==> MaxEcpAm(terms) == Err(ValueError)
    ensures MaxEcpAm(terms).Ok? ==>
      && (forall i :: 0 <= i < |terms| ==> terms[i].angularMomentum[0] <= MaxEcpAm(terms).value)
      && (exists i :: 0 <= i < |terms| && terms[i].angularMomentum[0] == MaxEcpAm(terms).value)
    decreases |terms|
  {
    if |terms| > 0 {
      var rest := terms[1..];
      MaxEcpAmSpec(rest);
      assert forall i :: 1 <= i < |terms| ==> terms[i] == rest[i - 1];
      if terms[0].angularMomentum != [] && MaxEcpAm(rest).Ok? {
        var m := MaxEcpAm(rest).value;
        var k :| 0 <= k < |rest| && rest[k].angularMomentum[0] == m;
        assert terms[k + 1] == rest[k];
      }
      if exists i :: 0 <= i < |rest| && rest[i].angularMomentum == [] {
        var k :| 0 <= k < |rest| && rest[k].angularMomentum == [];
        assert terms[k + 1] == rest[k];
      }
    }
  }

  /** The counts `n0 .. n4` as text, each preceded by a space. */
  function CountFields(buckets: seq<seq<string>>): string {
    Prefixed(" ", seq(|buckets|, k requires 0 <= k < |buckets| => NatToString(|buckets[k]|)))
  }

  /** The ECP header line `Zeff M n0 n1 n2 n3 n4` with `M = 0` (line 72). */
  function EcpHeader(zeff: int, buckets: seq<seq<string>>): string {
    IntToString(zeff) + " 0" + CountFields(buckets) + "\n"
  }

  /** Lines 42-74: `INPUT`, the header and then every row, each bucket in turn. The
      effective charge `Z - ecp_electrons` needs the electron count (KeyError), and an
      angular momentum above g raises. */
  function EcpBlock(z: nat, terms: seq<EcpTerm>, electrons: Option<int>): (r: Result<string>)
    ensures electrons.None? ==> r == Err(KeyError)
    ensures electrons.Some? && MaxEcpAm(terms).Ok? && MaxEcpAm(terms).value > 4 ==> r == Err(RuntimeError)
    ensures r.Ok? ==>
      && Buckets(terms, 0).Ok?
      && r.value == "INPUT\n" + EcpHeader(z - electrons.value, Buckets(terms, 0).value) + Flatten(Flatten(Buckets(terms, 0).value))
  {
    if electrons.None? then Err(KeyError)
    else
      var zeff := z - electrons.value;
      var maxAm :- MaxEcpAm(terms);
      if maxAm > 4 then Err(RuntimeError)
      else
        var buckets :- Buckets(terms, 0);
        Ok("INPUT\n" + EcpHeader(zeff, buckets) + Flatten(Flatten(buckets)))
  }

  /** The header counts what the block holds: five counts, count `l` the primitives of
      angular momentum `[l]`, and as many data rows as the counts add up to. */
  lemma EcpBlockCounts(z: nat, terms: seq<EcpTerm>, electrons: Option<int>)
    requires EcpBlock(z, terms, electrons).Ok?
    ensures var b := Buckets(terms, 0).value;
      && |b| == 5
      && (forall l :: 0 <= l < 5 ==> |b[l]| == PrimitiveCount(terms, l))
      && |Flatten(b)| == PrimitiveCount(terms, 0) + PrimitiveCount(terms, 1) + PrimitiveCount(terms, 2)
                         + PrimitiveCount(terms, 3) + PrimitiveCount(terms, 4)
  {
    var b := Buckets(terms, 0).value;
    BucketsShape(terms, 0);
    forall l | 0 <= l < 5
      ensures |b[l]| == PrimitiveCount(terms, l)
    {
      BucketRowsCount(terms, l);
    }
    FlattenLength5(b);
  }

  /** Sum of the lengths of `ss`. */
  function SumLengths<T>(ss: seq<seq<T>>): nat {
    if |ss| == 0 then 0 else |ss[0]| + SumLengths(ss[1..])
  }

  lemma {:induction false} FlattenLength<T>(ss: seq<seq<T>>)
    ensures |Flatten(ss)| == SumLengths(ss)
    decreases |ss|
  {
    if |ss| > 0 {
      FlattenLength(ss[1..]);
    }
  }

  lemma FlattenLength5<T>(b: seq<seq<T>>)
    requires |b| == 5
    ensures |Flatten(b)| == |b[0]| + |b[1]| + |b[2]| + |b[3]| + |b[4]|
  {
    FlattenLength(b);
    SumLengths5(b);
  }

  lemma SumLengths5<T>(b: seq<seq<T>>)
    requires |b| == 5
    ensures SumLengths(b) == |b[0]| + |b[1]| + |b[2]| + |b[3]| + |b[4]|
  {
    var b1 := b[1..];
    var b2 := b1[1..];
    var b3 := b2[1..];
    var b4 := b3[1..];
    assert b4[1..] == [];
    assert SumLengths(b4) == |b[4]|;
    assert SumLengths(b3) == |b[3]| + |b[4]|;
    assert SumLengths(b2) == |b[2]| + |b[3]| + |b[4]|;
    assert SumLengths(b1) == |b[1]| + |b[2]| + |b[3]| + |b[4]|;
  }

  /** One more bucket's rows after those of the buckets before it. */
  lemma FlattenTwiceStep<T>(sss: seq<seq<seq<T>>>, l: nat)
    requires l < |sss|
    ensures Flatten(Flatten(sss[..l + 1])) == Flatten(Flatten(sss[..l])) + Flatten(sss[l])
  {
    assert sss[..l + 1] == sss[..l] + [sss[l]];
    FlattenAppend(sss[..l], sss[l]);
    FlattenConcat(Flatten(sss[..l]), sss[l]);
  }

  /** Lines 52-74 with the nested loops of lines 54-65. */
  method WriteEcp(z: nat, terms: seq<EcpTerm>, electrons: Option<int>) returns (r: Result<string>)
    ensures r == EcpBlock(z, terms, electrons)
  {
    if electrons.None? {
      return Err(KeyError);
    }
    var zeff := z - electrons.value;
    var maxAm := MaxEcpAm(terms);
    if maxAm.Err? {
      return Err(maxAm.error);
    }
    if maxAm.value > 4 {
      return Err(RuntimeError);
    }
    var buckets := WriteBuckets(terms);
    if buckets.Err? {
      return Err(buckets.error);
    }
    var entries := "";
    var l := 0;
    while l < |buckets.value|
      invariant 0 <= l <= |buckets.value|
      invariant entries == Flatten(Flatten(buckets.value[..l]))
    {
      FlattenTwiceStep(buckets.value, l);
      entries := entries + Flatten(buckets.value[l]);
      l := l + 1;
    }
    assert buckets.value[..l] == buckets.value;
    return Ok("INPUT\n" + EcpHeader(zeff, buckets.value) + entries);
  }

  // ---------------------------------------------------------------------------
  // Shells (lines 77-112)

  /** The descriptor fields `ityb lat ng che scal` = `0 lat ng 0 1.0` (line 108). */
  function DescriptorFields(lat: nat, ng: nat): seq<string> {
    ["0", NatToString(lat), NatToString(ng), "0", "1.0"]
  }

  /** Entry `i` (from 0) is the decimal-point column of matrix column `i + 1`:
      `8 * (i + 1) + 15 * i` (line 111). */
  function PointPlaces(ncol: nat): (pp: seq<nat>)
    ensures |pp| == ncol
  {
    seq(ncol, i => 8 * (i + 1) + 15 * i)
  }

  /** Column `k` (from 1) is at `23 * k - 15`: the first at 8, each next one 23 further. */
  lemma PointPlacesStep(ncol: nat)
    ensures forall k :: 1 <= k <= ncol ==> PointPlaces(ncol)[k - 1] == 23 * k - 15
    ensures ncol > 0 ==> PointPlaces(ncol)[0] == 8
    ensures forall i :: 0 <= i < ncol - 1 ==> PointPlaces(ncol)[i + 1] == PointPlaces(ncol)[i] + 23
    ensures forall i, j :: 0 <= i < j < ncol ==> PointPlaces(ncol)[i] < PointPlaces(ncol)[j]
  {
  }

  /** One shell: its descriptor, and the exponents and coefficient vectors as matrix
      columns at the point places for `len(coefficients) + 1` columns. */
  function ShellText(sh: Shell, writeMatrix: MatrixWriter): (r: Result<string>)
    ensures r.Ok? <==> EncodeAm(sh.angularMomentum).Ok?
    ensures r.Ok? ==>
      var d := Join(" ", DescriptorFields(EncodeAm(sh.angularMomentum).value, |sh.exponents|)) + "\n";
      && |d| <= |r.value| && r.value[..|d|] == d
      && r.value[|d|..] == writeMatrix([sh.exponents] + sh.coefficients, PointPlaces(|sh.coefficients| + 1))
  {
    var lat :- EncodeAm(sh.angularMomentum);
    var ng := |sh.exponents|;
    var ncol := |sh.coefficients| + 1;
    Ok(Join(" ", DescriptorFields(lat, ng)) + "\n"
       + writeMatrix([sh.exponents] + sh.coefficients, PointPlaces(ncol)))
  }

  /** The shells of one element in order. */
  function ShellsText(shells: seq<Shell>, writeMatrix: MatrixWriter): Result<string>
    decreases |shells|
  {
    if |shells| == 0 then Ok("")
    else
      var t :- ShellText(shells[0], writeMatrix);
      var rest :- ShellsText(shells[1..], writeMatrix);
      Ok(t + rest)
  }

  /** The shell loop of lines 78-112. */
  method WriteShells(shells: seq<Shell>, writeMatrix: MatrixWriter) returns (r: Result<string>)
    ensures r == ShellsText(shells, writeMatrix)
  {
    var s := "";
    var j := 0;
    assert shells[0..] == shells;
    PrependNothing(ShellsText(shells, writeMatrix));
    while j < |shells|
      invariant 0 <= j <= |shells|
      invariant ShellsText(shells, writeMatrix) == Prepend(s, ShellsText(shells[j..], writeMatrix))
    {
      assert shells[j..][0] == shells[j] && shells[j..][1..] == shells[j + 1..];
      var t := ShellText(shells[j], writeMatrix);
      if t.Err? {
        return Err(t.error);
      }
      PrependTwice(s, t.value, ShellsText(shells[j + 1..], writeMatrix));
      s := s + t.value;
      j := j + 1;
    }
    assert shells[j..] == [];
    assert s + "" == s;
    return Ok(s);
  }

  // ---------------------------------------------------------------------------
  // Elements and the whole text (lines 8-117)

  /** The header line `nat nshells` (line 39). */
  function ElementHeader(z: nat, data: Element): string
    requires data.electronShells.Some?
  {
    NatToString(NatMarker(z, data.ecpPotentials.Some?)) + " " + NatToString(|data.electronShells.value|) + "\n"
  }

  /** One element (lines 26-112). Z of 99 or more is skipped; any other element needs
      `electron_shells` (KeyError), even one that has only an ECP. */
  function ElementText(z: nat, data: Element, writeMatrix: MatrixWriter): (r: Result<string>)
    ensures z >= 99 ==> r == Ok("")
    ensures z < 99 && data.electronShells.None? ==> r == Err(KeyError)
    ensures z < 99 && data.electronShells.Some? ==>
      (r.Ok? <==> (data.ecpPotentials.Some? ==> EcpBlock(z, data.ecpPotentials.value, data.ecpElectrons).Ok?)
                  && ShellsText(data.electronShells.value, writeMatrix).Ok?)
    ensures z < 99 && data.electronShells.Some? && data.ecpPotentials.Some?
            && EcpBlock(z, data.ecpPotentials.value, data.ecpElectrons).Err? ==>
      r == Err(EcpBlock(z, data.ecpPotentials.value, data.ecpElectrons).error)
    ensures z < 99 && r.Ok? ==>
      && data.electronShells.Some?
      && exists e: string, sh: string ::
        && ShellsText(data.electronShells.value, writeMatrix) == Ok(sh)
        && (data.ecpPotentials.None? ==> e == "")
        && (data.ecpPotentials.Some? ==> EcpBlock(z, data.ecpPotentials.value, data.ecpElectrons) == Ok(e))
        && r.value == ElementHeader(z, data) + e + sh
  {
    if z >= 99 then Ok("")
    else if data.electronShells.None? then Err(KeyError)
    else
      var ecp :- if data.ecpPotentials.Some? then EcpBlock(z, data.ecpPotentials.value, data.ecpElectrons) else Ok("");
      var shells :- ShellsText(data.electronShells.value, writeMatrix);
      Ok(ElementHeader(z, data) + ecp + shells)
  }

  /** The header line is read back by `split()` as two numbers: the first gives the
      atomic number and whether an ECP block follows, the second the number of shells
      written after it. */
  lemma ElementHeaderReadBack(z: nat, data: Element)
    requires z < 99 && data.electronShells.Some?
    ensures var f := [NatToString(NatMarker(z, data.ecpPotentials.Some?)), NatToString(|data.electronShells.value|)];
      && ElementHeader(z, data) == Join(" ", f) + "\n"
      && Words(Join(" ", f)) == f
      && (DigitsValue(f[0]) >= 200 <==> data.ecpPotentials.Some?)
      && DigitsValue(f[0]) - (if DigitsValue(f[0]) >= 200 then 200 else 0) == z
      && DigitsValue(f[1]) == |data.electronShells.value|
  {
    var f := [NatToString(NatMarker(z, data.ecpPotentials.Some?)), NatToString(|data.electronShells.value|)];
    NatMarkerDecodes(z, data.ecpPotentials.Some?);
    DigitsAreToken(f[0]);
    DigitsAreToken(f[1]);
    assert forall i :: 0 <= i < |f| ==> IsToken(f[i]);
    WordsOfJoin(f);
    var tail := f[1..];
    assert tail[0] == f[1] && tail[1..] == [];
    assert Prefixed(" ", tail) == " " + f[1] + "";
    assert Join(" ", f) == f[0] + Prefixed(" ", tail);
  }

  /** One element in place. */
  method WriteElement(z: nat, data: Element, writeMatrix: MatrixWriter) returns (r: Result<string>)
    ensures r == ElementText(z, data, writeMatrix)
  {
    if z >= 99 {
      return Ok("");
    }
    if data.electronShells.None? {
      return Err(KeyError);
    }
    var s := ElementHeader(z, data);
    assert s + "" == s;
    if data.ecpPotentials.Some? {
      var ecp := WriteEcp(z, data.ecpPotentials.value, data.ecpElectrons);
      if ecp.Err? {
        return Err(ecp.error);
      }
      s := s + ecp.value;
    }
    var shells := WriteShells(data.electronShells.value, writeMatrix);
    if shells.Err? {
      return Err(shells.error);
    }
    return Ok(s + shells.value);
  }

  /** The elements in dictionary order. */
  function ElementsText(elements: seq<(nat, Element)>, writeMatrix: MatrixWriter): Result<string>
    decreases |elements|
  {
    if |elements| == 0 then Ok("")
    else
      var t :- ElementText(elements[0].0, elements[0].1, writeMatrix);
      var rest :- ElementsText(elements[1..], writeMatrix);
      Ok(t + rest)
  }

  /** `write_crystal`: every element, then the terminator `99 0`. */
  function CrystalText(elements: seq<(nat, Element)>, writeMatrix: MatrixWriter): Result<string> {
    var body :- ElementsText(elements, writeMatrix);
    Ok(body + "99 0\n")
  }

  /** `write_crystal`, accumulating `s` element by element. */
  method WriteCrystal(elements: seq<(nat, Element)>, writeMatrix: MatrixWriter) returns (r: Result<string>)
    ensures r == CrystalText(elements, writeMatrix)
  {
    var s := "";
    var i := 0;
    assert elements[0..] == elements;
    PrependNothing(ElementsText(elements, writeMatrix));
    while i < |elements|
      invariant 0 <= i <= |elements|
      invariant ElementsText(elements, writeMatrix) == Prepend(s, ElementsText(elements[i..], writeMatrix))
    {
      assert elements[i..][0] == elements[i] && elements[i..][1..] == elements[i + 1..];
      var t := WriteElement(elements[i].0, elements[i].1, writeMatrix);
      if t.Err? {
        return Err(t.error);
      }
      PrependTwice(s, t.value, ElementsText(elements[i + 1..], writeMatrix));
      s := s + t.value;
      i := i + 1;
    }
    assert elements[i..] == [];
    assert s + "" == s;
    return Ok(s + "99 0\n");
  }

  // ---------------------------------------------------------------------------
  // Properties

  /** Whatever the elements, a successful write ends with the terminator `99 0`. */
  lemma CrystalTextEnds(elements: seq<(nat, Element)>, writeMatrix: MatrixWriter)
    requires CrystalText(elements, writeMatrix).Ok?
    ensures var s := CrystalText(elements, writeMatrix).value;
      |s| >= 5 && s[|s| - 5..] == "99 0\n"
  {
  }

  /** Elements of Z 99 and above contribute nothing: the text is that of the others. */
  lemma {:induction false} HeavyElementsSkipped(pre: seq<(nat, Element)>, z: nat, data: Element, post: seq<(nat, Element)>, writeMatrix: MatrixWriter)
    requires z >= 99
    ensures ElementsText(pre + [(z, data)] + post, writeMatrix) == ElementsText(pre + post, writeMatrix)
    decreases |pre|
  {
    if |pre| == 0 {
      assert pre + [(z, data)] + post == [(z, data)] + post;
      assert ([(z, data)] + post)[1..] == post;
      assert pre + post == post;
      var r := ElementsText(post, writeMatrix);
      if r.Ok? {
        assert "" + r.value == r.value;
      }
    } else {
      assert (pre + [(z, data)] + post)[0] == pre[0];
      assert (pre + [(z, data)] + post)[1..] == pre[1..] + [(z, data)] + post;
      assert (pre + post)[1..] == pre[1..] + post;
      HeavyElementsSkipped(pre[1..], z, data, post, writeMatrix);
    }
  }

  /** The descriptor the writer emits for a shell is read back by the CRYSTAL reader's
      intended grammar as `ityb = 0`, the same angular momentum and `ng` primitives with
      the scale factor text `1.0`, but it is rejected by the grammar as written, whose
      `ityb` field admits no 0. */
  lemma DescriptorReadBack(am: seq<nat>, ng: nat)
    requires EncodeAm(am).Ok?
    ensures var f := DescriptorFields(EncodeAm(am).value, ng);
      && CrystalReader.IsShellLineIntended(f)
      && !CrystalReader.IsShellLine(f)
      && DigitsValue(f[0]) == 0
      && CrystalReader.DecodeAm(DigitsValue(f[1])) == am
      && DigitsValue(f[2]) == ng
      && f[4] == "1.0"
      && Words(Join(" ", f)) == f
  {
    var lat := EncodeAm(am).value;
    var f := DescriptorFields(lat, ng);
    FixedFields();
    DigitsAreToken(f[1]);
    DigitsAreToken(f[2]);
    assert forall i :: 0 <= i < |f| ==> IsToken(f[i]);
    WordsOfJoin(f);
  }

  /** The constant descriptor fields: `0` and `1.0` are numbers, and tokens. */
  lemma FixedFields()
    ensures IsDigits("0") && DigitsValue("0") == 0 && !CrystalReader.IsNonzeroDigits("0")
    ensures IsFloatToken("0") && IsFloatToken("1.0")
    ensures IsToken("0") && IsToken("1.0")
  {
    assert Unsigned("0") == "0";
    assert IndexOfExponent("0") == 1;
    assert IndexOfDot("0") == 1;
    assert Unsigned("1.0") == "1.0";
    assert IndexOfExponent("1.0") == 3;
    assert IndexOfDot("1.0") == 1;
    assert "1.0"[..1] == "1" && "1.0"[2..] == "0";
  }

  /** A run of digits is a token `split()` gives back whole. */
  lemma DigitsAreToken(s: string)
    requires IsDigits(s)
    ensures IsToken(s)
  {
  }
}

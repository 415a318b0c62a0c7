/** The Molpro system-library writer (`writers/libmol.py`). The text starts with the
    harmonic type; when some element has electron shells a `basis={` line follows,
    then per shell a header `SYM am name : nprim ncontr f.l ...`, a comment line and
    the exponents and the nonzero slice of every contraction, five values a row.

    The writer receives the basis after `manip.make_general` and `sort.sort_basis`,
    which are not part of this model; `common.find_range` and
    `misc.contraction_string` are the fields of `LibmolHelpers`. */
module LibmolWriter {
  import opened Basis
  import LibmolReader

  /** The collaborators: `find_range(c)` gives the first and last index of the part
      of `c` to write, `contraction_string` the element's contraction summary. */
  datatype LibmolHelpers = LibmolHelpers(
    findRange: seq<string> -> (int, int),
    contractionString: seq<Shell> -> string)

  // ---------------------------------------------------------------------------
  // Case conversion (`str.upper`, `str.lower`) on ASCII letters

  function UpperChar(c: char): char {
    if 'a' <= c <= 'z' then (c as int - 32) as char else c
  }

  function LowerChar(c: char): char {
    if 'A' <= c <= 'Z' then (c as int + 32) as char else c
  }

  function Upper(s: string): (r: string)
    ensures |r| == |s|
  {
    seq(|s|, i requires 0 <= i < |s| => UpperChar(s[i]))
  }

  function Lower(s: string): (r: string)
    ensures |r| == |s|
  {
    seq(|s|, i requires 0 <= i < |s| => LowerChar(s[i]))
  }

  // ---------------------------------------------------------------------------
  // The harmonic line (lines 19-22)

  /** `'cartesian'` exactly when some function type is `'gto_cartesian'`. */
  function HarmonicType(types: seq<string>): (t: string)
    ensures t == "cartesian" || t == "spherical"
    ensures t == "cartesian" <==> "gto_cartesian" in types
  {
    if "gto_cartesian" in types then "cartesian" else "spherical"
  }

  // ---------------------------------------------------------------------------
  // One shell (lines 39-63)

  /** `' {}.{}'.format(first + 1, last + 1)` without its leading blank. */
  function RangeToken(fr: (int, int)): string {
    IntToString(fr.0 + 1) + "." + IntToString(fr.1 + 1)
  }

  /** `c[first:last + 1]`: the part of vector `c` the writer emits. */
  function VectorSlice(c: seq<string>, h: LibmolHelpers): seq<string> {
    PySlice(c, h.findRange(c).0, h.findRange(c).1 + 1)
  }

  /** The range token of every coefficient vector, in vector order. */
  function RangeTokens(cs: seq<seq<string>>, h: LibmolHelpers): (ts: seq<string>)
    ensures |ts| == |cs|
  {
    if |cs| == 0 then [] else RangeTokens(cs[..|cs| - 1], h) + [RangeToken(h.findRange(cs[|cs| - 1]))]
  }

  /** The emitted slice of every coefficient vector, in vector order. */
  function Slices(cs: seq<seq<string>>, h: LibmolHelpers): (ss: seq<seq<string>>)
    ensures |ss| == |cs|
  {
    if |cs| == 0 then [] else Slices(cs[..|cs| - 1], h) + [VectorSlice(cs[|cs| - 1], h)]
  }

  /** Token `k` is the range token of vector `k`. */
  lemma {:induction false} RangeTokenAt(cs: seq<seq<string>>, h: LibmolHelpers, k: nat)
    requires k < |cs|
    ensures RangeTokens(cs, h)[k] == RangeToken(h.findRange(cs[k]))
    decreases |cs|
  {
    if k < |cs| - 1 {
      RangeTokenAt(cs[..|cs| - 1], h, k);
    }
  }

  /** Slice `k` is the emitted slice of vector `k`. */
  lemma {:induction false} SliceAt(cs: seq<seq<string>>, h: LibmolHelpers, k: nat)
    requires k < |cs|
    ensures Slices(cs, h)[k] == VectorSlice(cs[k], h)
    decreases |cs|
  {
    if k < |cs| - 1 {
      SliceAt(cs[..|cs| - 1], h, k);
    }
  }

  /** `print_data`: the exponents, then the written slice of every vector. */
  function PrintData(sh: Shell, h: LibmolHelpers): seq<string> {
    sh.exponents + Flatten(Slices(sh.coefficients, h))
  }

  /** Line 56: `'{} {} {} : {} {}{}'` of the symbol, the letter, the basis name, the
      two counts and the ranges text. */
  function HeaderLine(sym: string, amChar: string, name: string, nprim: nat, ncontr: nat, ranges: string): string {
    sym + " " + amChar + " " + name + " : " + NatToString(nprim) + " " + NatToString(ncontr) + ranges
  }

  /** Line 58. */
  function CommentLine(elementName: string, contraction: string): string {
    elementName + " " + contraction + " converted by Basis Set Exchange"
  }

  /** Lines 61-63: rows of five values, each space-joined. */
  function DataLines(pd: seq<string>): (ls: seq<string>)
    ensures |ls| == |Reshape(pd, 5)|
  {
    var rows := Reshape(pd, 5);
    seq(|rows|, k requires 0 <= k < |rows| => Join(" ", rows[k]))
  }

  /** The lines written for one shell. */
  function ShellLines(sym: string, elementName: string, name: string, shells: seq<Shell>, sh: Shell, lut: Lookup, h: LibmolHelpers): seq<string>
  {
    var amChar := Lower(lut.amToChar(sh.angularMomentum));
    var ranges := Prefixed(" ", RangeTokens(sh.coefficients, h));
    [HeaderLine(sym, amChar, name, |sh.exponents|, |sh.coefficients|, ranges),
     CommentLine(elementName, h.contractionString(shells))]
      + DataLines(PrintData(sh, h))
  }

  /** Lines, each ended by a newline, concatenated. */
  function TextOf(ls: seq<string>): string {
    if |ls| == 0 then "" else TextOf(ls[..|ls| - 1]) + ls[|ls| - 1] + "\n"
  }

  /** The text of one shell of element `z`; a failed name lookup is a LookupError. */
  function ShellText(z: nat, sym: string, name: string, shells: seq<Shell>, sh: Shell, lut: Lookup, h: LibmolHelpers): (r: Result<string>)
    ensures r.Err? <==> lut.nameFromZ(z).None?
    ensures r.Err? ==> r.error == LookupError
  {
    if lut.nameFromZ(z).None? then Err(LookupError)
    else Ok(TextOf(ShellLines(sym, lut.nameFromZ(z).value, name, shells, sh, lut, h)))
  }

  /** The text of the shells `shells[i..]` of element `z`. */
  function ShellsText(z: nat, sym: string, name: string, shells: seq<Shell>, i: nat, lut: Lookup, h: LibmolHelpers): Result<string>
    requires i <= |shells|
    decreases |shells| - i
  {
    if i == |shells| then Ok("")
    else
      var t :- ShellText(z, sym, name, shells, shells[i], lut, h);
      Prepend(t, ShellsText(z, sym, name, shells, i + 1, lut, h))
  }

  // ---------------------------------------------------------------------------
  // The whole text (lines 11-68)

  /** `electron_elements`: the keys, with their shells, of the elements that have an
      `electron_shells` entry, in dictionary order. */
  function ElectronElements(elements: seq<(nat, Element)>): (ee: seq<(nat, seq<Shell>)>)
    ensures |ee| <= |elements|
    ensures ee == [] <==> forall k :: 0 <= k < |elements| ==> elements[k].1.electronShells.None?
    ensures forall k :: 0 <= k < |ee| ==> exists j :: 0 <= j < |elements| && elements[j].0 == ee[k].0 && elements[j].1.electronShells == Some(ee[k].1)
  {
    if |elements| == 0 then []
    else
      var rest := ElectronElements(elements[1..]);
      assert forall j :: 1 <= j < |elements| ==> elements[1..][j - 1] == elements[j];
      match elements[0].1.electronShells
      case None => rest
      case Some(shs) => [(elements[0].0, shs)] + rest
  }

  /** Every element that has an `electron_shells` entry is selected, with its shells. */
  lemma {:induction false} ElectronElementsComplete(elements: seq<(nat, Element)>, j: nat)
    requires j < |elements| && elements[j].1.electronShells.Some?
    ensures (elements[j].0, elements[j].1.electronShells.value) in ElectronElements(elements)
    decreases j
  {
    if j > 0 {
      assert elements[1..][j - 1] == elements[j];
      ElectronElementsComplete(elements[1..], j - 1);
    }
  }

  /** The selection keeps dictionary order: it maps over concatenation, and one element
      is kept, with its shells, exactly when it has an `electron_shells` entry
      (`ElectronElementsSingle`). */
  lemma {:induction false} ElectronElementsConcat(a: seq<(nat, Element)>, b: seq<(nat, Element)>)
    ensures ElectronElements(a + b) == ElectronElements(a) + ElectronElements(b)
    decreases |a|
  {
    if |a| == 0 {
      assert a + b == b;
    } else {
      assert (a + b)[0] == a[0] && (a + b)[1..] == a[1..] + b;
      ElectronElementsConcat(a[1..], b);
    }
  }

  lemma ElectronElementsSingle(e: (nat, Element))
    ensures ElectronElements([e]) == (if e.1.electronShells.Some? then [(e.0, e.1.electronShells.value)] else [])
  {
    assert [e][1..] == [];
  }

  /** The text of the electron elements `ee[i..]`; a symbol lookup that fails is a
      LookupError. */
  function ElementsText(ee: seq<(nat, seq<Shell>)>, i: nat, name: string, lut: Lookup, h: LibmolHelpers): Result<string>
    requires i <= |ee|
    decreases |ee| - i
  {
    if i == |ee| then Ok("")
    else
      var z := ee[i].0;
      var sym :- if lut.symFromZ(z).None? then Err(LookupError) else Ok(Upper(lut.symFromZ(z).value));
      var t :- ShellsText(z, sym, name, ee[i].1, 0, lut, h);
      Prepend(t, ElementsText(ee, i + 1, name, lut, h))
  }

  /** `write_libmol`: the harmonic line, then a `basis={` line and the electron
      elements' text when there are any. ECPs are never written: when there are
      some, the code returns right after the electron block. */
  function LibmolText(types: seq<string>, name: string, elements: seq<(nat, Element)>, lut: Lookup, h: LibmolHelpers): (r: Result<string>)
    ensures r.Ok? ==> var head := HarmonicType(types) + "\n";
      && |r.value| >= |head| && r.value[..|head|] == head
      && (ElectronElements(elements) == [] ==> r.value == head)
      && (ElectronElements(elements) != [] ==> |r.value| >= |head| + 8 && r.value[|head|..|head| + 8] == "basis={\n")
    ensures ElectronElements(elements) == [] ==> r.Ok?
  {
    var head := HarmonicType(types) + "\n";
    var ee := ElectronElements(elements);
    if ee == [] then Ok(head)
    else
      var r := Prepend(head + "basis={\n", ElementsText(ee, 0, name, lut, h));
      assert r.Ok? ==> r.value[..|head|] == head && r.value[|head|..|head| + 8] == "basis={\n";
      r
  }

  // ---------------------------------------------------------------------------
  // The methods, accumulating `ranges`, `print_data` and `s` as the code does

  /** Lines 48-53: the ranges text and `print_data`. */
  method CollectRanges(sh: Shell, h: LibmolHelpers) returns (ranges: string, printData: seq<string>)
    ensures ranges == Prefixed(" ", RangeTokens(sh.coefficients, h))
    ensures printData == PrintData(sh, h)
  {
    var cs := sh.coefficients;
    ranges := "";
    printData := sh.exponents;
    var i := 0;
    while i < |cs|
      invariant 0 <= i <= |cs|
      invariant ranges == Prefixed(" ", RangeTokens(cs[..i], h))
      invariant printData == sh.exponents + Flatten(Slices(cs[..i], h))
    {
      var fr := h.findRange(cs[i]);
      var token := RangeToken(fr);
      var slice := PySlice(cs[i], fr.0, fr.1 + 1);
      CollectStep(cs, h, i, sh.exponents);
      ranges := ranges + " " + token;
      printData := printData + slice;
      i := i + 1;
    }
    assert cs[..i] == cs;
  }

  /** One more vector adds its range token to the ranges text and its slice to the values. */
  lemma {:induction false} CollectStep(cs: seq<seq<string>>, h: LibmolHelpers, i: nat, exps: seq<string>)
    requires i < |cs|
    ensures Prefixed(" ", RangeTokens(cs[..i + 1], h)) == Prefixed(" ", RangeTokens(cs[..i], h)) + " " + RangeToken(h.findRange(cs[i]))
    ensures exps + Flatten(Slices(cs[..i + 1], h)) == exps + Flatten(Slices(cs[..i], h)) + VectorSlice(cs[i], h)
  {
    assert cs[..i + 1][..i] == cs[..i];
    PrefixedSnoc(" ", RangeTokens(cs[..i], h), RangeToken(h.findRange(cs[i])));
    FlattenAppendAfter(exps, Slices(cs[..i], h), VectorSlice(cs[i], h));
  }

  /** Lines 60-63: `print_data` five values a row, each row on its own line. */
  method WriteRows(printData: seq<string>) returns (t: string)
    ensures t == TextOf(DataLines(printData))
  {
    var rows := Reshape(printData, 5);
    ghost var lines := DataLines(printData);
    t := "";
    var i := 0;
    while i < |rows|
      invariant 0 <= i <= |rows|
      invariant t == TextOf(lines[..i])
    {
      assert lines[..i + 1][..i] == lines[..i];
      t := t + Join(" ", rows[i]) + "\n";
      i := i + 1;
    }
    assert lines[..i] == lines;
  }

  /** One pass of the loop over shells (lines 39-63). */
  method WriteShell(z: nat, sym: string, name: string, shells: seq<Shell>, sh: Shell, lut: Lookup, h: LibmolHelpers) returns (r: Result<string>)
    ensures r == ShellText(z, sym, name, shells, sh, lut, h)
  {
    var amChar := Lower(lut.amToChar(sh.angularMomentum));
    var ranges, printData := CollectRanges(sh, h);
    var header := HeaderLine(sym, amChar, name, |sh.exponents|, |sh.coefficients|, ranges);
    var elementName := lut.nameFromZ(z);
    if elementName.None? {
      return Err(LookupError);
    }
    var comment := CommentLine(elementName.value, h.contractionString(shells));
    var rows := WriteRows(printData);
    ShellTextSplit(header, comment, DataLines(printData));
    assert ShellLines(sym, elementName.value, name, shells, sh, lut, h) == [header, comment] + DataLines(printData);
    r := Ok(header + "\n" + comment + "\n" + rows);
  }

  /** The loop over the shells of one element (lines 38-63). */
  method WriteShells(z: nat, sym: string, name: string, shells: seq<Shell>, lut: Lookup, h: LibmolHelpers) returns (r: Result<string>)
    ensures r == ShellsText(z, sym, name, shells, 0, lut, h)
  {
    var s := "";
    var i := 0;
    PrependNothing(ShellsText(z, sym, name, shells, 0, lut, h));
    while i < |shells|
      invariant 0 <= i <= |shells|
      invariant ShellsText(z, sym, name, shells, 0, lut, h) == Prepend(s, ShellsText(z, sym, name, shells, i, lut, h))
    {
      var t := WriteShell(z, sym, name, shells, shells[i], lut, h);
      if t.Err? {
        return Err(t.error);
      }
      PrependTwice(s, t.value, ShellsText(z, sym, name, shells, i + 1, lut, h));
      s := s + t.value;
      i := i + 1;
    }
    assert s + "" == s;
    r := Ok(s);
  }

  /** Two element lists that agree on every key and every electron-shell list have the
      same electron elements, whatever their ECP fields hold. */
  lemma {:induction false} ElectronElementsIgnoreEcp(a: seq<(nat, Element)>, b: seq<(nat, Element)>)
    requires |a| == |b|
    requires forall k :: 0 <= k < |a| ==> a[k].0 == b[k].0 && a[k].1.electronShells == b[k].1.electronShells
    ensures ElectronElements(a) == ElectronElements(b)
    decreases |a|
  {
    if |a| > 0 {
      ElectronElementsIgnoreEcp(a[1..], b[1..]);
    }
  }

  /** No ECP text is written (lines 66-68): the output depends on each element's key
      and electron shells only, so changing the ECP fields of any element changes
      nothing. */
  lemma EcpNotWritten(types: seq<string>, name: string, a: seq<(nat, Element)>, b: seq<(nat, Element)>,
                      lut: Lookup, h: LibmolHelpers)
    requires |a| == |b|
    requires forall k :: 0 <= k < |a| ==> a[k].0 == b[k].0 && a[k].1.electronShells == b[k].1.electronShells
    ensures LibmolText(types, name, a, lut, h) == LibmolText(types, name, b, lut, h)
  {
    ElectronElementsIgnoreEcp(a, b);
  }

  /** `write_libmol` (lines 11-68). */
  method WriteLibmol(types: seq<string>, name: string, elements: seq<(nat, Element)>, lut: Lookup, h: LibmolHelpers) returns (r: Result<string>)
    ensures r == LibmolText(types, name, elements, lut, h)
  {
    var s := HarmonicType(types) + "\n";
    var ee := ElectronElements(elements);
    if ee != [] {
      s := s + "basis={\n";
      var i := 0;
      PrependNothing(ElementsText(ee, 0, name, lut, h));
      PrependTwice(HarmonicType(types) + "\n", "basis={\n", ElementsText(ee, 0, name, lut, h));
      while i < |ee|
        invariant 0 <= i <= |ee|
        invariant LibmolText(types, name, elements, lut, h) == Prepend(s, ElementsText(ee, i, name, lut, h))
      {
        var z := ee[i].0;
        var sym := lut.symFromZ(z);
        if sym.None? {
          return Err(LookupError);
        }
        var t := WriteShells(z, Upper(sym.value), name, ee[i].1, lut, h);
        if t.Err? {
          return Err(t.error);
        }
        PrependTwice(s, t.value, ElementsText(ee, i + 1, name, lut, h));
        s := s + t.value;
        i := i + 1;
      }
      assert s + "" == s;
    }
    r := Ok(s);
  }

  // ---------------------------------------------------------------------------
  // Text lemmas

  lemma PrefixedSnoc(sep: string, ts: seq<string>, t: string)
    ensures Prefixed(sep, ts + [t]) == Prefixed(sep, ts) + sep + t
  {
    PrefixedConcat(sep, ts, [t]);
    assert Prefixed(sep, [t]) == sep + t + "";
  }

  /** The text of a header, a comment and data lines. */
  lemma ShellTextSplit(header: string, comment: string, lines: seq<string>)
    ensures TextOf([header, comment] + lines) == header + "\n" + comment + "\n" + TextOf(lines)
  {
    TextOfConcat([header, comment], lines);
    assert [header, comment][..1] == [header];
    assert [header][..0] == [];
    assert TextOf([header]) == "" + header + "\n";
    assert TextOf([header, comment]) == TextOf([header]) + comment + "\n";
  }

  lemma {:induction false} TextOfConcat(a: seq<string>, b: seq<string>)
    ensures TextOf(a + b) == TextOf(a) + TextOf(b)
    decreases |b|
  {
    if |b| == 0 {
      assert a + b == a;
    } else {
      var b0 := b[..|b| - 1];
      assert (a + b)[..|a + b| - 1] == a + b0;
      TextOfConcat(a, b0);
    }
  }

  lemma {:induction false} PrefixedConcat(sep: string, a: seq<string>, b: seq<string>)
    ensures Prefixed(sep, a + b) == Prefixed(sep, a) + Prefixed(sep, b)
    decreases |a|
  {
    if |a| == 0 {
      assert a + b == b;
    } else {
      assert (a + b)[1..] == a[1..] + b;
      PrefixedConcat(sep, a[1..], b);
    }
  }
}

/** The libmol writer and reader against each other. One written shell, split into
    lines and each line into whitespace tokens, is read back by one pass of the
    reader's loop as the same shell: the same exponents and the same coefficient
    vectors, re-padded with `'0.0'` from the slices the writer emitted.

    A whole written file is not read back: its first line is the harmonic type,
    which the reader rejects as a first line that is no shell header. */
module LibmolRoundTrip {
  import opened Basis
  import R = LibmolReader
  import W = LibmolWriter

  // ---------------------------------------------------------------------------
  // Tokens

  /** A value the writer may emit so that the reader takes it back unchanged. */
  predicate Writable(v: string) { IsFloatToken(v) && '.' in v }

  predicate AllWritable(vs: seq<string>) { forall j :: 0 <= j < |vs| ==> Writable(vs[j]) }

  predicate IsNumberChar(c: char) {
    IsDigit(c) || c == '+' || c == '-' || c == '.' || c == 'E' || c == 'e' || c == 'D' || c == 'd'
  }

  lemma {:induction false} MantissaChars(m: string)
    requires IsMantissa(m)
    ensures forall j :: 0 <= j < |m| ==> IsNumberChar(m[j])
  {
    var d := IndexOfDot(m);
    forall j | 0 <= j < |m|
      ensures IsNumberChar(m[j])
    {
      if j < d {
        assert m[..d][j] == m[j];
      } else if j > d {
        assert m[d + 1..][j - d - 1] == m[j];
      }
    }
  }

  lemma {:induction false} SignedDigitsChars(x: string)
    requires IsDigits(Unsigned(x))
    ensures forall j :: 0 <= j < |x| ==> IsNumberChar(x[j])
  {
    if |x| > 0 && (x[0] == '+' || x[0] == '-') {
      forall j | 1 <= j < |x|
        ensures IsNumberChar(x[j])
      {
        assert x[1..][j - 1] == x[j];
      }
    }
  }

  /** A number token holds no whitespace, so `split()` keeps it whole. */
  lemma {:induction false} FloatTokenIsToken(t: string)
    requires IsFloatToken(t)
    ensures IsToken(t)
  {
    var b := Unsigned(t);
    var e := IndexOfExponent(b);
    MantissaChars(b[..e]);
    if e < |b| {
      SignedDigitsChars(b[e + 1..]);
    }
    forall j | 0 <= j < |b|
      ensures IsNumberChar(b[j])
    {
      if j < e {
        assert b[..e][j] == b[j];
      } else if j > e {
        assert b[e + 1..][j - e - 1] == b[j];
      }
    }
    if |t| > 0 && (t[0] == '+' || t[0] == '-') {
      forall j | 1 <= j < |t|
        ensures IsNumberChar(t[j])
      {
        assert b[j - 1] == t[j];
      }
    }
    assert forall j :: 0 <= j < |t| ==> IsNumberChar(t[j]);
  }

  lemma {:induction false} DigitsAreToken(s: string)
    requires IsDigits(s)
    ensures IsToken(s) && s != ":"
  {
    assert s[0] != ':';
  }

  /** `s.e` of two digit runs is a token the header grammar takes as a range. */
  lemma {:induction false} DottedDigits(a: string, b: string)
    requires IsDigits(a) && IsDigits(b)
    ensures var t := a + "." + b;
      && IsToken(t) && t != ":" && IsRangeToken(t)
      && R.ParseRange(t) == Ok([DigitsValue(a), DigitsValue(b)])
  {
    var t := a + "." + b;
    R.ParseRangeOfDotted(a, b);
    assert t[..|a|] == a && t[|a| + 1..] == b;
    assert forall j :: |a| < j < |t| ==> t[j] == b[j - |a| - 1];
    assert forall j :: 0 <= j < |a| ==> t[j] == a[j];
  }

  /** The writer's range token of first index `f` and last index `l` is a token the
      header grammar takes as a range, and it reads back as `[f + 1, l + 1]`. */
  lemma {:induction false} RangeTokenReads(fr: (int, int))
    requires 0 <= fr.0 && 0 <= fr.1
    ensures var t := W.RangeToken(fr);
      && IsToken(t) && t != ":" && IsRangeToken(t)
      && R.ParseRange(t) == Ok([fr.0 + 1, fr.1 + 1])
  {
    var a := NatToString(fr.0 + 1);
    var b := NatToString(fr.1 + 1);
    assert W.RangeToken(fr) == a + "." + b;
    DottedDigits(a, b);
    assert DigitsValue(a) == fr.0 + 1 && DigitsValue(b) == fr.1 + 1;
  }

  // ---------------------------------------------------------------------------
  // The header line

  lemma {:induction false} JoinConcat(a: seq<string>, b: seq<string>)
    requires |a| > 0
    ensures Join(" ", a + b) == Join(" ", a) + Prefixed(" ", b)
  {
    assert (a + b)[1..] == a[1..] + b;
    W.PrefixedConcat(" ", a[1..], b);
  }

  /** Joining one more field adds a blank and the field. */
  lemma {:induction false} JoinSnoc(ts: seq<string>, t: string)
    requires |ts| > 0
    ensures Join(" ", ts + [t]) == Join(" ", ts) + " " + t
  {
    JoinConcat(ts, [t]);
    assert [t][1..] == [];
    assert Prefixed(" ", [t]) == " " + t + "";
    assert Join(" ", ts) + (" " + t + "") == Join(" ", ts) + " " + t;
  }

  lemma {:induction false} JoinSix(x0: string, x1: string, x2: string, x3: string, x4: string, x5: string)
    ensures Join(" ", [x0, x1, x2, x3, x4, x5]) == x0 + " " + x1 + " " + x2 + " " + x3 + " " + x4 + " " + x5
  {
    assert [x0][1..] == [];
    assert Join(" ", [x0]) == x0 + "" == x0;
    JoinSnoc([x0], x1);
    assert [x0] + [x1] == [x0, x1];
    JoinSnoc([x0, x1], x2);
    assert [x0, x1] + [x2] == [x0, x1, x2];
    JoinSnoc([x0, x1, x2], x3);
    assert [x0, x1, x2] + [x3] == [x0, x1, x2, x3];
    JoinSnoc([x0, x1, x2, x3], x4);
    assert [x0, x1, x2, x3] + [x4] == [x0, x1, x2, x3, x4];
    JoinSnoc([x0, x1, x2, x3, x4], x5);
    assert [x0, x1, x2, x3, x4] + [x5] == [x0, x1, x2, x3, x4, x5];
  }

  lemma {:induction false} FieldsJoin(sym: string, amChar: string, name: string, np: string, nc: string, tokens: seq<string>)
    ensures sym + " " + amChar + " " + name + " : " + np + " " + nc + Prefixed(" ", tokens)
      == Join(" ", [sym, amChar, name, ":", np, nc] + tokens)
  {
    JoinConcat([sym, amChar, name, ":", np, nc], tokens);
    JoinSix(sym, amChar, name, ":", np, nc);
    assert " : " == " " + ":" + " ";
  }

  /** The header the writer formats is its fields joined by single blanks. */
  lemma {:induction false} HeaderIsJoin(sym: string, amChar: string, name: string, nprim: nat, ncontr: nat, tokens: seq<string>)
    ensures W.HeaderLine(sym, amChar, name, nprim, ncontr, Prefixed(" ", tokens))
      == Join(" ", [sym, amChar, name, ":", NatToString(nprim), NatToString(ncontr)] + tokens)
  {
    FieldsJoin(sym, amChar, name, NatToString(nprim), NatToString(ncontr), tokens);
  }

  lemma {:induction false} LastColonAt(pre: Line, post: Line)
    requires forall k :: 0 <= k < |post| ==> post[k] != ":"
    ensures R.LastColon(pre + [":"] + post) == |pre|
    decreases |post|
  {
    var line := pre + [":"] + post;
    if |post| > 0 {
      assert line[..|line| - 1] == pre + [":"] + post[..|post| - 1];
      LastColonAt(pre, post[..|post| - 1]);
    } else {
      assert line == pre + [":"];
    }
  }

  /** The token line of a written header is a header, with the written fields. */
  lemma {:induction false} HeaderReads(sym: string, ch: char, name: string, np: string, nc: string, tokens: seq<string>)
    requires R.IsWordToken(sym) && R.IsAmLetter(ch) && IsDigits(np) && IsDigits(nc)
    requires |tokens| >= 1 && forall k :: 0 <= k < |tokens| ==> IsRangeToken(tokens[k]) && tokens[k] != ":"
    ensures var line := [sym, [ch], name, ":", np, nc] + tokens;
      R.IsHeader(line) && R.HeaderOf(line) == R.Header(sym, ch, DigitsValue(np), DigitsValue(nc), tokens)
  {
    var line := [sym, [ch], name, ":", np, nc] + tokens;
    DigitsAreToken(np);
    DigitsAreToken(nc);
    assert line == [sym, [ch], name] + [":"] + ([np, nc] + tokens);
    LastColonAt([sym, [ch], name], [np, nc] + tokens);
    assert line[6..] == tokens;
  }

  /** Splitting a header joined by blanks on whitespace gives its fields. */
  lemma {:induction false} HeaderWords(sym: string, ch: char, name: string, np: string, nc: string, tokens: seq<string>)
    requires R.IsWordToken(sym) && R.IsAmLetter(ch) && IsToken(name) && IsDigits(np) && IsDigits(nc)
    requires forall k :: 0 <= k < |tokens| ==> IsToken(tokens[k])
    ensures Words(Join(" ", [sym, [ch], name, ":", np, nc] + tokens)) == [sym, [ch], name, ":", np, nc] + tokens
  {
    var line := [sym, [ch], name, ":", np, nc] + tokens;
    assert forall k :: 6 <= k < |line| ==> line[k] == tokens[k - 6];
    assert [ch][0] == ch;
    assert ":"[0] == ':';
    WordsOfJoin(line);
  }

  // ---------------------------------------------------------------------------
  // Ranges, counts and offsets

  lemma {:induction false} ParseRangesTotal(ts: seq<string>)
    requires forall k :: 0 <= k < |ts| ==> R.ParseRange(ts[k]).Ok?
    ensures R.ParseRanges(ts).Ok?
    decreases |ts|
  {
    if |ts| > 0 {
      assert forall k :: 0 <= k < |ts| - 1 ==> ts[1..][k] == ts[k + 1];
      ParseRangesTotal(ts[1..]);
    }
  }

  /** The widths of the ranges add up to the number of values in the slices. */
  lemma {:induction false} RangeTotalWidths(cr: seq<seq<nat>>, ws: seq<seq<string>>, n: nat)
    requires n <= |cr| && R.TwoParts(cr) && WidthsMatch(cr, ws)
    ensures R.RangeTotal(cr[..n]) == Ok(|Flatten(ws[..n])|)
    decreases n
  {
    if n > 0 {
      assert cr[..n][..n - 1] == cr[..n - 1];
      RangeTotalWidths(cr, ws, n - 1);
      assert ws[..n] == ws[..n - 1] + [ws[n - 1]];
      FlattenAppend(ws[..n - 1], ws[n - 1]);
    } else {
      assert ws[..0] == [];
    }
  }

  lemma {:induction false} OffsetOfWidths(cr: seq<seq<nat>>, ws: seq<seq<string>>, nprim: nat, n: nat)
    requires n <= |cr| && R.TwoParts(cr) && WidthsMatch(cr, ws)
    ensures R.OffsetOf(cr, nprim, n) == nprim + |Flatten(ws[..n])|
    decreases n
  {
    if n > 0 {
      OffsetOfWidths(cr, ws, nprim, n - 1);
      assert ws[..n] == ws[..n - 1] + [ws[n - 1]];
      FlattenAppend(ws[..n - 1], ws[n - 1]);
    } else {
      assert ws[..0] == [];
    }
  }

  /** Piece `k` sits in the flattening right after the pieces before it. */
  lemma {:induction false} FlattenPiece<T>(ss: seq<seq<T>>, k: nat)
    requires k < |ss|
    ensures Flatten(ss) == Flatten(ss[..k]) + ss[k] + Flatten(ss[k + 1..])
  {
    assert ss == ss[..k] + ss[k..];
    FlattenConcat(ss[..k], ss[k..]);
    assert ss[k..][1..] == ss[k + 1..];
  }

  lemma {:induction false} AllWritableFlatten(ss: seq<seq<string>>)
    requires forall k :: 0 <= k < |ss| ==> AllWritable(ss[k])
    ensures AllWritable(Flatten(ss))
    decreases |ss|
  {
    if |ss| > 0 {
      assert forall k :: 0 <= k < |ss| - 1 ==> ss[1..][k] == ss[k + 1];
      AllWritableFlatten(ss[1..]);
    }
  }

  lemma {:induction false} PieceElement<T>(ss: seq<seq<T>>, k: nat, j: nat)
    requires k < |ss| && j < |ss[k]|
    ensures |Flatten(ss[..k])| + j < |Flatten(ss)|
    ensures ss[k][j] == Flatten(ss)[|Flatten(ss[..k])| + j]
  {
    FlattenPiece(ss, k);
  }

  lemma {:induction false} AllWritablePieces(ss: seq<seq<string>>)
    requires AllWritable(Flatten(ss))
    ensures forall k :: 0 <= k < |ss| ==> AllWritable(ss[k])
  {
    forall k, j | 0 <= k < |ss| && 0 <= j < |ss[k]|
      ensures Writable(ss[k][j])
    {
      PieceElement(ss, k, j);
    }
  }

  // ---------------------------------------------------------------------------
  // Padding

  /** A vector that is `'0.0'` outside `[f, l]`: its slice is all the writer emits. */
  predicate WellSliced(c: seq<string>, fr: (int, int), nprim: nat) {
    && |c| == nprim && 0 <= fr.0 <= fr.1 < |c|
    && forall k :: 0 <= k < |c| && (k < fr.0 || fr.1 < k) ==> c[k] == "0.0"
  }

  /** Re-padding the emitted slice gives the vector back. */
  lemma {:induction false} PadRestores(c: seq<string>, fr: (int, int))
    requires WellSliced(c, fr, |c|)
    ensures Pad(c[fr.0..fr.1 + 1], fr.0 + 1, fr.1 + 1, |c|) == c
  {
    var p := Pad(c[fr.0..fr.1 + 1], fr.0 + 1, fr.1 + 1, |c|);
    PadInRange(c[fr.0..fr.1 + 1], fr.0 + 1, fr.1 + 1, |c|);
    forall k | 0 <= k < |c|
      ensures p[k] == c[k]
    {
      if fr.0 <= k <= fr.1 {
        assert p[fr.0..fr.1 + 1][k - fr.0] == p[k];
      }
    }
  }

  /** Slice `k` of a stream of exponents and slices sits after the exponents and the
      slices before it. */
  lemma {:induction false} PieceAt<T>(exps: seq<T>, sl: seq<seq<T>>, k: nat)
    requires k < |sl|
    ensures var off := |exps| + |Flatten(sl[..k])|;
      PySlice(exps + Flatten(sl), off, off + |sl[k]|) == sl[k]
  {
    FlattenPiece(sl, k);
    var off := |exps| + |Flatten(sl[..k])|;
    var pd := exps + Flatten(sl);
    assert pd == (exps + Flatten(sl[..k])) + sl[k] + Flatten(sl[k + 1..]);
    assert pd[off..off + |sl[k]|] == sl[k];
  }

  /** The writer's slice of vector `k` is the vector from its first to its last entry. */
  lemma {:induction false} SliceOfVector(cs: seq<seq<string>>, h: W.LibmolHelpers, k: nat)
    requires k < |cs| && 0 <= h.findRange(cs[k]).0 <= h.findRange(cs[k]).1 < |cs[k]|
    ensures W.Slices(cs, h)[k] == cs[k][h.findRange(cs[k]).0..h.findRange(cs[k]).1 + 1]
  {
    W.SliceAt(cs, h, k);
  }

  /** Range `j` is as wide as slice `j`, for every `j`. */
  predicate WidthsMatch(cr: seq<seq<nat>>, sl: seq<seq<string>>)
    requires R.TwoParts(cr)
  {
    |cr| == |sl| && forall j :: 0 <= j < |cr| ==> R.Width(cr[j]) == |sl[j]|
  }

  /** Each range read back is as wide as the slice written for it. */
  lemma {:induction false} SliceWidths(exps: seq<string>, cs: seq<seq<string>>, h: W.LibmolHelpers, cr: seq<seq<nat>>)
    requires forall j :: 0 <= j < |cs| ==> WellSliced(cs[j], h.findRange(cs[j]), |exps|)
    requires |cr| == |cs| && forall j :: 0 <= j < |cs| ==> cr[j] == [h.findRange(cs[j]).0 + 1, h.findRange(cs[j]).1 + 1]
    ensures R.TwoParts(cr)
    ensures WidthsMatch(cr, W.Slices(cs, h))
  {
    var sl := W.Slices(cs, h);
    forall j | 0 <= j < |cs|
      ensures R.Width(cr[j]) == |sl[j]|
    {
      assert WellSliced(cs[j], h.findRange(cs[j]), |exps|);
      SliceOfVector(cs, h, j);
    }
  }

  /** Vector `k` of a stream whose piece at the vector's offset is the emitted slice
      of `c` is `c` again. */
  lemma {:induction false} VectorOfPiece(pd: seq<string>, cr: seq<seq<nat>>, nprim: nat, k: nat, c: seq<string>,
                                         fr: (int, int))
    requires k < |cr| && R.TwoParts(cr) && cr[k][0] == fr.0 + 1 && cr[k][1] == fr.1 + 1 && WellSliced(c, fr, nprim)
    requires var off := R.OffsetOf(cr, nprim, k);
      PySlice(pd, off, off + R.Width(cr[k])) == c[fr.0..fr.1 + 1]
    ensures R.Vector(pd, cr, nprim, k) == c
  {
    PadRestores(c, fr);
  }

  /** Vector `k` as the reader builds it from a stream of exponents and slices, whose
      ranges are as wide as the slices, is the vector `c` slice `k` was cut from. */
  lemma {:induction false} VectorRestores(pd: seq<string>, exps: seq<string>, sl: seq<seq<string>>, cr: seq<seq<nat>>,
                                          k: nat, c: seq<string>, fr: (int, int))
    requires pd == exps + Flatten(sl)
    requires k < |cr| && R.TwoParts(cr) && WidthsMatch(cr, sl)
    requires cr[k][0] == fr.0 + 1 && cr[k][1] == fr.1 + 1
    requires WellSliced(c, fr, |exps|) && sl[k] == c[fr.0..fr.1 + 1]
    ensures R.Vector(pd, cr, |exps|, k) == c
  {
    OffsetOfWidths(cr, sl, |exps|, k);
    PieceAt(exps, sl, k);
    var off := R.OffsetOf(cr, |exps|, k);
    assert off + R.Width(cr[k]) == |exps| + |Flatten(sl[..k])| + |sl[k]|;
    VectorOfPiece(pd, cr, |exps|, k, c, fr);
  }

  /** What the writer's ranges and padding say about vector `k`. */
  lemma {:induction false} RangeFactsAt(exps: seq<string>, cs: seq<seq<string>>, h: W.LibmolHelpers, cr: seq<seq<nat>>, k: nat)
    requires forall j :: 0 <= j < |cs| ==> WellSliced(cs[j], h.findRange(cs[j]), |exps|)
    requires |cr| == |cs| && forall j :: 0 <= j < |cs| ==> cr[j] == [h.findRange(cs[j]).0 + 1, h.findRange(cs[j]).1 + 1]
    requires k < |cs|
    ensures |cr[k]| == 2 && cr[k][0] == h.findRange(cs[k]).0 + 1 && cr[k][1] == h.findRange(cs[k]).1 + 1
    ensures WellSliced(cs[k], h.findRange(cs[k]), |exps|)
  {
    assert cr[k] == [h.findRange(cs[k]).0 + 1, h.findRange(cs[k]).1 + 1];
  }

  /** Vector `k` the reader cuts from the written stream is written vector `k`. */
  lemma {:induction false} VectorAt(exps: seq<string>, cs: seq<seq<string>>, h: W.LibmolHelpers, cr: seq<seq<nat>>, k: nat)
    requires k < |cs| && |cr| == |cs| && R.TwoParts(cr) && WidthsMatch(cr, W.Slices(cs, h))
    requires cr[k][0] == h.findRange(cs[k]).0 + 1 && cr[k][1] == h.findRange(cs[k]).1 + 1
    requires WellSliced(cs[k], h.findRange(cs[k]), |exps|)
    ensures R.Contractions(exps + Flatten(W.Slices(cs, h)), cr, |exps|)[k] == cs[k]
  {
    var sl := W.Slices(cs, h);
    var pd := exps + Flatten(sl);
    R.ContractionsSlices(pd, cr, |exps|, k);
    SliceOfVector(cs, h, k);
    VectorRestores(pd, exps, sl, cr, k, cs[k], h.findRange(cs[k]));
  }

  /** The reader's contractions over the written stream are the written vectors. */
  lemma {:induction false} ContractionsRestore(exps: seq<string>, cs: seq<seq<string>>, h: W.LibmolHelpers, cr: seq<seq<nat>>)
    requires forall j :: 0 <= j < |cs| ==> WellSliced(cs[j], h.findRange(cs[j]), |exps|)
    requires |cr| == |cs| && forall j :: 0 <= j < |cs| ==> cr[j] == [h.findRange(cs[j]).0 + 1, h.findRange(cs[j]).1 + 1]
    ensures R.TwoParts(cr)
    ensures R.Contractions(exps + Flatten(W.Slices(cs, h)), cr, |exps|) == cs
  {
    SliceWidths(exps, cs, h, cr);
    forall k | 0 <= k < |cs|
      ensures R.Contractions(exps + Flatten(W.Slices(cs, h)), cr, |exps|)[k] == cs[k]
    {
      RangeFactsAt(exps, cs, h, cr, k);
      VectorAt(exps, cs, h, cr, k);
    }
  }

  // ---------------------------------------------------------------------------
  // The value stream

  /** A row of writable values is a value line, and the reader keeps its values. */
  lemma {:induction false} RowReads(row: seq<string>)
    requires |row| > 0 && AllWritable(row)
    ensures R.IsEntryLine(row) && R.Normalized(row) == row
  {
    R.NormalizedFacts(row);
    assert forall j :: 0 <= j < |row| ==> IsFloatToken(row[j]) && '.' in row[j];
  }

  /** Reading value lines that hold the rows `rows`, one row a line, collects exactly
      their values and leaves the cursor on the last row. */
  lemma {:induction false} CollectRows(lines: seq<Line>, i: nat, rows: seq<seq<string>>)
    requires i + |rows| < |lines|
    requires forall k :: 0 <= k < |rows| ==> lines[i + 1 + k] == rows[k]
    requires forall k :: 0 <= k < |rows| ==> |rows[k]| > 0 && AllWritable(rows[k])
    ensures R.Collect(lines, i, |Flatten(rows)|) == Ok(R.Collected(Flatten(rows), i + |rows|))
    decreases |rows|
  {
    if |rows| > 0 {
      var row := rows[0];
      assert lines[i + 1] == row;
      RowReads(row);
      assert forall k :: 0 <= k < |rows| - 1 ==> rows[1..][k] == rows[k + 1];
      CollectRows(lines, i + 1, rows[1..]);
      var rest := R.Collect(lines, i + 1, |Flatten(rows[1..])|);
      assert R.Collect(lines, i, |Flatten(rows)|) == Ok(R.Collected(row + rest.value.values, rest.value.last));
    }
  }

  /** `CollectRows`, stated for the values `values` the rows hold. */
  lemma {:induction false} RowsCollect(lines: seq<Line>, i: nat, rows: seq<seq<string>>, values: seq<string>, last: nat)
    requires values == Flatten(rows) && last == i + |rows|
    requires i + |rows| < |lines|
    requires forall k :: 0 <= k < |rows| ==> lines[i + 1 + k] == rows[k]
    requires forall k :: 0 <= k < |rows| ==> |rows[k]| > 0 && AllWritable(rows[k])
    ensures R.Collect(lines, i, |values|) == Ok(R.Collected(values, last))
  {
    CollectRows(lines, i, rows);
  }

  /** The data lines of a writable stream split back into the rows of `reshape`. */
  lemma {:induction false} DataLinesWords(pd: seq<string>)
    requires AllWritable(pd)
    ensures var rows := Reshape(pd, 5);
      forall k :: 0 <= k < |rows| ==> Words(W.DataLines(pd)[k]) == rows[k] && |rows[k]| > 0 && AllWritable(rows[k])
  {
    var rows := Reshape(pd, 5);
    AllWritablePieces(rows);
    forall k | 0 <= k < |rows|
      ensures Words(W.DataLines(pd)[k]) == rows[k]
    {
      forall j | 0 <= j < |rows[k]|
        ensures IsToken(rows[k][j])
      {
        FloatTokenIsToken(rows[k][j]);
      }
      WordsOfJoin(rows[k]);
    }
  }

  // ---------------------------------------------------------------------------
  // One shell, written and read

  /** A shell whose layout the writer keeps: at least one exponent and one vector,
      every vector `nprim` long and `'0.0'` outside the range `find_range` reports
      for it. */
  predicate Restorable(sh: Shell, h: W.LibmolHelpers) {
    && |sh.exponents| > 0 && |sh.coefficients| > 0
    && forall k :: 0 <= k < |sh.coefficients| ==>
         WellSliced(sh.coefficients[k], h.findRange(sh.coefficients[k]), |sh.exponents|)
  }

  /** A shell whose values the reader keeps: every value a number with a decimal point. */
  predicate Printable(sh: Shell) {
    && AllWritable(sh.exponents)
    && forall k :: 0 <= k < |sh.coefficients| ==> AllWritable(sh.coefficients[k])
  }

  /** The lookups agree: the written symbol names element `z`, and the written
      angular-momentum letter reads back as the shell's angular momentum. */
  predicate Consistent(z: nat, sym: string, sh: Shell, lut: Lookup) {
    var amChar := W.Lower(lut.amToChar(sh.angularMomentum));
    && R.IsWordToken(sym) && lut.zFromSym(sym) == Some(z)
    && |amChar| == 1 && R.IsAmLetter(amChar[0]) && lut.amFromChar(amChar[0]) == sh.angularMomentum
    && sh.angularMomentum != []
  }

  /** Every value the writer prints for a restorable, printable shell is a number with a decimal point. */
  lemma {:induction false} PrintDataWritable(sh: Shell, h: W.LibmolHelpers)
    requires Restorable(sh, h) && Printable(sh)
    ensures AllWritable(W.PrintData(sh, h))
  {
    var cs := sh.coefficients;
    var sl := W.Slices(cs, h);
    forall k | 0 <= k < |sl|
      ensures AllWritable(sl[k])
    {
      assert WellSliced(cs[k], h.findRange(cs[k]), |sh.exponents|);
      assert AllWritable(cs[k]);
      SliceOfVector(cs, h, k);
    }
    AllWritableFlatten(sl);
  }

  /** The writer's range token for vector `k` is a whitespace-free token other than `:`. */
  lemma {:induction false} TokenIsToken(cs: seq<seq<string>>, h: W.LibmolHelpers, k: nat)
    requires k < |cs| && 0 <= h.findRange(cs[k]).0 && 0 <= h.findRange(cs[k]).1
    ensures IsToken(W.RangeTokens(cs, h)[k]) && W.RangeTokens(cs, h)[k] != ":"
  {
    W.RangeTokenAt(cs, h, k);
    RangeTokenReads(h.findRange(cs[k]));
  }

  /** The writer's range token for vector `k` has the reader's range-token shape. */
  lemma {:induction false} TokenIsRange(cs: seq<seq<string>>, h: W.LibmolHelpers, k: nat)
    requires k < |cs| && 0 <= h.findRange(cs[k]).0 && 0 <= h.findRange(cs[k]).1
    ensures IsRangeToken(W.RangeTokens(cs, h)[k])
  {
    W.RangeTokenAt(cs, h, k);
    RangeTokenReads(h.findRange(cs[k]));
  }

  /** The writer's range token of `fr` reads back as `[fr.0 + 1, fr.1 + 1]`. */
  lemma {:induction false} RangeTokenParses(fr: (int, int))
    requires 0 <= fr.0 && 0 <= fr.1
    ensures R.ParseRange(W.RangeToken(fr)) == Ok([fr.0 + 1, fr.1 + 1])
  {
    R.ParseRangeOfNats(fr.0 + 1, fr.1 + 1);
  }

  /** A token equal to the writer's range token of `fr` reads back as `[fr.0 + 1, fr.1 + 1]`. */
  lemma {:induction false} ParsesAs(t: string, fr: (int, int))
    requires t == W.RangeToken(fr) && 0 <= fr.0 && 0 <= fr.1
    ensures R.ParseRange(t) == Ok([fr.0 + 1, fr.1 + 1])
  {
    RangeTokenParses(fr);
  }

  /** The writer's range token for vector `k` is the token of its range. */
  lemma {:induction false} TokenAt(cs: seq<seq<string>>, h: W.LibmolHelpers, k: nat)
    requires k < |cs|
    ensures W.RangeTokens(cs, h)[k] == W.RangeToken(h.findRange(cs[k]))
  {
    W.RangeTokenAt(cs, h, k);
  }

  /** The written range tokens read back as the ranges of the shell's vectors. */
  lemma {:induction false} WrittenRanges(sh: Shell, h: W.LibmolHelpers)
    requires Restorable(sh, h)
    ensures RangesOf(W.RangeTokens(sh.coefficients, h), sh.coefficients, h)
  {
    var cs := sh.coefficients;
    forall k | 0 <= k < |cs| ensures W.RangeTokens(cs, h)[k] == W.RangeToken(h.findRange(cs[k])) {
      TokenAt(cs, h, k);
    }
  }

  lemma {:induction false} PySlicePrefix<T>(a: seq<T>, b: seq<T>)
    ensures PySlice(a + b, 0, |a|) == a
  {
    if |a| > 0 {
      assert (a + b)[0..|a|] == a;
    }
  }

  /** The header fields the writer gives shell `sh`: its symbol, its letter, its two
      counts and the range token of every vector. */
  function WrittenHeader(sym: string, sh: Shell, lut: Lookup, h: W.LibmolHelpers): R.Header
    requires |W.Lower(lut.amToChar(sh.angularMomentum))| >= 1
  {
    R.Header(sym, W.Lower(lut.amToChar(sh.angularMomentum))[0], |sh.exponents|, |sh.coefficients|,
             W.RangeTokens(sh.coefficients, h))
  }

  /** The written range tokens parse back to ranges that count the written slices and
      cut the printed values back into the shell's vectors. */
  lemma {:induction false} RangesRestore(tokens: seq<string>, sh: Shell, h: W.LibmolHelpers)
    requires Restorable(sh, h) && RangesOf(tokens, sh.coefficients, h)
    ensures R.ParseRanges(tokens).Ok?
    ensures R.RangeTotal(R.ParseRanges(tokens).value) == Ok(|Flatten(W.Slices(sh.coefficients, h))|)
    ensures R.Contractions(sh.exponents + Flatten(W.Slices(sh.coefficients, h)), R.ParseRanges(tokens).value,
                           |sh.exponents|) == sh.coefficients
  {
    var cs := sh.coefficients;
    assert forall k :: 0 <= k < |cs| ==> WellSliced(cs[k], h.findRange(cs[k]), |sh.exponents|);
    forall j | 0 <= j < |tokens| ensures R.ParseRange(tokens[j]) == Ok([h.findRange(cs[j]).0 + 1, h.findRange(cs[j]).1 + 1]) {
      ParsesAs(tokens[j], h.findRange(cs[j]));
    }
    ParseRangesTotal(tokens);
    forall j | 0 <= j < |tokens| ensures R.ParseRanges(tokens).value[j] == [h.findRange(cs[j]).0 + 1, h.findRange(cs[j]).1 + 1] {
      R.ParseRangesAt(tokens, j);
    }
    CountsRestore(sh.exponents, cs, h, R.ParseRanges(tokens).value);
  }

  /** The ranges read back cover the written slices, and they cut the printed values
      back into the shell's vectors. */
  lemma {:induction false} CountsRestore(exps: seq<string>, cs: seq<seq<string>>, h: W.LibmolHelpers, cr: seq<seq<nat>>)
    requires forall j :: 0 <= j < |cs| ==> WellSliced(cs[j], h.findRange(cs[j]), |exps|)
    requires |cr| == |cs| && forall j :: 0 <= j < |cs| ==> cr[j] == [h.findRange(cs[j]).0 + 1, h.findRange(cs[j]).1 + 1]
    ensures R.TwoParts(cr)
    ensures R.RangeTotal(cr) == Ok(|Flatten(W.Slices(cs, h))|)
    ensures R.Contractions(exps + Flatten(W.Slices(cs, h)), cr, |exps|) == cs
  {
    var sl := W.Slices(cs, h);
    ContractionsRestore(exps, cs, h, cr);
    SliceWidths(exps, cs, h, cr);
    RangeTotalWidths(cr, sl, |cr|);
    assert cr[..|cr|] == cr && sl[..|cr|] == sl;
  }

  /** The tokens `tokens` are the writer's range tokens of the vectors `cs`. */
  predicate RangesOf(tokens: seq<string>, cs: seq<seq<string>>, h: W.LibmolHelpers) {
    && |tokens| == |cs|
    && forall k :: 0 <= k < |cs| ==> tokens[k] == W.RangeToken(h.findRange(cs[k]))
  }

  /** The reader's count of values to collect is the number of exponents and slice values. */
  lemma {:induction false} CountWritten(cr: seq<seq<nat>>, exps: seq<string>, rest: seq<string>)
    requires R.RangeTotal(cr) == Ok(|rest|)
    ensures R.ToRead(|exps|, cr).Ok? && R.ToRead(|exps|, cr).value == |exps + rest|
  {
  }

  /** Equal counts collect the same values. */
  lemma CollectCount(lines: seq<Line>, iline: nat, n: int, m: int, c: R.Collected)
    requires iline < |lines| && n == m && R.Collect(lines, iline, n) == Ok(c)
    ensures R.Collect(lines, iline, m) == Ok(c)
  {
  }

  /** A value stream of the exponents followed by `rest` gives back the exponents and
      the vectors `cs` that `rest` slices into. */
  lemma {:induction false} CutInputs(exps: seq<string>, rest: seq<string>, values: seq<string>, nprim: nat,
                                     cr: seq<seq<nat>>, cs: seq<seq<string>>)
    requires nprim == |exps| && values == exps + rest
    requires R.TwoParts(cr) && R.Contractions(exps + rest, cr, |exps|) == cs
    ensures PySlice(values, 0, nprim) == exps && R.Contractions(values, cr, nprim) == cs
  {
    PySlicePrefix(exps, rest);
  }

  /** The reader's inputs on header fields `hd` and ranges `cr` that carry the
      shell's counts, over a value stream of the exponents followed by the slice values
      `rest`: the count to read, the values collected and what they cut into. */
  lemma {:induction false} ShellFromFacts(lines: seq<Line>, i: nat, c: R.Collected, hd: R.Header, cr: seq<seq<nat>>,
                                          exps: seq<string>, cs: seq<seq<string>>, rest: seq<string>)
    requires i + 1 < |lines| && hd.nprim == |exps|
    requires R.RangeTotal(cr) == Ok(|rest|)
    requires R.Contractions(exps + rest, cr, |exps|) == cs
    requires R.Collect(lines, i + 1, |exps + rest|) == Ok(c) && c.values == exps + rest
    ensures R.ToRead(hd.nprim, cr).Ok? && R.Collect(lines, i + 1, R.ToRead(hd.nprim, cr).value) == Ok(c)
    ensures PySlice(c.values, 0, hd.nprim) == exps && R.Contractions(c.values, cr, hd.nprim) == cs
  {
    CountWritten(cr, exps, rest);
    CollectCount(lines, i + 1, |exps + rest|, R.ToRead(hd.nprim, cr).value, c);
    CutInputs(exps, rest, c.values, hd.nprim, cr, cs);
  }

  /** The reader's loop body on header fields `hd` that carry a shell's symbol,
      letter, counts and ranges, and on a value stream that carries its printed values,
      has all it needs: the ranges read, the element found, the values collected and
      the exponents and vectors cut from them. */
  lemma {:induction false} ShellFromParts(lines: seq<Line>, i: nat, c: R.Collected, z: nat, hd: R.Header,
                                          sh: Shell, lut: Lookup, h: W.LibmolHelpers)
    requires Restorable(sh, h) && Consistent(z, hd.sym, sh, lut)
    requires hd.am == W.Lower(lut.amToChar(sh.angularMomentum))[0]
    requires hd.nprim == |sh.exponents| && hd.ncontr == |sh.coefficients| && RangesOf(hd.ranges, sh.coefficients, h)
    requires i + 1 < |lines|
    requires R.Collect(lines, i + 1, |W.PrintData(sh, h)|) == Ok(c) && c.values == W.PrintData(sh, h)
    ensures R.ParseRanges(hd.ranges).Ok?
    ensures R.BodyReady(lines, i + 1, lut, hd, z, R.ParseRanges(hd.ranges).value, c, sh.angularMomentum,
                        sh.exponents, sh.coefficients)
  {
    RangesRestore(hd.ranges, sh, h);
    var cr := R.ParseRanges(hd.ranges).value;
    ShellFromFacts(lines, i, c, hd, cr, sh.exponents, sh.coefficients, Flatten(W.Slices(sh.coefficients, h)));
  }

  /** The line the reader's cursor stops on after the shell whose header is line `i`:
      the last of its data rows. */
  function LastDataLine(i: nat, sh: Shell, h: W.LibmolHelpers): nat {
    i + 1 + |Reshape(W.PrintData(sh, h), 5)|
  }

  lemma {:induction false} ValuesRead(lines: seq<Line>, i: nat, sh: Shell, h: W.LibmolHelpers)
    requires Restorable(sh, h) && Printable(sh)
    requires var rows := Reshape(W.PrintData(sh, h), 5);
      && i + 1 + |rows| < |lines|
      && forall k :: 0 <= k < |rows| ==> lines[i + 1 + 1 + k] == rows[k]
    ensures R.Collect(lines, i + 1, |W.PrintData(sh, h)|)
      == Ok(R.Collected(W.PrintData(sh, h), LastDataLine(i, sh, h)))
  {
    var pd := W.PrintData(sh, h);
    var rows := Reshape(pd, 5);
    PrintDataWritable(sh, h);
    AllWritablePieces(rows);
    RowsCollect(lines, i + 1, rows, pd, i + 1 + |rows|);
  }

  /** The written header, split on whitespace, gives back its fields. */
  lemma {:induction false} HeaderLineWords(sym: string, ch: char, name: string, nprim: nat, ncontr: nat, tokens: seq<string>)
    requires R.IsWordToken(sym) && R.IsAmLetter(ch) && IsToken(name)
    requires forall k :: 0 <= k < |tokens| ==> IsToken(tokens[k])
    ensures Words(W.HeaderLine(sym, [ch], name, nprim, ncontr, Prefixed(" ", tokens)))
      == [sym, [ch], name, ":", NatToString(nprim), NatToString(ncontr)] + tokens
  {
    HeaderIsJoin(sym, [ch], name, nprim, ncontr, tokens);
    HeaderWords(sym, ch, name, NatToString(nprim), NatToString(ncontr), tokens);
  }

  /** Lines of text as the reader receives them: each split on whitespace. */
  function SplitLines(ls: seq<string>): seq<Line> {
    if |ls| == 0 then [] else [Words(ls[0])] + SplitLines(ls[1..])
  }

  lemma {:induction false} SplitLinesAt(ls: seq<string>, k: nat)
    requires k < |ls|
    ensures |SplitLines(ls)| == |ls| && SplitLines(ls)[k] == Words(ls[k])
    decreases k
  {
    if k > 0 {
      SplitLinesAt(ls[1..], k - 1);
    } else {
      SplitLinesLength(ls);
    }
  }

  lemma {:induction false} SplitLinesLength(ls: seq<string>)
    ensures |SplitLines(ls)| == |ls|
    decreases |ls|
  {
    if |ls| > 0 {
      SplitLinesLength(ls[1..]);
    }
  }

  /** Line `k` of the text `ls` as the reader receives it. */
  function LineAt(ls: seq<string>, k: nat): Line
    requires k < |ls|
  {
    Words(ls[k])
  }

  /** The lines `ls`, each split on whitespace, stand in `lines` from line `i` on. */
  predicate WrittenAt(lines: seq<Line>, i: nat, ls: seq<string>) {
    i + |ls| <= |lines| && forall k :: 0 <= k < |ls| ==> lines[i + k] == LineAt(ls, k)
  }

  lemma {:induction false} WrittenAtSplit(lines: seq<Line>, i: nat, ls: seq<string>)
    requires WrittenAt(lines, i, ls)
    ensures i + |ls| <= |lines| && lines[i..i + |ls|] == SplitLines(ls)
  {
    SplitLinesLength(ls);
    forall k | 0 <= k < |ls|
      ensures lines[i..i + |ls|][k] == SplitLines(ls)[k]
    {
      SplitLinesAt(ls, k);
      assert lines[i + k] == LineAt(ls, k);
    }
  }

  lemma {:induction false} SplitLinesConcat(a: seq<string>, b: seq<string>)
    ensures SplitLines(a + b) == SplitLines(a) + SplitLines(b)
    decreases |a|
  {
    if |a| > 0 {
      assert (a + b)[1..] == a[1..] + b;
      SplitLinesConcat(a[1..], b);
    } else {
      assert a + b == b;
    }
  }

  /** The printed values five to a token line after line `i + 1`: the reader's loop
      body on the written header fields gives the shell back. */
  lemma {:induction false} RowsRead(lines: seq<Line>, i: nat, z: nat, sym: string, sh: Shell, lut: Lookup, h: W.LibmolHelpers)
    requires Restorable(sh, h) && Printable(sh) && Consistent(z, sym, sh, lut)
    requires var rows := Reshape(W.PrintData(sh, h), 5);
      && i + 1 + |rows| < |lines|
      && forall k :: 0 <= k < |rows| ==> lines[i + 1 + 1 + k] == rows[k]
    ensures R.ShellBody(lines, i + 1, WrittenHeader(sym, sh, lut, h), lut)
      == Ok(R.ShellRead(z, Shell(ReaderFunctionType(sh.angularMomentum).value, "", sh.angularMomentum,
                                 sh.exponents, sh.coefficients), LastDataLine(i, sh, h)))
  {
    ValuesRead(lines, i, sh, h);
    WrittenRanges(sh, h);
    var hd := WrittenHeader(sym, sh, lut, h);
    var c := R.Collected(W.PrintData(sh, h), LastDataLine(i, sh, h));
    ShellFromParts(lines, i, c, z, hd, sh, lut, h);
    R.ShellBodyFrom(lines, i + 1, lut, hd, z, R.ParseRanges(hd.ranges).value, c, sh.angularMomentum, sh.exponents,
                    sh.coefficients);
  }

  /** The tokens of the header the writer formats for `sh`. */
  function HeaderTokens(sym: string, amChar: string, name: string, sh: Shell, h: W.LibmolHelpers): Line {
    [sym, amChar, name, ":", NatToString(|sh.exponents|), NatToString(|sh.coefficients|)] + W.RangeTokens(sh.coefficients, h)
  }

  /** The written data lines, split on whitespace, are the rows of five values. */
  lemma {:induction false} SplitDataLines(pd: seq<string>)
    requires AllWritable(pd)
    ensures SplitLines(W.DataLines(pd)) == Reshape(pd, 5)
  {
    var dl := W.DataLines(pd);
    var rows := Reshape(pd, 5);
    DataLinesWords(pd);
    SplitLinesLength(dl);
    forall k | 0 <= k < |rows|
      ensures SplitLines(dl)[k] == rows[k]
    {
      SplitLinesAt(dl, k);
    }
  }

  /** What the reader receives for a written shell: the header's tokens, the
      comment's words, and the printed values five to a line. */
  lemma {:induction false} WrittenSplit(sym: string, elementName: string, name: string, shells: seq<Shell>, sh: Shell,
                                        lut: Lookup, h: W.LibmolHelpers)
    requires Restorable(sh, h) && Printable(sh) && IsToken(name) && R.IsWordToken(sym)
    requires var amChar := W.Lower(lut.amToChar(sh.angularMomentum)); |amChar| == 1 && R.IsAmLetter(amChar[0])
    ensures var amChar := W.Lower(lut.amToChar(sh.angularMomentum));
      SplitLines(W.ShellLines(sym, elementName, name, shells, sh, lut, h))
        == [HeaderTokens(sym, amChar, name, sh, h), Words(W.CommentLine(elementName, h.contractionString(shells)))]
           + Reshape(W.PrintData(sh, h), 5)
  {
    var cs := sh.coefficients;
    var tokens := W.RangeTokens(cs, h);
    var amChar := W.Lower(lut.amToChar(sh.angularMomentum));
    var ch := amChar[0];
    assert amChar == [ch];
    var hl := W.HeaderLine(sym, amChar, name, |sh.exponents|, |cs|, Prefixed(" ", tokens));
    var cl := W.CommentLine(elementName, h.contractionString(shells));
    var dl := W.DataLines(W.PrintData(sh, h));
    assert W.ShellLines(sym, elementName, name, shells, sh, lut, h) == [hl, cl] + dl;
    SplitLinesConcat([hl, cl], dl);
    SplitLinesLength([hl, cl]);
    SplitLinesAt([hl, cl], 0);
    SplitLinesAt([hl, cl], 1);
    assert SplitLines([hl, cl]) == [Words(hl), Words(cl)];
    forall k | 0 <= k < |tokens|
      ensures IsToken(tokens[k])
    {
      assert WellSliced(cs[k], h.findRange(cs[k]), |sh.exponents|);
      TokenIsToken(cs, h, k);
    }
    HeaderLineWords(sym, ch, name, |sh.exponents|, |cs|, tokens);
    PrintDataWritable(sh, h);
    SplitDataLines(W.PrintData(sh, h));
  }

  /** Where the first of three or more lines at `i` is `a`, the second `b`, and the
      rest `rest`. */
  lemma {:induction false} LinesOf(lines: seq<Line>, i: nat, s: seq<Line>, a: Line, b: Line, rest: seq<Line>)
    requires i + |s| <= |lines| && lines[i..i + |s|] == s && s == [a, b] + rest
    ensures i + 1 + |rest| < |lines| && lines[i] == a && forall k :: 0 <= k < |rest| ==> lines[i + 1 + 1 + k] == rest[k]
  {
    assert lines[i] == lines[i..i + |s|][0];
    forall k | 0 <= k < |rest|
      ensures lines[i + 1 + 1 + k] == rest[k]
    {
      assert lines[i + 1 + 1 + k] == lines[i..i + |s|][2 + k];
    }
  }

  /** The header `line` the writer formats for `sh` reads back as its symbol, letter,
      counts and range tokens. */
  lemma {:induction false} HeaderTokensRead(line: Line, sym: string, ch: char, name: string, sh: Shell, h: W.LibmolHelpers)
    requires Restorable(sh, h) && R.IsWordToken(sym) && R.IsAmLetter(ch)
    requires line == HeaderTokens(sym, [ch], name, sh, h)
    ensures R.IsHeader(line)
    ensures R.HeaderOf(line) == R.Header(sym, ch, |sh.exponents|, |sh.coefficients|, W.RangeTokens(sh.coefficients, h))
  {
    var cs := sh.coefficients;
    var tokens := W.RangeTokens(cs, h);
    forall k | 0 <= k < |tokens|
      ensures IsRangeToken(tokens[k]) && tokens[k] != ":"
    {
      assert WellSliced(cs[k], h.findRange(cs[k]), |sh.exponents|);
      TokenIsToken(cs, h, k);
      TokenIsRange(cs, h, k);
    }
    HeaderReads(sym, ch, name, NatToString(|sh.exponents|), NatToString(|cs|), tokens);
    assert line == [sym, [ch], name, ":", NatToString(|sh.exponents|), NatToString(|cs|)] + tokens;
  }

  /** Where the lines of a written shell stand at line `i`, each split on
      whitespace, line `i` is a header that reads back as the shell's symbol, letter,
      counts and range tokens, and the lines after the comment line hold the printed
      values five to a line. */
  lemma {:induction false} ShellLinesAt(lines: seq<Line>, i: nat, sym: string, elementName: string, name: string,
                                        shells: seq<Shell>, sh: Shell, lut: Lookup, h: W.LibmolHelpers)
    requires Restorable(sh, h) && Printable(sh) && IsToken(name) && R.IsWordToken(sym)
    requires var amChar := W.Lower(lut.amToChar(sh.angularMomentum)); |amChar| == 1 && R.IsAmLetter(amChar[0])
    requires WrittenAt(lines, i, W.ShellLines(sym, elementName, name, shells, sh, lut, h))
    ensures var rows := Reshape(W.PrintData(sh, h), 5);
      && |W.ShellLines(sym, elementName, name, shells, sh, lut, h)| == 2 + |rows|
      && i + 1 + |rows| < |lines|
      && forall k :: 0 <= k < |rows| ==> lines[i + 1 + 1 + k] == rows[k]
    ensures R.IsHeader(lines[i])
    ensures R.HeaderOf(lines[i]) == WrittenHeader(sym, sh, lut, h)
  {
    var ls := W.ShellLines(sym, elementName, name, shells, sh, lut, h);
    var rows := Reshape(W.PrintData(sh, h), 5);
    var amChar := W.Lower(lut.amToChar(sh.angularMomentum));
    var ch := amChar[0];
    var head := HeaderTokens(sym, amChar, name, sh, h);
    var comment := Words(W.CommentLine(elementName, h.contractionString(shells)));
    WrittenAtSplit(lines, i, ls);
    WrittenSplit(sym, elementName, name, shells, sh, lut, h);
    SplitLinesLength(ls);
    LinesOf(lines, i, SplitLines(ls), head, comment, rows);
    assert amChar == [ch];
    HeaderTokensRead(lines[i], sym, ch, name, sh, h);
  }

  /** The round trip: where the lines of a written shell stand at line `i`, each
      split on whitespace, one pass of the reader's loop reads back the shell's angular
      momentum, exponents and coefficient vectors, takes the element from the
      symbol, and leaves the cursor on the shell's last line. The function type
      read back is the reader's own choice and the region is empty. */
  lemma {:induction false} ShellRoundTrip(lines: seq<Line>, i: nat, z: nat, sym: string, elementName: string, name: string,
                       shells: seq<Shell>, sh: Shell, lut: Lookup, h: W.LibmolHelpers)
    requires Restorable(sh, h) && Printable(sh) && Consistent(z, sym, sh, lut) && IsToken(name)
    requires WrittenAt(lines, i, W.ShellLines(sym, elementName, name, shells, sh, lut, h))
    ensures R.IsHeader(lines[i])
    ensures R.ShellAt(lines, i, lut)
      == Ok(R.ShellRead(z, Shell(ReaderFunctionType(sh.angularMomentum).value, "", sh.angularMomentum, sh.exponents,
                                 sh.coefficients), LastDataLine(i, sh, h)))
    ensures LastDataLine(i, sh, h) == i + |W.ShellLines(sym, elementName, name, shells, sh, lut, h)| - 1
  {
    ShellLinesAt(lines, i, sym, elementName, name, shells, sh, lut, h);
    RowsRead(lines, i, z, sym, sh, lut, h);
  }
}

/** The normalisation and comparison the version-0 regression test applies to the lines
    of NWChem-formatted basis files before it compares the historical output with the
    new one: strip, collapse runs of spaces, rename the old systematic element symbols,
    turn Fortran `D` exponents into `E`; then drop comments and blank lines; and compare
    two lines token by token, numerically where both tokens are numbers. */
module V0Compare {
  import opened Basis

  // ---------------------------------------------------------------------------
  // Stripping and collapsing spaces

  /** `s.lstrip()`: the leading whitespace removed. */
  function TrimStart(s: string): (r: string)
    ensures |r| <= |s| && r == s[|s| - |r|..]
    ensures forall i :: 0 <= i < |s| - |r| ==> IsSpace(s[i])
    ensures |r| > 0 ==> !IsSpace(r[0])
  {
    if |s| > 0 && IsSpace(s[0]) then TrimStart(s[1..]) else s
  }

  /** `s.rstrip()`: the trailing whitespace removed. */
  function TrimEnd(s: string): (r: string)
    ensures |r| <= |s| && r == s[..|r|]
    ensures forall i :: |r| <= i < |s| ==> IsSpace(s[i])
    ensures |r| > 0 ==> !IsSpace(r[|r| - 1])
  {
    if |s| > 0 && IsSpace(s[|s| - 1]) then TrimEnd(s[..|s| - 1]) else s
  }

  /** Neither the first nor the last character is whitespace. */
  predicate Stripped(s: string) {
    |s| == 0 || (!IsSpace(s[0]) && !IsSpace(s[|s| - 1]))
  }

  /** `s.strip()`: a piece of `s` with whitespace at neither end; a line that already has
      none comes back unchanged. */
  function Strip(s: string): (r: string)
    ensures Stripped(r)
    ensures Stripped(s) ==> r == s
  {
    TrimEnd(TrimStart(s))
  }

  /** `re.sub(' +', ' ', s)`: every run of spaces becomes a single space. */
  function Collapse(s: string): (r: string)
    ensures |r| <= |s|
    ensures |s| > 0 ==> |r| > 0 && r[0] == s[0] && r[|r| - 1] == s[|s| - 1]
  {
    if |s| == 0 then ""
    else if |s| >= 2 && s[0] == ' ' && s[1] == ' ' then Collapse(s[1..])
    else [s[0]] + Collapse(s[1..])
  }

  /** Positions `i` and `i + 1` both hold a space. */
  predicate DoubleSpaceAt(s: string, i: int) {
    0 <= i && i + 1 < |s| && s[i] == ' ' && s[i + 1] == ' '
  }

  predicate NoDoubleSpace(s: string) {
    forall i :: 0 <= i < |s| ==> !DoubleSpaceAt(s, i)
  }

  /** No two spaces are adjacent after collapsing. */
  lemma {:induction false} CollapseNoDoubleSpace(s: string)
    ensures NoDoubleSpace(Collapse(s))
    decreases |s|
  {
    if |s| >= 2 && s[0] == ' ' && s[1] == ' ' {
      CollapseNoDoubleSpace(s[1..]);
    } else if |s| > 0 {
      CollapseNoDoubleSpace(s[1..]);
      var t := Collapse(s[1..]);
      forall i | 0 <= i < |[s[0]] + t| ensures !DoubleSpaceAt([s[0]] + t, i) {
        if i > 0 {
          assert !DoubleSpaceAt(t, i - 1);
        }
      }
    }
  }

  /** A line with no two adjacent spaces is left as it is, so collapsing is idempotent. */
  lemma {:induction false} CollapseFixed(s: string)
    requires NoDoubleSpace(s)
    ensures Collapse(s) == s
    decreases |s|
  {
    if |s| > 0 {
      assert !DoubleSpaceAt(s, 0);
      forall i | 0 <= i < |s| - 1 ensures !DoubleSpaceAt(s[1..], i) {
        assert !DoubleSpaceAt(s, i + 1);
      }
      CollapseFixed(s[1..]);
      assert [s[0]] + s[1..] == s;
    }
  }

  lemma CollapseIdempotent(s: string)
    ensures Collapse(Collapse(s)) == Collapse(s)
  {
    CollapseNoDoubleSpace(s);
    CollapseFixed(Collapse(s));
  }

  /** The characters of `s` other than spaces, in order. */
  function Squeezed(s: string): string {
    if |s| == 0 then "" else (if s[0] == ' ' then "" else [s[0]]) + Squeezed(s[1..])
  }

  /** Collapsing removes spaces only: every other character stays, in order. */
  lemma {:induction false} CollapseKeepsText(s: string)
    ensures Squeezed(Collapse(s)) == Squeezed(s)
    decreases |s|
  {
    if |s| > 0 {
      CollapseKeepsText(s[1..]);
      if !(|s| >= 2 && s[0] == ' ' && s[1] == ' ') {
        var t := Collapse(s[1..]);
        assert ([s[0]] + t)[0] == s[0] && ([s[0]] + t)[1..] == t;
      }
    }
  }

  /** A stripped line with no runs of spaces: what the first two steps produce. */
  lemma StripThenCollapse(s: string)
    ensures Stripped(Collapse(Strip(s))) && NoDoubleSpace(Collapse(Strip(s)))
  {
    CollapseNoDoubleSpace(Strip(s));
  }

  /** `re.split(' +', s)`: the pieces between runs of spaces; a leading or trailing run
      gives an empty piece at that end. */
  function SplitSpaces(s: string): (parts: seq<string>)
    ensures |parts| >= 1
    decreases |s|
  {
    if |s| == 0 then [""]
    else if |s| >= 2 && s[0] == ' ' && s[1] == ' ' then SplitSpaces(s[1..])
    else
      var rest := SplitSpaces(s[1..]);
      if s[0] == ' ' then [""] + rest else [[s[0]] + rest[0]] + rest[1..]
  }

  /** Splitting on runs of spaces is splitting the collapsed line on single spaces. */
  lemma {:induction false} SplitSpacesCollapse(s: string)
    ensures SplitSpaces(s) == Split(Collapse(s), ' ')
    decreases |s|
  {
    if |s| > 0 {
      SplitSpacesCollapse(s[1..]);
      if !(|s| >= 2 && s[0] == ' ' && s[1] == ' ') {
        var t := Collapse(s[1..]);
        assert ([s[0]] + t)[0] == s[0] && ([s[0]] + t)[1..] == t;
      }
    }
  }

  /** No piece holds a space. */
  lemma SplitSpacesPieces(s: string)
    ensures forall k :: 0 <= k < |SplitSpaces(s)| ==> ' ' !in SplitSpaces(s)[k]
  {
    SplitSpacesCollapse(s);
    SplitPieces(Collapse(s), ' ');
  }

  // ---------------------------------------------------------------------------
  // Substring replacement

  /** `pat` occurs in `s` starting at position `i`. */
  predicate OccursAt(s: string, pat: string, i: int) {
    0 <= i && i + |pat| <= |s| && s[i..i + |pat|] == pat
  }

  predicate Absent(s: string, pat: string) {
    forall i :: 0 <= i < |s| ==> !OccursAt(s, pat, i)
  }

  /** `s.replace(pat, sub)`: the occurrences of `pat` found from left to right, none
      overlapping the one before, each replaced by `sub`. */
  function Replace(s: string, pat: string, sub: string): string
    requires |pat| > 0
    decreases |s|
  {
    if |s| < |pat| then s
    else if s[..|pat|] == pat then sub + Replace(s[|pat|..], pat, sub)
    else [s[0]] + Replace(s[1..], pat, sub)
  }

  /** `s.split(pat)`: the pieces between the occurrences `Replace` finds. */
  function SplitOn(s: string, pat: string): (parts: seq<string>)
    requires |pat| > 0
    ensures |parts| >= 1
    decreases |s|
  {
    if |s| < |pat| then [s]
    else if s[..|pat|] == pat then [""] + SplitOn(s[|pat|..], pat)
    else
      var rest := SplitOn(s[1..], pat);
      [[s[0]] + rest[0]] + rest[1..]
  }

  /** The first piece is where `s` starts. */
  lemma {:induction false} SplitOnFirst(s: string, pat: string)
    requires |pat| > 0
    ensures |SplitOn(s, pat)[0]| <= |s| && SplitOn(s, pat)[0] == s[..|SplitOn(s, pat)[0]|]
    decreases |s|
  {
    if |s| >= |pat| && s[..|pat|] != pat {
      SplitOnFirst(s[1..], pat);
    }
  }

  /** No piece of `s.split(pat)` contains `pat`. */
  lemma {:induction false} SplitOnPieces(s: string, pat: string, k: nat)
    requires |pat| > 0 && k < |SplitOn(s, pat)|
    ensures Absent(SplitOn(s, pat)[k], pat)
    decreases |s|
  {
    if |s| < |pat| {
      forall i | 0 <= i < |s| ensures !OccursAt(s, pat, i) { }
    } else if s[..|pat|] == pat {
      if k > 0 {
        SplitOnPieces(s[|pat|..], pat, k - 1);
      }
    } else {
      var rest := SplitOn(s[1..], pat);
      if k > 0 {
        SplitOnPieces(s[1..], pat, k);
        assert SplitOn(s, pat)[k] == rest[k];
      } else {
        SplitOnPieces(s[1..], pat, 0);
        SplitOnFirst(s[1..], pat);
        var piece := [s[0]] + rest[0];
        assert piece == s[..|piece|];
        forall i | 0 <= i < |piece| ensures !OccursAt(piece, pat, i) {
          if i == 0 {
            if |pat| <= |piece| {
              assert piece[..|pat|] == s[..|pat|];
            }
          } else {
            assert !OccursAt(rest[0], pat, i - 1);
            if i + |pat| <= |piece| {
              assert piece[i..i + |pat|] == rest[0][i - 1..i - 1 + |pat|];
            }
          }
        }
      }
    }
  }

  /** Python's identity `s.replace(pat, sub) == sub.join(s.split(pat))`: replacing is
      putting `sub` between the pieces that hold no occurrence. */
  lemma {:induction false} ReplaceIsJoin(s: string, pat: string, sub: string)
    requires |pat| > 0
    ensures Replace(s, pat, sub) == Join(sub, SplitOn(s, pat))
    decreases |s|
  {
    if |s| < |pat| {
    } else if s[..|pat|] == pat {
      ReplaceIsJoin(s[|pat|..], pat, sub);
      JoinEmptyFirst(sub, SplitOn(s[|pat|..], pat));
    } else {
      ReplaceIsJoin(s[1..], pat, sub);
      JoinExtendFirst(sub, s[0], SplitOn(s[1..], pat));
    }
  }

  /** Joining after an empty first piece starts with the separator. */
  lemma JoinEmptyFirst(sep: string, rest: seq<string>)
    requires |rest| >= 1
    ensures Join(sep, [""] + rest) == sep + Join(sep, rest)
  {
    assert ([""] + rest)[1..] == rest;
    assert Prefixed(sep, rest) == sep + Join(sep, rest);
  }

  /** A character added to the first piece comes first in the join. */
  lemma JoinExtendFirst(sep: string, c: char, rest: seq<string>)
    requires |rest| >= 1
    ensures Join(sep, [[c] + rest[0]] + rest[1..]) == [c] + Join(sep, rest)
  {
    var ts := [[c] + rest[0]] + rest[1..];
    assert ts[0] == [c] + rest[0] && ts[1..] == rest[1..];
    var p := Prefixed(sep, rest[1..]);
    assert Join(sep, ts) == ([c] + rest[0]) + p;
    assert Join(sep, rest) == rest[0] + p;
  }

  /** A line without `pat` comes back unchanged. */
  lemma {:induction false} ReplaceAbsent(s: string, pat: string, sub: string)
    requires |pat| > 0 && Absent(s, pat)
    ensures Replace(s, pat, sub) == s
    decreases |s|
  {
    if |s| >= |pat| {
      assert !OccursAt(s, pat, 0);
      forall i | 0 <= i < |s| - 1 ensures !OccursAt(s[1..], pat, i) {
        if OccursAt(s[1..], pat, i) {
          assert s[1..][i..i + |pat|] == s[i + 1..i + 1 + |pat|];
          assert OccursAt(s, pat, i + 1);
        }
      }
      ReplaceAbsent(s[1..], pat, sub);
      assert [s[0]] + s[1..] == s;
    }
  }

  /** A prefix of the result in which no replacement starts (none holds `sub[0]`) is a
      copy of the same prefix of `s`. */
  lemma {:induction false} ReplaceCopies(s: string, pat: string, sub: string, k: nat)
    requires |pat| > 0 && |sub| > 0 && k <= |Replace(s, pat, sub)|
    requires forall j :: 0 <= j < k ==> Replace(s, pat, sub)[j] != sub[0]
    ensures k <= |s| && Replace(s, pat, sub)[..k] == s[..k]
    decreases |s|
  {
    if |s| >= |pat| && k > 0 {
      assert Replace(s, pat, sub)[0] != sub[0];
      if s[..|pat|] != pat {
        var t := Replace(s[1..], pat, sub);
        forall j | 0 <= j < k - 1 ensures t[j] != sub[0] {
          assert t[j] == Replace(s, pat, sub)[j + 1];
        }
        ReplaceCopies(s[1..], pat, sub, k - 1);
      }
    }
  }

  /** No occurrence of `pat` is left when a replacement cannot start one: `sub` does not
      contain the first character of `pat`, and `pat` does not contain the first
      character of `sub`. */
  lemma {:induction false} ReplaceRemoves(s: string, pat: string, sub: string)
    requires |pat| > 0 && |sub| > 0 && pat[0] !in sub && sub[0] !in pat
    ensures Absent(Replace(s, pat, sub), pat)
    decreases |s|
  {
    if |s| < |pat| {
      forall i | 0 <= i < |s| ensures !OccursAt(s, pat, i) { }
    } else if s[..|pat|] == pat {
      var t := Replace(s[|pat|..], pat, sub);
      ReplaceRemoves(s[|pat|..], pat, sub);
      forall i | 0 <= i < |sub + t| ensures !OccursAt(sub + t, pat, i) {
        if i < |sub| {
          assert (sub + t)[i] == sub[i] != pat[0];
        } else {
          assert !OccursAt(t, pat, i - |sub|);
          if i + |pat| <= |sub + t| {
            assert (sub + t)[i..i + |pat|] == t[i - |sub|..i - |sub| + |pat|];
          }
        }
      }
    } else {
      var t := Replace(s[1..], pat, sub);
      ReplaceRemoves(s[1..], pat, sub);
      forall i | 0 <= i < |[s[0]] + t| ensures !OccursAt([s[0]] + t, pat, i) {
        if i > 0 {
          assert !OccursAt(t, pat, i - 1);
          if i + |pat| <= |[s[0]] + t| {
            assert ([s[0]] + t)[i..i + |pat|] == t[i - 1..i - 1 + |pat|];
          }
        } else {
          ReplaceHead(s, pat, sub, t);
        }
      }
    }
  }

  /** The case of `ReplaceRemoves` where a window would start at the copied first character. */
  lemma ReplaceHead(s: string, pat: string, sub: string, t: string)
    requires |pat| > 0 && |sub| > 0 && sub[0] !in pat
    requires |s| >= |pat| && s[..|pat|] != pat
    requires t == Replace(s[1..], pat, sub)
    ensures !OccursAt([s[0]] + t, pat, 0)
  {
    var k := |pat| - 1;
    if k <= |t| && t[..k] == pat[1..] {
      forall j | 0 <= j < k ensures t[j] != sub[0] {
        assert t[j] == pat[j + 1];
      }
      ReplaceCopies(s[1..], pat, sub, k);
      assert s[..|pat|] == [s[0]] + t[..k];
      assert ([s[0]] + t)[..|pat|] == [s[0]] + t[..k];
    } else if k <= |t| {
      assert ([s[0]] + t)[1..|pat|] == t[..k];
    }
  }

  // ---------------------------------------------------------------------------
  // The old element symbols

  /** The systematic symbols the historical files still use, renamed in this order. */
  const SymbolMap: seq<(string, string)> := [
    ("Uun", "Ds"), ("Uuu", "Rg"), ("Uub", "Cn"), ("Uut", "Nh"), ("Uuq", "Fl"),
    ("Uup", "Mc"), ("Uuh", "Lv"), ("Uus", "Ts"), ("Uuo", "Og")]

  predicate Renames(m: seq<(string, string)>) {
    forall i :: 0 <= i < |m| ==> |m[i].0| > 0
  }

  /** The line after `x = x.replace(k, v)` for each pair of `m`, first to last. */
  function ReplaceAll(s: string, m: seq<(string, string)>): string
    requires Renames(m)
  {
    if |m| == 0 then s
    else
      var last := m[|m| - 1];
      Replace(ReplaceAll(s, m[..|m| - 1]), last.0, last.1)
  }

  /** A line holding none of the old symbols is left as it is. */
  lemma {:induction false} ReplaceAllAbsent(s: string, m: seq<(string, string)>)
    requires Renames(m)
    requires forall i :: 0 <= i < |m| ==> Absent(s, m[i].0)
    ensures ReplaceAll(s, m) == s
    decreases |m|
  {
    if |m| > 0 {
      ReplaceAllAbsent(s, m[..|m| - 1]);
      ReplaceAbsent(s, m[|m| - 1].0, m[|m| - 1].1);
    }
  }

  /** The shape of every pair of `SymbolMap`: `Uu` and a lower-case letter, renamed to
      an upper-case letter other than `U` and a lower-case one. */
  predicate SystematicRename(p: (string, string)) {
    |p.0| == 3 && p.0[0] == 'U' && p.0[1] == 'u' && 'a' <= p.0[2] <= 'z' &&
    |p.1| == 2 && 'A' <= p.1[0] <= 'Z' && p.1[0] != 'U' && 'a' <= p.1[1] <= 'z'
  }

  /** No renaming can start an old symbol, itself or with the characters around it. */
  lemma SymbolsDisjoint(i: nat)
    requires i < |SymbolMap|
    ensures |SymbolMap[i].1| > 0 && SymbolMap[i].1[0] !in SymbolMap[i].0 && SymbolMap[i].0[0] !in SymbolMap[i].1
  {
    SymbolShape(i);
    var p := SymbolMap[i];
    assert p.1 == [p.1[0], p.1[1]];
    assert p.0 == [p.0[0], p.0[1], p.0[2]];
  }

  lemma SymbolShape(i: nat)
    requires i < |SymbolMap|
    ensures SystematicRename(SymbolMap[i])
  {
    if i < 3 {
      assert SystematicRename(SymbolMap[0]) && SystematicRename(SymbolMap[1]) && SystematicRename(SymbolMap[2]);
    } else if i < 6 {
      assert SystematicRename(SymbolMap[3]) && SystematicRename(SymbolMap[4]) && SystematicRename(SymbolMap[5]);
    } else {
      assert SystematicRename(SymbolMap[6]) && SystematicRename(SymbolMap[7]) && SystematicRename(SymbolMap[8]);
    }
  }

  lemma SymbolMapRenames()
    ensures Renames(SymbolMap)
  {
    forall i | 0 <= i < |SymbolMap| ensures |SymbolMap[i].0| > 0 {
      SymbolsDisjoint(i);
    }
  }

  /** Each renaming step leaves no occurrence of the symbol it renames. */
  lemma RenameRemoves(s: string, i: nat)
    requires i < |SymbolMap|
    ensures Absent(Replace(s, SymbolMap[i].0, SymbolMap[i].1), SymbolMap[i].0)
  {
    SymbolsDisjoint(i);
    ReplaceRemoves(s, SymbolMap[i].0, SymbolMap[i].1);
  }

  // ---------------------------------------------------------------------------
  // Fortran exponents

  predicate IsSign(c: char) { c == '+' || c == '-' }

  /** The length of the match of `(\d)D([\+\-]?)(\d)` at the start of `s`, 0 where
      there is none. The optional sign is tried first, as the greedy `?` does. */
  function ExponentMatch(s: string): (n: nat)
    ensures n == 0 || n == 3 || n == 4
    ensures n > 0 ==> |s| >= n && IsDigit(s[0]) && s[1] == 'D' && IsDigit(s[n - 1])
  {
    if |s| >= 4 && IsDigit(s[0]) && s[1] == 'D' && IsSign(s[2]) && IsDigit(s[3]) then 4
    else if |s| >= 3 && IsDigit(s[0]) && s[1] == 'D' && IsDigit(s[2]) then 3
    else 0
  }

  /** `re.sub(r'(\d)D([\+\-]?)(\d)', r'\1E\2\3', s)`: scanning from the left, each match
      has its `D` turned into `E`, and the scan goes on after the match. */
  function DToE(s: string): (r: string)
    ensures |r| == |s|
    decreases |s|
  {
    var n := ExponentMatch(s);
    if |s| == 0 then ""
    else if n == 0 then [s[0]] + DToE(s[1..])
    else [s[0], 'E'] + s[2..n] + DToE(s[n..])
  }

  /** Position `i` holds the `D` of a match that starts one place before it. */
  predicate ExponentD(s: string, i: int) {
    0 < i < |s| && ExponentMatch(s[i - 1..]) > 0
  }

  lemma ExponentDShift(s: string, k: nat, i: nat)
    requires k < i < |s|
    ensures ExponentD(s[k..], i - k) == ExponentD(s, i)
  {
    assert s[k..][i - k - 1..] == s[i - 1..];
  }

  /** Where no match starts the line, position `i > 0` comes from the rest of the scan. */
  lemma DToEAfterCopy(s: string, i: nat)
    requires 0 < i < |s| && ExponentMatch(s) == 0
    ensures DToE(s)[i] == DToE(s[1..])[i - 1]
  {
    assert DToE(s) == [s[0]] + DToE(s[1..]);
  }

  /** Where a match of length `n` starts the line, position `i >= n` comes from the rest. */
  lemma DToEAfterMatch(s: string, n: nat, i: nat)
    requires n == ExponentMatch(s) && 0 < n <= i < |s|
    ensures DToE(s)[i] == DToE(s[n..])[i - n]
  {
    var head := MatchHead(s, n);
    DToEMatchUnfold(s, n);
    IndexTail(head, DToE(s[n..]), i);
  }

  /** What the scan emits for a match of length `n` at the start. */
  function MatchHead(s: string, n: nat): (h: string)
    requires 2 <= n <= |s|
    ensures |h| == n
  {
    [s[0], 'E'] + s[2..n]
  }

  lemma DToEMatchUnfold(s: string, n: nat)
    requires n == ExponentMatch(s) && 0 < n
    ensures DToE(s) == MatchHead(s, n) + DToE(s[n..])
  {
  }

  lemma IndexTail(head: string, tail: string, i: nat)
    requires |head| <= i < |head| + |tail|
    ensures (head + tail)[i] == tail[i - |head|]
  {
  }

  /** Within a match that starts the line, only the `D` changes. */
  lemma DToEInMatch(s: string, i: nat)
    requires 0 < ExponentMatch(s) && i < ExponentMatch(s)
    ensures DToE(s)[i] == (if i == 1 then 'E' else s[i])
  {
    var n := ExponentMatch(s);
    DToEMatchUnfold(s, n);
    assert (MatchHead(s, n) + DToE(s[n..]))[i] == MatchHead(s, n)[i];
  }

  /** Soundness: a position changes only from a `D` to an `E`, and only where a digit
      before it and an optionally signed digit after it make a match. */
  lemma {:induction false} DToEChanges(s: string, i: nat)
    requires i < |s|
    ensures DToE(s)[i] == s[i] || (s[i] == 'D' && ExponentD(s, i) && DToE(s)[i] == 'E')
    decreases |s|, 1
  {
    var n := ExponentMatch(s);
    if i == 0 {
      assert DToE(s)[0] == s[0];
    } else if n == 0 {
      DToEChangesAfterCopy(s, i);
    } else if i >= n {
      DToEChangesAfterMatch(s, i);
    } else {
      DToEInMatch(s, i);
      assert s[0..] == s;
    }
  }

  lemma {:induction false} DToEChangesAfterCopy(s: string, i: nat)
    requires 0 < i < |s| && ExponentMatch(s) == 0
    ensures DToE(s)[i] == s[i] || (s[i] == 'D' && ExponentD(s, i) && DToE(s)[i] == 'E')
    decreases |s|, 0
  {
    DToEChanges(s[1..], i - 1);
    DToEAfterCopy(s, i);
    if i > 1 {
      ExponentDShift(s, 1, i);
    }
  }

  lemma {:induction false} DToEChangesAfterMatch(s: string, i: nat)
    requires 0 < ExponentMatch(s) <= i < |s|
    ensures DToE(s)[i] == s[i] || (s[i] == 'D' && ExponentD(s, i) && DToE(s)[i] == 'E')
    decreases |s|, 0
  {
    var n := ExponentMatch(s);
    DToEChanges(s[n..], i - n);
    DToEAfterMatch(s, n, i);
    if i > n {
      ExponentDShift(s, n, i);
    }
  }

  /** Completeness: a matching `D` is turned into `E` unless the digit before it already
      ended an earlier match (which needs a `D` two or three places back). */
  lemma {:induction false} DToEReplaces(s: string, i: nat)
    requires ExponentD(s, i)
    requires i < 2 || s[i - 2] != 'D'
    requires i < 3 || s[i - 3] != 'D'
    ensures DToE(s)[i] == 'E'
    decreases |s|, 1
  {
    if i == 1 {
      assert s[i - 1..] == s;
      DToEInMatch(s, 1);
    } else if ExponentMatch(s) == 0 {
      DToEReplacesAfterCopy(s, i);
    } else {
      DToEReplacesAfterMatch(s, i);
    }
  }

  /** `DToEReplaces` where the scan copies the first character. */
  lemma {:induction false} DToEReplacesAfterCopy(s: string, i: nat)
    requires 1 < i && ExponentD(s, i) && ExponentMatch(s) == 0
    requires s[i - 2] != 'D'
    requires i < 3 || s[i - 3] != 'D'
    ensures DToE(s)[i] == 'E'
    decreases |s|, 0
  {
    ExponentDShift(s, 1, i);
    DToEReplaces(s[1..], i - 1);
    DToEAfterCopy(s, i);
  }

  /** `DToEReplaces` where a match starts the line and ends before position `i`. */
  lemma {:induction false} DToEReplacesAfterMatch(s: string, i: nat)
    requires 1 < i && ExponentD(s, i) && ExponentMatch(s) > 0
    requires s[i - 2] != 'D'
    requires i < 3 || s[i - 3] != 'D'
    ensures DToE(s)[i] == 'E'
    decreases |s|, 0
  {
    var n := ExponentMatch(s);
    MatchesApart(s, i);
    ExponentDShift(s, n, i);
    DToEReplaces(s[n..], i - n);
    DToEAfterMatch(s, n, i);
  }

  /** A match at the start ends before the digit that precedes a later `D` it cannot
      have consumed. */
  lemma MatchesApart(s: string, i: nat)
    requires 1 < i && ExponentD(s, i) && ExponentMatch(s) > 0
    requires s[i - 2] != 'D' && (i < 3 || s[i - 3] != 'D')
    ensures i > ExponentMatch(s)
  {
    assert s[i - 1..][0] == s[i - 1] && s[i - 1..][1] == s[i];
  }

  /** The scan does not look back: in `1D1D1` the middle digit ends the first match, so
      the second `D` stays. */
  lemma DToENotOverlapping()
    ensures DToE("1D1D1") == "1E1D1"
  {
    assert ExponentMatch("1D1D1") == 3;
    assert ExponentMatch("D1") == 0;
    assert ExponentMatch("1") == 0;
  }

  // ---------------------------------------------------------------------------
  // One line, and a file

  /** `_process_nwline`: strip, collapse spaces, rename old symbols, `D` exponents to `E`. */
  function NwLine(x: string): string {
    DToE(ReplaceAll(Collapse(Strip(x)), SymbolMap))
  }

  method ProcessNwLine(x: string) returns (r: string)
    ensures r == NwLine(x)
  {
    r := Strip(x);
    r := Collapse(r);
    SymbolMapRenames();
    r := ReplaceEach(r, SymbolMap);
    r := DToE(r);
  }

  /** The loop of `_process_nwline` over the symbol map: `x = x.replace(k, v)` per pair. */
  method ReplaceEach(x: string, m: seq<(string, string)>) returns (r: string)
    requires Renames(m)
    ensures r == ReplaceAll(x, m)
  {
    r := x;
    for i := 0 to |m|
      invariant r == ReplaceAll(x, m[..i])
    {
      assert m[..i + 1][..i] == m[..i];
      r := Replace(r, m[i].0, m[i].1);
    }
    assert m[..|m|] == m;
  }

  /** A line with no old symbol and no `D` only has its spacing normalised. */
  lemma NwLinePlain(x: string)
    requires forall i :: 0 <= i < |SymbolMap| ==> Absent(Collapse(Strip(x)), SymbolMap[i].0)
    requires 'D' !in x
    ensures NwLine(x) == Collapse(Strip(x))
  {
    var c := Collapse(Strip(x));
    StripKeepsOut(x, 'D');
    CollapseKeepsOut(Strip(x), 'D');
    ReplaceAllAbsent(c, SymbolMap);
    DToEWithoutD(c);
  }

  /** Stripping adds no character. */
  lemma StripKeepsOut(s: string, c: char)
    requires c !in s
    ensures c !in Strip(s)
  {
    var t := TrimStart(s);
    forall j | 0 <= j < |t| ensures t[j] != c {
      assert t[j] == s[|s| - |t| + j];
    }
    var u := TrimEnd(t);
    forall j | 0 <= j < |u| ensures u[j] != c {
      assert u[j] == t[j];
    }
  }

  /** Collapsing adds no character. */
  lemma {:induction false} CollapseKeepsOut(s: string, c: char)
    requires c !in s
    ensures c !in Collapse(s)
    decreases |s|
  {
    if |s| > 0 {
      CollapseKeepsOut(s[1..], c);
    }
  }

  /** A line without `D` has nothing to convert. */
  lemma DToEWithoutD(s: string)
    requires 'D' !in s
    ensures DToE(s) == s
  {
    forall i | 0 <= i < |s| ensures DToE(s)[i] == s[i] {
      DToEChanges(s, i);
    }
  }

  /** A processed line the comparison keeps: not empty and not a `#` comment. */
  predicate Kept(x: string) { x != "" && x[0] != '#' }

  /** The lines of `xs` that `Kept` accepts, in their order. */
  function KeptLines(xs: seq<string>): seq<string> {
    if |xs| == 0 then [] else (if Kept(xs[0]) then [xs[0]] else []) + KeptLines(xs[1..])
  }

  /** `_process_nwchem`: every line processed, then comments and empty lines dropped. */
  function ProcessNwchem(lines: seq<string>): seq<string> {
    KeptLines(MapLines(NwLine, lines))
  }

  /** `[f(x) for x in lines]`. */
  function MapLines(f: string -> string, lines: seq<string>): (r: seq<string>)
    ensures |r| == |lines|
  {
    seq(|lines|, i requires 0 <= i < |lines| => f(lines[i]))
  }

  lemma MapLinesAppend(f: string -> string, a: seq<string>, b: seq<string>)
    ensures MapLines(f, a + b) == MapLines(f, a) + MapLines(f, b)
  {
    var m := MapLines(f, a + b);
    var n := MapLines(f, a) + MapLines(f, b);
    forall i | 0 <= i < |m| ensures m[i] == n[i] {
      if i < |a| {
        assert (a + b)[i] == a[i];
      } else {
        assert (a + b)[i] == b[i - |a|];
      }
    }
  }

  /** Filtering goes line by line: the lines kept from `a + b` are those kept from `a`
      followed by those kept from `b`. */
  lemma {:induction false} KeptLinesAppend(a: seq<string>, b: seq<string>)
    ensures KeptLines(a + b) == KeptLines(a) + KeptLines(b)
    decreases |a|
  {
    if |a| > 0 {
      assert (a + b)[0] == a[0] && (a + b)[1..] == a[1..] + b;
      KeptLinesAppend(a[1..], b);
    } else {
      assert a + b == b;
    }
  }

  /** A line is in the result exactly when it is a kept line of the input. */
  lemma {:induction false} KeptLinesMember(xs: seq<string>, x: string)
    ensures x in KeptLines(xs) <==> x in xs && Kept(x)
    decreases |xs|
  {
    if |xs| > 0 {
      KeptLinesMember(xs[1..], x);
      assert xs == [xs[0]] + xs[1..];
    }
  }

  /** Processing a file is processing its parts and concatenating the results. */
  lemma ProcessNwchemAppend(a: seq<string>, b: seq<string>)
    ensures ProcessNwchem(a + b) == ProcessNwchem(a) + ProcessNwchem(b)
  {
    MapLinesAppend(NwLine, a, b);
    KeptLinesAppend(MapLines(NwLine, a), MapLines(NwLine, b));
  }

  /** The result holds exactly the processed lines that are neither empty nor comments. */
  lemma ProcessNwchemMember(lines: seq<string>, x: string)
    ensures x in ProcessNwchem(lines) <==> Kept(x) && exists i :: 0 <= i < |lines| && NwLine(lines[i]) == x
  {
    MapLinesMember(NwLine, lines, x);
    KeptLinesMember(MapLines(NwLine, lines), x);
  }

  lemma MapLinesMember(f: string -> string, lines: seq<string>, x: string)
    ensures x in MapLines(f, lines) <==> exists i :: 0 <= i < |lines| && f(lines[i]) == x
  {
    var p := MapLines(f, lines);
    if x in p {
      var i :| 0 <= i < |p| && p[i] == x;
      assert f(lines[i]) == x;
    }
    if exists i :: 0 <= i < |lines| && f(lines[i]) == x {
      var i :| 0 <= i < |lines| && f(lines[i]) == x;
      assert p[i] == x;
    }
  }

  // ---------------------------------------------------------------------------
  // Comparing two lines

  /** Two tokens match: compared as numbers when `toNumber` (Python's `float`) accepts
      both, where `differ` is `!=` on the numbers; otherwise compared as text. */
  predicate TokensMatch<F>(a: string, b: string, toNumber: string -> Option<F>, differ: (F, F) -> bool) {
    if toNumber(a).Some? && toNumber(b).Some? then !differ(toNumber(a).value, toNumber(b).value)
    else a == b
  }

  /** What `_lines_equivalent` decides: equal lines, or the same number of tokens after
      splitting on runs of spaces with every pair of tokens matching. */
  predicate Equivalent<F>(line1: string, line2: string, toNumber: string -> Option<F>, differ: (F, F) -> bool) {
    line1 == line2 ||
    (var t1 := SplitSpaces(line1);
     var t2 := SplitSpaces(line2);
     |t1| == |t2| && forall i :: 0 <= i < |t1| ==> TokensMatch(t1[i], t2[i], toNumber, differ))
  }

  method LinesEquivalent<F>(line1: string, line2: string, toNumber: string -> Option<F>, differ: (F, F) -> bool)
    returns (same: bool)
    ensures same == Equivalent(line1, line2, toNumber, differ)
  {
    if line1 == line2 {
      return true;
    }
    var splt1 := SplitSpaces(line1);
    var splt2 := SplitSpaces(line2);
    if |splt1| != |splt2| {
      return false;
    }
    for i := 0 to |splt1|
      invariant forall j :: 0 <= j < i ==> TokensMatch(splt1[j], splt2[j], toNumber, differ)
    {
      var x1 := toNumber(splt1[i]);
      var x2 := toNumber(splt2[i]);
      if x1.Some? && x2.Some? {
        if differ(x1.value, x2.value) {
          return false;
        }
      } else if splt1[i] != splt2[i] {
        return false;
      }
    }
    return true;
  }

  /** Lines that split into different numbers of tokens are never equivalent. */
  lemma TokenCountsDiffer<F>(line1: string, line2: string, toNumber: string -> Option<F>, differ: (F, F) -> bool)
    requires |SplitSpaces(line1)| != |SplitSpaces(line2)|
    ensures !Equivalent(line1, line2, toNumber, differ)
  {
  }

  /** The relation is symmetric when `differ` is. */
  lemma EquivalentSymmetric<F>(line1: string, line2: string, toNumber: string -> Option<F>, differ: (F, F) -> bool)
    requires forall x, y :: differ(x, y) == differ(y, x)
    ensures Equivalent(line1, line2, toNumber, differ) == Equivalent(line2, line1, toNumber, differ)
  {
    var t1 := SplitSpaces(line1);
    var t2 := SplitSpaces(line2);
    if |t1| == |t2| {
      forall i | 0 <= i < |t1|
        ensures TokensMatch(t1[i], t2[i], toNumber, differ) == TokensMatch(t2[i], t1[i], toNumber, differ)
      {
        var x1, x2 := toNumber(t1[i]), toNumber(t2[i]);
        if x1.Some? && x2.Some? {
          DifferSymmetric(differ, x1.value, x2.value);
        }
      }
    }
  }

  /** Lines that differ only in the length of their runs of spaces are equivalent, given
      that none of their numeric tokens differs from itself. Python's `float` `!=` makes
      a NaN token differ from itself, and `NaNBreaksSpacing` shows that case. */
  lemma SpacingIgnored<F>(line1: string, line2: string, toNumber: string -> Option<F>, differ: (F, F) -> bool)
    requires Collapse(line1) == Collapse(line2)
    requires forall t :: t in SplitSpaces(line1) && toNumber(t).Some? ==> !differ(toNumber(t).value, toNumber(t).value)
    ensures Equivalent(line1, line2, toNumber, differ)
  {
    SplitSpacesCollapse(line1);
    SplitSpacesCollapse(line2);
    var t := SplitSpaces(line1);
    forall i | 0 <= i < |t| ensures TokensMatch(t[i], t[i], toNumber, differ) {
      assert t[i] in t;
    }
  }

  /** In the other case the spacing does matter: two different lines with the same
      tokens are not equivalent when one numeric token differs from itself, as
      `"nan  1"` and `"nan 1"` are not. */
  lemma NaNBreaksSpacing<F>(line1: string, line2: string, toNumber: string -> Option<F>, differ: (F, F) -> bool, i: nat)
    requires line1 != line2 && Collapse(line1) == Collapse(line2)
    requires i < |SplitSpaces(line1)|
    requires var t := SplitSpaces(line1)[i]; toNumber(t).Some? && differ(toNumber(t).value, toNumber(t).value)
    ensures !Equivalent(line1, line2, toNumber, differ)
  {
    SplitSpacesCollapse(line1);
    SplitSpacesCollapse(line2);
  }

  /** Instantiates a symmetric `differ` at two values that came out of `toNumber`: the
      call hands the verifier their type, which an inline assertion does not have. */
  lemma DifferSymmetric<F>(differ: (F, F) -> bool, a: F, b: F)
    requires forall x, y :: differ(x, y) == differ(y, x)
    ensures differ(a, b) == differ(b, a)
  {
  }
}

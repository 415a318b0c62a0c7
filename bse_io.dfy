/** The dictionary logic of the JSON layer. `sort_basis_dict` puts the keys of a basis-set
    dictionary into the standard order, recursively, so that written files read well;
    `merge_element_data` combines the data for one element coming from several component
    files: shells and references are concatenated, at most one ECP is allowed, and the
    shells end up stably sorted by angular momentum. */
module BseIo {
  import opened Basis
  import opened JsonValue
  import opened StableSort

  // ---------------------------------------------------------------------------------------
  // sort_basis_dict
  // ---------------------------------------------------------------------------------------

  /** The named keys in their standard order. */
  const KeyOrder: seq<string> := [
    "molssi_bse_magic",
    "basisSetName", "basisSetDescription",
    "basisSetRole", "basisSetElements", "elementReferences", "elementECPElectrons",
    "elementElectronShells", "elementECP", "elementComponents", "elementEntry",
    "shellFunctionType", "shellHarmonicType", "shellRegion", "shellAngularMomentum",
    "shellExponents", "shellCoefficients", "potentialECPType", "potentialAngularMomentum",
    "potentialRExponents", "potentialGaussianExponents", "potentialCoefficients"
  ]

  /** The integer keys `0 .. ElementKeyCount - 1` follow the named keys. */
  const ElementKeyCount: nat := 150

  const ShellsKey := Name("elementElectronShells")

  /** The first position of `n` in `names`. */
  function NameRank(n: string, names: seq<string>): (r: Option<nat>)
    ensures r.Some? ==> r.value < |names| && names[r.value] == n
    ensures r.None? <==> n !in names
  {
    if |names| == 0 then None
    else if names[0] == n then Some(0)
    else
      match NameRank(n, names[1..])
      case None => None
      case Some(i) => Some(i + 1)
  }

  /** `keyorder.index(k)`; None where Python raises ValueError. */
  function Rank(k: Key): Option<nat> {
    match k
    case Name(n) => NameRank(n, KeyOrder)
    case Index(i) => if 0 <= i < ElementKeyCount then Some(|KeyOrder| + i) else None
  }

  /** A named key has a rank exactly when it is one of the standard names, an integer key
      exactly when it is below 150; every named key comes before every integer key, and the
      integer keys come in numeric order. */
  lemma RankOrder(n: string, i: int, i2: int)
    ensures Rank(Name(n)).Some? <==> n in KeyOrder
    ensures Rank(Index(i)).Some? <==> 0 <= i < 150
    ensures Rank(Name(n)).Some? && Rank(Index(i)).Some? ==> Rank(Name(n)).value < Rank(Index(i)).value
    ensures 0 <= i < i2 < 150 ==> Rank(Index(i)).value < Rank(Index(i2)).value
  {
  }

  /** The sort key of a dictionary entry: its rank as a one-element list. */
  function EntryKey(e: (Key, Json)): seq<int> {
    match Rank(e.0)
    case Some(r) => [r]
    case None => []
  }

  predicate AllRanked(es: Entries) {
    forall m :: 0 <= m < |es| ==> Rank(es[m].0).Some?
  }

  /** `sort_basis_dict(bs)`: the entries sorted by rank, then every dictionary value sorted
      in turn and every element of an `elementElectronShells` list sorted in turn. */
  function SortedDict(j: Json): Result<Json>
    decreases j, 2
  {
    if !j.JDict? then Err(AttributeError)
    else if !AllRanked(j.entries) then Err(ValueError)
    else
      SortedMembers(j.entries);
      var r := ResortFrom(SortBy(j.entries, EntryKey), 0, j);
      if r.Err? then Err(r.error) else Ok(JDict(r.value))
  }

  /** The loop over the sorted entries from position `i` on, replacing each value in place. */
  function ResortFrom(es: Entries, i: nat, parent: Json): Result<Entries>
    requires parent.JDict? && i <= |es|
    requires forall m :: i <= m < |es| ==> es[m] in parent.entries
    decreases parent, 1, |es| - i
  {
    if i == |es| then Ok(es)
    else
      var c := SortedValue(es[i].0, es[i].1);
      if c.Err? then Err(c.error) else ResortFrom(es[i := (es[i].0, c.value)], i + 1, parent)
  }

  /** The new value of the entry `k: v`. */
  function SortedValue(k: Key, v: Json): Result<Json>
    decreases v, 3
  {
    if v.JDict? then SortedDict(v)
    else if k == ShellsKey then SortedShells(v)
    else Ok(v)
  }

  /** `[sort_basis_dict(x) for x in v]`; a string's characters are not dictionaries. */
  function SortedShells(v: Json): Result<Json>
    requires !v.JDict?
    decreases v, 1
  {
    match v
    case JList(xs) =>
      var r := SortItems(xs, 0, v);
      if r.Err? then Err(r.error) else Ok(JList(r.value))
    case JString(t) => if |t| == 0 then Ok(JList([])) else Err(AttributeError)
    case JNumber(_) => Err(TypeError)
  }

  function SortItems(xs: seq<Json>, i: nat, parent: Json): Result<seq<Json>>
    requires parent.JList? && i <= |xs|
    requires forall m :: i <= m < |xs| ==> xs[m] in parent.items
    decreases parent, 0, |xs| - i
  {
    if i == |xs| then Ok(xs)
    else
      var c := SortedDict(xs[i]);
      if c.Err? then Err(c.error) else SortItems(xs[i := c.value], i + 1, parent)
  }

  lemma SortedMembers(es: Entries)
    ensures |SortBy(es, EntryKey)| == |es|
    ensures forall m :: 0 <= m < |es| ==> SortBy(es, EntryKey)[m] in es
  {
    SortByPermutes(es, EntryKey);
    forall m | 0 <= m < |es| ensures SortBy(es, EntryKey)[m] in es {
      assert SortBy(es, EntryKey)[m] in multiset(SortBy(es, EntryKey));
    }
  }

  /** `sort_basis_dict`: sorts the entries, then walks the sorted dictionary reassigning the
      values that are dictionaries or shell lists. */
  method SortBasisDict(bs: Json) returns (r: Result<Json>)
    ensures r == SortedDict(bs)
    decreases bs, 0
  {
    if !bs.JDict? {
      return Err(AttributeError);
    }
    if !AllRanked(bs.entries) {
      return Err(ValueError);
    }
    SortedMembers(bs.entries);
    var sorted := SortBy(bs.entries, EntryKey);
    var out := sorted;
    var i := 0;
    while i < |out|
      invariant 0 <= i <= |out|
      invariant forall m :: i <= m < |out| ==> out[m] in bs.entries
      invariant ResortFrom(sorted, 0, bs) == ResortFrom(out, i, bs)
    {
      var c := SortEntryValue(out[i].0, out[i].1);
      if c.Err? {
        return Err(c.error);
      }
      ResortStep(out, i, bs, c.value);
      out := out[i := (out[i].0, c.value)];
      i := i + 1;
    }
    return Ok(JDict(out));
  }

  /** The body of the walk: a dictionary value is sorted recursively, a shell list element
      by element, and any other value stays as it is. */
  method SortEntryValue(k: Key, v: Json) returns (c: Result<Json>)
    ensures c == SortedValue(k, v)
    decreases v, 1
  {
    if v.JDict? {
      c := SortBasisDict(v);
    } else if k == ShellsKey {
      c := SortedShells(v);
    } else {
      c := Ok(v);
    }
  }

  lemma ResortStep(es: Entries, i: nat, parent: Json, c: Json)
    requires parent.JDict? && i < |es|
    requires forall m :: i <= m < |es| ==> es[m] in parent.entries
    requires SortedValue(es[i].0, es[i].1) == Ok(c)
    ensures ResortFrom(es, i, parent) == ResortFrom(es[i := (es[i].0, c)], i + 1, parent)
  {
  }

  /** The result of the walk: entries before `i` untouched, the others with their new values. */
  lemma {:induction false} ResortFromAt(es: Entries, i: nat, parent: Json, m: nat)
    requires parent.JDict? && i <= |es|
    requires forall p :: i <= p < |es| ==> es[p] in parent.entries
    requires ResortFrom(es, i, parent).Ok? && m < |es|
    ensures |ResortFrom(es, i, parent).value| == |es|
    ensures ResortFrom(es, i, parent).value[m].0 == es[m].0
    ensures m < i ==> ResortFrom(es, i, parent).value[m] == es[m]
    ensures i <= m ==> SortedValue(es[m].0, es[m].1) == Ok(ResortFrom(es, i, parent).value[m].1)
    decreases |es| - i
  {
    if i < |es| {
      var c := SortedValue(es[i].0, es[i].1);
      ResortFromAt(es[i := (es[i].0, c.value)], i + 1, parent, m);
    }
  }

  /** An entry of the sorted dictionary is an entry of the input with its new value. */
  predicate Resorted(e: (Key, Json), o: (Key, Json)) {
    o.0 == e.0 && SortedValue(e.0, e.1) == Ok(o.1)
  }

  lemma SortedDictShape(j: Json, i: nat)
    requires SortedDict(j).Ok?
    ensures j.JDict? && SortedDict(j).value.JDict?
    ensures |SortedDict(j).value.entries| == |j.entries|
    ensures i < |j.entries| ==> Resorted(SortBy(j.entries, EntryKey)[i], SortedDict(j).value.entries[i])
  {
    SortedMembers(j.entries);
    if i < |j.entries| {
      ResortFromAt(SortBy(j.entries, EntryKey), 0, j, i);
    } else if |j.entries| > 0 {
      ResortFromAt(SortBy(j.entries, EntryKey), 0, j, 0);
    }
  }

  /** Every entry of the input appears in the sorted dictionary, with its new value. */
  lemma SortedDictKeepsPairs(j: Json, m: nat)
    requires SortedDict(j).Ok? && j.JDict? && m < |j.entries|
    ensures exists i :: 0 <= i < |SortedDict(j).value.entries| && Resorted(j.entries[m], SortedDict(j).value.entries[i])
  {
    var sorted := SortBy(j.entries, EntryKey);
    SortByPermutes(j.entries, EntryKey);
    assert j.entries[m] in multiset(sorted);
    var p :| 0 <= p < |sorted| && sorted[p] == j.entries[m];
    SortedDictShape(j, p);
  }

  /** Every entry of the sorted dictionary comes from an entry of the input. */
  lemma SortedDictFromPairs(j: Json, i: nat)
    requires SortedDict(j).Ok? && i < |SortedDict(j).value.entries|
    ensures j.JDict?
    ensures exists m :: 0 <= m < |j.entries| && Resorted(j.entries[m], SortedDict(j).value.entries[i])
  {
    SortedDictShape(j, i);
    SortedMembers(j.entries);
    var e := SortBy(j.entries, EntryKey)[i];
    assert e in j.entries;
    var m :| 0 <= m < |j.entries| && j.entries[m] == e;
  }

  /** Values that are neither dictionaries nor shell lists are carried over unchanged. */
  lemma SortedDictKeepsOthers(j: Json, m: nat)
    requires SortedDict(j).Ok? && j.JDict? && m < |j.entries|
    requires !j.entries[m].1.JDict? && j.entries[m].0 != ShellsKey
    ensures j.entries[m] in SortedDict(j).value.entries
  {
    SortedDictKeepsPairs(j, m);
  }

  /** The sorted dictionary lists its keys by rank. */
  lemma SortedDictOrdered(j: Json)
    requires SortedDict(j).Ok?
    ensures Sorted(SortedDict(j).value.entries, EntryKey)
  {
    SortedDictShape(j, 0);
    var out := SortedDict(j).value.entries;
    var sorted := SortBy(j.entries, EntryKey);
    SortBySorted(j.entries, EntryKey);
    forall i | 0 <= i < |out| ensures EntryKey(out[i]) == EntryKey(sorted[i]) {
      SortedDictShape(j, i);
    }
  }

  /** A key outside the standard order makes the sort raise ValueError. */
  lemma UnknownKeyRaises(j: Json, m: nat)
    requires j.JDict? && m < |j.entries| && Rank(j.entries[m].0).None?
    ensures SortedDict(j) == Err(ValueError)
  {
  }

  /** A shell list is sorted element by element. */
  lemma {:induction false} SortItemsAt(xs: seq<Json>, i: nat, parent: Json, m: nat)
    requires parent.JList? && i <= |xs|
    requires forall p :: i <= p < |xs| ==> xs[p] in parent.items
    requires SortItems(xs, i, parent).Ok? && m < |xs|
    ensures |SortItems(xs, i, parent).value| == |xs|
    ensures m < i ==> SortItems(xs, i, parent).value[m] == xs[m]
    ensures i <= m ==> SortedDict(xs[m]) == Ok(SortItems(xs, i, parent).value[m])
    decreases |xs| - i
  {
    if i < |xs| {
      SortItemsAt(xs[i := SortedDict(xs[i]).value], i + 1, parent, m);
    }
  }

  /** Under `elementElectronShells` every element of the list is itself sorted. */
  lemma SortedShellsItems(v: Json, m: nat)
    requires v.JList? && SortedShells(v).Ok?
    ensures SortedShells(v).value.JList? && |SortedShells(v).value.items| == |v.items|
    ensures m < |v.items| ==> SortedDict(v.items[m]) == Ok(SortedShells(v).value.items[m])
  {
    if m < |v.items| {
      SortItemsAt(v.items, 0, v, m);
    } else if |v.items| > 0 {
      SortItemsAt(v.items, 0, v, 0);
    }
  }

  /** A walk over values that are already sorted changes nothing. */
  lemma {:induction false} ResortFromFixed(es: Entries, i: nat, parent: Json)
    requires parent.JDict? && i <= |es|
    requires forall p :: i <= p < |es| ==> es[p] in parent.entries
    requires forall p :: i <= p < |es| ==> SortedValue(es[p].0, es[p].1) == Ok(es[p].1)
    ensures ResortFrom(es, i, parent) == Ok(es)
    decreases |es| - i
  {
    if i < |es| {
      assert es[i := (es[i].0, es[i].1)] == es;
      ResortFromFixed(es, i + 1, parent);
    }
  }

  lemma {:induction false} SortItemsFixed(xs: seq<Json>, i: nat, parent: Json)
    requires parent.JList? && i <= |xs|
    requires forall p :: i <= p < |xs| ==> xs[p] in parent.items
    requires forall p :: i <= p < |xs| ==> SortedDict(xs[p]) == Ok(xs[p])
    ensures SortItems(xs, i, parent) == Ok(xs)
    decreases |xs| - i
  {
    if i < |xs| {
      assert xs[i := xs[i]] == xs;
      SortItemsFixed(xs, i + 1, parent);
    }
  }

  /** Sorting a sorted dictionary gives it back unchanged. */
  lemma {:induction false} SortedDictIdempotent(j: Json)
    requires SortedDict(j).Ok?
    ensures SortedDict(SortedDict(j).value) == SortedDict(j)
    decreases j, 2
  {
    SortedDictShape(j, 0);
    var o := SortedDict(j).value;
    var out := o.entries;
    var sorted := SortBy(j.entries, EntryKey);
    SortedMembers(j.entries);
    forall i | 0 <= i < |out|
      ensures Rank(out[i].0).Some?
      ensures SortedValue(out[i].0, out[i].1) == Ok(out[i].1)
    {
      SortedDictShape(j, i);
      assert sorted[i] in j.entries;
      SortedValueIdempotent(sorted[i].0, sorted[i].1);
    }
    SortedDictOrdered(j);
    SortByOfSorted(out, EntryKey);
    ResortFromFixed(out, 0, o);
  }

  lemma {:induction false} SortedValueIdempotent(k: Key, v: Json)
    requires SortedValue(k, v).Ok?
    ensures SortedValue(k, SortedValue(k, v).value) == SortedValue(k, v)
    decreases v, 3
  {
    if v.JDict? {
      SortedDictIdempotent(v);
    } else if k == ShellsKey && v.JList? {
      SortedShellsItems(v, 0);
      var w := SortedShells(v).value;
      forall m | 0 <= m < |v.items|
        ensures SortedDict(w.items[m]) == Ok(w.items[m])
      {
        SortedShellsItems(v, m);
        SortedDictIdempotent(v.items[m]);
      }
      SortItemsFixed(w.items, 0, w);
    } else if k == ShellsKey && v.JString? {
      assert SortItems([], 0, JList([])) == Ok([]);
    }
  }

  // ---------------------------------------------------------------------------------------
  // merge_element_data
  // ---------------------------------------------------------------------------------------

  const EcpKey := Name("elementECP")
  const EcpElectronsKey := Name("elementECPElectrons")
  const ReferencesKey := Name("elementReferences")
  const AmKey := Name("shellAngularMomentum")

  /** `ret[key].extend(s[key])`, after `ret[key] = []` when `ret` lacks the key. */
  function Extended(ret: Entries, s: Entries, key: Key): Result<Entries>
    requires Has(s, key)
  {
    var base := if Has(ret, key) then ret else Set(ret, key, JList([]));
    var cur := Get(base, key);
    if !cur.JList? then Err(AttributeError)
    else
      var add := Iterate(Get(s, key));
      if add.Err? then Err(add.error) else Ok(Set(base, key, JList(cur.items + add.value)))
  }

  /** Taking the ECP of `s`: an ECP already present is an error, and the core-electron
      count comes along with the ECP. */
  function TakeEcp(ret: Entries, s: Entries): Result<Entries>
    requires Has(s, EcpKey)
  {
    if Has(ret, EcpKey) then Err(RuntimeError)
    else if !Has(s, EcpElectronsKey) then Err(KeyError)
    else Ok(Set(Set(ret, EcpKey, Get(s, EcpKey)), EcpElectronsKey, Get(s, EcpElectronsKey)))
  }

  /** One pass of the loop over the sources. */
  function MergeStep(ret: Entries, s: Entries): Result<Entries> {
    var r1 := if Has(s, ShellsKey) then Extended(ret, s, ShellsKey) else Ok(ret);
    if r1.Err? then r1
    else
      var r2 := if Has(s, EcpKey) then TakeEcp(r1.value, s) else r1;
      if r2.Err? then r2
      else if Has(s, ReferencesKey) then Extended(r2.value, s, ReferencesKey)
      else r2
  }

  /** The loop over the sources from position `i` on. */
  function Folded(ret: Entries, sources: seq<Entries>, i: nat): Result<Entries>
    requires i <= |sources|
    decreases |sources| - i
  {
    if i == |sources| then Ok(ret)
    else
      var r := MergeStep(ret, sources[i]);
      if r.Err? then r else Folded(r.value, sources, i + 1)
  }

  predicate IsIntList(v: Json) {
    v.JList? && forall m :: 0 <= m < |v.items| ==> v.items[m].JNumber?
  }

  /** `x['shellAngularMomentum']` fails for a value that is not a dictionary, or that has
      no such key, or whose angular momentum is not a list of integers. */
  function AmError(x: Json): Option<Error> {
    if !x.JDict? then Some(TypeError)
    else if !Has(x.entries, AmKey) then Some(KeyError)
    else if !IsIntList(Get(x.entries, AmKey)) then Some(TypeError)
    else None
  }

  /** The sort key of a shell: its angular momentum list. */
  function ShellAm(x: Json): seq<int> {
    if AmError(x).Some? then []
    else
      var am := Get(x.entries, AmKey);
      seq(|am.items|, m requires 0 <= m < |am.items| => am.items[m].number)
  }

  /** Python computes every key before it compares: the first failing key raises. */
  function FirstAmError(xs: seq<Json>): Option<Error> {
    if |xs| == 0 then None
    else if AmError(xs[0]).Some? then AmError(xs[0])
    else FirstAmError(xs[1..])
  }

  /** `ret['elementElectronShells'].sort(key=lambda x: x['shellAngularMomentum'])`. */
  function ShellsSorted(ret: Entries): Result<Entries> {
    if !Has(ret, ShellsKey) then Err(KeyError)
    else
      var v := Get(ret, ShellsKey);
      if !v.JList? then Err(AttributeError)
      else if FirstAmError(v.items).Some? then Err(FirstAmError(v.items).value)
      else Ok(Set(ret, ShellsKey, JList(SortBy(v.items, ShellAm))))
  }

  /** `merge_element_data(dest, sources)`. */
  function Merged(dest: Entries, sources: seq<Entries>): Result<Entries> {
    var r := Folded(dest, sources, 0);
    if r.Err? then r else ShellsSorted(r.value)
  }

  /** `ret[key].extend(s[key])`, creating the list first when `ret` lacks it. */
  method ExtendList(ret: Entries, s: Entries, key: Key) returns (r: Result<Entries>)
    requires Has(s, key)
    ensures r == Extended(ret, s, key)
  {
    var d := ret;
    if !Has(d, key) {
      d := Set(d, key, JList([]));
    }
    var cur := Get(d, key);
    if !cur.JList? {
      return Err(AttributeError);
    }
    var add := Iterate(Get(s, key));
    if add.Err? {
      return Err(add.error);
    }
    return Ok(Set(d, key, JList(cur.items + add.value)));
  }

  /** `ret['elementECP'] = s['elementECP']` and the core-electron count, refusing a second ECP. */
  method CopyEcp(ret: Entries, s: Entries) returns (r: Result<Entries>)
    requires Has(s, EcpKey)
    ensures r == TakeEcp(ret, s)
  {
    if Has(ret, EcpKey) {
      return Err(RuntimeError);
    }
    var withEcp := Set(ret, EcpKey, Get(s, EcpKey));
    if !Has(s, EcpElectronsKey) {
      return Err(KeyError);
    }
    return Ok(Set(withEcp, EcpElectronsKey, Get(s, EcpElectronsKey)));
  }

  /** The body of the loop over the sources: shells, then the ECP, then references. */
  method MergeSource(ret: Entries, s: Entries) returns (r: Result<Entries>)
    ensures r == MergeStep(ret, s)
  {
    r := Ok(ret);
    if Has(s, ShellsKey) {
      r := ExtendList(ret, s, ShellsKey);
    }
    if r.Ok? && Has(s, EcpKey) {
      r := CopyEcp(r.value, s);
    }
    if r.Ok? && Has(s, ReferencesKey) {
      r := ExtendList(r.value, s, ReferencesKey);
    }
  }

  /** The final in-place sort of `ret['elementElectronShells']`. */
  method SortShellList(ret: Entries) returns (r: Result<Entries>)
    ensures r == ShellsSorted(ret)
  {
    if !Has(ret, ShellsKey) {
      return Err(KeyError);
    }
    var shells := Get(ret, ShellsKey);
    if !shells.JList? {
      return Err(AttributeError);
    }
    var e := FirstAmError(shells.items);
    if e.Some? {
      return Err(e.value);
    }
    return Ok(Set(ret, ShellsKey, JList(SortBy(shells.items, ShellAm))));
  }

  /** `merge_element_data`: a shallow copy of `dest`, extended source by source, with its
      shells sorted in place at the end. */
  method MergeElementData(dest: Entries, sources: seq<Entries>) returns (r: Result<Entries>)
    ensures r == Merged(dest, sources)
  {
    var ret := dest;
    var i := 0;
    while i < |sources|
      invariant 0 <= i <= |sources|
      invariant Folded(dest, sources, 0) == Folded(ret, sources, i)
    {
      var step := MergeSource(ret, sources[i]);
      if step.Err? {
        return step;
      }
      ret := step.value;
      i := i + 1;
    }
    r := SortShellList(ret);
  }

  // Properties of the merge.

  /** `a` and `b` agree on key `k`: both lack it, or both hold the same value. */
  predicate SameAt(a: Entries, b: Entries, k: Key) {
    Has(a, k) == Has(b, k) && (Has(a, k) ==> Get(a, k) == Get(b, k))
  }

  /** What iterating over the value under `key` yields; nothing when there is no such key. */
  function ItemsOf(es: Entries, key: Key): seq<Json> {
    if Has(es, key) && Iterate(Get(es, key)).Ok? then Iterate(Get(es, key)).value else []
  }

  /** The items the sources from position `i` on hold under `key`, in source order. */
  function SourceItems(sources: seq<Entries>, i: nat, key: Key): seq<Json>
    requires i <= |sources|
    decreases |sources| - i
  {
    if i == |sources| then [] else ItemsOf(sources[i], key) + SourceItems(sources, i + 1, key)
  }

  /** The keys the loop writes for source `s`. */
  predicate Writes(s: Entries, k: Key) {
    || (k == ShellsKey && Has(s, ShellsKey))
    || ((k == EcpKey || k == EcpElectronsKey) && Has(s, EcpKey))
    || (k == ReferencesKey && Has(s, ReferencesKey))
  }

  /** Extending a list appends the source's items and touches no other key. */
  lemma ExtendedItems(ret: Entries, s: Entries, key: Key, other: Key)
    requires Has(s, key) && Extended(ret, s, key).Ok?
    ensures ItemsOf(Extended(ret, s, key).value, key) == ItemsOf(ret, key) + ItemsOf(s, key)
    ensures other != key ==> SameAt(ret, Extended(ret, s, key).value, other)
  {
    var base := if Has(ret, key) then ret else Set(ret, key, JList([]));
    var cur := Get(base, key);
    var add := Iterate(Get(s, key)).value;
    assert Extended(ret, s, key).value == Set(base, key, JList(cur.items + add));
    if other != key {
      if !Has(ret, key) {
        SetOther(ret, key, JList([]), other);
      }
      SetOther(base, key, JList(cur.items + add), other);
    }
  }

  /** Taking an ECP writes the ECP and its electron count and no other key. */
  lemma TakeEcpOther(ret: Entries, s: Entries, other: Key)
    requires Has(s, EcpKey) && TakeEcp(ret, s).Ok?
    ensures Has(TakeEcp(ret, s).value, EcpKey) && Get(TakeEcp(ret, s).value, EcpKey) == Get(s, EcpKey)
    ensures Has(s, EcpElectronsKey)
    ensures Get(TakeEcp(ret, s).value, EcpElectronsKey) == Get(s, EcpElectronsKey)
    ensures other != EcpKey && other != EcpElectronsKey ==> SameAt(ret, TakeEcp(ret, s).value, other)
  {
    var withEcp := Set(ret, EcpKey, Get(s, EcpKey));
    SetOther(withEcp, EcpElectronsKey, Get(s, EcpElectronsKey), EcpKey);
    if other != EcpKey && other != EcpElectronsKey {
      SetOther(ret, EcpKey, Get(s, EcpKey), other);
      SetOther(withEcp, EcpElectronsKey, Get(s, EcpElectronsKey), other);
    }
  }

  /** One source leaves every key it does not write as it was. */
  lemma MergeStepOther(ret: Entries, s: Entries, k: Key)
    requires MergeStep(ret, s).Ok? && !Writes(s, k)
    ensures SameAt(ret, MergeStep(ret, s).value, k)
  {
    var r1 := if Has(s, ShellsKey) then Extended(ret, s, ShellsKey) else Ok(ret);
    if Has(s, ShellsKey) {
      ExtendedItems(ret, s, ShellsKey, k);
    }
    var r2 := if Has(s, EcpKey) then TakeEcp(r1.value, s) else r1;
    if Has(s, EcpKey) {
      TakeEcpOther(r1.value, s, k);
    }
    if Has(s, ReferencesKey) {
      ExtendedItems(r2.value, s, ReferencesKey, k);
    }
  }

  /** One source appends its shells and its references to those gathered so far. */
  lemma MergeStepItems(ret: Entries, s: Entries, key: Key)
    requires key == ShellsKey || key == ReferencesKey
    requires MergeStep(ret, s).Ok?
    ensures ItemsOf(MergeStep(ret, s).value, key) == ItemsOf(ret, key) + ItemsOf(s, key)
  {
    if !Has(s, key) {
      MergeStepOther(ret, s, key);
      assert ItemsOf(s, key) == [];
    } else {
      var r1 := if Has(s, ShellsKey) then Extended(ret, s, ShellsKey) else Ok(ret);
      if Has(s, ShellsKey) {
        ExtendedItems(ret, s, ShellsKey, key);
      }
      var r2 := if Has(s, EcpKey) then TakeEcp(r1.value, s) else r1;
      if Has(s, EcpKey) {
        TakeEcpOther(r1.value, s, key);
      }
      if Has(s, ReferencesKey) {
        ExtendedItems(r2.value, s, ReferencesKey, key);
      }
    }
  }

  lemma {:induction false} FoldedItems(ret: Entries, sources: seq<Entries>, i: nat, key: Key)
    requires key == ShellsKey || key == ReferencesKey
    requires i <= |sources| && Folded(ret, sources, i).Ok?
    ensures ItemsOf(Folded(ret, sources, i).value, key) == ItemsOf(ret, key) + SourceItems(sources, i, key)
    decreases |sources| - i
  {
    if i < |sources| {
      var r := MergeStep(ret, sources[i]).value;
      MergeStepItems(ret, sources[i], key);
      FoldedItems(r, sources, i + 1, key);
      ItemsChain(ret, r, Folded(r, sources, i + 1).value, sources, i, key);
    }
  }

  lemma ItemsChain(ret: Entries, r: Entries, out: Entries, sources: seq<Entries>, i: nat, key: Key)
    requires i < |sources|
    requires ItemsOf(r, key) == ItemsOf(ret, key) + ItemsOf(sources[i], key)
    requires ItemsOf(out, key) == ItemsOf(r, key) + SourceItems(sources, i + 1, key)
    ensures ItemsOf(out, key) == ItemsOf(ret, key) + SourceItems(sources, i, key)
  {
    var a, b, c := ItemsOf(ret, key), ItemsOf(sources[i], key), SourceItems(sources, i + 1, key);
    assert SourceItems(sources, i, key) == b + c;
    assert (a + b) + c == a + (b + c);
  }

  lemma {:induction false} FoldedOther(ret: Entries, sources: seq<Entries>, i: nat, k: Key)
    requires i <= |sources| && Folded(ret, sources, i).Ok?
    requires forall m :: i <= m < |sources| ==> !Writes(sources[m], k)
    ensures SameAt(ret, Folded(ret, sources, i).value, k)
    decreases |sources| - i
  {
    if i < |sources| {
      MergeStepOther(ret, sources[i], k);
      FoldedOther(MergeStep(ret, sources[i]).value, sources, i + 1, k);
    }
  }

  /** The merged shells are the destination's followed by each source's, in source order,
      sorted by angular momentum. */
  lemma MergedShells(dest: Entries, sources: seq<Entries>)
    requires Merged(dest, sources).Ok?
    ensures Has(Merged(dest, sources).value, ShellsKey)
    ensures Get(Merged(dest, sources).value, ShellsKey)
      == JList(SortBy(ItemsOf(dest, ShellsKey) + SourceItems(sources, 0, ShellsKey), ShellAm))
  {
    FoldedItems(dest, sources, 0, ShellsKey);
  }

  /** The sort of the merged shells is a stable one: the shells are rearranged, never
      added or dropped, come in order of angular momentum, and shells of equal angular
      momentum keep their order of arrival. */
  lemma MergedShellsOrder(dest: Entries, sources: seq<Entries>, am: seq<int>)
    requires Merged(dest, sources).Ok?
    ensures Get(Merged(dest, sources).value, ShellsKey).JList?
    ensures var all := ItemsOf(dest, ShellsKey) + SourceItems(sources, 0, ShellsKey);
      var shells := Get(Merged(dest, sources).value, ShellsKey).items;
      && multiset(shells) == multiset(all)
      && Sorted(shells, ShellAm)
      && WithKey(shells, ShellAm, am) == WithKey(all, ShellAm, am)
  {
    MergedShells(dest, sources);
    var all := ItemsOf(dest, ShellsKey) + SourceItems(sources, 0, ShellsKey);
    SortByPermutes(all, ShellAm);
    SortBySorted(all, ShellAm);
    SortByStable(all, ShellAm, am);
  }

  /** The merged references are the destination's followed by each source's, in order. */
  lemma MergedReferences(dest: Entries, sources: seq<Entries>)
    requires Merged(dest, sources).Ok?
    ensures ItemsOf(Merged(dest, sources).value, ReferencesKey)
      == ItemsOf(dest, ReferencesKey) + SourceItems(sources, 0, ReferencesKey)
  {
    var folded := Folded(dest, sources, 0).value;
    FoldedItems(dest, sources, 0, ReferencesKey);
    SetOther(folded, ShellsKey, JList(SortBy(Get(folded, ShellsKey).items, ShellAm)), ReferencesKey);
  }

  /** Every key the merge does not handle keeps the destination's value. */
  lemma MergedKeepsOthers(dest: Entries, sources: seq<Entries>, k: Key)
    requires Merged(dest, sources).Ok?
    requires k != ShellsKey && k != EcpKey && k != EcpElectronsKey && k != ReferencesKey
    ensures SameAt(dest, Merged(dest, sources).value, k)
  {
    var folded := Folded(dest, sources, 0).value;
    FoldedOther(dest, sources, 0, k);
    SetOther(folded, ShellsKey, JList(SortBy(Get(folded, ShellsKey).items, ShellAm)), k);
  }

  /** Without an ECP among the sources, the destination's ECP entries are kept. */
  lemma MergedKeepsEcp(dest: Entries, sources: seq<Entries>, k: Key)
    requires Merged(dest, sources).Ok? && (k == EcpKey || k == EcpElectronsKey)
    requires forall m :: 0 <= m < |sources| ==> !Has(sources[m], EcpKey)
    ensures SameAt(dest, Merged(dest, sources).value, k)
  {
    var folded := Folded(dest, sources, 0).value;
    FoldedOther(dest, sources, 0, k);
    SetOther(folded, ShellsKey, JList(SortBy(Get(folded, ShellsKey).items, ShellAm)), k);
  }

  /** When neither the destination nor any source has shells, the final sort raises
      KeyError, unless the loop failed before. */
  lemma MergedWithoutShells(dest: Entries, sources: seq<Entries>)
    requires !Has(dest, ShellsKey) && forall m :: 0 <= m < |sources| ==> !Has(sources[m], ShellsKey)
    ensures Merged(dest, sources).Err?
    ensures Folded(dest, sources, 0).Ok? ==> Merged(dest, sources) == Err(KeyError)
  {
    if Folded(dest, sources, 0).Ok? {
      FoldedOther(dest, sources, 0, ShellsKey);
    }
  }

  /** A source with an ECP, met once the merge holds one, raises RuntimeError. */
  lemma EcpClash(ret: Entries, s: Entries)
    requires Has(ret, EcpKey) && Has(s, EcpKey)
    requires Has(s, ShellsKey) ==> Extended(ret, s, ShellsKey).Ok?
    ensures MergeStep(ret, s) == Err(RuntimeError)
  {
    if Has(s, ShellsKey) {
      ExtendedItems(ret, s, ShellsKey, EcpKey);
    }
  }

  lemma {:induction false} FoldedEcpBlocks(ret: Entries, sources: seq<Entries>, i: nat, m: nat)
    requires i <= m < |sources| && Folded(ret, sources, i).Ok?
    ensures Has(ret, EcpKey) ==> !Has(sources[m], EcpKey)
    decreases |sources| - i
  {
    if Has(ret, EcpKey) {
      FoldedNext(ret, sources, i);
      if Has(sources[i], ShellsKey) {
        ExtendedItems(ret, sources[i], ShellsKey, EcpKey);
      }
      if i < m {
        MergeStepOther(ret, sources[i], EcpKey);
        FoldedEcpBlocks(MergeStep(ret, sources[i]).value, sources, i + 1, m);
      }
    }
  }

  lemma {:induction false} FoldedEcpLater(ret: Entries, sources: seq<Entries>, i: nat, m: nat, m2: nat)
    requires i <= m < m2 < |sources| && Folded(ret, sources, i).Ok? && Has(sources[m], EcpKey)
    ensures !Has(sources[m2], EcpKey)
    decreases |sources| - i
  {
    FoldedNext(ret, sources, i);
    if i == m {
      EcpHeld(ret, sources[i]);
      FoldedEcpBlocks(MergeStep(ret, sources[i]).value, sources, i + 1, m2);
    } else {
      FoldedEcpLater(MergeStep(ret, sources[i]).value, sources, i + 1, m, m2);
    }
  }

  /** The loop goes on from the state one source leaves. */
  lemma FoldedNext(ret: Entries, sources: seq<Entries>, i: nat)
    requires i < |sources| && Folded(ret, sources, i).Ok?
    ensures MergeStep(ret, sources[i]).Ok?
    ensures Folded(MergeStep(ret, sources[i]).value, sources, i + 1) == Folded(ret, sources, i)
  {
  }

  /** After a source with an ECP, the merge holds that ECP and its electron count. */
  lemma EcpHeld(ret: Entries, s: Entries)
    requires MergeStep(ret, s).Ok? && Has(s, EcpKey)
    ensures Has(s, EcpElectronsKey)
    ensures Has(MergeStep(ret, s).value, EcpKey) && Get(MergeStep(ret, s).value, EcpKey) == Get(s, EcpKey)
    ensures Has(MergeStep(ret, s).value, EcpElectronsKey)
    ensures Get(MergeStep(ret, s).value, EcpElectronsKey) == Get(s, EcpElectronsKey)
  {
    var r1 := if Has(s, ShellsKey) then Extended(ret, s, ShellsKey) else Ok(ret);
    var r2 := TakeEcp(r1.value, s);
    TakeEcpOther(r1.value, s, EcpKey);
    if Has(s, ReferencesKey) {
      ExtendedItems(r2.value, s, ReferencesKey, EcpKey);
      ExtendedItems(r2.value, s, ReferencesKey, EcpElectronsKey);
    }
  }

  /** No two of the destination and the sources can both bring an ECP. */
  lemma MergedEcpUnique(dest: Entries, sources: seq<Entries>, m: nat, m2: nat)
    requires Merged(dest, sources).Ok? && m < m2 < |sources|
    ensures !(Has(dest, EcpKey) && Has(sources[m], EcpKey))
    ensures !(Has(sources[m], EcpKey) && Has(sources[m2], EcpKey))
  {
    FoldedEcpBlocks(dest, sources, 0, m);
    if Has(sources[m], EcpKey) {
      FoldedEcpLater(dest, sources, 0, m, m2);
    }
  }

  lemma {:induction false} FoldedEcpCopied(ret: Entries, sources: seq<Entries>, i: nat, m: nat)
    requires i <= m < |sources| && Folded(ret, sources, i).Ok? && Has(sources[m], EcpKey)
    ensures Has(sources[m], EcpElectronsKey)
    ensures SameAt(sources[m], Folded(ret, sources, i).value, EcpKey)
    ensures SameAt(sources[m], Folded(ret, sources, i).value, EcpElectronsKey)
    decreases |sources| - i
  {
    var r := MergeStep(ret, sources[i]).value;
    if i == m {
      EcpHeld(ret, sources[i]);
      forall m2 | m < m2 < |sources| ensures !Has(sources[m2], EcpKey) {
        FoldedEcpLater(ret, sources, i, m, m2);
      }
      FoldedOther(r, sources, i + 1, EcpKey);
      FoldedOther(r, sources, i + 1, EcpElectronsKey);
    } else {
      FoldedEcpCopied(r, sources, i + 1, m);
    }
  }

  /** The ECP of a source comes into the result together with its electron count. */
  lemma MergedEcpCopied(dest: Entries, sources: seq<Entries>, m: nat)
    requires Merged(dest, sources).Ok? && m < |sources| && Has(sources[m], EcpKey)
    ensures Has(sources[m], EcpElectronsKey)
    ensures SameAt(sources[m], Merged(dest, sources).value, EcpKey)
    ensures SameAt(sources[m], Merged(dest, sources).value, EcpElectronsKey)
  {
    var folded := Folded(dest, sources, 0).value;
    FoldedEcpCopied(dest, sources, 0, m);
    var shells := JList(SortBy(Get(folded, ShellsKey).items, ShellAm));
    SetOther(folded, ShellsKey, shells, EcpKey);
    SetOther(folded, ShellsKey, shells, EcpElectronsKey);
  }
}

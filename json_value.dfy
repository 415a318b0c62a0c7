/** The JSON values of the basis-set format as the Python layer holds them: strings,
    integers, lists, and dictionaries that keep their insertion order. Dictionary keys are
    strings, or integers for the atomic numbers under `basisSetElements`. */
module JsonValue {
  import opened Basis

  datatype Key = Name(name: string) | Index(index: int)

  datatype Json =
    | JString(text: string)
    | JNumber(number: int)
    | JList(items: seq<Json>)
    | JDict(entries: seq<(Key, Json)>)

  /** The entries of a dictionary, in insertion order. */
  type Entries = seq<(Key, Json)>

  /** The position of the entry with key `k`, or `|es|` when there is none. */
  function Find(es: Entries, k: Key): (i: nat)
    ensures i <= |es|
    ensures i < |es| ==> es[i].0 == k
  {
    if |es| == 0 then 0 else if es[0].0 == k then 0 else 1 + Find(es[1..], k)
  }

  /** No entry before `Find`'s answer has the key. */
  lemma {:induction false} FindFirst(es: Entries, k: Key)
    ensures forall j :: 0 <= j < Find(es, k) ==> es[j].0 != k
  {
    if |es| > 0 && es[0].0 != k {
      FindFirst(es[1..], k);
      assert forall j :: 1 <= j < Find(es, k) ==> es[j] == es[1..][j - 1];
    }
  }

  /** `k in d`. */
  predicate Has(es: Entries, k: Key) { Find(es, k) < |es| }

  /** `d[k]`. */
  function Get(es: Entries, k: Key): Json
    requires Has(es, k)
  {
    es[Find(es, k)].1
  }

  /** The first position holding `k` is the only position that can be `Find`'s answer. */
  lemma FindUnique(es: Entries, k: Key, i: nat)
    requires i <= |es| && (i < |es| ==> es[i].0 == k)
    requires forall j :: 0 <= j < i ==> es[j].0 != k
    ensures Find(es, k) == i
  {
    FindFirst(es, k);
  }

  /** `d[k] = v`: an existing entry keeps its place, a new one goes last. */
  function Set(es: Entries, k: Key, v: Json): (r: Entries)
    ensures Has(r, k) && Get(r, k) == v
  {
    FindFirst(es, k);
    if Has(es, k) then
      var r := es[Find(es, k) := (k, v)];
      FindUnique(r, k, Find(es, k));
      r
    else
      var r := es + [(k, v)];
      FindUnique(r, k, |es|);
      r
  }

  /** Assigning one key leaves every other key, and its value, as it was. */
  lemma SetOther(es: Entries, k: Key, v: Json, other: Key)
    requires other != k
    ensures Has(Set(es, k, v), other) == Has(es, other)
    ensures Has(es, other) ==> Get(Set(es, k, v), other) == Get(es, other)
  {
    var r := Set(es, k, v);
    var a := Find(es, other);
    FindFirst(es, other);
    FindFirst(es, k);
    if Has(es, k) {
      assert r == es[Find(es, k) := (k, v)];
      FindUnique(r, other, a);
    } else {
      assert r == es + [(k, v)];
      if a < |es| {
        FindUnique(r, other, a);
      } else {
        FindUnique(r, other, |r|);
      }
    }
  }

  /** The elements Python's iteration over a value yields: a list's items, a string's
      characters, a dictionary's keys; an integer is not iterable. */
  function Iterate(v: Json): (r: Result<seq<Json>>)
    ensures v.JList? ==> r == Ok(v.items)
    ensures r.Err? <==> v.JNumber?
  {
    match v
    case JList(items) => Ok(items)
    case JString(t) => Ok(seq(|t|, i requires 0 <= i < |t| => JString([t[i]])))
    case JDict(es) => Ok(seq(|es|, i requires 0 <= i < |es| => KeyValue(es[i].0)))
    case JNumber(_) => Err(TypeError)
  }

  /** A key as the value iteration over a dictionary yields. */
  function KeyValue(k: Key): Json {
    match k
    case Name(n) => JString(n)
    case Index(i) => JNumber(i)
  }
}

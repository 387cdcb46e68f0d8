/** Conversion between loaded YAML documents and configuration values, with merge
    keys (`<<`) resolved on the way in. */
module Yaml {
  import opened Prelude

  const I64_MAX: int := 0x7FFF_FFFF_FFFF_FFFF
  const MERGE_KEY: string := "<<"

  /** A double; not-a-number has one representation here. */
  datatype Float = Nan | PosInf | NegInf | Finite(bits: int)

  /** Reading and printing of doubles by the standard library. */
  datatype FloatText = FloatText(parse: string -> Option<Float>, show: int -> string)

  /** Printing a finite double and reading it again is exact; the YAML spellings of
      the special values are not plain floats. */
  ghost predicate FloatTextOk(ft: FloatText) {
    && (forall b :: ft.parse(ft.show(b)) == Some(Finite(b)))
    && ft.parse(".nan") == None && ft.parse(".inf") == None && ft.parse("-.inf") == None
  }

  /** What the loader produces. */
  datatype Doc =
    | DNull
    | DAlias
    | DBad
    | DBool(b: bool)
    | DInt(i: int)
    | DReal(text: string)
    | DStr(s: string)
    | DArray(items: seq<Doc>)
    | DHash(pairs: seq<DPair>)
  datatype DPair = DPair(key: Doc, val: Doc)

  datatype Number = PosInt(n: nat) | NegInt(i: int) | Float(f: Float)

  datatype Value =
    | Null
    | Bool(b: bool)
    | Num(num: Number)
    | Str(s: string)
    | Sequence(elems: seq<Value>)
    | Mapping(entries: seq<Entry>)
  datatype Entry = Entry(key: Value, val: Value)

  /** An insertion-ordered map as the list of its entries. */
  type Map = seq<Entry>

  predicate Has(m: Map, k: Value) {
    exists i :: 0 <= i < |m| && m[i].key == k
  }

  function Find(m: Map, k: Value): Option<Value> {
    if m == [] then None else if m[0].key == k then Some(m[0].val) else Find(m[1..], k)
  }

  /** `IndexMap::insert`: an existing key keeps its place. */
  function Insert(m: Map, k: Value, v: Value): Map {
    if m == [] then [Entry(k, v)]
    else if m[0].key == k then [Entry(k, v)] + m[1..]
    else [m[0]] + Insert(m[1..], k, v)
  }

  ghost predicate DistinctKeys(m: Map) {
    forall i, j :: 0 <= i < j < |m| ==> m[i].key != m[j].key
  }

  // ---------------------------------------------------------------------
  // Document to value
  // ---------------------------------------------------------------------

  function Lower(s: string): string {
    seq(|s|, i requires 0 <= i < |s| => if 'A' <= s[i] <= 'Z' then 'a' + (s[i] - 'A') else s[i])
  }

  function RealValue(ft: FloatText, s: string): Value {
    if ft.parse(s).Some? then Num(Float(ft.parse(s).value))
    else
      var l := Lower(s);
      if l == ".inf" || l == "inf" then Num(Float(PosInf))
      else if l == "-.inf" || l == "-inf" then Num(Float(NegInf))
      else if l == ".nan" || l == "nan" then Num(Float(Nan))
      else Str(s)
  }

  function ToValue(ft: FloatText, d: Doc): Value
    decreases d
  {
    match d
    case DNull => Null
    case DAlias => Null
    case DBad => Null
    case DBool(b) => Bool(b)
    case DInt(i) => Num(if i >= 0 then PosInt(i) else NegInt(i))
    case DReal(s) => RealValue(ft, s)
    case DStr(s) => Str(s)
    case DArray(items) => Sequence(ToValues(ft, items))
    case DHash(pairs) => Mapping(MergeAll(Own(ft, pairs), Sources(ft, pairs)))
  }

  function ToValues(ft: FloatText, ds: seq<Doc>): seq<Value>
    decreases ds
  {
    if ds == [] then [] else [ToValue(ft, ds[0])] + ToValues(ft, ds[1..])
  }

  predicate IsMergeKey(k: Doc) {
    k == DStr(MERGE_KEY)
  }

  /** The mapping's own entries, in insertion order. */
  function Own(ft: FloatText, pairs: seq<DPair>): Map
    decreases pairs
  {
    if pairs == [] then []
    else
      var n := |pairs| - 1;
      var m := Own(ft, pairs[..n]);
      var e := ToEntry(ft, pairs[n]);
      if IsMergeKey(pairs[n].key) then m else Insert(m, e.key, e.val)
  }

  function ToEntry(ft: FloatText, p: DPair): Entry
    decreases p
  {
    Entry(ToValue(ft, p.key), ToValue(ft, p.val))
  }

  /** The mappings to merge in, left to right and depth first. */
  function Sources(ft: FloatText, pairs: seq<DPair>): seq<Map>
    decreases pairs
  {
    if pairs == [] then []
    else
      var n := |pairs| - 1;
      Sources(ft, pairs[..n]) + PairSources(ft, pairs[n])
  }

  function PairSources(ft: FloatText, p: DPair): seq<Map>
    decreases p
  {
    if IsMergeKey(p.key) then Collect(ft, p.val) else []
  }

  function Collect(ft: FloatText, d: Doc): seq<Map>
    decreases d
  {
    match d
    case DHash(pairs) => [MergeAll(Own(ft, pairs), Sources(ft, pairs))]
    case DArray(items) => CollectAll(ft, items)
    case _ => []
  }

  function CollectAll(ft: FloatText, ds: seq<Doc>): seq<Map>
    decreases ds
  {
    if ds == [] then []
    else CollectAll(ft, ds[..|ds| - 1]) + Collect(ft, ds[|ds| - 1])
  }

  /** Adds the entries of `src` whose keys are not there yet. */
  function MergeOne(m: Map, src: Map): Map
    decreases |src|
  {
    if src == [] then m
    else
      var n := |src| - 1;
      var r := MergeOne(m, src[..n]);
      if Has(r, src[n].key) then r else Insert(r, src[n].key, src[n].val)
  }

  function MergeAll(m: Map, srcs: seq<Map>): Map
    decreases |srcs|
  {
    if srcs == [] then m else MergeOne(MergeAll(m, srcs[..|srcs| - 1]), srcs[|srcs| - 1])
  }

  /** `yaml_to_value`. */
  method YamlToValue(ft: FloatText, d: Doc) returns (v: Value)
    ensures v == ToValue(ft, d)
    decreases d
  {
    match d
    case DNull => v := Null;
    case DAlias => v := Null;
    case DBad => v := Null;
    case DBool(b) => v := Bool(b);
    case DInt(i) => v := Num(if i >= 0 then PosInt(i) else NegInt(i));
    case DReal(s) => v := RealValue(ft, s);
    case DStr(s) => v := Str(s);
    case DArray(items) =>
      var elems, i := [], 0;
      while i < |items|
        invariant 0 <= i <= |items| && elems == ToValues(ft, items[..i])
      {
        var e := YamlToValue(ft, items[i]);
        assert items[..i + 1] == items[..i] + [items[i]];
        ToValuesSnoc(ft, items[..i], items[i]);
        elems, i := elems + [e], i + 1;
      }
      assert items[..i] == items;
      v := Sequence(elems);
    case DHash(pairs) => v := HashToValue(ft, pairs);
  }

  /** `yaml_hash_to_value`: a pass over the pairs, then the merges. */
  method HashToValue(ft: FloatText, pairs: seq<DPair>) returns (v: Value)
    ensures v == Mapping(MergeAll(Own(ft, pairs), Sources(ft, pairs)))
    decreases pairs
  {
    var m: Map, mergeValues: seq<Map>, i := [], [], 0;
    while i < |pairs|
      invariant 0 <= i <= |pairs| && m == Own(ft, pairs[..i]) && mergeValues == Sources(ft, pairs[..i])
    {
      m, mergeValues := AddPair(ft, pairs[i], m, mergeValues);
      assert pairs[..i + 1][..i] == pairs[..i];
      i := i + 1;
    }
    assert pairs[..i] == pairs;
    ghost var own := m;
    var j := 0;
    while j < |mergeValues|
      invariant 0 <= j <= |mergeValues| && m == MergeAll(own, mergeValues[..j])
    {
      m := MergeInto(m, mergeValues[j]);
      assert mergeValues[..j + 1][..j] == mergeValues[..j];
      j := j + 1;
    }
    assert mergeValues[..j] == mergeValues;
    v := Mapping(m);
  }

  /** One turn of the first pass. */
  method AddPair(ft: FloatText, p: DPair, m: Map, mergeValues: seq<Map>) returns (m': Map, mergeValues': seq<Map>)
    ensures m' == if IsMergeKey(p.key) then m else Insert(m, ToEntry(ft, p).key, ToEntry(ft, p).val)
    ensures mergeValues' == mergeValues + PairSources(ft, p)
    decreases p
  {
    m', mergeValues' := m, mergeValues;
    if IsMergeKey(p.key) {
      mergeValues' := CollectMergeValues(ft, p.val, mergeValues);
    } else {
      var k := YamlToValue(ft, p.key);
      var v := YamlToValue(ft, p.val);
      m' := Insert(m, k, v);
    }
  }

  /** The inner merge loop. */
  method MergeInto(m: Map, src: Map) returns (m': Map)
    ensures m' == MergeOne(m, src)
  {
    m' := m;
    var i := 0;
    while i < |src|
      invariant 0 <= i <= |src| && m' == MergeOne(m, src[..i])
    {
      assert src[..i + 1][..i] == src[..i];
      if !Has(m', src[i].key) {
        m' := Insert(m', src[i].key, src[i].val);
      }
      i := i + 1;
    }
    assert src[..i] == src;
  }

  /** `collect_merge_values`: appends to the vector of mappings. */
  method CollectMergeValues(ft: FloatText, d: Doc, mergeValues: seq<Map>) returns (r: seq<Map>)
    ensures r == mergeValues + Collect(ft, d)
    decreases d
  {
    r := mergeValues;
    match d
    case DHash(pairs) =>
      var v := HashToValue(ft, pairs);
      r := r + [v.entries];
    case DArray(items) =>
      var i := 0;
      while i < |items|
        invariant 0 <= i <= |items| && r == mergeValues + CollectAll(ft, items[..i])
      {
        r := CollectMergeValues(ft, items[i], r);
        assert items[..i + 1][..i] == items[..i];
        i := i + 1;
      }
      assert items[..i] == items;
    case _ =>
  }

  // ---------------------------------------------------------------------
  // Ordered maps
  // ---------------------------------------------------------------------

  lemma {:induction false} FindHas(m: Map, k: Value)
    ensures Find(m, k).Some? <==> Has(m, k)
  {
    if m != [] && m[0].key != k {
      FindHas(m[1..], k);
      assert forall i :: 0 < i < |m| ==> m[i] == m[1..][i - 1];
      if Has(m[1..], k) {
        var i :| 0 <= i < |m[1..]| && m[1..][i].key == k;
        assert m[i + 1].key == k;
      }
    }
  }

  lemma {:induction false} FindInsert(m: Map, k: Value, v: Value, q: Value)
    ensures Find(Insert(m, k, v), q) == if q == k then Some(v) else Find(m, q)
  {
    if m != [] && m[0].key != k {
      FindInsert(m[1..], k, v, q);
    }
  }

  /** A new key goes to the end. */
  lemma {:induction false} InsertNew(m: Map, k: Value, v: Value)
    requires !Has(m, k)
    ensures Insert(m, k, v) == m + [Entry(k, v)]
  {
    if m != [] {
      assert !Has(m[1..], k) by {
        assert forall i :: 0 <= i < |m[1..]| ==> m[1..][i] == m[i + 1];
      }
      InsertNew(m[1..], k, v);
    }
  }

  lemma {:induction false} InsertKeys(m: Map, k: Value, v: Value)
    ensures Has(m, k) ==> |Insert(m, k, v)| == |m| && forall i :: 0 <= i < |m| ==> Insert(m, k, v)[i].key == m[i].key
    ensures forall e :: e in Insert(m, k, v) ==> e in m || e == Entry(k, v)
  {
    if m != [] && m[0].key != k {
      InsertKeys(m[1..], k, v);
      if Has(m, k) {
        var i :| 0 <= i < |m| && m[i].key == k;
        assert m[1..][i - 1].key == k;
      }
    }
  }

  lemma {:induction false} InsertDistinct(m: Map, k: Value, v: Value)
    requires DistinctKeys(m)
    ensures DistinctKeys(Insert(m, k, v))
  {
    if Has(m, k) {
      InsertKeys(m, k, v);
    } else {
      InsertNew(m, k, v);
    }
  }

  // ---------------------------------------------------------------------
  // Merge semantics
  // ---------------------------------------------------------------------

  /** The first source that has the key. */
  function FirstOf(srcs: seq<Map>, k: Value): Option<Value> {
    if srcs == [] then None else if Has(srcs[0], k) then Find(srcs[0], k) else FirstOf(srcs[1..], k)
  }

  lemma {:induction false} FindSnoc(m: Map, e: Entry, q: Value)
    ensures Find(m + [e], q) == if Find(m, q).Some? then Find(m, q) else if e.key == q then Some(e.val) else None
  {
    if m == [] {
      assert [] + [e] == [e] && [e][1..] == [];
    } else {
      assert (m + [e])[1..] == m[1..] + [e];
      FindSnoc(m[1..], e, q);
    }
  }

  lemma {:induction false} MergeOneFind(m: Map, src: Map, k: Value)
    ensures Find(MergeOne(m, src), k) == if Has(m, k) then Find(m, k) else Find(src, k)
    decreases |src|
  {
    FindHas(m, k);
    if src != [] {
      var n := |src| - 1;
      var r, e := MergeOne(m, src[..n]), src[n];
      MergeOneFind(m, src[..n], k);
      MergeOneFind(m, src[..n], e.key);
      FindHas(r, e.key);
      FindInsert(r, e.key, e.val, k);
      assert src == src[..n] + [e];
      FindSnoc(src[..n], e, k);
    }
  }

  lemma {:induction false} FirstOfSnoc(srcs: seq<Map>, s: Map, k: Value)
    ensures FirstOf(srcs + [s], k) == if FirstOf(srcs, k).Some? then FirstOf(srcs, k) else Find(s, k)
  {
    FindHas(s, k);
    if srcs == [] {
      assert [] + [s] == [s] && [s][1..] == [];
      assert FirstOf([], k) == None;
    } else {
      FindHas(srcs[0], k);
      assert (srcs + [s])[1..] == srcs[1..] + [s];
      FirstOfSnoc(srcs[1..], s, k);
    }
  }

  /** Own keys win, then the first source that has the key. */
  lemma {:induction false} MergeAllFind(m: Map, srcs: seq<Map>, k: Value)
    ensures Find(MergeAll(m, srcs), k) == if Has(m, k) then Find(m, k) else FirstOf(srcs, k)
    decreases |srcs|
  {
    FindHas(m, k);
    if srcs != [] {
      var n := |srcs| - 1;
      var r := MergeAll(m, srcs[..n]);
      MergeAllFind(m, srcs[..n], k);
      MergeOneFind(r, srcs[n], k);
      FindHas(r, k);
      assert srcs == srcs[..n] + [srcs[n]];
      FirstOfSnoc(srcs[..n], srcs[n], k);
    }
  }

  /** The last own pair whose key converts to `k`. */
  function LastOwn(ft: FloatText, pairs: seq<DPair>, k: Value): Option<Value> {
    if pairs == [] then None
    else
      var p := pairs[|pairs| - 1];
      if p.key != DStr("<<") && ToValue(ft, p.key) == k then Some(ToValue(ft, p.val))
      else LastOwn(ft, pairs[..|pairs| - 1], k)
  }

  lemma {:induction false} OwnFind(ft: FloatText, pairs: seq<DPair>, k: Value)
    ensures Find(Own(ft, pairs), k) == LastOwn(ft, pairs, k)
    decreases |pairs|
  {
    if pairs != [] {
      var n := |pairs| - 1;
      OwnFind(ft, pairs[..n], k);
      FindInsert(Own(ft, pairs[..n]), ToValue(ft, pairs[n].key), ToValue(ft, pairs[n].val), k);
    }
  }

  /** What a merge value offers for a key, on the document: a hash offers what it
      converts to, an array what its first item offers that offers anything, in order
      and depth first, and a scalar nothing. */
  function Offers(ft: FloatText, d: Doc, k: Value): Option<Value>
    decreases d
  {
    match d
    case DHash(pairs) => Find(ToValue(ft, DHash(pairs)).entries, k)
    case DArray(items) => FirstOffer(ft, items, k)
    case _ => None
  }

  function FirstOffer(ft: FloatText, ds: seq<Doc>, k: Value): Option<Value>
    decreases ds
  {
    if ds == [] then None
    else if Offers(ft, ds[0], k).Some? then Offers(ft, ds[0], k) else FirstOffer(ft, ds[1..], k)
  }

  /** What the first merge pair offers that offers anything. */
  function FirstMerged(ft: FloatText, pairs: seq<DPair>, k: Value): Option<Value> {
    if pairs == [] then None
    else if pairs[0].key == DStr("<<") && Offers(ft, pairs[0].val, k).Some? then Offers(ft, pairs[0].val, k)
    else FirstMerged(ft, pairs[1..], k)
  }

  lemma {:induction false} FirstOfAppend(a: seq<Map>, b: seq<Map>, k: Value)
    ensures FirstOf(a + b, k) == if FirstOf(a, k).Some? then FirstOf(a, k) else FirstOf(b, k)
  {
    if a == [] {
      assert a + b == b;
      assert FirstOf([], k) == None;
    } else {
      FindHas(a[0], k);
      assert (a + b)[1..] == a[1..] + b;
      FirstOfAppend(a[1..], b, k);
    }
  }

  lemma {:induction false} FirstOfOne(m: Map, k: Value)
    ensures FirstOf([m], k) == Find(m, k)
  {
    FindHas(m, k);
    assert [m][1..] == [];
    assert FirstOf([], k) == None;
  }

  lemma {:induction false} CollectOffers(ft: FloatText, d: Doc, k: Value)
    ensures FirstOf(Collect(ft, d), k) == Offers(ft, d, k)
    decreases d
  {
    match d
    case DHash(pairs) => FirstOfOne(MergeAll(Own(ft, pairs), Sources(ft, pairs)), k);
    case DArray(items) => CollectAllOffers(ft, items, k);
    case _ =>
  }

  lemma {:induction false} CollectAllOffers(ft: FloatText, ds: seq<Doc>, k: Value)
    ensures FirstOf(CollectAll(ft, ds), k) == FirstOffer(ft, ds, k)
    decreases ds
  {
    if ds != [] {
      var n := |ds| - 1;
      CollectAllOffers(ft, ds[..n], k);
      CollectOffers(ft, ds[n], k);
      FirstOfAppend(CollectAll(ft, ds[..n]), Collect(ft, ds[n]), k);
      FirstOfferSnoc(ft, ds[..n], ds[n], k);
      assert ds == ds[..n] + [ds[n]];
    }
  }

  lemma {:induction false} FirstOfferSnoc(ft: FloatText, ds: seq<Doc>, d: Doc, k: Value)
    ensures FirstOffer(ft, ds + [d], k) == if FirstOffer(ft, ds, k).Some? then FirstOffer(ft, ds, k) else Offers(ft, d, k)
  {
    hide Offers;
    if ds == [] {
      assert [] + [d] == [d] && [d][1..] == [];
      assert FirstOffer(ft, [], k) == None;
    } else {
      assert (ds + [d])[1..] == ds[1..] + [d];
      FirstOfferSnoc(ft, ds[1..], d, k);
    }
  }

  lemma {:induction false} FirstMergedSnoc(ft: FloatText, pairs: seq<DPair>, p: DPair, k: Value)
    ensures FirstMerged(ft, pairs + [p], k) ==
      if FirstMerged(ft, pairs, k).Some? then FirstMerged(ft, pairs, k)
      else if p.key == DStr("<<") then Offers(ft, p.val, k) else None
  {
    hide Offers;
    if pairs == [] {
      assert [] + [p] == [p] && [p][1..] == [];
      assert FirstMerged(ft, [], k) == None;
    } else {
      assert (pairs + [p])[1..] == pairs[1..] + [p];
      FirstMergedSnoc(ft, pairs[1..], p, k);
    }
  }

  lemma {:induction false} SourcesOffer(ft: FloatText, pairs: seq<DPair>, k: Value)
    ensures FirstOf(Sources(ft, pairs), k) == FirstMerged(ft, pairs, k)
    decreases |pairs|
  {
    if pairs != [] {
      var n := |pairs| - 1;
      SourcesOffer(ft, pairs[..n], k);
      PairOffers(ft, pairs[n], k);
      FirstOfAppend(Sources(ft, pairs[..n]), PairSources(ft, pairs[n]), k);
      FirstMergedSnoc(ft, pairs[..n], pairs[n], k);
      assert pairs == pairs[..n] + [pairs[n]];
    }
  }

  lemma {:induction false} PairOffers(ft: FloatText, p: DPair, k: Value)
    ensures FirstOf(PairSources(ft, p), k) == if p.key == DStr("<<") then Offers(ft, p.val, k) else None
  {
    CollectOffers(ft, p.val, k);
  }

  /** Merge resolution, key by key and on the document: the last own pair decides;
      otherwise the first merge pair that offers the key, where a hash offers what it
      converts to and an array what its first offering item offers, depth first. */
  lemma {:induction false} MergeResolves(ft: FloatText, pairs: seq<DPair>, k: Value)
    ensures Find(ToValue(ft, DHash(pairs)).entries, k) ==
      if LastOwn(ft, pairs, k).Some? then LastOwn(ft, pairs, k) else FirstMerged(ft, pairs, k)
  {
    OwnFind(ft, pairs, k);
    FindHas(Own(ft, pairs), k);
    MergeAllFind(Own(ft, pairs), Sources(ft, pairs), k);
    SourcesOffer(ft, pairs, k);
  }

  lemma {:induction false} MergeOneAppends(m: Map, src: Map)
    ensures m <= MergeOne(m, src)
    decreases |src|
  {
    if src != [] {
      var n := |src| - 1;
      var r := MergeOne(m, src[..n]);
      MergeOneAppends(m, src[..n]);
      if !Has(r, src[n].key) {
        InsertNew(r, src[n].key, src[n].val);
      }
    }
  }

  /** Merged entries come after the own ones, which keep their order. */
  lemma {:induction false} OwnComesFirst(ft: FloatText, pairs: seq<DPair>)
    ensures Own(ft, pairs) <= ToValue(ft, DHash(pairs)).entries
  {
    MergeAllAppends(Own(ft, pairs), Sources(ft, pairs));
  }

  lemma {:induction false} MergeAllAppends(m: Map, srcs: seq<Map>)
    ensures m <= MergeAll(m, srcs)
    decreases |srcs|
  {
    if srcs != [] {
      var n := |srcs| - 1;
      MergeAllAppends(m, srcs[..n]);
      MergeOneAppends(MergeAll(m, srcs[..n]), srcs[n]);
    }
  }

  // ---------------------------------------------------------------------
  // The order of a mapping, and its scalars
  // ---------------------------------------------------------------------

  function Keys(m: Map): seq<Value> {
    seq(|m|, i requires 0 <= i < |m| => m[i].key)
  }

  /** `ks` and then those of `more` that are new, each where it is first seen. */
  function AddKeys(ks: seq<Value>, more: seq<Value>): seq<Value> {
    if more == [] then ks
    else
      var n := |more| - 1;
      var r := AddKeys(ks, more[..n]);
      if more[n] in r then r else r + [more[n]]
  }

  /** The keys of the ordinary pairs, repetitions included. */
  function OwnKeys(ft: FloatText, pairs: seq<DPair>): seq<Value> {
    if pairs == [] then []
    else
      var n := |pairs| - 1;
      OwnKeys(ft, pairs[..n]) + if pairs[n].key == DStr("<<") then [] else [ToValue(ft, pairs[n].key)]
  }

  /** The keys of the merge pairs' hashes, in the order of the document. */
  function MergedKeys(ft: FloatText, pairs: seq<DPair>): seq<Value> {
    if pairs == [] then []
    else
      var n := |pairs| - 1;
      MergedKeys(ft, pairs[..n]) + if pairs[n].key == DStr("<<") then OfferedKeys(ft, pairs[n].val) else []
  }

  function OfferedKeys(ft: FloatText, d: Doc): seq<Value>
    decreases d
  {
    match d
    case DHash(pairs) => Keys(ToValue(ft, DHash(pairs)).entries)
    case DArray(items) => AllOfferedKeys(ft, items)
    case _ => []
  }

  function AllOfferedKeys(ft: FloatText, ds: seq<Doc>): seq<Value>
    decreases ds
  {
    if ds == [] then []
    else AllOfferedKeys(ft, ds[..|ds| - 1]) + OfferedKeys(ft, ds[|ds| - 1])
  }

  function KeysOfAll(srcs: seq<Map>): seq<Value> {
    if srcs == [] then [] else KeysOfAll(srcs[..|srcs| - 1]) + Keys(srcs[|srcs| - 1])
  }

  /** Where the keys stand: those of the own pairs where they first occur, then those
      of the merged hashes that are new, in the order of the document.  Together with
      the value of each key this fixes the mapping. */
  lemma {:induction false} KeyOrder(ft: FloatText, pairs: seq<DPair>)
    ensures Keys(ToValue(ft, DHash(pairs)).entries) ==
      AddKeys([], OwnKeys(ft, pairs) + MergedKeys(ft, pairs))
  {
    KeysOwn(ft, pairs);
    KeysMergeAll(Own(ft, pairs), Sources(ft, pairs));
    KeysSources(ft, pairs);
    AddKeysAppend([], OwnKeys(ft, pairs), MergedKeys(ft, pairs));
  }

  lemma {:induction false} KeysHas(m: Map, k: Value)
    ensures Has(m, k) <==> k in Keys(m)
  {
    if Has(m, k) {
      var i :| 0 <= i < |m| && m[i].key == k;
      assert Keys(m)[i] == k;
    }
  }

  lemma {:induction false} KeysInsert(m: Map, k: Value, v: Value)
    ensures Keys(Insert(m, k, v)) == if k in Keys(m) then Keys(m) else Keys(m) + [k]
  {
    KeysHas(m, k);
    InsertKeys(m, k, v);
    if !Has(m, k) {
      InsertNew(m, k, v);
    }
    hide Insert;
  }

  lemma {:induction false} AddKeysAppend(ks: seq<Value>, a: seq<Value>, b: seq<Value>)
    ensures AddKeys(ks, a + b) == AddKeys(AddKeys(ks, a), b)
    decreases |b|
  {
    if b == [] {
      assert a + b == a;
    } else {
      var n := |b| - 1;
      assert (a + b)[..|a + b| - 1] == a + b[..n];
      AddKeysAppend(ks, a, b[..n]);
    }
  }

  lemma {:induction false} KeysOwn(ft: FloatText, pairs: seq<DPair>)
    ensures Keys(Own(ft, pairs)) == AddKeys([], OwnKeys(ft, pairs))
    decreases |pairs|
  {
    if pairs != [] {
      var n := |pairs| - 1;
      var m, ks := Own(ft, pairs[..n]), OwnKeys(ft, pairs[..n]);
      KeysOwn(ft, pairs[..n]);
      if pairs[n].key == DStr("<<") {
        assert ks + [] == ks;
      } else {
        var k := ToValue(ft, pairs[n].key);
        KeysInsert(m, k, ToValue(ft, pairs[n].val));
        assert (ks + [k])[..|ks|] == ks;
      }
    }
  }

  lemma {:induction false} KeysMergeOne(m: Map, src: Map)
    ensures Keys(MergeOne(m, src)) == AddKeys(Keys(m), Keys(src))
    decreases |src|
  {
    if src != [] {
      var n := |src| - 1;
      var r := MergeOne(m, src[..n]);
      KeysMergeOne(m, src[..n]);
      assert Keys(src)[..n] == Keys(src[..n]);
      KeysHas(r, src[n].key);
      KeysInsert(r, src[n].key, src[n].val);
    }
  }

  lemma {:induction false} KeysMergeAll(m: Map, srcs: seq<Map>)
    ensures Keys(MergeAll(m, srcs)) == AddKeys(Keys(m), KeysOfAll(srcs))
    decreases |srcs|
  {
    if srcs != [] {
      var n := |srcs| - 1;
      KeysMergeAll(m, srcs[..n]);
      KeysMergeOne(MergeAll(m, srcs[..n]), srcs[n]);
      AddKeysAppend(Keys(m), KeysOfAll(srcs[..n]), Keys(srcs[n]));
    }
  }

  lemma {:induction false} KeysOfAllAppend(a: seq<Map>, b: seq<Map>)
    ensures KeysOfAll(a + b) == KeysOfAll(a) + KeysOfAll(b)
    decreases |b|
  {
    if b == [] {
      assert a + b == a;
    } else {
      var n := |b| - 1;
      assert (a + b)[..|a + b| - 1] == a + b[..n];
      KeysOfAllAppend(a, b[..n]);
    }
  }

  lemma {:induction false} KeysCollect(ft: FloatText, d: Doc)
    ensures KeysOfAll(Collect(ft, d)) == OfferedKeys(ft, d)
    decreases d
  {
    match d
    case DHash(pairs) =>
      var srcs: seq<Map> := [MergeAll(Own(ft, pairs), Sources(ft, pairs))];
      assert srcs[..0] == [];
      assert KeysOfAll([]) == [];
    case DArray(items) => KeysCollectAll(ft, items);
    case _ =>
  }

  lemma {:induction false} KeysCollectAll(ft: FloatText, ds: seq<Doc>)
    ensures KeysOfAll(CollectAll(ft, ds)) == AllOfferedKeys(ft, ds)
    decreases ds
  {
    if ds != [] {
      var n := |ds| - 1;
      KeysCollectAll(ft, ds[..n]);
      KeysCollect(ft, ds[n]);
      KeysOfAllAppend(CollectAll(ft, ds[..n]), Collect(ft, ds[n]));
    }
  }

  lemma {:induction false} KeysSources(ft: FloatText, pairs: seq<DPair>)
    ensures KeysOfAll(Sources(ft, pairs)) == MergedKeys(ft, pairs)
    decreases |pairs|
  {
    if pairs != [] {
      var n := |pairs| - 1;
      KeysSources(ft, pairs[..n]);
      KeysCollect(ft, pairs[n].val);
      KeysOfAllAppend(Sources(ft, pairs[..n]), PairSources(ft, pairs[n]));
    }
  }

  lemma {:induction false} SpellsLower(s: string, word: string)
    requires forall i :: 0 <= i < |word| ==> !('A' <= word[i] <= 'Z')
    ensures Lower(s) == word <==> Spells(s, word)
  {
    if Spells(s, word) {
      assert Lower(s) == word;
    } else if |s| == |word| {
      var i :| 0 <= i < |s| && s[i] != word[i] && !('a' <= word[i] <= 'z' && s[i] == word[i] - 'a' + 'A');
      assert Lower(s)[i] != word[i];
    }
  }

  /** How a plain scalar that looks like a number is read: what the number parser
      accepts is that number; of the rest only the six special spellings are. */
  lemma {:induction false} RealTexts(ft: FloatText, s: string)
    ensures ft.parse(s).Some? ==> ToValue(ft, DReal(s)) == Num(Float(ft.parse(s).value))
    ensures ft.parse(s).None? ==>
      && (ToValue(ft, DReal(s)) == Num(Float(PosInf)) <==> Spells(s, ".inf") || Spells(s, "inf"))
      && (ToValue(ft, DReal(s)) == Num(Float(NegInf)) <==> Spells(s, "-.inf") || Spells(s, "-inf"))
      && (ToValue(ft, DReal(s)) == Num(Float(Nan)) <==> Spells(s, ".nan") || Spells(s, "nan"))
      && (ToValue(ft, DReal(s)).Num? || ToValue(ft, DReal(s)) == Str(s))
  {
    SpellsLower(s, ".inf");
    SpellsLower(s, "inf");
    SpellsLower(s, "-.inf");
    SpellsLower(s, "-inf");
    SpellsLower(s, ".nan");
    SpellsLower(s, "nan");
    hide Lower, Spells;
  }

  /** The other scalars: integers by sign, and nothing for an alias or a bad value. */
  lemma {:induction false} Scalars(ft: FloatText, b: bool, i: int, s: string)
    ensures ToValue(ft, DNull) == ToValue(ft, DAlias) == ToValue(ft, DBad) == Null
    ensures ToValue(ft, DBool(b)) == Bool(b) && ToValue(ft, DStr(s)) == Str(s)
    ensures ToValue(ft, DInt(i)) == if i < 0 then Num(NegInt(i)) else Num(PosInt(i))
    ensures ToDoc(ft, Num(Float(Nan))) == Some(DReal(".nan")) && ToDoc(ft, Num(Float(PosInf))) == Some(DReal(".inf"))
    ensures ToDoc(ft, Num(Float(NegInf))) == Some(DReal("-.inf"))
  {
  }

  lemma {:induction false} ArrayConverts(ft: FloatText, items: seq<Doc>)
    ensures var v := ToValue(ft, DArray(items));
      v.Sequence? && |v.elems| == |items| && forall i :: 0 <= i < |items| ==> v.elems[i] == ToValue(ft, items[i])
  {
    if items != [] {
      ArrayConverts(ft, items[1..]);
      assert ToValue(ft, DArray(items[1..])) == Sequence(ToValues(ft, items[1..]));
    }
  }

  /** The example every reader expects: a merged hash gives its keys. */
  lemma {:induction false} MergeGives(ft: FloatText, key: string, v: bool)
    requires key != "<<"
    ensures ToValue(ft, DHash([DPair(DStr("<<"), DHash([DPair(DStr(key), DBool(v))]))])) == Mapping([Entry(Str(key), Bool(v))])
  {
    var p := DPair(DStr(key), DBool(v));
    var e: Map := [Entry(Str(key), Bool(v))];
    OneOwn(ft, p);
    assert MergeAll(e, []) == e;
    assert Collect(ft, DHash([p])) == [e];
    hide Collect;
    OneMerge(ft, DPair(DStr("<<"), DHash([p])), e);
  }

  lemma {:induction false} OneMerge(ft: FloatText, p: DPair, m: Map)
    requires p.key == DStr("<<") && Collect(ft, p.val) == [m] && |m| == 1
    ensures ToValue(ft, DHash([p])) == Mapping(m)
  {
    hide Collect;
    assert [p][..0] == [];
    assert Own(ft, []) == [] && Sources(ft, []) == [];
    assert Own(ft, [p]) == [] && Sources(ft, [p]) == [] + [m] == [m];
    hide Own, Sources;
    var none: Map, srcs: seq<Map> := [], [m];
    assert srcs[..0] == [] && m[..0] == [];
    assert MergeAll(none, []) == none && MergeOne(none, []) == none;
    assert MergeOne(none, m) == Insert(none, m[0].key, m[0].val);
    assert MergeAll(none, srcs) == MergeOne(none, m);
  }

  lemma {:induction false} OneOwn(ft: FloatText, p: DPair)
    requires p.key != DStr("<<")
    ensures Own(ft, [p]) == [ToEntry(ft, p)] && Sources(ft, [p]) == []
  {
    assert [p][..0] == [];
    assert Own(ft, []) == [] && Sources(ft, []) == [];
  }

  // ---------------------------------------------------------------------
  // Normal form
  // ---------------------------------------------------------------------

  /** A double's bits are not looked at; integers are those of the loader. */
  predicate NumberOk(n: Number) {
    match n
    case PosInt(n) => n <= 0x7FFF_FFFF_FFFF_FFFF
    case NegInt(i) => -0x8000_0000_0000_0000 <= i < 0
    case Float(_) => true
  }

  /** No merge key and no duplicate key, at any depth. */
  ghost predicate Normal(v: Value)
    decreases v
  {
    match v
    case Num(n) => NumberOk(n)
    case Sequence(elems) => forall i :: 0 <= i < |elems| ==> Normal(elems[i])
    case Mapping(entries) => DistinctKeys(entries) && forall i :: 0 <= i < |entries| ==> NormalEntry(entries[i])
    case _ => true
  }

  ghost predicate NormalEntry(e: Entry)
    decreases e
  {
    e.key != Str(MERGE_KEY) && Normal(e.key) && Normal(e.val)
  }

  ghost predicate NormalMap(m: Map) {
    DistinctKeys(m) && forall i :: 0 <= i < |m| ==> NormalEntry(m[i])
  }

  /** What the loader guarantees: 64-bit integers, and no real spelled like a merge
      key. */
  ghost predicate Loaded(d: Doc)
    decreases d
  {
    match d
    case DInt(i) => -0x8000_0000_0000_0000 <= i <= 0x7FFF_FFFF_FFFF_FFFF
    case DReal(s) => s != MERGE_KEY
    case DArray(items) => forall i :: 0 <= i < |items| ==> Loaded(items[i])
    case DHash(pairs) => forall i :: 0 <= i < |pairs| ==> LoadedPair(pairs[i])
    case _ => true
  }

  ghost predicate LoadedPair(p: DPair)
    decreases p
  {
    Loaded(p.key) && Loaded(p.val)
  }

  lemma {:induction false} InsertNormal(m: Map, e: Entry)
    requires NormalMap(m) && NormalEntry(e)
    ensures NormalMap(Insert(m, e.key, e.val))
  {
    InsertDistinct(m, e.key, e.val);
    InsertKeys(m, e.key, e.val);
    var r := Insert(m, e.key, e.val);
    forall i | 0 <= i < |r|
      ensures NormalEntry(r[i])
    {
      assert r[i] in r;
      assert r[i] in m || r[i] == e;
    }
  }

  lemma {:induction false} MergeOneNormal(m: Map, src: Map)
    requires NormalMap(m) && forall i :: 0 <= i < |src| ==> NormalEntry(src[i])
    ensures NormalMap(MergeOne(m, src))
    decreases |src|
  {
    if src != [] {
      var n := |src| - 1;
      MergeOneNormal(m, src[..n]);
      InsertNormal(MergeOne(m, src[..n]), src[n]);
    }
  }

  ghost predicate AllNormal(srcs: seq<Map>) {
    forall i :: 0 <= i < |srcs| ==> NormalMap(srcs[i])
  }

  lemma {:induction false} MergeAllNormal(m: Map, srcs: seq<Map>)
    requires NormalMap(m) && AllNormal(srcs)
    ensures NormalMap(MergeAll(m, srcs))
    decreases |srcs|
  {
    if srcs != [] {
      var n := |srcs| - 1;
      assert NormalMap(srcs[n]);
      MergeAllNormal(m, srcs[..n]);
      MergeOneNormal(MergeAll(m, srcs[..n]), srcs[n]);
    }
  }

  /** Conversion leaves a normal form. */
  lemma {:induction false} ConversionIsNormal(ft: FloatText, d: Doc)
    requires Loaded(d)
    ensures Normal(ToValue(ft, d))
    ensures !IsMergeKey(d) ==> ToValue(ft, d) != Str(MERGE_KEY)
    decreases d
  {
    match d
    case DArray(items) => ItemsNormal(ft, items);
    case DHash(pairs) => PairsNormal(ft, pairs);
    case _ =>
  }

  lemma {:induction false} ItemsNormal(ft: FloatText, ds: seq<Doc>)
    requires forall i :: 0 <= i < |ds| ==> Loaded(ds[i])
    ensures forall i :: 0 <= i < |ToValues(ft, ds)| ==> Normal(ToValues(ft, ds)[i])
    decreases ds
  {
    if ds != [] {
      ConversionIsNormal(ft, ds[0]);
      ItemsNormal(ft, ds[1..]);
    }
  }

  lemma {:induction false} PairsNormal(ft: FloatText, pairs: seq<DPair>)
    requires forall i :: 0 <= i < |pairs| ==> LoadedPair(pairs[i])
    ensures NormalMap(MergeAll(Own(ft, pairs), Sources(ft, pairs)))
    decreases pairs, 1
  {
    OwnNormal(ft, pairs);
    SourcesNormal(ft, pairs);
    MergeAllNormal(Own(ft, pairs), Sources(ft, pairs));
  }

  lemma {:induction false} OwnNormal(ft: FloatText, pairs: seq<DPair>)
    requires forall i :: 0 <= i < |pairs| ==> LoadedPair(pairs[i])
    ensures NormalMap(Own(ft, pairs))
    decreases pairs, 0
  {
    if pairs != [] {
      var n := |pairs| - 1;
      OwnNormal(ft, pairs[..n]);
      if !IsMergeKey(pairs[n].key) {
        EntryNormal(ft, pairs[n]);
        InsertNormal(Own(ft, pairs[..n]), ToEntry(ft, pairs[n]));
      }
    }
  }

  lemma {:induction false} EntryNormal(ft: FloatText, p: DPair)
    requires LoadedPair(p) && !IsMergeKey(p.key)
    ensures NormalEntry(ToEntry(ft, p))
    decreases p
  {
    ConversionIsNormal(ft, p.key);
    ConversionIsNormal(ft, p.val);
  }

  lemma {:induction false} SourcesNormal(ft: FloatText, pairs: seq<DPair>)
    requires forall i :: 0 <= i < |pairs| ==> LoadedPair(pairs[i])
    ensures AllNormal(Sources(ft, pairs))
    decreases pairs, 0
  {
    if pairs != [] {
      var n := |pairs| - 1;
      SourcesNormal(ft, pairs[..n]);
      PairSourcesNormal(ft, pairs[n]);
    }
  }

  lemma {:induction false} PairSourcesNormal(ft: FloatText, p: DPair)
    requires LoadedPair(p)
    ensures AllNormal(PairSources(ft, p))
    decreases p
  {
    CollectNormal(ft, p.val);
  }

  lemma {:induction false} CollectNormal(ft: FloatText, d: Doc)
    requires Loaded(d)
    ensures AllNormal(Collect(ft, d))
    decreases d
  {
    match d
    case DHash(pairs) => PairsNormal(ft, pairs);
    case DArray(items) => CollectAllNormal(ft, items);
    case _ =>
  }

  lemma {:induction false} CollectAllNormal(ft: FloatText, ds: seq<Doc>)
    requires forall i :: 0 <= i < |ds| ==> Loaded(ds[i])
    ensures AllNormal(CollectAll(ft, ds))
    decreases ds
  {
    if ds != [] {
      var n := |ds| - 1;
      CollectAllNormal(ft, ds[..n]);
      CollectNormal(ft, ds[n]);
    }
  }

  // ---------------------------------------------------------------------
  // Value to document
  // ---------------------------------------------------------------------

  function NumberDoc(ft: FloatText, n: Number): Option<Doc> {
    match n
    case PosInt(n) => if n > I64_MAX then None else Some(DInt(n))
    case NegInt(i) => Some(DInt(i))
    case Float(Nan) => Some(DReal(".nan"))
    case Float(PosInf) => Some(DReal(".inf"))
    case Float(NegInf) => Some(DReal("-.inf"))
    case Float(Finite(b)) => Some(DReal(ft.show(b)))
  }

  /** `value_to_yaml`; `None` for an integer beyond i64. */
  function ToDoc(ft: FloatText, v: Value): Option<Doc>
    decreases v
  {
    match v
    case Null => Some(DNull)
    case Bool(b) => Some(DBool(b))
    case Num(n) => NumberDoc(ft, n)
    case Str(s) => Some(DStr(s))
    case Sequence(elems) =>
      var r := ToDocs(ft, elems);
      if r.None? then None else Some(DArray(r.value))
    case Mapping(entries) =>
      var r := ToPairs(ft, entries);
      if r.None? then None else Some(DHash(r.value))
  }

  function ToDocs(ft: FloatText, vs: seq<Value>): Option<seq<Doc>>
    decreases vs
  {
    if vs == [] then Some([])
    else
      var n := |vs| - 1;
      var r, d := ToDocs(ft, vs[..n]), ToDoc(ft, vs[n]);
      if r.None? || d.None? then None else Some(r.value + [d.value])
  }

  /** Insertion into the loader's linked map: an old binding is taken out first. */
  function Rebind(ps: seq<DPair>, k: Doc, v: Doc): seq<DPair> {
    Unbind(ps, k) + [DPair(k, v)]
  }

  function Unbind(ps: seq<DPair>, k: Doc): seq<DPair> {
    if ps == [] then [] else (if ps[0].key == k then [] else [ps[0]]) + Unbind(ps[1..], k)
  }

  function ToPairs(ft: FloatText, es: Map): Option<seq<DPair>>
    decreases es
  {
    if es == [] then Some([])
    else
      var n := |es| - 1;
      var r, p := ToPairs(ft, es[..n]), ToPair(ft, es[n]);
      if r.None? || p.None? then None else Some(Rebind(r.value, p.value.key, p.value.val))
  }

  function ToPair(ft: FloatText, e: Entry): Option<DPair>
    decreases e
  {
    var k, v := ToDoc(ft, e.key), ToDoc(ft, e.val);
    if k.None? || v.None? then None else Some(DPair(k.value, v.value))
  }

  /** An element that does not fit fails the whole sequence. */
  lemma {:induction false} DocsFail(ft: FloatText, vs: seq<Value>, n: nat)
    requires n <= |vs| && ToDocs(ft, vs[..n]).None?
    ensures ToDocs(ft, vs).None?
    decreases |vs| - n
  {
    if n < |vs| {
      assert vs[..n + 1][..n] == vs[..n];
      DocsFail(ft, vs, n + 1);
    } else {
      assert vs[..n] == vs;
    }
  }

  lemma {:induction false} PairsFail(ft: FloatText, es: Map, n: nat)
    requires n <= |es| && ToPairs(ft, es[..n]).None?
    ensures ToPairs(ft, es).None?
    decreases |es| - n
  {
    if n < |es| {
      assert es[..n + 1][..n] == es[..n];
      PairsFail(ft, es, n + 1);
    } else {
      assert es[..n] == es;
    }
  }

  /** `value_to_yaml`. */
  method ValueToYaml(ft: FloatText, v: Value) returns (d: Option<Doc>)
    ensures d == ToDoc(ft, v)
    decreases v
  {
    match v
    case Null => d := Some(DNull);
    case Bool(b) => d := Some(DBool(b));
    case Num(n) => d := NumberDoc(ft, n);
    case Str(s) => d := Some(DStr(s));
    case Sequence(elems) =>
      var arr: seq<Doc>, i := [], 0;
      while i < |elems|
        invariant 0 <= i <= |elems| && ToDocs(ft, elems[..i]) == Some(arr)
      {
        var item := ValueToYaml(ft, elems[i]);
        assert elems[..i + 1][..i] == elems[..i];
        if item.None? {
          DocsFail(ft, elems, i + 1);
          return None;
        }
        arr, i := arr + [item.value], i + 1;
      }
      assert elems[..i] == elems;
      d := Some(DArray(arr));
    case Mapping(entries) =>
      var hash: seq<DPair>, i := [], 0;
      while i < |entries|
        invariant 0 <= i <= |entries| && ToPairs(ft, entries[..i]) == Some(hash)
      {
        var p := EntryToYaml(ft, entries[i]);
        assert entries[..i + 1][..i] == entries[..i];
        if p.None? {
          PairsFail(ft, entries, i + 1);
          return None;
        }
        hash, i := Rebind(hash, p.value.key, p.value.val), i + 1;
      }
      assert entries[..i] == entries;
      d := Some(DHash(hash));
  }

  method EntryToYaml(ft: FloatText, e: Entry) returns (p: Option<DPair>)
    ensures p == ToPair(ft, e)
    decreases e
  {
    var k := ValueToYaml(ft, e.key);
    if k.None? {
      return None;
    }
    var v := ValueToYaml(ft, e.val);
    p := if v.None? then None else Some(DPair(k.value, v.value));
  }

  // ---------------------------------------------------------------------
  // What is written
  // ---------------------------------------------------------------------

  /** No integer above the loader's range, at any depth. */
  ghost predicate Writable(v: Value)
    decreases v
  {
    match v
    case Num(PosInt(n)) => n <= 0x7FFF_FFFF_FFFF_FFFF
    case Sequence(elems) => forall i :: 0 <= i < |elems| ==> Writable(elems[i])
    case Mapping(entries) => forall i :: 0 <= i < |entries| ==> WritableEntry(entries[i])
    case _ => true
  }

  ghost predicate WritableEntry(e: Entry)
    decreases e
  {
    Writable(e.key) && Writable(e.val)
  }

  /** Writing fails exactly on such an integer. */
  lemma {:induction false} WritesIff(ft: FloatText, v: Value)
    ensures ToDoc(ft, v).Some? <==> Writable(v)
    decreases v
  {
    match v
    case Sequence(elems) => DocsWriteIff(ft, elems);
    case Mapping(entries) => PairsWriteIff(ft, entries);
    case _ =>
  }

  lemma {:induction false} DocsWriteIff(ft: FloatText, vs: seq<Value>)
    ensures ToDocs(ft, vs).Some? <==> forall i :: 0 <= i < |vs| ==> Writable(vs[i])
    decreases vs
  {
    if vs != [] {
      var n := |vs| - 1;
      DocsWriteIff(ft, vs[..n]);
      WritesIff(ft, vs[n]);
      assert vs == vs[..n] + [vs[n]];
      assert (forall i :: 0 <= i < n ==> Writable(vs[i])) <==> (forall i :: 0 <= i < n ==> Writable(vs[..n][i]));
    }
  }

  lemma {:induction false} PairsWriteIff(ft: FloatText, es: Map)
    ensures ToPairs(ft, es).Some? <==> forall i :: 0 <= i < |es| ==> WritableEntry(es[i])
    decreases es
  {
    if es != [] {
      var n := |es| - 1;
      PairsWriteIff(ft, es[..n]);
      PairWritesIff(ft, es[n]);
      assert es == es[..n] + [es[n]];
      assert (forall i :: 0 <= i < n ==> WritableEntry(es[i])) <==> (forall i :: 0 <= i < n ==> WritableEntry(es[..n][i]));
    }
  }

  lemma {:induction false} PairWritesIff(ft: FloatText, e: Entry)
    ensures ToPair(ft, e).Some? <==> WritableEntry(e)
    decreases e
  {
    WritesIff(ft, e.key);
    WritesIff(ft, e.val);
  }

  /** The value a written hash binds to a key. */
  function Bound(ps: seq<DPair>, k: Doc): Option<Doc> {
    if ps == [] then None else if ps[0].key == k then Some(ps[0].val) else Bound(ps[1..], k)
  }

  /** The value of the last entry whose key is written as `k`. */
  function LastWritten(ft: FloatText, es: Map, k: Doc): Option<Doc> {
    if es == [] then None
    else
      var e := es[|es| - 1];
      if ToDoc(ft, e.key) == Some(k) then ToDoc(ft, e.val) else LastWritten(ft, es[..|es| - 1], k)
  }

  ghost predicate DistinctDocs(ps: seq<DPair>) {
    forall i, j :: 0 <= i < j < |ps| ==> ps[i].key != ps[j].key
  }

  /** A written hash binds every key once, to the value of its last entry, and ends
      with the pair of the last entry. */
  lemma {:induction false} PairsWritten(ft: FloatText, es: Map, k: Doc)
    requires ToPairs(ft, es).Some?
    ensures var ps := ToPairs(ft, es).value;
      && DistinctDocs(ps) && Bound(ps, k) == LastWritten(ft, es, k)
      && (es != [] ==> ps != [] && ToPair(ft, es[|es| - 1]) == Some(ps[|ps| - 1]))
    decreases |es|
  {
    if es != [] {
      var n := |es| - 1;
      PairsWritten(ft, es[..n], k);
      var p := ToPair(ft, es[n]).value;
      RebindIs(ToPairs(ft, es[..n]).value, p.key, p.val, k);
      hide Rebind, ToDoc;
    }
  }

  lemma {:induction false} RebindIs(ps: seq<DPair>, k: Doc, v: Doc, q: Doc)
    requires DistinctDocs(ps)
    ensures DistinctDocs(Rebind(ps, k, v)) && Bound(Rebind(ps, k, v), q) == if q == k then Some(v) else Bound(ps, q)
    ensures Rebind(ps, k, v)[|Rebind(ps, k, v)| - 1] == DPair(k, v)
  {
    UnbindIs(ps, k, q);
    UnbindKeeps(ps, k);
    UnbindDistinct(ps, k);
    BoundAppend(Unbind(ps, k), DPair(k, v), q);
    hide Unbind, Bound;
  }

  lemma {:induction false} BoundAppend(ps: seq<DPair>, p: DPair, q: Doc)
    ensures Bound(ps + [p], q) == if Bound(ps, q).Some? then Bound(ps, q) else if p.key == q then Some(p.val) else None
  {
    if ps == [] {
      assert [] + [p] == [p] && [p][1..] == [];
      assert Bound([], q) == None;
    } else {
      assert (ps + [p])[1..] == ps[1..] + [p];
      BoundAppend(ps[1..], p, q);
    }
  }

  lemma {:induction false} UnbindIs(ps: seq<DPair>, k: Doc, q: Doc)
    ensures Bound(Unbind(ps, k), q) == if q == k then None else Bound(ps, q)
  {
    if ps != [] {
      var r := Unbind(ps[1..], k);
      UnbindIs(ps[1..], k, q);
      assert [] + r == r && ([ps[0]] + r)[1..] == r;
    }
  }

  lemma {:induction false} UnbindKeeps(ps: seq<DPair>, k: Doc)
    ensures forall p :: p in Unbind(ps, k) ==> p in ps && p.key != k
  {
    if ps != [] {
      UnbindKeeps(ps[1..], k);
    }
  }

  lemma {:induction false} UnbindDistinct(ps: seq<DPair>, k: Doc)
    requires DistinctDocs(ps)
    ensures DistinctDocs(Unbind(ps, k))
  {
    if ps != [] {
      var r := Unbind(ps[1..], k);
      UnbindDistinct(ps[1..], k);
      UnbindKeeps(ps[1..], k);
      assert Unbind(ps, k) == (if ps[0].key == k then [] else [ps[0]]) + r;
      hide Unbind;
      forall i | 0 <= i < |r|
        ensures r[i].key != ps[0].key
      {
        assert r[i] in ps[1..];
        var j :| 0 <= j < |ps[1..]| && ps[1..][j] == r[i];
        assert ps[j + 1] == r[i];
      }
      DistinctCons(ps[0], r);
    }
  }

  lemma {:induction false} DistinctCons(p: DPair, r: seq<DPair>)
    requires DistinctDocs(r) && forall i :: 0 <= i < |r| ==> r[i].key != p.key
    ensures DistinctDocs([p] + r) && [] + r == r
  {
  }

  // ---------------------------------------------------------------------
  // Round trip
  // ---------------------------------------------------------------------

  lemma {:induction false} UnbindFresh(ps: seq<DPair>, k: Doc)
    requires forall i :: 0 <= i < |ps| ==> ps[i].key != k
    ensures Unbind(ps, k) == ps
  {
    if ps != [] {
      UnbindFresh(ps[1..], k);
    }
  }

  lemma {:induction false} LowerSpecial()
    ensures Lower(".inf") == ".inf" && Lower("-.inf") == "-.inf" && Lower(".nan") == ".nan"
  {
  }

  lemma {:induction false} NumberRoundTrip(ft: FloatText, n: Number)
    requires FloatTextOk(ft) && NumberOk(n)
    ensures NumberDoc(ft, n).Some? && ToValue(ft, NumberDoc(ft, n).value) == Num(n)
  {
    LowerSpecial();
  }

  /** Writing a normal value and reading it again is the identity. */
  lemma {:induction false} RoundTrip(ft: FloatText, v: Value)
    requires FloatTextOk(ft) && Normal(v)
    ensures ToDoc(ft, v).Some? && ToValue(ft, ToDoc(ft, v).value) == v
    decreases v
  {
    match v
    case Num(n) => NumberRoundTrip(ft, n);
    case Sequence(elems) => ItemsRoundTrip(ft, elems);
    case Mapping(entries) =>
      EntriesRoundTrip(ft, entries);
      MappingBack(ft, entries);
    case _ =>
  }

  lemma {:induction false} MappingBack(ft: FloatText, entries: Map)
    requires ToPairs(ft, entries).Some? && Mirrors(ft, ToPairs(ft, entries).value, entries)
    ensures ToDoc(ft, Mapping(entries)).Some? && ToValue(ft, ToDoc(ft, Mapping(entries)).value) == Mapping(entries)
  {
    hide ToPairs;
    hide Own;
    hide Sources;
    assert MergeAll(entries, []) == entries;
  }

  lemma {:induction false} ToValuesSnoc(ft: FloatText, ds: seq<Doc>, d: Doc)
    ensures ToValues(ft, ds + [d]) == ToValues(ft, ds) + [ToValue(ft, d)]
  {
    if ds == [] {
      assert [] + [d] == [d] && [d][1..] == [];
      assert ToValues(ft, [d]) == [ToValue(ft, d)] + ToValues(ft, []);
    } else {
      assert (ds + [d])[1..] == ds[1..] + [d];
      ToValuesSnoc(ft, ds[1..], d);
    }
  }

  ghost predicate AllItemsNormal(vs: seq<Value>) {
    forall i :: 0 <= i < |vs| ==> Normal(vs[i])
  }

  lemma {:induction false} ItemsInit(vs: seq<Value>)
    requires AllItemsNormal(vs) && vs != []
    ensures AllItemsNormal(vs[..|vs| - 1]) && Normal(vs[|vs| - 1]) && vs == vs[..|vs| - 1] + [vs[|vs| - 1]]
  {
    hide Normal;
  }

  lemma {:induction false} ItemsRoundTrip(ft: FloatText, vs: seq<Value>)
    requires FloatTextOk(ft) && AllItemsNormal(vs)
    ensures ToDocs(ft, vs).Some? && ToValues(ft, ToDocs(ft, vs).value) == vs
    decreases vs
  {
    if vs != [] {
      hide AllItemsNormal;
      hide Normal;
      hide ToDoc;
      hide ToDocs;
      hide ToValue;
      hide ToValues;
      hide FloatTextOk;
      var n := |vs| - 1;
      ItemsInit(vs);
      ItemsRoundTrip(ft, vs[..n]);
      RoundTrip(ft, vs[n]);
      DocsSnoc(ft, vs, ToDocs(ft, vs[..n]).value, ToDoc(ft, vs[n]).value);
      ToValuesSnoc(ft, ToDocs(ft, vs[..n]).value, ToDoc(ft, vs[n]).value);
    }
  }

  lemma {:induction false} DocsSnoc(ft: FloatText, vs: seq<Value>, ds: seq<Doc>, d: Doc)
    requires vs != [] && ToDocs(ft, vs[..|vs| - 1]) == Some(ds) && ToDoc(ft, vs[|vs| - 1]) == Some(d)
    ensures ToDocs(ft, vs) == Some(ds + [d])
  {
    hide ToDoc;
  }

  lemma {:induction false} EntryRoundTrip(ft: FloatText, e: Entry)
    requires FloatTextOk(ft) && NormalEntry(e)
    ensures ToPair(ft, e).Some?
    ensures var p := ToPair(ft, e).value;
      ToEntry(ft, p) == e && ToValue(ft, p.key) == e.key && !IsMergeKey(p.key) && PairSources(ft, p) == []
    decreases e
  {
    RoundTrip(ft, e.key);
    RoundTrip(ft, e.val);
  }

  /** The pairs spell the entries, in order and without merges. */
  ghost predicate Mirrors(ft: FloatText, ps: seq<DPair>, es: Map) {
    && |ps| == |es| && (forall i :: 0 <= i < |ps| ==> ToValue(ft, ps[i].key) == es[i].key)
    && Own(ft, ps) == es && Sources(ft, ps) == []
  }

  lemma {:induction false} MirrorsSnoc(ft: FloatText, ps: seq<DPair>, p: DPair, init: Map, e: Entry)
    requires Mirrors(ft, ps, init) && !Has(init, e.key)
    requires ToEntry(ft, p) == e && ToValue(ft, p.key) == e.key && !IsMergeKey(p.key) && PairSources(ft, p) == []
    ensures Unbind(ps, p.key) == ps && Mirrors(ft, ps + [p], init + [e])
  {
    hide ToEntry;
    hide PairSources;
    hide IsMergeKey;
    hide ToValue;
    forall i | 0 <= i < |ps|
      ensures ps[i].key != p.key
    {
      assert init[i].key != e.key;
    }
    UnbindFresh(ps, p.key);
    assert (ps + [p])[..|ps|] == ps;
    InsertNew(init, e.key, e.val);
    assert e == Entry(e.key, e.val);
  }

  lemma {:induction false} EntriesRoundTrip(ft: FloatText, es: Map)
    requires FloatTextOk(ft) && NormalMap(es)
    ensures ToPairs(ft, es).Some? && Mirrors(ft, ToPairs(ft, es).value, es)
    decreases es
  {
    if es != [] {
      hide NormalEntry;
      hide FloatTextOk;
      hide Mirrors;
      hide ToPair;
      var n := |es| - 1;
      var init, e := es[..n], es[n];
      NormalInit(es);
      EntriesRoundTrip(ft, init);
      EntryRoundTrip(ft, e);
      hide NormalMap;
      MirrorsSnoc(ft, ToPairs(ft, init).value, ToPair(ft, e).value, init, e);
      PairsSnoc(ft, es, ToPairs(ft, init).value, ToPair(ft, e).value);
    }
  }

  lemma {:induction false} NormalInit(es: Map)
    requires NormalMap(es) && es != []
    ensures NormalMap(es[..|es| - 1]) && NormalEntry(es[|es| - 1]) && !Has(es[..|es| - 1], es[|es| - 1].key)
    ensures es == es[..|es| - 1] + [es[|es| - 1]]
  {
    hide NormalEntry;
  }

  lemma {:induction false} PairsSnoc(ft: FloatText, es: Map, ps: seq<DPair>, p: DPair)
    requires es != [] && ToPairs(ft, es[..|es| - 1]) == Some(ps) && ToPair(ft, es[|es| - 1]) == Some(p)
    requires Unbind(ps, p.key) == ps
    ensures ToPairs(ft, es) == Some(ps + [p])
  {
    hide ToPair;
    assert p == DPair(p.key, p.val);
  }

  /** Every converted document survives the trip through YAML unchanged, and without
      an integer that does not fit. */
  lemma {:induction false} ConvertedRoundTrip(ft: FloatText, d: Doc)
    requires FloatTextOk(ft) && Loaded(d)
    ensures ToDoc(ft, ToValue(ft, d)).Some?
    ensures ToValue(ft, ToDoc(ft, ToValue(ft, d)).value) == ToValue(ft, d)
  {
    ConversionIsNormal(ft, d);
    RoundTrip(ft, ToValue(ft, d));
  }

  /** Normal form is exactly what it takes: a value whose document is one the loader
      could produce comes back unchanged if and only if it is normal. */
  lemma {:induction false} RoundTripIff(ft: FloatText, v: Value)
    requires FloatTextOk(ft) && ToDoc(ft, v).Some? && Loaded(ToDoc(ft, v).value)
    ensures ToValue(ft, ToDoc(ft, v).value) == v <==> Normal(v)
  {
    ConversionIsNormal(ft, ToDoc(ft, v).value);
    if Normal(v) {
      RoundTrip(ft, v);
    }
  }
}

/** Canonical JSON of a message body: keys sorted at every depth, then printed compactly.
    The signature of an envelope covers this text, so it has to identify the value and nothing else. */
module Canonical {
  import opened Prelude
  import opened Json

  // ---------------------------------------------------------------- key order

  /** Strict order on keys, by code point: the order of the UTF-8 bytes. */
  predicate Less(a: string, b: string) {
    if b == [] then false
    else if a == [] then true
    else if a[0] != b[0] then a[0] < b[0]
    else Less(a[1..], b[1..])
  }

  lemma {:induction false} LessIsTotal(a: string, b: string)
    ensures Less(a, b) || a == b || Less(b, a)
  {
    if a != [] && b != [] && a[0] == b[0] {
      LessIsTotal(a[1..], b[1..]);
      assert a == [a[0]] + a[1..] && b == [b[0]] + b[1..];
    }
  }

  lemma {:induction false} LessIsAsymmetric(a: string, b: string)
    requires Less(a, b)
    ensures a != b && !Less(b, a)
  {
    if a != [] && a[0] == b[0] {
      LessIsAsymmetric(a[1..], b[1..]);
    }
  }

  lemma {:induction false} LessIsTransitive(a: string, b: string, c: string)
    requires Less(a, b) && Less(b, c)
    ensures Less(a, c)
  {
    if a != [] && a[0] == b[0] == c[0] {
      LessIsTransitive(a[1..], b[1..], c[1..]);
    }
  }

  // ---------------------------------------------------------------- sorting

  /** Every key is below the keys after it. */
  ghost predicate Sorted(fields: seq<Field>) {
    forall i, j :: 0 <= i < j < |fields| ==> Less(fields[i].key, fields[j].key)
  }

  function InsertField(f: Field, fields: seq<Field>): (r: seq<Field>)
    ensures |r| == |fields| + 1
  {
    if fields == [] || Less(f.key, fields[0].key) then [f] + fields
    else [fields[0]] + InsertField(f, fields[1..])
  }

  function Sort(v: Json): Json
    decreases v, 1
  {
    match v
    case Arr(items) => Arr(SortItems(items))
    case Obj(fields) => Obj(SortFields(fields))
    case _ => v
  }

  function SortItems(items: seq<Json>): (r: seq<Json>)
    ensures |r| == |items|
    decreases items, 0
  {
    if items == [] then [] else [Sort(items[0])] + SortItems(items[1..])
  }

  function SortFields(fields: seq<Field>): (r: seq<Field>)
    ensures |r| == |fields|
    decreases fields, 0
  {
    if fields == [] then []
    else InsertField(Field(fields[0].key, Sort(fields[0].value)), SortFields(fields[1..]))
  }

  function CanonicalText(v: Json): string {
    Print(Sort(v))
  }

  // ---------------------------------------------------------------- what a value means

  /** A JSON value with no order on the fields of an object. */
  datatype Meaning =
    | MNull
    | MBool(b: bool)
    | MInt(n: int)
    | MFloat(lexeme: string)
    | MStr(s: string)
    | MArr(items: seq<Meaning>)
    | MObj(fields: map<string, Meaning>)

  function MeaningOf(v: Json): Meaning
    decreases v, 1
  {
    match v
    case Null => MNull
    case Bool(b) => MBool(b)
    case Int(n) => MInt(n)
    case Float(x) => MFloat(x)
    case Str(s) => MStr(s)
    case Arr(items) => MArr(MeaningOfItems(items))
    case Obj(fields) => MObj(MeaningOfFields(fields))
  }

  function MeaningOfItems(items: seq<Json>): (r: seq<Meaning>)
    ensures |r| == |items|
    decreases items, 0
  {
    if items == [] then [] else [MeaningOf(items[0])] + MeaningOfItems(items[1..])
  }

  function MeaningOfFields(fields: seq<Field>): (m: map<string, Meaning>)
    ensures forall k :: k in m <==> exists i :: 0 <= i < |fields| && fields[i].key == k
    decreases fields, 0
  {
    if fields == [] then map[]
    else
      var rest := MeaningOfFields(fields[1..]);
      assert forall i :: 1 <= i < |fields| ==> fields[1..][i - 1] == fields[i];
      rest[fields[0].key := MeaningOf(fields[0].value)]
  }

  // ---------------------------------------------------------------- sorting keeps the meaning

  lemma {:induction false} InsertKeepsMembers(f: Field, fields: seq<Field>)
    ensures forall g :: g in InsertField(f, fields) <==> g == f || g in fields
  {
    if fields != [] && !Less(f.key, fields[0].key) {
      InsertKeepsMembers(f, fields[1..]);
      assert fields == [fields[0]] + fields[1..];
    }
  }

  ghost predicate HasKey(fields: seq<Field>, k: string) {
    exists g :: g in fields && g.key == k
  }

  lemma {:induction false} InsertKeepsSorted(f: Field, fields: seq<Field>)
    requires Sorted(fields) && !HasKey(fields, f.key)
    ensures Sorted(InsertField(f, fields))
  {
    if fields == [] {
    } else if Less(f.key, fields[0].key) {
      forall j | 0 < j < |fields| ensures Less(f.key, fields[j].key) {
        LessIsTransitive(f.key, fields[0].key, fields[j].key);
      }
    } else {
      assert fields[0] in fields;
      LessIsTotal(f.key, fields[0].key);
      var rest := InsertField(f, fields[1..]);
      InsertKeepsSorted(f, fields[1..]);
      InsertKeepsMembers(f, fields[1..]);
      forall j | 0 <= j < |rest| ensures Less(fields[0].key, rest[j].key) {
        assert rest[j] in rest;
        if rest[j] != f {
          var i :| 0 <= i < |fields[1..]| && fields[1..][i] == rest[j];
          assert fields[i + 1] == rest[j];
        }
      }
    }
  }

  lemma SortedIsDistinct(fields: seq<Field>)
    requires Sorted(fields)
    ensures DistinctKeys(fields)
  {
    forall i, j | 0 <= i < j < |fields| ensures fields[i].key != fields[j].key {
      LessIsAsymmetric(fields[i].key, fields[j].key);
    }
  }

  lemma {:induction false} ConsMeaning(f: Field, fields: seq<Field>)
    ensures MeaningOfFields([f] + fields) == MeaningOfFields(fields)[f.key := MeaningOf(f.value)]
  {
    assert ([f] + fields)[1..] == fields;
  }

  lemma UpdatesCommute<K, V>(m: map<K, V>, k: K, v: V, l: K, w: V)
    requires k != l
    ensures m[k := v][l := w] == m[l := w][k := v]
  {
  }

  lemma RemoveUndoesUpdate<K, V>(m: map<K, V>, k: K, v: V)
    requires k !in m
    ensures m[k := v] - {k} == m
  {
  }

  /** Inserting at the place the order asks for, and inserting at the front, mean the same map. */
  lemma {:induction false} InsertKeepsMeaning(f: Field, fields: seq<Field>)
    requires !HasKey(fields, f.key)
    ensures MeaningOfFields(InsertField(f, fields)) == MeaningOfFields(fields)[f.key := MeaningOf(f.value)]
  {
    if fields == [] || Less(f.key, fields[0].key) {
      ConsMeaning(f, fields);
    } else {
      assert fields[0] in fields;
      var tail := fields[1..];
      assert !HasKey(tail, f.key);
      InsertKeepsMeaning(f, tail);
      ConsMeaning(fields[0], InsertField(f, tail));
      ConsMeaning(fields[0], tail);
      assert fields == [fields[0]] + tail;
      UpdatesCommute(MeaningOfFields(tail), f.key, MeaningOf(f.value), fields[0].key, MeaningOf(fields[0].value));
    }
  }

  lemma {:induction false} SortFieldsKeys(fields: seq<Field>, k: string)
    ensures HasKey(SortFields(fields), k) <==> HasKey(fields, k)
  {
    if fields != [] {
      var f := Field(fields[0].key, Sort(fields[0].value));
      SortFieldsKeys(fields[1..], k);
      InsertKeepsMembers(f, SortFields(fields[1..]));
      assert fields == [fields[0]] + fields[1..];
      if HasKey(fields[1..], k) {
        var g :| g in SortFields(fields[1..]) && g.key == k;
        assert g in SortFields(fields);
      }
      if fields[0].key == k {
        assert f in SortFields(fields);
      }
    }
  }

  lemma TailHasNoFirstKey(fields: seq<Field>)
    requires DistinctKeys(fields) && fields != []
    ensures !HasKey(SortFields(fields[1..]), fields[0].key) && DistinctKeys(fields[1..])
  {
    SortFieldsKeys(fields[1..], fields[0].key);
  }

  /** Canonicalising gives sorted keys at every depth and keeps the meaning. */
  lemma {:induction false} SortKeepsMeaning(v: Json)
    requires Valid(v)
    ensures Valid(Sort(v)) && MeaningOf(Sort(v)) == MeaningOf(v)
    ensures v.Obj? ==> Sorted(Sort(v).fields)
    decreases v, 1
  {
    match v {
      case Arr(items) => SortItemsKeepsMeaning(items);
      case Obj(fields) => SortFieldsKeepsMeaning(fields);
      case _ =>
    }
  }

  lemma {:induction false} SortItemsKeepsMeaning(items: seq<Json>)
    requires forall i :: 0 <= i < |items| ==> Valid(items[i])
    ensures forall i :: 0 <= i < |items| ==> Valid(SortItems(items)[i])
    ensures MeaningOfItems(SortItems(items)) == MeaningOfItems(items)
    decreases items, 0
  {
    if items != [] {
      SortKeepsMeaning(items[0]);
      SortItemsKeepsMeaning(items[1..]);
    }
  }

  lemma {:induction false} SortFieldsKeepsMeaning(fields: seq<Field>)
    requires DistinctKeys(fields) && forall i :: 0 <= i < |fields| ==> Valid(fields[i].value)
    ensures Sorted(SortFields(fields)) && DistinctKeys(SortFields(fields))
    ensures forall g :: g in SortFields(fields) ==> Valid(g.value)
    ensures MeaningOfFields(SortFields(fields)) == MeaningOfFields(fields)
    decreases fields, 0
  {
    if fields != [] {
      var f := Field(fields[0].key, Sort(fields[0].value));
      SortKeepsMeaning(fields[0].value);
      SortFieldsKeepsMeaning(fields[1..]);
      TailHasNoFirstKey(fields);
      InsertKeepsSorted(f, SortFields(fields[1..]));
      InsertKeepsMembers(f, SortFields(fields[1..]));
      InsertKeepsMeaning(f, SortFields(fields[1..]));
    }
    SortedIsDistinct(SortFields(fields));
  }

  // ---------------------------------------------------------------- equal meanings sort alike

  /** Values whose every object is already in key order. */
  ghost predicate Ordered(v: Json) {
    match v
    case Arr(items) => forall i :: 0 <= i < |items| ==> Ordered(items[i])
    case Obj(fields) => Sorted(fields) && forall i :: 0 <= i < |fields| ==> Ordered(fields[i].value)
    case _ => true
  }

  lemma {:induction false} SortOrders(v: Json)
    requires Valid(v)
    ensures Ordered(Sort(v))
    decreases v, 1
  {
    match v {
      case Arr(items) => SortOrdersItems(items);
      case Obj(fields) =>
        SortFieldsKeepsMeaning(fields);
        SortOrdersFields(fields);
        forall i | 0 <= i < |SortFields(fields)| ensures Ordered(SortFields(fields)[i].value) {
          assert SortFields(fields)[i] in SortFields(fields);
        }
      case _ =>
    }
  }

  lemma {:induction false} SortOrdersItems(items: seq<Json>)
    requires forall i :: 0 <= i < |items| ==> Valid(items[i])
    ensures forall i :: 0 <= i < |items| ==> Ordered(SortItems(items)[i])
    decreases items, 0
  {
    if items != [] {
      SortOrders(items[0]);
      SortOrdersItems(items[1..]);
    }
  }

  lemma {:induction false} SortOrdersFields(fields: seq<Field>)
    requires forall i :: 0 <= i < |fields| ==> Valid(fields[i].value)
    ensures forall g :: g in SortFields(fields) ==> Ordered(g.value)
    decreases fields, 0
  {
    if fields != [] {
      SortOrders(fields[0].value);
      SortOrdersFields(fields[1..]);
      InsertKeepsMembers(Field(fields[0].key, Sort(fields[0].value)), SortFields(fields[1..]));
    }
  }

  /** The first key of a sorted object is the least key of its map, so equal maps start alike. */
  lemma SameFirstKey(a: seq<Field>, b: seq<Field>)
    requires Sorted(a) && Sorted(b) && MeaningOfFields(a) == MeaningOfFields(b) && a != []
    ensures b != [] && a[0].key == b[0].key
  {
    assert a[0].key in MeaningOfFields(b);
    assert b[0].key in MeaningOfFields(a);
    var i :| 0 <= i < |b| && b[i].key == a[0].key;
    var j :| 0 <= j < |a| && a[j].key == b[0].key;
    if i > 0 && j > 0 {
      LessIsAsymmetric(b[0].key, b[i].key);
    }
  }

  /** Two values in key order with the same meaning are the same value. */
  lemma {:induction false} OrderedIsUnique(v: Json, w: Json)
    requires Ordered(v) && Ordered(w) && MeaningOf(v) == MeaningOf(w)
    ensures v == w
    decreases v, 1
  {
    match v {
      case Arr(items) => OrderedItemsUnique(items, w.items);
      case Obj(fields) => OrderedFieldsUnique(fields, w.fields);
      case _ =>
    }
  }

  lemma {:induction false} OrderedItemsUnique(a: seq<Json>, b: seq<Json>)
    requires forall i :: 0 <= i < |a| ==> Ordered(a[i])
    requires forall i :: 0 <= i < |b| ==> Ordered(b[i])
    requires MeaningOfItems(a) == MeaningOfItems(b)
    ensures a == b
    decreases a, 0
  {
    assert |a| == |b|;
    if a != [] {
      assert MeaningOfItems(a)[0] == MeaningOfItems(b)[0];
      assert MeaningOfItems(a)[1..] == MeaningOfItems(b)[1..];
      OrderedIsUnique(a[0], b[0]);
      OrderedItemsUnique(a[1..], b[1..]);
      assert a == [a[0]] + a[1..] && b == [b[0]] + b[1..];
    }
  }

  lemma {:induction false} OrderedFieldsUnique(a: seq<Field>, b: seq<Field>)
    requires Sorted(a) && forall i :: 0 <= i < |a| ==> Ordered(a[i].value)
    requires Sorted(b) && forall i :: 0 <= i < |b| ==> Ordered(b[i].value)
    requires MeaningOfFields(a) == MeaningOfFields(b)
    ensures a == b
    decreases a, 0
  {
    EmptyMeaning(a);
    EmptyMeaning(b);
    if a != [] {
      SameFirstKey(a, b);
      SortedIsDistinct(a);
      SortedIsDistinct(b);
      var k := a[0].key;
      assert MeaningOfFields(a)[k] == MeaningOf(a[0].value) && MeaningOfFields(b)[k] == MeaningOf(b[0].value);
      OrderedIsUnique(a[0].value, b[0].value);
      TailMeaning(a);
      TailMeaning(b);
      OrderedFieldsUnique(a[1..], b[1..]);
      assert a == [a[0]] + a[1..] && b == [b[0]] + b[1..];
    }
  }

  lemma EmptyMeaning(a: seq<Field>)
    ensures a == [] <==> MeaningOfFields(a) == map[]
  {
    if a != [] {
      assert a[0].key in MeaningOfFields(a);
    }
  }

  lemma {:induction false} TailMeaning(a: seq<Field>)
    requires DistinctKeys(a) && a != []
    ensures MeaningOfFields(a[1..]) == MeaningOfFields(a) - {a[0].key}
  {
    var tail := a[1..];
    assert a[0].key !in MeaningOfFields(tail);
    assert a == [a[0]] + tail;
    ConsMeaning(a[0], tail);
    RemoveUndoesUpdate(MeaningOfFields(tail), a[0].key, MeaningOf(a[0].value));
  }

  // ---------------------------------------------------------------- main results

  /** Two bodies have the same canonical text exactly when they are the same value up to key order. */
  lemma CanonicalTextIdentifies(v: Json, w: Json)
    requires Valid(v) && Valid(w)
    ensures CanonicalText(v) == CanonicalText(w) <==> MeaningOf(v) == MeaningOf(w)
  {
    SortKeepsMeaning(v);
    SortKeepsMeaning(w);
    RoundTrip(Sort(v));
    RoundTrip(Sort(w));
    if MeaningOf(v) == MeaningOf(w) {
      SortOrders(v);
      SortOrders(w);
      OrderedIsUnique(Sort(v), Sort(w));
    }
  }

  /** Reading a canonical text back and canonicalising again changes nothing. */
  lemma CanonicalTextIsStable(v: Json)
    requires Valid(v)
    ensures Parse(CanonicalText(v)) == Some(Sort(v))
    ensures Sort(Sort(v)) == Sort(v)
    ensures CanonicalText(Parse(CanonicalText(v)).value) == CanonicalText(v)
  {
    SortKeepsMeaning(v);
    SortKeepsMeaning(Sort(v));
    SortOrders(v);
    SortOrders(Sort(v));
    OrderedIsUnique(Sort(Sort(v)), Sort(v));
    RoundTrip(Sort(v));
  }

  /** A body that differs in meaning is digested from a different text: what signing relies on. */
  lemma TamperedBodyHasAnotherText(v: Json, w: Json)
    requires Valid(v) && Valid(w) && MeaningOf(v) != MeaningOf(w)
    ensures CanonicalText(v) != CanonicalText(w)
  {
    CanonicalTextIdentifies(v, w);
  }
}

/** Content ids (ekos/crates/artifact/src/lib.rs): a JSON value is put into canonical form, its object
    keys sorted at every depth, and the digest of its text is the id. */
module ContentId {
  import opened Common
  import opened Bytes
  import opened PackHistory

  /** A JSON value; the fields of an object stand in the order in which its map yields them. */
  datatype Json =
    | Null
    | Bool(flag: bool)
    | Number(text: string)
    | Text(text: string)
    | Array(items: seq<Json>)
    | Object(fields: seq<Field>)

  datatype Field = Field(key: string, value: Json)

  // ---- keys ----

  predicate UniqueKeys(fields: seq<Field>) {
    Distinct(Keys(fields))
  }

  predicate HasKey(fields: seq<Field>, key: string) {
    exists i :: 0 <= i < |fields| && fields[i].key == key
  }

  /** Where `key` first stands. */
  function IndexOf(fields: seq<Field>, key: string): (i: nat)
    requires HasKey(fields, key)
    ensures i < |fields| && fields[i].key == key
  {
    if fields[0].key == key then 0 else
      assert forall i :: 0 <= i < |fields| && fields[i].key == key ==> fields[1..][i - 1].key == key;
      1 + IndexOf(fields[1..], key)
  }

  function Keys(fields: seq<Field>): (keys: seq<string>)
    ensures |keys| == |fields|
    ensures forall i :: 0 <= i < |fields| ==> keys[i] == fields[i].key
  {
    seq(|fields|, i requires 0 <= i < |fields| => fields[i].key)
  }

  /** A JSON object has no key twice, at any depth. */
  predicate WellFormed(j: Json) {
    match j
    case Array(items) => forall i :: 0 <= i < |items| ==> WellFormed(items[i])
    case Object(fields) => UniqueKeys(fields) && forall i :: 0 <= i < |fields| ==> WellFormed(fields[i].value)
    case _ => true
  }

  // ---- the order of strings ----

  predicate Before(a: string, b: string) {
    if b == "" then false
    else if a == "" then true
    else a[0] < b[0] || (a[0] == b[0] && Before(a[1..], b[1..]))
  }

  lemma {:induction false} BeforeIsTotal(a: string, b: string)
    ensures Before(a, b) || a == b || Before(b, a)
    ensures !(Before(a, b) && (a == b || Before(b, a)))
  {
    if a != "" && b != "" {
      BeforeIsTotal(a[1..], b[1..]);
      assert a == [a[0]] + a[1..] && b == [b[0]] + b[1..];
    }
  }

  /** The first difference decides; a text that has ended comes before one that has not. */
  lemma {:induction false} FirstDifferenceDecides(a: string, b: string, k: nat)
    requires k <= |a| && k <= |b| && a[..k] == b[..k] && (k < |a| && k < |b| ==> a[k] != b[k])
    ensures k < |a| && k < |b| ==> (Before(a, b) <==> a[k] < b[k])
    ensures k == |a| || k == |b| ==> (Before(a, b) <==> |a| < |b|)
  {
    if k > 0 {
      assert a[0] == a[..k][0] && b[0] == b[..k][0];
      assert a[1..][..k - 1] == a[..k][1..] && b[1..][..k - 1] == b[..k][1..];
      FirstDifferenceDecides(a[1..], b[1..], k - 1);
    }
  }

  lemma {:induction false} BeforeIsTransitive(a: string, b: string, c: string)
    requires Before(a, b) && Before(b, c)
    ensures Before(a, c)
  {
    if a != "" && a[0] == b[0] == c[0] {
      BeforeIsTransitive(a[1..], b[1..], c[1..]);
    }
  }

  // ---- sorting ----

  predicate Ascending(keys: seq<string>) {
    forall i, j :: 0 <= i < j < |keys| ==> Before(keys[i], keys[j])
  }

  function Insert(key: string, sorted: seq<string>): seq<string> {
    if sorted == [] || key == sorted[0] || Before(key, sorted[0]) then [key] + sorted
    else [sorted[0]] + Insert(key, sorted[1..])
  }

  function Sort(keys: seq<string>): seq<string> {
    if keys == [] then [] else Insert(keys[0], Sort(keys[1..]))
  }

  lemma {:induction false} InsertIsAscending(key: string, sorted: seq<string>)
    requires Ascending(sorted) && key !in sorted
    ensures Ascending(Insert(key, sorted)) && |Insert(key, sorted)| == |sorted| + 1
    ensures forall k :: k in Insert(key, sorted) <==> k == key || k in sorted
  {
    if sorted != [] {
      BeforeIsTotal(key, sorted[0]);
      if Before(key, sorted[0]) {
        forall j | 0 < j < |sorted| ensures Before(key, sorted[j]) {
          BeforeIsTransitive(key, sorted[0], sorted[j]);
        }
      } else {
        InsertIsAscending(key, sorted[1..]);
        var rest := Insert(key, sorted[1..]);
        forall j | 0 <= j < |rest| ensures Before(sorted[0], rest[j]) {
          assert rest[j] in rest;
        }
      }
    }
  }

  lemma {:induction false} SortIsAscending(keys: seq<string>)
    requires Distinct(keys)
    ensures Ascending(Sort(keys)) && |Sort(keys)| == |keys|
    ensures forall k :: k in Sort(keys) <==> k in keys
  {
    if keys != [] {
      SortIsAscending(keys[1..]);
      InsertIsAscending(keys[0], Sort(keys[1..]));
      assert keys == [keys[0]] + keys[1..];
    }
  }

  lemma HasMember(keys: seq<string>)
    ensures keys != [] ==> exists k :: k in keys
  {
    if keys != [] {
      assert keys[0] in keys;
    }
  }

  /** There is one ascending list of given keys. */
  lemma {:induction false} AscendingIsUnique(a: seq<string>, b: seq<string>)
    requires Ascending(a) && Ascending(b)
    requires forall k :: k in a <==> k in b
    ensures a == b
  {
    if a == [] {
      HasMember(b);
    } else {
      assert a[0] in b && b != [];
      assert b[0] in a;
      BeforeIsTotal(a[0], b[0]);
      assert a[0] == b[0];
      forall k ensures k in a[1..] <==> k in b[1..] {
        TailWithoutHead(a, k);
        TailWithoutHead(b, k);
      }
      AscendingIsUnique(a[1..], b[1..]);
      assert a == [a[0]] + a[1..] && b == [b[0]] + b[1..];
    }
  }

  lemma TailWithoutHead(a: seq<string>, k: string)
    requires a != [] && Ascending(a)
    ensures k in a[1..] <==> k in a && k != a[0]
  {
    BeforeIsTotal(a[0], a[0]);
    assert a == [a[0]] + a[1..];
  }

  lemma {:induction false} SortMembers(keys: seq<string>, k: string)
    ensures k in Sort(keys) <==> k in keys
  {
    if keys != [] {
      SortMembers(keys[1..], k);
      InsertMembers(keys[0], Sort(keys[1..]), k);
      assert keys == [keys[0]] + keys[1..];
    }
  }

  lemma {:induction false} InsertMembers(key: string, sorted: seq<string>, k: string)
    ensures k in Insert(key, sorted) <==> k == key || k in sorted
  {
    if sorted != [] {
      InsertMembers(key, sorted[1..], k);
      assert sorted == [sorted[0]] + sorted[1..];
    }
  }

  // ---- the canonical form ----

  function KeyOrder(fields: seq<Field>): (keys: seq<string>)
    ensures forall k :: k in keys <==> HasKey(fields, k)
  {
    KeyOrderMembers(fields);
    Sort(Keys(fields))
  }

  lemma KeyOrderMembers(fields: seq<Field>)
    ensures forall k :: k in Sort(Keys(fields)) <==> HasKey(fields, k)
  {
    forall k ensures k in Sort(Keys(fields)) <==> HasKey(fields, k) {
      SortMembers(Keys(fields), k);
      assert forall i :: 0 <= i < |fields| ==> Keys(fields)[i] == fields[i].key;
    }
  }

  /** The fields one by one in the order of `keys`, each value in canonical form. */
  function Pick(fields: seq<Field>, keys: seq<string>): (picked: seq<Field>)
    requires forall k :: k in keys ==> HasKey(fields, k)
    ensures |picked| == |keys|
    ensures forall i :: 0 <= i < |keys| ==> picked[i].key == keys[i]
    ensures forall i :: 0 <= i < |keys| ==> picked[i].value == Canon(fields[IndexOf(fields, keys[i])].value)
    decreases fields, 0, |keys|
  {
    if keys == [] then []
    else
      assert forall k :: k in keys[1..] ==> k in keys;
      [Field(keys[0], Canon(fields[IndexOf(fields, keys[0])].value))] + Pick(fields, keys[1..])
  }

  function Canon(j: Json): Json
    decreases j, 1
  {
    match j
    case Array(items) => Array(seq(|items|, i requires 0 <= i < |items| => Canon(items[i])))
    case Object(fields) => Object(Pick(fields, KeyOrder(fields)))
    case _ => j
  }

  // ---- equality up to key order ----

  /** The two values differ only in the order of object keys, at whatever depth. */
  predicate Same(a: Json, b: Json) {
    match a
    case Array(items) =>
      b.Array? && |items| == |b.items| && forall i :: 0 <= i < |items| ==> Same(items[i], b.items[i])
    case Object(fields) =>
      b.Object? && |fields| == |b.fields| &&
      forall i :: 0 <= i < |fields| ==>
        HasKey(b.fields, fields[i].key) && Same(fields[i].value, b.fields[IndexOf(b.fields, fields[i].key)].value)
    case _ => a == b
  }

  lemma IndexOfUnique(fields: seq<Field>, i: nat)
    requires UniqueKeys(fields) && i < |fields|
    ensures HasKey(fields, fields[i].key) && IndexOf(fields, fields[i].key) == i
  {
  }

  lemma KeyOrderAscends(fields: seq<Field>)
    requires UniqueKeys(fields)
    ensures Ascending(KeyOrder(fields)) && |KeyOrder(fields)| == |fields|
  {
    SortIsAscending(Keys(fields));
  }

  /** Among as many unique keys, having all of the other's keys means having the same keys. */
  lemma SameKeys(a: seq<Field>, b: seq<Field>)
    requires UniqueKeys(a) && UniqueKeys(b) && |a| == |b|
    requires forall i :: 0 <= i < |a| ==> HasKey(b, a[i].key)
    ensures forall k :: HasKey(a, k) <==> HasKey(b, k)
  {
    var ka, kb := set i | 0 <= i < |a| :: a[i].key, set i | 0 <= i < |b| :: b[i].key;
    CountKeys(a);
    CountKeys(b);
    assert ka <= kb;
    assert kb == ka + (kb - ka);
    forall k ensures HasKey(a, k) <==> HasKey(b, k) {
      assert HasKey(a, k) <==> k in ka;
      assert HasKey(b, k) <==> k in kb;
    }
  }

  lemma {:induction false} CountKeys(fields: seq<Field>)
    requires UniqueKeys(fields)
    ensures |set i | 0 <= i < |fields| :: fields[i].key| == |fields|
  {
    var keys := set i | 0 <= i < |fields| :: fields[i].key;
    if fields != [] {
      CountKeys(fields[1..]);
      var rest := set i | 0 <= i < |fields[1..]| :: fields[1..][i].key;
      forall k ensures k in keys <==> k == fields[0].key || k in rest {
        if k in keys && k != fields[0].key {
          var i :| 0 <= i < |fields| && fields[i].key == k;
          assert fields[1..][i - 1].key == k;
        }
      }
      assert keys == rest + {fields[0].key};
    }
  }

  /** Two objects with the same keys pick them in the same order. */
  lemma SameKeyOrder(a: seq<Field>, b: seq<Field>)
    requires UniqueKeys(a) && UniqueKeys(b)
    ensures KeyOrder(a) == KeyOrder(b) <==> forall k :: HasKey(a, k) <==> HasKey(b, k)
  {
    KeyOrderAscends(a);
    KeyOrderAscends(b);
    if forall k :: HasKey(a, k) <==> HasKey(b, k) {
      AscendingIsUnique(KeyOrder(a), KeyOrder(b));
    }
    if KeyOrder(a) == KeyOrder(b) {
      forall k ensures HasKey(a, k) <==> HasKey(b, k) {
        assert k in KeyOrder(a) <==> HasKey(a, k);
      }
    }
  }

  /** The canonical form decides equality up to key order. */
  lemma {:induction false} CanonDecidesSameness(a: Json, b: Json)
    requires WellFormed(a) && WellFormed(b)
    ensures Canon(a) == Canon(b) <==> Same(a, b)
    decreases a
  {
    if a.Array? && b.Array? {
      assert |Canon(a).items| == |a.items| && |Canon(b).items| == |b.items|;
      if |a.items| == |b.items| {
        forall i | 0 <= i < |a.items| ensures Canon(a.items[i]) == Canon(b.items[i]) <==> Same(a.items[i], b.items[i]) {
          CanonDecidesSameness(a.items[i], b.items[i]);
        }
        SameArrays(a.items, b.items);
      }
    } else if a.Object? && b.Object? {
      forall i, j | 0 <= i < |a.fields| && 0 <= j < |b.fields|
        ensures Canon(a.fields[i].value) == Canon(b.fields[j].value) <==> Same(a.fields[i].value, b.fields[j].value)
      {
        CanonDecidesSameness(a.fields[i].value, b.fields[j].value);
      }
      SameObjects(a.fields, b.fields);
    }
  }

  lemma SameArrays(a: seq<Json>, b: seq<Json>)
    requires |a| == |b|
    requires forall i :: 0 <= i < |a| ==> (Canon(a[i]) == Canon(b[i]) <==> Same(a[i], b[i]))
    ensures Canon(Array(a)) == Canon(Array(b)) <==> Same(Array(a), Array(b))
  {
    var ca, cb := Canon(Array(a)).items, Canon(Array(b)).items;
    assert forall i :: 0 <= i < |a| ==> ca[i] == Canon(a[i]) && cb[i] == Canon(b[i]);
  }

  /** The canonical forms agree exactly when the keys do, and the values key by key. */
  predicate AgreeByKey(a: seq<Field>, b: seq<Field>) {
    && |a| == |b|
    && forall i :: 0 <= i < |a| ==>
         HasKey(b, a[i].key) && Canon(a[i].value) == Canon(b[IndexOf(b, a[i].key)].value)
  }

  lemma SameObjects(a: seq<Field>, b: seq<Field>)
    requires UniqueKeys(a) && UniqueKeys(b)
    requires forall i, j :: 0 <= i < |a| && 0 <= j < |b| ==>
               (Canon(a[i].value) == Canon(b[j].value) <==> Same(a[i].value, b[j].value))
    ensures Canon(Object(a)) == Canon(Object(b)) <==> Same(Object(a), Object(b))
  {
    assert AgreeByKey(a, b) <==> Same(Object(a), Object(b));
    if AgreeByKey(a, b) {
      AgreeingAreEqual(a, b);
    }
    if Canon(Object(a)) == Canon(Object(b)) {
      EqualAgree(a, b);
    }
  }

  lemma AgreeingAreEqual(a: seq<Field>, b: seq<Field>)
    requires UniqueKeys(a) && UniqueKeys(b) && AgreeByKey(a, b)
    ensures Canon(Object(a)) == Canon(Object(b))
  {
    SameKeys(a, b);
    SameKeyOrder(a, b);
    var keys := KeyOrder(a);
    var pa, pb := Pick(a, keys), Pick(b, keys);
    forall i | 0 <= i < |keys| ensures pa[i] == pb[i] {
      assert keys[i] in keys && HasKey(a, keys[i]);
      assert pa[i].value == Canon(a[IndexOf(a, keys[i])].value);
    }
    assert pa == pb;
  }

  lemma EqualAgree(a: seq<Field>, b: seq<Field>)
    requires UniqueKeys(a) && UniqueKeys(b) && Canon(Object(a)) == Canon(Object(b))
    ensures AgreeByKey(a, b)
  {
    var ka, kb := KeyOrder(a), KeyOrder(b);
    var pa, pb := Pick(a, ka), Pick(b, kb);
    assert pa == pb;
    assert ka == kb by {
      assert |ka| == |kb|;
      forall i | 0 <= i < |ka| ensures ka[i] == kb[i] {
        assert pa[i].key == pb[i].key;
      }
    }
    SameKeyOrder(a, b);
    KeyOrderAscends(a);
    KeyOrderAscends(b);
    forall i | 0 <= i < |a|
      ensures HasKey(b, a[i].key) && Canon(a[i].value) == Canon(b[IndexOf(b, a[i].key)].value)
    {
      IndexOfUnique(a, i);
      assert a[i].key in ka;
      var n :| 0 <= n < |ka| && ka[n] == a[i].key;
      assert pa[n].value == Canon(a[IndexOf(a, ka[n])].value);
      assert pb[n].value == Canon(b[IndexOf(b, kb[n])].value);
    }
  }

  // ---- the canonical form is one of its own kind ----

  lemma {:induction false} CanonIsSame(a: Json)
    requires WellFormed(a)
    ensures WellFormed(Canon(a)) && Same(a, Canon(a))
    decreases a
  {
    match a
    case Array(items) =>
      forall i | 0 <= i < |items| ensures WellFormed(Canon(a).items[i]) && Same(items[i], Canon(a).items[i]) {
        CanonIsSame(items[i]);
      }
    case Object(fields) =>
      forall i | 0 <= i < |fields|
        ensures WellFormed(Canon(fields[i].value)) && Same(fields[i].value, Canon(fields[i].value))
      {
        CanonIsSame(fields[i].value);
      }
      CanonObjectIsSame(fields);
    case _ =>
  }

  lemma AscendingIsDistinct(keys: seq<string>)
    requires Ascending(keys)
    ensures Distinct(keys)
  {
    forall i, j | 0 <= i < j < |keys| ensures keys[i] != keys[j] {
      BeforeIsTotal(keys[i], keys[j]);
    }
  }

  /** Field `i` is found among the picked ones, its value in canonical form. */
  lemma PickedAt(fields: seq<Field>, i: nat)
    requires UniqueKeys(fields) && i < |fields|
    ensures var picked := Pick(fields, KeyOrder(fields));
            HasKey(picked, fields[i].key) && picked[IndexOf(picked, fields[i].key)].value == Canon(fields[i].value)
  {
    var keys := KeyOrder(fields);
    IndexOfUnique(fields, i);
    assert fields[i].key in keys;
    var n :| 0 <= n < |keys| && keys[n] == fields[i].key;
    var picked := Pick(fields, keys);
    PickedIsUnique(fields);
    IndexOfUnique(picked, n);
  }

  lemma PickedIsUnique(fields: seq<Field>)
    requires UniqueKeys(fields)
    ensures UniqueKeys(Pick(fields, KeyOrder(fields)))
  {
    KeyOrderAscends(fields);
    AscendingIsDistinct(KeyOrder(fields));
    assert Keys(Pick(fields, KeyOrder(fields))) == KeyOrder(fields);
  }

  lemma CanonObjectIsSame(fields: seq<Field>)
    requires UniqueKeys(fields)
    requires forall i :: 0 <= i < |fields| ==>
               WellFormed(Canon(fields[i].value)) && Same(fields[i].value, Canon(fields[i].value))
    ensures WellFormed(Canon(Object(fields))) && Same(Object(fields), Canon(Object(fields)))
  {
    PickedIsWellFormed(fields);
    PickedIsSame(fields);
  }

  lemma PickedIsWellFormed(fields: seq<Field>)
    requires UniqueKeys(fields)
    requires forall i :: 0 <= i < |fields| ==> WellFormed(Canon(fields[i].value))
    ensures WellFormed(Object(Pick(fields, KeyOrder(fields))))
  {
    var keys := KeyOrder(fields);
    var picked := Pick(fields, keys);
    PickedIsUnique(fields);
    forall i | 0 <= i < |picked| ensures WellFormed(picked[i].value) {
      assert keys[i] in keys;
    }
  }

  lemma PickedIsSame(fields: seq<Field>)
    requires UniqueKeys(fields)
    requires forall i :: 0 <= i < |fields| ==> Same(fields[i].value, Canon(fields[i].value))
    ensures Same(Object(fields), Object(Pick(fields, KeyOrder(fields))))
  {
    var picked := Pick(fields, KeyOrder(fields));
    KeyOrderAscends(fields);
    forall i | 0 <= i < |fields|
      ensures HasKey(picked, fields[i].key)
      ensures Same(fields[i].value, picked[IndexOf(picked, fields[i].key)].value)
    {
      PickedAt(fields, i);
    }
  }

  /** Taking the canonical form twice is taking it once. */
  lemma CanonIsIdempotent(a: Json)
    requires WellFormed(a)
    ensures Canon(Canon(a)) == Canon(a)
  {
    CanonIsSame(a);
    CanonDecidesSameness(a, Canon(a));
  }

  /** Object keys ascend, at every depth. */
  predicate Sorted(j: Json) {
    match j
    case Array(items) => forall i :: 0 <= i < |items| ==> Sorted(items[i])
    case Object(fields) => Ascending(Keys(fields)) && forall i :: 0 <= i < |fields| ==> Sorted(fields[i].value)
    case _ => true
  }

  lemma {:induction false} CanonIsSorted(a: Json)
    requires WellFormed(a)
    ensures Sorted(Canon(a))
    decreases a
  {
    match a
    case Array(items) =>
      forall i | 0 <= i < |items| ensures Sorted(Canon(a).items[i]) {
        CanonIsSorted(items[i]);
      }
    case Object(fields) =>
      KeyOrderAscends(fields);
      var picked := Canon(a).fields;
      assert Keys(picked) == KeyOrder(fields);
      forall i | 0 <= i < |picked| ensures Sorted(picked[i].value) {
        assert KeyOrder(fields)[i] in KeyOrder(fields);
        CanonIsSorted(fields[IndexOf(fields, KeyOrder(fields)[i])].value);
      }
    case _ =>
  }

  /** A value is its own canonical form exactly when its keys ascend at every depth. */
  lemma {:induction false} FixedIffSorted(a: Json)
    requires WellFormed(a)
    ensures Canon(a) == a <==> Sorted(a)
    decreases a
  {
    CanonIsSorted(a);
    if Sorted(a) {
      match a
      case Array(items) =>
        forall i | 0 <= i < |items| ensures Canon(items[i]) == items[i] {
          FixedIffSorted(items[i]);
        }
        assert Canon(a).items == items;
      case Object(fields) =>
        KeyOrderAscends(fields);
        AscendingIsUnique(KeyOrder(fields), Keys(fields));
        var picked := Canon(a).fields;
        forall i | 0 <= i < |fields| ensures picked[i] == fields[i] {
          IndexOfUnique(fields, i);
          FixedIffSorted(fields[i].value);
        }
        assert picked == fields;
      case _ =>
    }
  }

  // ---- ids ----

  /** How canonical JSON is written out, and the digest of a text: both are only assumed to be
      functions. */
  datatype Digester = Digester(write: Json -> seq<byte>, digest: seq<byte> -> seq<byte>)

  /** The canonical forms of the two, if they differ, are not written out and digested alike. */
  predicate Apart(h: Digester, a: Json, b: Json) {
    h.digest(h.write(Canon(a))) == h.digest(h.write(Canon(b))) ==> Canon(a) == Canon(b)
  }

  function ComputeId(h: Digester, content: Json): string {
    HexEncode(h.digest(h.write(Canon(content))))
  }

  /** Contents that differ only in key order have one id; where digests do not collide, only they do. */
  lemma SameIdIffSameContent(h: Digester, a: Json, b: Json)
    requires WellFormed(a) && WellFormed(b)
    ensures Same(a, b) ==> ComputeId(h, a) == ComputeId(h, b)
    ensures Apart(h, a, b) ==> (ComputeId(h, a) == ComputeId(h, b) <==> Same(a, b))
  {
    CanonDecidesSameness(a, b);
    if ComputeId(h, a) == ComputeId(h, b) {
      HexEncodeInjective(h.digest(h.write(Canon(a))), h.digest(h.write(Canon(b))));
    }
  }

  /** With a 32-byte digest, an id is a hash as the pack store writes them, in lower case. */
  lemma ComputedIdIsCanonical(h: Digester, content: Json)
    requires |h.digest(h.write(Canon(content)))| == 32
    ensures HexToRaw(ComputeId(h, content)).Ok? && Canonical(ComputeId(h, content))
    ensures |ComputeId(h, content)| == 64
  {
    HexRoundTrip(h.digest(h.write(Canon(content))));
  }

  // ---- an artifact whose content is a hash map ----

  /** `order` is an order in which a hash map may yield its keys. */
  ghost predicate Enumerates(order: seq<string>, entries: map<string, string>) {
    && Distinct(order)
    && (forall k :: k in order <==> k in entries)
  }

  function EntryFields(entries: map<string, string>, order: seq<string>): (fields: seq<Field>)
    requires forall k :: k in order ==> k in entries
    ensures |fields| == |order|
    ensures forall i :: 0 <= i < |order| ==> fields[i] == Field(order[i], Text(entries[order[i]]))
  {
    seq(|order|, i requires 0 <= i < |order| => Field(order[i], Text(entries[order[i]])))
  }

  /** The content of an index artifact as its serialization yields it. */
  function IndexContent(buildId: string, entries: map<string, string>, order: seq<string>): Json
    requires forall k :: k in order ==> k in entries
  {
    Object([Field("build_id", Text(buildId)), Field("entries", Object(EntryFields(entries, order)))])
  }

  lemma IndexContentIsWellFormed(buildId: string, entries: map<string, string>, order: seq<string>)
    requires Enumerates(order, entries)
    ensures WellFormed(IndexContent(buildId, entries, order))
  {
    EntriesAreUnique(entries, order);
    assert WellFormed(Object(EntryFields(entries, order)));
  }

  lemma EntryKeys(entries: map<string, string>, order: seq<string>, k: string)
    requires Enumerates(order, entries)
    ensures HasKey(EntryFields(entries, order), k) <==> k in entries
    ensures k in entries ==>
              EntryFields(entries, order)[IndexOf(EntryFields(entries, order), k)] == Field(k, Text(entries[k]))
  {
    var fields := EntryFields(entries, order);
    assert k in order <==> k in entries;
    if i :| 0 <= i < |order| && order[i] == k {
      assert fields[i].key == k;
    }
  }

  lemma EqualEntriesAreSame(entries: map<string, string>, orderA: seq<string>, orderB: seq<string>)
    requires Enumerates(orderA, entries) && Enumerates(orderB, entries)
    ensures Same(Object(EntryFields(entries, orderA)), Object(EntryFields(entries, orderB)))
  {
    var fa, fb := EntryFields(entries, orderA), EntryFields(entries, orderB);
    SameLength(orderA, orderB);
    forall i | 0 <= i < |fa|
      ensures HasKey(fb, fa[i].key) && Same(fa[i].value, fb[IndexOf(fb, fa[i].key)].value)
    {
      assert orderA[i] in orderA;
      EntryKeys(entries, orderB, orderA[i]);
    }
  }

  lemma EntriesAreUnique(entries: map<string, string>, order: seq<string>)
    requires Enumerates(order, entries)
    ensures UniqueKeys(EntryFields(entries, order))
  {
    assert Keys(EntryFields(entries, order)) == order;
  }

  lemma SameEntriesAreEqual(a: map<string, string>, b: map<string, string>, orderA: seq<string>, orderB: seq<string>)
    requires Enumerates(orderA, a) && Enumerates(orderB, b)
    requires Same(Object(EntryFields(a, orderA)), Object(EntryFields(b, orderB)))
    ensures a == b
  {
    EntriesAreUnique(a, orderA);
    EntriesAreUnique(b, orderB);
    SameHasKeys(EntryFields(a, orderA), EntryFields(b, orderB));
    forall k ensures (k in a <==> k in b) && (k in a ==> a[k] == b[k]) {
      SameEntry(a, b, orderA, orderB, k);
    }
  }

  lemma SameEntry(
      a: map<string, string>, b: map<string, string>, orderA: seq<string>, orderB: seq<string>, k: string)
    requires Enumerates(orderA, a) && Enumerates(orderB, b)
    requires Same(Object(EntryFields(a, orderA)), Object(EntryFields(b, orderB)))
    requires HasKey(EntryFields(a, orderA), k) <==> HasKey(EntryFields(b, orderB), k)
    ensures (k in a <==> k in b) && (k in a ==> a[k] == b[k])
  {
    var fa, fb := EntryFields(a, orderA), EntryFields(b, orderB);
    EntryKeys(a, orderA, k);
    EntryKeys(b, orderB, k);
    if k in a {
      SameAtKey(fa, fb, IndexOf(fa, k));
    }
  }

  lemma SameHasKeys(fa: seq<Field>, fb: seq<Field>)
    requires UniqueKeys(fa) && UniqueKeys(fb) && Same(Object(fa), Object(fb))
    ensures forall k :: HasKey(fa, k) <==> HasKey(fb, k)
  {
    SameKeys(fa, fb);
  }

  lemma SameAtKey(fa: seq<Field>, fb: seq<Field>, i: nat)
    requires Same(Object(fa), Object(fb)) && i < |fa|
    ensures HasKey(fb, fa[i].key) && Same(fa[i].value, fb[IndexOf(fb, fa[i].key)].value)
  {
  }

  lemma SameLength(a: seq<string>, b: seq<string>)
    requires Distinct(a)
    requires Distinct(b)
    requires forall k :: k in a <==> k in b
    ensures |a| == |b|
  {
    SortIsAscending(a);
    SortIsAscending(b);
    AscendingIsUnique(Sort(a), Sort(b));
  }

  /** The id of an index artifact does not depend on the order of its hash map, and where
      digests do not collide two of them have one id exactly when build and entries are the same. */
  lemma IndexIdIgnoresMapOrder(h: Digester, buildA: string, a: map<string, string>, orderA: seq<string>,
                               buildB: string, b: map<string, string>, orderB: seq<string>)
    requires Enumerates(orderA, a) && Enumerates(orderB, b)
    ensures buildA == buildB && a == b ==>
              ComputeId(h, IndexContent(buildA, a, orderA)) == ComputeId(h, IndexContent(buildB, b, orderB))
    ensures Apart(h, IndexContent(buildA, a, orderA), IndexContent(buildB, b, orderB)) &&
            ComputeId(h, IndexContent(buildA, a, orderA)) == ComputeId(h, IndexContent(buildB, b, orderB)) ==>
              buildA == buildB && a == b
  {
    var ja, jb := IndexContent(buildA, a, orderA), IndexContent(buildB, b, orderB);
    IndexContentIsWellFormed(buildA, a, orderA);
    IndexContentIsWellFormed(buildB, b, orderB);
    SameIdIffSameContent(h, ja, jb);
    SameContents(buildA, Object(EntryFields(a, orderA)), buildB, Object(EntryFields(b, orderB)));
    if buildA == buildB && a == b {
      EqualEntriesAreSame(a, orderA, orderB);
    }
    if Same(ja, jb) {
      SameEntriesAreEqual(a, b, orderA, orderB);
    }
  }

  lemma SameContents(buildA: string, a: Json, buildB: string, b: Json)
    ensures Same(Object([Field("build_id", Text(buildA)), Field("entries", a)]),
                 Object([Field("build_id", Text(buildB)), Field("entries", b)]))
            <==> buildA == buildB && Same(a, b)
  {
    var fa := [Field("build_id", Text(buildA)), Field("entries", a)];
    var fb := [Field("build_id", Text(buildB)), Field("entries", b)];
    assert "build_id"[0] != "entries"[0];
    IndexOfUnique(fb, 0);
    IndexOfUnique(fb, 1);
    assert fa[0].key == fb[0].key && fa[1].key == fb[1].key;
    assert Same(Object(fa), Object(fb)) <==>
      Same(fa[0].value, fb[0].value) && Same(fa[1].value, fb[1].value);
  }
}

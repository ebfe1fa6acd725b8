/** The canonical encoding: normalising an object and writing it as tagged, length-prefixed bytes. */
module Encoding {
  import opened Prelude
  import opened Types

  /** A normalised value; a string stands for its UTF-8 bytes, a dictionary for its entries in key order. */
  datatype Value =
    | Null
    | Boolean(b: bool)
    | Integer(i: int)
    | Octets(bytes: Bytes)
    | Text(utf8: Bytes)
    | Items(items: seq<Value>)
    | Dictionary(entries: seq<Entry>)

  datatype Entry = Entry(key: Bytes, value: Value)

  // ----- Big-endian numbers

  /** The shortest big-endian form; zero takes one octet. */
  function ToBytes(n: nat): (raw: Bytes)
    ensures raw != []
  {
    if n < 256 then [n as byte] else ToBytes(n / 256) + [(n % 256) as byte]
  }

  function FromBytes(raw: Bytes): nat {
    if raw == [] then 0 else FromBytes(raw[..|raw| - 1]) * 256 + raw[|raw| - 1] as nat
  }

  lemma {:induction false} BytesRoundTrip(n: nat)
    ensures FromBytes(ToBytes(n)) == n
  {
    if n >= 256 {
      BytesRoundTrip(n / 256);
      assert ToBytes(n)[..|ToBytes(n)| - 1] == ToBytes(n / 256);
    } else {
      assert ToBytes(n)[..0] == [];
    }
  }

  const LENGTH_LIMIT: nat := 0x1_0000_0000

  /** A length as four big-endian octets; a longer one overflows. */
  function EncodeLength(length: nat): Option<Bytes> {
    if length >= LENGTH_LIMIT then None
    else Some([(length / 0x100_0000) as byte, (length / 0x1_0000 % 256) as byte, (length / 256 % 256) as byte, (length % 256) as byte])
  }

  lemma LengthsDiffer(a: nat, b: nat)
    requires EncodeLength(a).Some? && EncodeLength(a) == EncodeLength(b)
    ensures a == b
  {
    var x, y := EncodeLength(a).value, EncodeLength(b).value;
    assert x[0] == y[0] && x[1] == y[1] && x[2] == y[2] && x[3] == y[3];
    LengthDigits(a);
    LengthDigits(b);
  }

  lemma LengthDigits(n: nat)
    ensures n == (n / 0x100_0000) * 0x100_0000 + (n / 0x1_0000 % 256) * 0x1_0000 + (n / 256 % 256) * 256 + n % 256
  {
    assert n / 256 / 256 == n / 0x1_0000;
    assert n / 0x1_0000 / 256 == n / 0x100_0000;
  }

  // ----- Encoding

  function Prefixed(tag: byte, length: nat, rest: Bytes): Option<Bytes> {
    var prefix := EncodeLength(length);
    if prefix.None? then None else Some([tag] + prefix.value + rest)
  }

  function Magnitude(i: int): nat {
    if i < 0 then -i else i
  }

  function EncodeInt(i: int): Option<Bytes> {
    var raw := ToBytes(Magnitude(i));
    var prefix := EncodeLength(|raw|);
    if prefix.None? then None else Some(['I' as byte, if i < 0 then 1 else 0] + prefix.value + raw)
  }

  function EncodeText(utf8: Bytes): Option<Bytes> {
    Prefixed('S' as byte, |utf8|, utf8)
  }

  /** Nothing when some length overflows its four octets. */
  function EncodeValue(v: Value): Option<Bytes>
    decreases v, 0
  {
    match v
    case Null => Some(['N' as byte])
    case Boolean(b) => Some([if b then 'T' as byte else 'F' as byte])
    case Integer(i) => EncodeInt(i)
    case Octets(bytes) => Prefixed('Y' as byte, |bytes|, bytes)
    case Text(utf8) => EncodeText(utf8)
    case Items(items) =>
      var body := EncodeItems(items);
      if body.None? then None else Prefixed('L' as byte, |items|, body.value)
    case Dictionary(entries) =>
      var body := EncodeEntries(entries);
      if body.None? then None else Prefixed('D' as byte, |entries|, body.value)
  }

  function EncodeItems(items: seq<Value>): Option<Bytes>
    decreases items, 1
  {
    if items == [] then Some([])
    else
      var first, rest := EncodeValue(items[0]), EncodeItems(items[1..]);
      if first.None? || rest.None? then None else Some(first.value + rest.value)
  }

  function EncodeEntries(entries: seq<Entry>): Option<Bytes>
    decreases entries, 1
  {
    if entries == [] then Some([])
    else
      var key, value, rest := EncodeText(entries[0].key), EncodeValue(entries[0].value), EncodeEntries(entries[1..]);
      if key.None? || value.None? || rest.None? then None else Some(key.value + value.value + rest.value)
  }

  // ----- No encoding begins another

  lemma CutPrefix<T>(a: seq<T>, s: seq<T>, b: seq<T>, t: seq<T>)
    requires a + s == b + t && |a| == |b|
    ensures a == b && s == t
  {
    assert a == (a + s)[..|a|] && b == (b + t)[..|b|];
    assert s == (a + s)[|a|..] && t == (b + t)[|b|..];
  }

  lemma PrefixedParts(tag: byte, n: nat, a: Bytes, s: Bytes, m: nat, b: Bytes, t: Bytes)
    requires Prefixed(tag, n, a).Some? && Prefixed(tag, m, b).Some?
    requires Prefixed(tag, n, a).value + s == Prefixed(tag, m, b).value + t
    ensures n == m && a + s == b + t
  {
    var x, y := [tag] + EncodeLength(n).value, [tag] + EncodeLength(m).value;
    assert Prefixed(tag, n, a).value + s == x + (a + s);
    assert Prefixed(tag, m, b).value + t == y + (b + t);
    CutPrefix(x, a + s, y, b + t);
    assert EncodeLength(n).value == x[1..] && EncodeLength(m).value == y[1..];
    LengthsDiffer(n, m);
  }

  lemma IntsApart(i: int, s: Bytes, j: int, t: Bytes)
    requires EncodeInt(i).Some? && EncodeInt(j).Some? && EncodeInt(i).value + s == EncodeInt(j).value + t
    ensures i == j && s == t
  {
    var a, b := ToBytes(Magnitude(i)), ToBytes(Magnitude(j));
    var signI: byte, signJ: byte := if i < 0 then 1 else 0, if j < 0 then 1 else 0;
    var x, y := ['I' as byte, signI] + EncodeLength(|a|).value, ['I' as byte, signJ] + EncodeLength(|b|).value;
    assert EncodeInt(i).value + s == x + (a + s) && EncodeInt(j).value + t == y + (b + t);
    CutPrefix(x, a + s, y, b + t);
    assert EncodeLength(|a|).value == x[2..] && EncodeLength(|b|).value == y[2..] && x[1] == y[1];
    LengthsDiffer(|a|, |b|);
    CutPrefix(a, s, b, t);
    BytesRoundTrip(Magnitude(i));
    BytesRoundTrip(Magnitude(j));
  }

  /** The first octet names the kind of value. */
  function TagOf(v: Value): byte {
    match v
    case Null => 'N' as byte
    case Boolean(b) => if b then 'T' as byte else 'F' as byte
    case Integer(_) => 'I' as byte
    case Octets(_) => 'Y' as byte
    case Text(_) => 'S' as byte
    case Items(_) => 'L' as byte
    case Dictionary(_) => 'D' as byte
  }

  lemma {:induction false} TagComesFirst(v: Value)
    requires EncodeValue(v).Some?
    ensures EncodeValue(v).value != [] && EncodeValue(v).value[0] == TagOf(v)
  {
  }

  lemma {:induction false} SameTag(x: Value, s: Bytes, y: Value, t: Bytes)
    requires EncodeValue(x).Some? && EncodeValue(y).Some? && EncodeValue(x).value + s == EncodeValue(y).value + t
    ensures TagOf(x) == TagOf(y)
  {
    TagComesFirst(x);
    TagComesFirst(y);
    assert (EncodeValue(x).value + s)[0] == TagOf(x) && (EncodeValue(y).value + t)[0] == TagOf(y);
  }

  /**
    No value's encoding is a prefix of another's: whatever follows them, equal encodings come from equal values.
    With nothing following, the encoding is injective.
   */
  lemma {:induction false} EncodingIsPrefixFree(x: Value, s: Bytes, y: Value, t: Bytes)
    requires EncodeValue(x).Some? && EncodeValue(y).Some? && EncodeValue(x).value + s == EncodeValue(y).value + t
    ensures x == y && s == t
    decreases x, 0
  {
    SameTag(x, s, y, t);
    match x
    case Null => CutPrefix(EncodeValue(x).value, s, EncodeValue(y).value, t);
    case Boolean(_) => CutPrefix(EncodeValue(x).value, s, EncodeValue(y).value, t);
    case Integer(i) => IntsApart(i, s, y.i, t);
    case Octets(a) =>
      PrefixedParts('Y' as byte, |a|, a, s, |y.bytes|, y.bytes, t);
      CutPrefix(a, s, y.bytes, t);
    case Text(a) =>
      TextIsPrefixFree(a, s, y.utf8, t);
    case Items(xs) =>
      PrefixedParts('L' as byte, |xs|, EncodeItems(xs).value, s, |y.items|, EncodeItems(y.items).value, t);
      ItemsArePrefixFree(xs, s, y.items, t);
    case Dictionary(xs) =>
      PrefixedParts('D' as byte, |xs|, EncodeEntries(xs).value, s, |y.entries|, EncodeEntries(y.entries).value, t);
      EntriesArePrefixFree(xs, s, y.entries, t);
  }

  lemma TextIsPrefixFree(a: Bytes, s: Bytes, b: Bytes, t: Bytes)
    requires EncodeText(a).Some? && EncodeText(b).Some? && EncodeText(a).value + s == EncodeText(b).value + t
    ensures a == b && s == t
  {
    PrefixedParts('S' as byte, |a|, a, s, |b|, b, t);
    CutPrefix(a, s, b, t);
  }

  lemma {:induction false} ItemsArePrefixFree(xs: seq<Value>, s: Bytes, ys: seq<Value>, t: Bytes)
    requires |xs| == |ys| && EncodeItems(xs).Some? && EncodeItems(ys).Some?
    requires EncodeItems(xs).value + s == EncodeItems(ys).value + t
    ensures xs == ys && s == t
    decreases xs, 1
  {
    if xs != [] {
      var a, b := EncodeItems(xs[1..]).value, EncodeItems(ys[1..]).value;
      assert EncodeItems(xs).value + s == EncodeValue(xs[0]).value + (a + s);
      assert EncodeItems(ys).value + t == EncodeValue(ys[0]).value + (b + t);
      EncodingIsPrefixFree(xs[0], a + s, ys[0], b + t);
      ItemsArePrefixFree(xs[1..], s, ys[1..], t);
      assert xs == [xs[0]] + xs[1..] && ys == [ys[0]] + ys[1..];
    } else {
      assert [] + s == s && [] + t == t;
    }
  }

  lemma {:induction false} FirstEntry(xs: seq<Entry>, s: Bytes)
    requires xs != [] && EncodeEntries(xs).Some?
    ensures EncodeText(xs[0].key).Some? && EncodeValue(xs[0].value).Some? && EncodeEntries(xs[1..]).Some?
    ensures EncodeEntries(xs).value + s
         == EncodeText(xs[0].key).value + (EncodeValue(xs[0].value).value + (EncodeEntries(xs[1..]).value + s))
  {
  }

  lemma {:induction false} EntriesArePrefixFree(xs: seq<Entry>, s: Bytes, ys: seq<Entry>, t: Bytes)
    requires |xs| == |ys| && EncodeEntries(xs).Some? && EncodeEntries(ys).Some?
    requires EncodeEntries(xs).value + s == EncodeEntries(ys).value + t
    ensures xs == ys && s == t
    decreases xs, 1
  {
    if xs != [] {
      var a, b := EncodeEntries(xs[1..]).value, EncodeEntries(ys[1..]).value;
      var v, w := EncodeValue(xs[0].value).value, EncodeValue(ys[0].value).value;
      FirstEntry(xs, s);
      FirstEntry(ys, t);
      TextIsPrefixFree(xs[0].key, v + (a + s), ys[0].key, w + (b + t));
      EncodingIsPrefixFree(xs[0].value, a + s, ys[0].value, b + t);
      EntriesArePrefixFree(xs[1..], s, ys[1..], t);
      assert xs == [xs[0]] + xs[1..] && ys == [ys[0]] + ys[1..];
    } else {
      assert [] + s == s && [] + t == t;
    }
  }

  // ----- Normalising

  type ScalarValue = v: Value | !v.Items? && !v.Dictionary? witness Null

  /** An object before normalising: a scalar or enumeration member, a list or tuple, a record or dictionary. */
  datatype Object =
    | Scalar(value: ScalarValue)
    | Sequence(elements: seq<Object>)
    | Mapping(fields: seq<Field>)

  /** A field's key, converted to a string. */
  datatype Field = Field(key: Bytes, content: Object)

  predicate BytesLess(a: Bytes, b: Bytes) {
    if b == [] then false
    else if a == [] then true
    else if a[0] != b[0] then a[0] < b[0]
    else BytesLess(a[1..], b[1..])
  }

  /** Sets a key in an ordered dictionary; a later value for the same key replaces the earlier one. */
  function Put(entries: seq<Entry>, key: Bytes, value: Value): seq<Entry> {
    if entries == [] || BytesLess(key, entries[0].key) then [Entry(key, value)] + entries
    else if entries[0].key == key then [Entry(key, value)] + entries[1..]
    else [entries[0]] + Put(entries[1..], key, value)
  }

  function Canonicalize(obj: Object): Value
    decreases obj, 0
  {
    match obj
    case Scalar(value) => value
    case Sequence(elements) => Items(CanonicalItems(elements))
    case Mapping(fields) => Dictionary(CanonicalEntries(fields))
  }

  function CanonicalItems(elements: seq<Object>): seq<Value>
    decreases elements, 1
  {
    if elements == [] then [] else [Canonicalize(elements[0])] + CanonicalItems(elements[1..])
  }

  function CanonicalEntries(fields: seq<Field>): seq<Entry>
    decreases fields, 1
  {
    if fields == [] then []
    else
      var last := fields[|fields| - 1];
      Put(CanonicalEntries(fields[..|fields| - 1]), last.key, Canonicalize(last.content))
  }

  function CanonicalEncode(obj: Object): Option<Bytes> {
    EncodeValue(Canonicalize(obj))
  }

  ghost predicate KeysAscend(entries: seq<Entry>) {
    forall i, j :: 0 <= i < j < |entries| ==> BytesLess(entries[i].key, entries[j].key)
  }

  lemma {:induction false} BytesLessTransitive(a: Bytes, b: Bytes, c: Bytes)
    requires BytesLess(a, b) && BytesLess(b, c)
    ensures BytesLess(a, c)
  {
    if a != [] && a[0] == b[0] == c[0] {
      BytesLessTransitive(a[1..], b[1..], c[1..]);
    }
  }

  lemma {:induction false} BytesLessTotal(a: Bytes, b: Bytes)
    ensures BytesLess(a, b) || a == b || BytesLess(b, a)
  {
    if a != [] && b != [] && a[0] == b[0] {
      BytesLessTotal(a[1..], b[1..]);
      assert a == [a[0]] + a[1..] && b == [b[0]] + b[1..];
    }
  }

  lemma {:induction false} PutMembers(entries: seq<Entry>, key: Bytes, value: Value, e: Entry)
    requires e in Put(entries, key, value)
    ensures e == Entry(key, value) || e in entries
  {
    if entries != [] && !BytesLess(key, entries[0].key) && entries[0].key != key && e != entries[0] {
      PutMembers(entries[1..], key, value, e);
    }
  }

  lemma {:induction false} PutKeepsOrder(entries: seq<Entry>, key: Bytes, value: Value)
    requires KeysAscend(entries)
    ensures KeysAscend(Put(entries, key, value))
  {
    var put := Put(entries, key, value);
    if entries == [] {
    } else if BytesLess(key, entries[0].key) {
      forall j | 0 <= j < |entries| ensures BytesLess(key, entries[j].key) {
        if j > 0 {
          BytesLessTransitive(key, entries[0].key, entries[j].key);
        }
      }
    } else if entries[0].key != key {
      BytesLessTotal(key, entries[0].key);
      PutKeepsOrder(entries[1..], key, value);
      forall j | 0 < j < |put| ensures BytesLess(entries[0].key, put[j].key) {
        PutMembers(entries[1..], key, value, put[j]);
      }
    }
  }

  /** The keys of a normalised dictionary come once each, in order. */
  lemma {:induction false} CanonicalKeysAscend(fields: seq<Field>)
    ensures KeysAscend(CanonicalEntries(fields))
  {
    if fields != [] {
      CanonicalKeysAscend(fields[..|fields| - 1]);
      PutKeepsOrder(CanonicalEntries(fields[..|fields| - 1]), fields[|fields| - 1].key, Canonicalize(fields[|fields| - 1].content));
    }
  }

  /** Putting a key replaces its entry, adds a new one, and keeps all others. */
  lemma {:induction false} PutHolds(entries: seq<Entry>, key: Bytes, value: Value, e: Entry)
    requires KeysAscend(entries)
    ensures e in Put(entries, key, value) <==> e == Entry(key, value) || (e in entries && e.key != key)
  {
    if entries != [] {
      var first, rest := entries[0], entries[1..];
      assert entries == [first] + rest;
      if BytesLess(key, first.key) {
        KeyIsNew(entries, key, e);
      } else if first.key == key {
        LaterKeysDiffer(entries, e);
      } else {
        PutHolds(rest, key, value, e);
      }
    }
  }

  lemma {:induction false} BytesLessIrreflexive(a: Bytes)
    ensures !BytesLess(a, a)
  {
    if a != [] {
      BytesLessIrreflexive(a[1..]);
    }
  }

  lemma {:induction false} KeyIsNew(entries: seq<Entry>, key: Bytes, e: Entry)
    requires entries != [] && KeysAscend(entries) && BytesLess(key, entries[0].key)
    ensures e in entries ==> e.key != key
  {
    if e in entries {
      var i :| 0 <= i < |entries| && entries[i] == e;
      BytesLessIrreflexive(key);
      if i > 0 {
        BytesLessTransitive(key, entries[0].key, e.key);
      }
    }
  }

  lemma LaterKeysDiffer(entries: seq<Entry>, e: Entry)
    requires entries != [] && KeysAscend(entries)
    ensures e in entries[1..] ==> e.key != entries[0].key
  {
    if e in entries[1..] {
      var i :| 0 <= i < |entries[1..]| && entries[1..][i] == e;
      assert entries[i + 1] == e;
      BytesLessIrreflexive(e.key);
    }
  }

  /** The field is the last one with the entry's key, and the entry has its normalised content. */
  ghost predicate LastFor(fields: seq<Field>, i: nat, e: Entry)
    requires i < |fields|
  {
    && fields[i].key == e.key && e.value == Canonicalize(fields[i].content)
    && forall j :: i < j < |fields| ==> fields[j].key != e.key
  }

  /** A normalised dictionary holds, for each key, the normalised content of the last field with that key. */
  lemma {:induction false} LastFieldWins(fields: seq<Field>, e: Entry)
    ensures e in CanonicalEntries(fields) <==> exists i :: 0 <= i < |fields| && LastFor(fields, i, e)
  {
    if fields != [] {
      var init, last := fields[..|fields| - 1], fields[|fields| - 1];
      LastFieldWins(init, e);
      CanonicalKeysAscend(init);
      PutHolds(CanonicalEntries(init), last.key, Canonicalize(last.content), e);
      if e == Entry(last.key, Canonicalize(last.content)) {
        assert LastFor(fields, |fields| - 1, e);
      }
      if e.key != last.key {
        forall i | 0 <= i < |init| ensures LastFor(init, i, e) <==> LastFor(fields, i, e) {
          OneFieldMore(fields, i, e);
        }
      }
    }
  }

  lemma OneFieldMore(fields: seq<Field>, i: nat, e: Entry)
    requires i < |fields| - 1 && fields[|fields| - 1].key != e.key
    ensures LastFor(fields[..|fields| - 1], i, e) <==> LastFor(fields, i, e)
  {
    var init := fields[..|fields| - 1];
    assert forall j :: 0 <= j < |init| ==> init[j] == fields[j];
  }

  /** A normalised list holds the normalised elements in their order. */
  lemma {:induction false} ItemsInOrder(elements: seq<Object>)
    ensures |CanonicalItems(elements)| == |elements|
    ensures forall i :: 0 <= i < |elements| ==> CanonicalItems(elements)[i] == Canonicalize(elements[i])
  {
    if elements != [] {
      ItemsInOrder(elements[1..]);
    }
  }

  /** Two encodable objects have the same encoding exactly when they normalise to the same value. */
  lemma {:induction false} CanonicalEncodingIsInjective(x: Object, y: Object)
    requires CanonicalEncode(x).Some? && CanonicalEncode(y).Some?
    ensures CanonicalEncode(x) == CanonicalEncode(y) <==> Canonicalize(x) == Canonicalize(y)
  {
    if CanonicalEncode(x) == CanonicalEncode(y) {
      EncodingIsPrefixFree(Canonicalize(x), [], Canonicalize(y), []);
    }
  }
}

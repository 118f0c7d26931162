/** Secondary-index extractors and the layout of index entry keys. */
module IndexKeys {
  import opened ByteStrings
  import opened Integers
  import opened SystemKeys

  // ---- Extractors ----

  datatype Extractor = WholeValue | Prefix(len: nat) | Field(delimiter: Byte, index: nat)

  /** The fields between delimiters; there is always at least one. */
  function Split(s: Bytes, d: Byte): (fields: seq<Bytes>)
    ensures fields != []
  {
    if s == [] then [[]] else
      var rest := Split(s[1..], d);
      if s[0] == d then [[]] + rest else [[s[0]] + rest[0]] + rest[1..]
  }

  function Extract(e: Extractor, v: Bytes): Option<Bytes> {
    match e
    case WholeValue => Some(v)
    case Prefix(len) => Some(if len <= |v| then v[..len] else v)
    case Field(d, index) => if index < |Split(v, d)| then Some(Split(v, d)[index]) else None
  }

  ghost predicate NoDelimiter(s: Bytes, d: Byte) {
    forall i :: 0 <= i < |s| ==> s[i] != d
  }

  lemma {:induction false} SplitPlain(s: Bytes, d: Byte)
    requires NoDelimiter(s, d)
    ensures Split(s, d) == [s]
  {
    if s != [] {
      SplitPlain(s[1..], d);
      assert s == [s[0]] + s[1..];
    }
  }

  lemma {:induction false} SplitAt(field: Bytes, d: Byte, rest: Bytes)
    requires NoDelimiter(field, d)
    ensures Split(field + [d] + rest, d) == [field] + Split(rest, d)
    decreases |field|
  {
    var s := field + [d] + rest;
    if field == [] {
      assert s[0] == d && s[1..] == rest;
    } else {
      SplitAt(field[1..], d, rest);
      assert s[0] == field[0] && s[1..] == field[1..] + [d] + rest;
      assert field == [field[0]] + field[1..];
    }
  }

  function NthField(s: Bytes, d: Byte, n: nat): Option<Bytes> {
    if n < |Split(s, d)| then Some(Split(s, d)[n]) else None
  }

  lemma FirstField(field: Bytes, d: Byte, rest: Bytes, n: nat)
    requires NoDelimiter(field, d)
    ensures NthField(field + [d] + rest, d, n) == if n == 0 then Some(field) else NthField(rest, d, n - 1)
  {
    SplitAt(field, d, rest);
  }

  lemma OnlyField(s: Bytes, d: Byte, n: nat)
    requires NoDelimiter(s, d)
    ensures NthField(s, d, n) == if n == 0 then Some(s) else None
  {
    SplitPlain(s, d);
  }

  /** The cursor loop over the value finds the same field. */
  method ExtractField(v: Bytes, d: Byte, index: nat) returns (r: Option<Bytes>)
    requires index <= 0xffff
    ensures r == Extract(Field(d, index), v)
  {
    var start, fieldIndex := 0, 0;
    assert v[0..] == v;
    for i := 0 to |v|
      invariant start <= i && fieldIndex <= index && NoDelimiter(v[start..i], d)
      invariant NthField(v[start..], d, index - fieldIndex) == NthField(v, d, index)
    {
      if v[i] == d {
        assert v[start..] == v[start..i] + [d] + v[i + 1..];
        FirstField(v[start..i], d, v[i + 1..], index - fieldIndex);
        if fieldIndex == index {
          return Some(v[start..i]);
        }
        fieldIndex := if fieldIndex < 0xffff then fieldIndex + 1 else 0xffff;
        start := i + 1;
      } else {
        assert v[start..i + 1] == v[start..i] + [v[i]];
      }
    }
    assert v[start..|v|] == v[start..];
    OnlyField(v[start..], d, index - fieldIndex);
    r := if fieldIndex == index then Some(v[start..]) else None;
  }

  // ---- Entry keys ----

  /** `\x00idx/data/` */
  const INDEX_DATA_PREFIX: Bytes := [0, 105, 100, 120, 47, 100, 97, 116, 97, 47]

  function ScanPrefix(name: Bytes, valuePrefix: Bytes): Bytes {
    INDEX_DATA_PREFIX + BigEndian(|name|, 2) + name + valuePrefix
  }

  function DataKey(name: Bytes, secondary: Bytes, primary: Bytes): Bytes {
    ScanPrefix(name, []) + secondary + primary + BigEndian(|primary|, 4)
  }

  /** Splits what follows the name; the last four bytes give the primary's length. */
  function DecodeBody(body: Bytes): Option<(Bytes, Bytes)> {
    if |body| < 4 then None else
      var n := |body| - 4;
      var primaryLen := FromBigEndian(body[n..]);
      if n < primaryLen then None else Some((body[..n - primaryLen], body[n - primaryLen..n]))
  }

  /** Splits a key of index `name` into secondary and primary. */
  function DecodeDataKey(name: Bytes, key: Bytes): Option<(Bytes, Bytes)> {
    if !HasPrefix(key, INDEX_DATA_PREFIX) || |key| < 12 then None else
      var nameLen := FromBigEndian(key[10..12]);
      if |key| < 12 + nameLen + 4 || key[12..12 + nameLen] != name then None
      else DecodeBody(key[12 + nameLen..])
  }

  /** Entry keys record the primary's length in four bytes; the configured limit is lower. */
  predicate KeyLenOk(k: Bytes) {
    0 < |k| < 0x1_0000_0000
  }

  predicate KeyFits(name: Bytes, primary: Bytes) {
    |name| < 0x1_0000 && |primary| < 0x1_0000_0000
  }

  lemma DataKeyParts(name: Bytes, secondary: Bytes, primary: Bytes)
    ensures var key, n := DataKey(name, secondary, primary), |name|;
            && |key| == 12 + n + |secondary| + |primary| + 4
            && HasPrefix(key, INDEX_DATA_PREFIX) && key[10..12] == BigEndian(n, 2) && key[12..12 + n] == name
            && key[12 + n..] == secondary + primary + BigEndian(|primary|, 4)
  {
  }

  lemma BodyRoundTrip(secondary: Bytes, primary: Bytes)
    requires |primary| < 0x1_0000_0000
    ensures DecodeBody(secondary + primary + BigEndian(|primary|, 4)) == Some((secondary, primary))
  {
    var body, n := secondary + primary + BigEndian(|primary|, 4), |secondary| + |primary|;
    Widths();
    BigEndianRoundTrip(|primary|, 4);
    assert body[n..] == BigEndian(|primary|, 4) && body[..|secondary|] == secondary && body[|secondary|..n] == primary;
  }

  lemma BodyExact(body: Bytes)
    requires DecodeBody(body).Some?
    ensures var (secondary, primary) := DecodeBody(body).value;
            body == secondary + primary + BigEndian(|primary|, 4) && |primary| < 0x1_0000_0000
  {
    var (secondary, primary) := DecodeBody(body).value;
    Widths();
    FromBigEndianRange(body[|body| - 4..]);
    assert body == secondary + primary + body[|body| - 4..];
  }

  /** An entry key gives back its secondary and primary. */
  lemma DataKeyRoundTrip(name: Bytes, secondary: Bytes, primary: Bytes)
    requires KeyFits(name, primary)
    ensures DecodeDataKey(name, DataKey(name, secondary, primary)) == Some((secondary, primary))
  {
    DataKeyParts(name, secondary, primary);
    Widths();
    BigEndianRoundTrip(|name|, 2);
    BodyRoundTrip(secondary, primary);
  }

  /** Whatever decodes under a name is that entry's key. */
  lemma DecodeExact(name: Bytes, key: Bytes)
    requires |name| < 0x1_0000 && DecodeDataKey(name, key).Some?
    ensures var (secondary, primary) := DecodeDataKey(name, key).value;
            key == DataKey(name, secondary, primary) && KeyFits(name, primary)
  {
    var n := FromBigEndian(key[10..12]);
    FromBigEndianRange(key[10..12]);
    assert n == |name| && key[10..12] == BigEndian(n, 2);
    BodyExact(key[12 + n..]);
    KeySplit(key, n);
    var (secondary, primary) := DecodeDataKey(name, key).value;
    DataKeyJoin(name, secondary, primary);
  }

  lemma KeySplit(key: Bytes, n: nat)
    requires HasPrefix(key, INDEX_DATA_PREFIX) && |key| >= 12 + n
    ensures key == INDEX_DATA_PREFIX + key[10..12] + key[12..12 + n] + key[12 + n..]
  {
  }

  lemma DataKeyJoin(name: Bytes, secondary: Bytes, primary: Bytes)
    ensures DataKey(name, secondary, primary)
         == INDEX_DATA_PREFIX + BigEndian(|name|, 2) + name + (secondary + primary + BigEndian(|primary|, 4))
  {
  }

  /** Different entries never share a key, even across indexes. */
  lemma DataKeyInjective(name: Bytes, secondary: Bytes, primary: Bytes, name': Bytes, secondary': Bytes, primary': Bytes)
    requires KeyFits(name, primary) && KeyFits(name', primary')
    requires DataKey(name, secondary, primary) == DataKey(name', secondary', primary')
    ensures name == name' && secondary == secondary' && primary == primary'
  {
    DataKeyParts(name, secondary, primary);
    DataKeyParts(name', secondary', primary');
    Widths();
    BigEndianRoundTrip(|name|, 2);
    BigEndianRoundTrip(|name'|, 2);
    DataKeyRoundTrip(name, secondary, primary);
    DataKeyRoundTrip(name', secondary', primary');
  }

  /** The scan prefix of a value prefix admits every entry whose secondary starts with it. */
  lemma ScanPrefixCovers(name: Bytes, secondary: Bytes, primary: Bytes, valuePrefix: Bytes)
    requires HasPrefix(secondary, valuePrefix)
    ensures HasPrefix(DataKey(name, secondary, primary), ScanPrefix(name, valuePrefix))
  {
  }

  // ---- The entries a store holds ----

  /** The entries of index `name` among the keys of the store. */
  ghost function StoredEntries(kv: map<Bytes, Bytes>, name: Bytes): set<(Bytes, Bytes)> {
    set k | k in kv && DecodeDataKey(name, k).Some? :: DecodeDataKey(name, k).value
  }

  lemma StoredMember(kv: map<Bytes, Bytes>, name: Bytes, s: Bytes, p: Bytes)
    requires |name| < 0x1_0000
    ensures (s, p) in StoredEntries(kv, name) <==> KeyFits(name, p) && DataKey(name, s, p) in kv
  {
    if (s, p) in StoredEntries(kv, name) {
      var k :| k in kv && DecodeDataKey(name, k) == Some((s, p));
      DecodeExact(name, k);
    }
    if KeyFits(name, p) {
      DataKeyRoundTrip(name, s, p);
    }
  }

  /** Writing an entry key adds exactly that entry to its own index. */
  lemma EntryPut(kv: map<Bytes, Bytes>, name: Bytes, s: Bytes, p: Bytes, v: Bytes, other: Bytes)
    requires KeyFits(name, p) && |other| < 0x1_0000
    ensures StoredEntries(kv[DataKey(name, s, p) := v], other)
         == if other == name then StoredEntries(kv, other) + {(s, p)} else StoredEntries(kv, other)
  {
    var after := kv[DataKey(name, s, p) := v];
    forall t, q ensures (t, q) in StoredEntries(after, other) <==> (t, q) in StoredEntries(kv, other) || (other == name && (t, q) == (s, p)) {
      StoredMember(kv, other, t, q);
      StoredMember(after, other, t, q);
      if KeyFits(other, q) && DataKey(other, t, q) == DataKey(name, s, p) {
        DataKeyInjective(other, t, q, name, s, p);
      }
    }
  }

  /** Deleting an entry key removes exactly that entry from its own index. */
  lemma EntryDelete(kv: map<Bytes, Bytes>, name: Bytes, s: Bytes, p: Bytes, other: Bytes)
    requires KeyFits(name, p) && |other| < 0x1_0000
    ensures StoredEntries(kv - {DataKey(name, s, p)}, other)
         == if other == name then StoredEntries(kv, other) - {(s, p)} else StoredEntries(kv, other)
  {
    var after := kv - {DataKey(name, s, p)};
    forall t, q ensures (t, q) in StoredEntries(after, other) <==> (t, q) in StoredEntries(kv, other) && !(other == name && (t, q) == (s, p)) {
      StoredMember(kv, other, t, q);
      StoredMember(after, other, t, q);
      if KeyFits(other, q) && DataKey(other, t, q) == DataKey(name, s, p) {
        DataKeyInjective(other, t, q, name, s, p);
      }
    }
  }

  /** Keys outside the entry space touch no index. */
  lemma OutsideKeeps(kv: map<Bytes, Bytes>, k: Bytes, v: Bytes, name: Bytes)
    requires !HasPrefix(k, INDEX_DATA_PREFIX)
    ensures StoredEntries(kv[k := v], name) == StoredEntries(kv, name) == StoredEntries(kv - {k}, name)
  {
    assert DecodeDataKey(name, k).None?;
  }

  // ---- Scanning by index ----

  ghost predicate InKeyOrder(name: Bytes, out: seq<(Bytes, Bytes)>) {
    forall i, j :: 0 <= i < j < |out| ==> Less(DataKey(name, out[i].0, out[i].1), DataKey(name, out[j].0, out[j].1))
  }

  function Matched(name: Bytes, valuePrefix: Bytes, key: Bytes): seq<(Bytes, Bytes)> {
    var e := DecodeDataKey(name, key);
    if e.Some? && HasPrefix(e.value.0, valuePrefix) then [e.value] else []
  }

  function MatchedAll(name: Bytes, valuePrefix: Bytes, keys: seq<Bytes>): seq<(Bytes, Bytes)> {
    if keys == [] then [] else
      MatchedAll(name, valuePrefix, keys[..|keys| - 1]) + Matched(name, valuePrefix, keys[|keys| - 1])
  }

  function ScanKeys(kv: map<Bytes, Bytes>, name: Bytes, valuePrefix: Bytes): seq<Bytes> {
    Sorted(set k | k in kv && HasPrefix(k, ScanPrefix(name, valuePrefix)))
  }

  lemma ScanExact(kv: map<Bytes, Bytes>, name: Bytes, valuePrefix: Bytes, s: Bytes, p: Bytes)
    requires |name| < 0x1_0000
    ensures (s, p) in MatchedAll(name, valuePrefix, ScanKeys(kv, name, valuePrefix))
       <==> (s, p) in StoredEntries(kv, name) && HasPrefix(s, valuePrefix)
  {
    MatchedMember(name, valuePrefix, ScanKeys(kv, name, valuePrefix), (s, p));
    FoundExactly(kv, ScanKeys(kv, name, valuePrefix), name, valuePrefix, s, p);
  }

  /** Scans the entry keys and decodes them: exactly the stored entries whose secondary
      has the prefix, in the order of their keys. */
  method ScanEntries(kv: map<Bytes, Bytes>, name: Bytes, valuePrefix: Bytes) returns (out: seq<(Bytes, Bytes)>)
    requires |name| < 0x1_0000
    ensures forall s, p :: (s, p) in out <==> (s, p) in StoredEntries(kv, name) && HasPrefix(s, valuePrefix)
    ensures InKeyOrder(name, out)
  {
    var keys := ScanKeys(kv, name, valuePrefix);
    out := [];
    for i := 0 to |keys|
      invariant out == MatchedAll(name, valuePrefix, keys[..i])
    {
      assert keys[..i + 1][..i] == keys[..i];
      var e := DecodeDataKey(name, keys[i]);
      if e.Some? && HasPrefix(e.value.0, valuePrefix) {
        out := out + [e.value];
      }
    }
    assert keys[..|keys|] == keys;
    MatchedInOrder(name, valuePrefix, keys);
    forall s, p ensures (s, p) in out <==> (s, p) in StoredEntries(kv, name) && HasPrefix(s, valuePrefix) {
      ScanExact(kv, name, valuePrefix, s, p);
    }
  }

  lemma {:induction false} MatchedMember(name: Bytes, valuePrefix: Bytes, keys: seq<Bytes>, e: (Bytes, Bytes))
    ensures e in MatchedAll(name, valuePrefix, keys) <==> Found(keys, name, valuePrefix, e.0, e.1)
    decreases |keys|
  {
    if keys != [] {
      var last := |keys| - 1;
      MatchedMember(name, valuePrefix, keys[..last], e);
      assert forall k :: k in keys <==> k in keys[..last] || k == keys[last];
    }
  }

  lemma {:induction false} MatchedInOrder(name: Bytes, valuePrefix: Bytes, keys: seq<Bytes>)
    requires StrictlySorted(keys) && |name| < 0x1_0000
    ensures InKeyOrder(name, MatchedAll(name, valuePrefix, keys))
    decreases |keys|
  {
    if keys != [] {
      var last := |keys| - 1;
      var out := MatchedAll(name, valuePrefix, keys[..last]);
      MatchedInOrder(name, valuePrefix, keys[..last]);
      forall j | 0 <= j < |out| ensures Less(DataKey(name, out[j].0, out[j].1), keys[last]) {
        MatchedMember(name, valuePrefix, keys[..last], out[j]);
        var k :| k in keys[..last] && DecodeDataKey(name, k) == Some((out[j].0, out[j].1));
        DecodeExact(name, k);
      }
      if Matched(name, valuePrefix, keys[last]) != [] {
        DecodeExact(name, keys[last]);
      }
    }
  }

  ghost predicate Found(keys: seq<Bytes>, name: Bytes, valuePrefix: Bytes, s: Bytes, p: Bytes) {
    HasPrefix(s, valuePrefix) && exists k :: k in keys && DecodeDataKey(name, k) == Some((s, p))
  }

  lemma FoundExactly(kv: map<Bytes, Bytes>, keys: seq<Bytes>, name: Bytes, valuePrefix: Bytes, s: Bytes, p: Bytes)
    requires |name| < 0x1_0000
    requires forall k :: k in keys <==> k in kv && HasPrefix(k, ScanPrefix(name, valuePrefix))
    ensures Found(keys, name, valuePrefix, s, p) <==> (s, p) in StoredEntries(kv, name) && HasPrefix(s, valuePrefix)
  {
    if (s, p) in StoredEntries(kv, name) && HasPrefix(s, valuePrefix) {
      StoredMember(kv, name, s, p);
      ScanPrefixCovers(name, s, p, valuePrefix);
      DataKeyRoundTrip(name, s, p);
      assert DataKey(name, s, p) in keys;
    }
  }
}

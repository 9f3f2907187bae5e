/**
 Stable semantic action identities: the registry-ordered preimage over typed fields, its
 injectivity, and the transport form that exports and imports the field values.  The
 registry is a parameter; what is asked of it is what its construction guarantees.
 */
module SemanticAction {
  import opened Text
  import opened Decimal
  import opened Framing

  const MAX_FIELD_BYTES: nat := 0x10_0000

  datatype FieldType = Id | Digest32 | U64 | Kind | State

  datatype Field = Field(name: string, typeOf: FieldType)

  datatype Entry = Entry(registryVersion: nat, entryVersion: nat, kind: string, domainTag: string, fields: seq<Field>)

  datatype SemanticValue = SemanticValue(typeOf: FieldType, bytes: string)

  datatype FieldValue = FieldValue(name: string, typeOf: FieldType, text: string, number: Option<nat>)

  /** The value constructor `U64`. */
  function U64Value(n: nat): SemanticValue { SemanticValue(U64, BigEndian(8, n)) }

  type Registry = map<string, Entry>

  type Values = map<string, SemanticValue>

  /** `entry` and `buildSemanticActionRegistry`: keyed by kind, 16-bit versions, no field named twice. */
  ghost predicate WellFormed(registry: Registry) {
    forall k | k in registry ::
      && registry[k].kind == k && registry[k].registryVersion < 0x1_0000 && registry[k].entryVersion < 0x1_0000
      && FieldNamesDistinct(registry[k].fields)
  }

  ghost predicate FieldNamesDistinct(fields: seq<Field>) {
    forall i, j | 0 <= i < j < |fields| :: fields[i].name != fields[j].name
  }

  /** `canonicalSemanticValue`. */
  function CanonicalValue(definition: Field, value: SemanticValue): (r: Result<string>)
    ensures r.Ok? ==> |r.value| <= MAX_FIELD_BYTES
  {
    var raw := value.bytes;
    if raw == "" || |raw| > MAX_FIELD_BYTES then Err
    else match definition.typeOf
      case Id =>
        if |raw| > 4096 || !ValidUtf8(raw) || !NoNul(raw)
            || (definition.name == "amount_atomic" && !CanonicalUnsigned(raw))
        then Err else Ok(raw)
      case Digest32 =>
        if !IsDigest(raw) || HexDecode(raw[7..]).None? then Err else Ok(HexDecode(raw[7..]).value)
      case U64 => if |raw| != 8 then Err else Ok(raw)
      case Kind => if CanonicalLowerToken(raw) then Ok(raw) else Err
      case State => if CanonicalLowerToken(raw) then Ok(raw) else Err
  }

  /** The canonical bytes determine the value they came from. */
  lemma {:induction false} CanonicalValueInjective(definition: Field, a: SemanticValue, b: SemanticValue)
    requires CanonicalValue(definition, a).Ok? && CanonicalValue(definition, a) == CanonicalValue(definition, b)
    ensures a.bytes == b.bytes
  {
    if definition.typeOf == Digest32 {
      assert a.bytes == SHA_PREFIX + a.bytes[7..] && b.bytes == SHA_PREFIX + b.bytes[7..];
      HexCanonical(a.bytes[7..]);
      HexCanonical(b.bytes[7..]);
    }
  }

  /** One field of the preimage. */
  function FieldFrame(definition: Field, values: Values): Result<string> {
    if definition.name !in values || values[definition.name].typeOf != definition.typeOf then Err
    else
      var canonical := CanonicalValue(definition, values[definition.name]);
      if canonical.Err? || |definition.name| > 0xFFFF then Err
      else Ok(LengthPrefixed(2, definition.name) + LengthPrefixed(4, canonical.value))
  }

  function FieldFrames(fields: seq<Field>, values: Values): Result<string> {
    if fields == [] then Ok("")
    else
      var head, tail := FieldFrame(fields[0], values), FieldFrames(fields[1..], values);
      if head.Err? || tail.Err? then Err else Ok(head.value + tail.value)
  }

  const MAGIC := "TOS-SAI\0"

  function Versions(entry: Entry): (s: string)
    ensures |s| == |MAGIC| + 4
  {
    MAGIC + BigEndian(2, entry.registryVersion) + BigEndian(2, entry.entryVersion)
  }

  function Header(entry: Entry): string {
    Versions(entry) + LengthPrefixed(2, entry.domainTag) + LengthPrefixed(2, entry.kind)
    + BigEndian(2, |entry.fields| % 0x1_0000)
  }

  /** The identity preimage, or an error when the field set or a value is not exact. */
  function Preimage(registry: Registry, kind: string, values: Values): Result<string> {
    if kind !in registry then Err
    else
      var entry := registry[kind];
      if |values| != |entry.fields| || |entry.domainTag| > 0xFFFF || |entry.kind| > 0xFFFF then Err
      else
        var frames := FieldFrames(entry.fields, values);
        if frames.Err? then Err else Ok(Header(entry) + frames.value)
  }

  function StableActionId(h: string -> string, registry: Registry, kind: string, values: Values): Result<string> {
    var p := Preimage(registry, kind, values);
    if p.Err? then Err else Ok(DigestText(h(p.value)))
  }

  /** `DeriveStableActionID`: the buffer grows field by field. */
  method DeriveStableActionId(h: string -> string, registry: Registry, kind: string, values: Values)
      returns (r: Result<(string, string)>)
    ensures r.Ok? <==> Preimage(registry, kind, values).Ok?
    ensures r.Ok? ==> r.value.1 == Preimage(registry, kind, values).value && r.value.0 == DigestText(h(r.value.1))
  {
    if kind !in registry {
      return Err;
    }
    var entry := registry[kind];
    if |values| != |entry.fields| || |entry.domainTag| > 0xFFFF || |entry.kind| > 0xFFFF {
      return Err;
    }
    var header := Header(entry);
    var body := "";
    ghost var goal := FieldFrames(entry.fields, values);
    assert entry.fields[0..] == entry.fields;
    for i := 0 to |entry.fields|
      invariant goal.Ok? <==> FieldFrames(entry.fields[i..], values).Ok?
      invariant goal.Ok? ==> goal.value == body + FieldFrames(entry.fields[i..], values).value
    {
      var frame := FieldFrame(entry.fields[i], values);
      assert entry.fields[i..][0] == entry.fields[i] && entry.fields[i..][1..] == entry.fields[i + 1..];
      if frame.Err? {
        return Err;
      }
      body := body + frame.value;
    }
    assert entry.fields[|entry.fields|..] == [];
    return Ok((DigestText(h(header + body)), header + body));
  }

  // ---------- reading the preimage ----------

  lemma {:induction false} Regroup(a: string, b: string, c: string, d: string, e: string)
    ensures a + b + c + d + e == a + (b + (c + (d + e)))
  {
  }

  function Names(fields: seq<Field>): set<string> {
    set i | 0 <= i < |fields| :: fields[i].name
  }

  lemma {:induction false} NamesCount(fields: seq<Field>)
    requires FieldNamesDistinct(fields)
    ensures |Names(fields)| == |fields|
  {
    if fields == [] {
      assert Names(fields) == {};
    } else {
      var init, last := fields[..|fields| - 1], fields[|fields| - 1];
      NamesCount(init);
      assert Names(fields) == Names(init) + {last.name};
      assert last.name !in Names(init);
    }
  }

  lemma {:induction false} FramesNeedNames(fields: seq<Field>, values: Values)
    requires FieldFrames(fields, values).Ok?
    ensures forall i | 0 <= i < |fields| :: fields[i].name in values && FieldFrame(fields[i], values).Ok?
  {
    if fields != [] {
      FramesNeedNames(fields[1..], values);
      forall i | 0 <= i < |fields|
        ensures fields[i].name in values && FieldFrame(fields[i], values).Ok?
      {
        if i > 0 { assert fields[1..][i - 1] == fields[i]; }
      }
    }
  }

  /** Accepted values have exactly the registered field names. */
  lemma {:induction false} AcceptedKeys(registry: Registry, kind: string, values: Values)
    requires WellFormed(registry) && Preimage(registry, kind, values).Ok?
    ensures kind in registry && values.Keys == Names(registry[kind].fields)
  {
    var fields := registry[kind].fields;
    FramesNeedNames(fields, values);
    NamesCount(fields);
    SubsetSameSize(Names(fields), values.Keys);
  }

  /** The values a field accepts: its own type, one to 2^20 bytes, in the form of that type. */
  predicate Fits(definition: Field, value: SemanticValue) {
    && value.typeOf == definition.typeOf && 0 < |value.bytes| <= 0x10_0000
    && (value.typeOf == Id ==> |value.bytes| <= 4096 && ValidUtf8(value.bytes) && NoNul(value.bytes))
    && (value.typeOf == Id && definition.name == "amount_atomic" ==> CanonicalUnsigned(value.bytes))
    && (value.typeOf == Digest32 ==> IsDigest(value.bytes))
    && (value.typeOf == U64 ==> |value.bytes| == 8)
    && (value.typeOf == Kind || value.typeOf == State ==> CanonicalLowerToken(value.bytes))
  }

  /** The names that are written behind 16-bit lengths. */
  predicate Writable(entry: Entry) {
    && |entry.domainTag| <= 0xFFFF && |entry.kind| <= 0xFFFF
    && forall f | f in entry.fields :: |f.name| <= 0xFFFF
  }

  lemma {:induction false} FrameExactly(f: Field, values: Values)
    ensures FieldFrame(f, values).Ok? <==> f.name in values && Fits(f, values[f.name]) && |f.name| <= 0xFFFF
  {
    if f.name in values && f.typeOf == Digest32 && IsDigest(values[f.name].bytes) {
      HexCanonical(values[f.name].bytes[7..]);
    }
  }

  lemma {:induction false} FramesExactly(fields: seq<Field>, values: Values)
    ensures FieldFrames(fields, values).Ok? <==>
            forall f | f in fields :: f.name in values && Fits(f, values[f.name]) && |f.name| <= 0xFFFF
  {
    if fields != [] {
      FrameExactly(fields[0], values);
      FramesExactly(fields[1..], values);
      assert fields == [fields[0]] + fields[1..];
    }
  }

  /**
   An action has an identity exactly when its kind is registered and it gives every field, and
   no other, a fitting value.
   */
  lemma {:induction false} AcceptedExactly(registry: Registry, kind: string, values: Values)
    requires WellFormed(registry)
    ensures Preimage(registry, kind, values).Ok? <==>
            && kind in registry && Writable(registry[kind]) && values.Keys == Names(registry[kind].fields)
            && forall f | f in registry[kind].fields :: f.name in values && Fits(f, values[f.name])
  {
    if kind in registry {
      FramesExactly(registry[kind].fields, values);
      NamesCount(registry[kind].fields);
      assert |values| == |values.Keys|;
      if Preimage(registry, kind, values).Ok? {
        AcceptedKeys(registry, kind, values);
      }
    }
  }

  lemma {:induction false} SubsetSameSize(a: set<string>, b: set<string>)
    requires a <= b && |a| == |b|
    ensures a == b
  {
    var d := b - a;
    assert b == a + d;
    assert |b| == |a| + |d|;
  }

  /** The value behind canonical bytes: digests are written as 32 bytes, everything else as it is. */
  function Decoded(typeOf: FieldType, canonical: string): SemanticValue {
    SemanticValue(typeOf, if typeOf == Digest32 then "sha256:" + HexEncode(canonical) else canonical)
  }

  /** Named fields in registry order, and no more bytes. */
  function ReadFields(fields: seq<Field>, s: string): Option<Values> {
    if fields == [] then if s == "" then Some(map[]) else None
    else
      var name := ReadText(2, s);
      if name.Bad? || name.value != fields[0].name then None
      else
        var canonical := ReadText(4, name.rest);
        if canonical.Bad? then None
        else
          var others := ReadFields(fields[1..], canonical.rest);
          if others.None? then None
          else Some(others.value[fields[0].name := Decoded(fields[0].typeOf, canonical.value)])
  }

  datatype Opened = Opened(registryVersion: nat, entryVersion: nat, domainTag: string, kind: string, count: nat)

  /** Tag, two 16-bit versions, domain tag and kind behind 16-bit lengths, 16-bit field count. */
  function ReadOpened(s: string): Parsed<Opened> {
    if !("TOS-SAI\0" <= s) then Bad
    else
      var registry := ReadInteger(2, s[8..]);
      if registry.Bad? then Bad
      else
        var entry := ReadInteger(2, registry.rest);
        if entry.Bad? then Bad
        else
          var names := ReadTexts(2, 2, entry.rest);
          if names.Bad? then Bad
          else
            var count := ReadInteger(2, names.rest);
            if count.Bad? then Bad
            else Got(Opened(registry.value, entry.value, names.value[0], names.value[1], count.value), count.rest)
  }

  /** The action kind and the values that some bytes spell under a registry. */
  function ReadPreimage(registry: Registry, s: string): Option<(string, Values)> {
    var o := ReadOpened(s);
    if o.Bad? || o.value.kind !in registry then None
    else
      var entry := registry[o.value.kind];
      if o.value.registryVersion != entry.registryVersion || o.value.entryVersion != entry.entryVersion
         || o.value.domainTag != entry.domainTag || o.value.count != |entry.fields| % 0x1_0000 then None
      else
        var values := ReadFields(entry.fields, o.rest);
        if values.None? then None else Some((o.value.kind, values.value))
  }

  lemma {:induction false} ValueDecodes(definition: Field, value: SemanticValue)
    requires CanonicalValue(definition, value).Ok? && value.typeOf == definition.typeOf
    ensures Decoded(definition.typeOf, CanonicalValue(definition, value).value) == value
  {
    if definition.typeOf == Digest32 {
      HexCanonical(value.bytes[7..]);
      assert value.bytes == SHA_PREFIX + value.bytes[7..];
    }
  }

  lemma {:induction false} FieldReads(definition: Field, values: Values, rest: string)
    requires FieldFrame(definition, values).Ok?
    ensures var name := ReadText(2, FieldFrame(definition, values).value + rest);
            && name.Got? && name.value == definition.name
            && var canonical := ReadText(4, name.rest);
               && canonical.Got? && canonical.rest == rest
               && Decoded(definition.typeOf, canonical.value) == values[definition.name]
  {
    PowerOfBytes();
    var canonical := CanonicalValue(definition, values[definition.name]).value;
    Associative(LengthPrefixed(2, definition.name), LengthPrefixed(4, canonical), rest);
    TextRead(2, definition.name, LengthPrefixed(4, canonical) + rest);
    TextRead(4, canonical, rest);
    ValueDecodes(definition, values[definition.name]);
  }

  /** What is read has exactly the fields' names, each with its own value. */
  ghost predicate Restricts(fields: seq<Field>, values: Values, read: Values) {
    read.Keys == Names(fields) && forall k | k in read :: k in values && read[k] == values[k]
  }

  lemma {:induction false} FieldsRead(fields: seq<Field>, values: Values)
    requires FieldFrames(fields, values).Ok?
    ensures var r := ReadFields(fields, FieldFrames(fields, values).value);
            r.Some? && Restricts(fields, values, r.value)
  {
    if fields != [] {
      FieldsRead(fields[1..], values);
      FieldReads(fields[0], values, FieldFrames(fields[1..], values).value);
      NamesCons(fields);
    }
  }

  lemma {:induction false} NamesCons(fields: seq<Field>)
    requires fields != []
    ensures Names(fields) == {fields[0].name} + Names(fields[1..])
  {
    assert fields == [fields[0]] + fields[1..];
    forall k | k in Names(fields[1..])
      ensures k in Names(fields)
    {
      var i :| 0 <= i < |fields[1..]| && fields[1..][i].name == k;
      assert fields[i + 1].name == k;
    }
  }

  lemma {:induction false} HeaderReads(entry: Entry, rest: string)
    requires entry.registryVersion < 0x1_0000 && entry.entryVersion < 0x1_0000
    requires |entry.domainTag| <= 0xFFFF && |entry.kind| <= 0xFFFF
    ensures ReadOpened(Header(entry) + rest)
         == Got(Opened(entry.registryVersion, entry.entryVersion, entry.domainTag, entry.kind,
                       |entry.fields| % 0x1_0000), rest)
  {
    PowerOfBytes();
    var count, names := BigEndian(2, |entry.fields| % 0x1_0000), [entry.domainTag, entry.kind];
    var after := BigEndian(2, entry.entryVersion) + (Frames(2, names) + (count + rest));
    HeaderLayout(entry, rest);
    assert (MAGIC + (BigEndian(2, entry.registryVersion) + after))[8..] == BigEndian(2, entry.registryVersion) + after;
    IntegerRead(2, entry.registryVersion, after);
    IntegerRead(2, entry.entryVersion, Frames(2, names) + (count + rest));
    TextsRead(2, names, count + rest);
    IntegerRead(2, |entry.fields| % 0x1_0000, rest);
  }

  lemma {:induction false} HeaderLayout(entry: Entry, rest: string)
    ensures Header(entry) + rest
         == MAGIC + (BigEndian(2, entry.registryVersion)
                     + (BigEndian(2, entry.entryVersion)
                        + (Frames(2, [entry.domainTag, entry.kind])
                           + (BigEndian(2, |entry.fields| % 0x1_0000) + rest))))
  {
    var tag, kind := LengthPrefixed(2, entry.domainTag), LengthPrefixed(2, entry.kind);
    var count := BigEndian(2, |entry.fields| % 0x1_0000);
    assert [entry.domainTag, entry.kind][1..] == [entry.kind] && [entry.kind][1..] == [];
    assert Frames(2, [entry.kind]) == kind + "" == kind;
    assert Frames(2, [entry.domainTag, entry.kind]) == tag + kind;
    Regroup(Versions(entry), tag, kind, count, rest);
    Associative(tag, kind, count + rest);
    Associative(MAGIC, BigEndian(2, entry.registryVersion), BigEndian(2, entry.entryVersion));
    var r, e := BigEndian(2, entry.registryVersion), BigEndian(2, entry.entryVersion);
    Associative(MAGIC, r + e, tag + (kind + (count + rest)));
    Associative(r, e, tag + (kind + (count + rest)));
  }

  /** Every preimage reads back as the kind and the values it was made from. */
  lemma {:induction false} PreimageReads(registry: Registry, kind: string, values: Values)
    requires WellFormed(registry) && Preimage(registry, kind, values).Ok?
    ensures ReadPreimage(registry, Preimage(registry, kind, values).value) == Some((kind, values))
  {
    var entry := registry[kind];
    HeaderReads(entry, FieldFrames(entry.fields, values).value);
    FieldsRead(entry.fields, values);
    AcceptedKeys(registry, kind, values);
    var read := ReadFields(entry.fields, FieldFrames(entry.fields, values).value).value;
    assert read == values;
  }

  /** Equal preimages come from the same action kind with the same value in every field. */
  lemma {:induction false} PreimageInjective(registry: Registry, kind: string, values: Values, kind': string,
                                             values': Values)
    requires WellFormed(registry)
    requires Preimage(registry, kind, values).Ok?
    requires Preimage(registry, kind, values) == Preimage(registry, kind', values')
    ensures kind == kind' && values == values'
  {
    PreimageReads(registry, kind, values);
    PreimageReads(registry, kind', values');
  }

  /** Two actions share a stable identity only when they are the same action. */
  lemma {:induction false} StableIdInjective(h: string -> string, registry: Registry, kind: string, values: Values,
                                             kind': string, values': Values)
    requires WellFormed(registry) && IsHash(h)
    requires StableActionId(h, registry, kind, values).Ok?
    requires StableActionId(h, registry, kind, values) == StableActionId(h, registry, kind', values')
    requires CollisionFree(h, {Preimage(registry, kind, values).value, Preimage(registry, kind', values').value})
    ensures kind == kind' && values == values'
  {
    var p, q := Preimage(registry, kind, values).value, Preimage(registry, kind', values').value;
    DigestTextInjective(h(p), h(q));
    PreimageInjective(registry, kind, values, kind', values');
  }

  // ---------- transport form ----------

  /** Byte slices hold bytes. */
  ghost predicate ByteValues(values: Values) {
    forall k | k in values :: IsBytes(values[k].bytes)
  }

  function ExportField(definition: Field, value: SemanticValue): FieldValue
    requires IsBytes(value.bytes)
  {
    if definition.typeOf == U64 then FieldValue(definition.name, U64, "", Some(FromBigEndian(value.bytes)))
    else FieldValue(definition.name, definition.typeOf, value.bytes, None)
  }

  /** Rebuilding one value; None for the wrong name, type or an ambiguous encoding. */
  function ImportField(definition: Field, wire: FieldValue): Option<SemanticValue> {
    if wire.name != definition.name || wire.typeOf != definition.typeOf then None
    else if definition.typeOf == U64 then
      if wire.number.None? || wire.text != "" then None else Some(U64Value(wire.number.value))
    else
      if wire.number.Some? || wire.text == "" then None else Some(SemanticValue(wire.typeOf, wire.text))
  }

  ghost predicate Exported(fields: seq<Field>, values: Values, wire: seq<FieldValue>)
    requires ByteValues(values)
  {
    |wire| == |fields| &&
    forall i | 0 <= i < |fields| ::
      fields[i].name in values && wire[i] == ExportField(fields[i], values[fields[i].name])
  }

  method ExportAll(fields: seq<Field>, values: Values) returns (wire: seq<FieldValue>)
    requires ByteValues(values) && forall i | 0 <= i < |fields| :: fields[i].name in values
    ensures Exported(fields, values, wire)
  {
    wire := [];
    for i := 0 to |fields|
      invariant |wire| == i
      invariant forall k | 0 <= k < i :: wire[k] == ExportField(fields[k], values[fields[k].name])
    {
      wire := wire + [ExportField(fields[i], values[fields[i].name])];
    }
  }

  /** `ExportSemanticFields`. */
  method ExportSemanticFields(registry: Registry, kind: string, values: Values) returns (r: Result<seq<FieldValue>>)
    requires ByteValues(values)
    ensures r.Ok? <==> Preimage(registry, kind, values).Ok?
    ensures r.Ok? ==> Exported(registry[kind].fields, values, r.value)
  {
    if Preimage(registry, kind, values).Err? {
      return Err;
    }
    FramesNeedNames(registry[kind].fields, values);
    var wire := ExportAll(registry[kind].fields, values);
    return Ok(wire);
  }

  ghost predicate Imported(fields: seq<Field>, wire: seq<FieldValue>, values: Values) {
    && |wire| == |fields| && values.Keys == Names(fields)
    && forall i | 0 <= i < |fields| ::
         fields[i].name in values && ImportField(fields[i], wire[i]) == Some(values[fields[i].name])
  }

  /** `ImportSemanticFields`. */
  method ImportSemanticFields(registry: Registry, kind: string, wire: seq<FieldValue>) returns (r: Result<Values>)
    requires WellFormed(registry)
    ensures r.Ok? ==> kind in registry && Imported(registry[kind].fields, wire, r.value)
    ensures r.Ok? ==> Preimage(registry, kind, r.value).Ok?
    ensures r.Err? ==> forall values ::
              kind in registry && Imported(registry[kind].fields, wire, values) ==>
                  Preimage(registry, kind, values).Err?
  {
    if kind !in registry || |wire| != |registry[kind].fields| {
      return Err;
    }
    var fields := registry[kind].fields;
    var values: Values := map[];
    for i := 0 to |fields|
      invariant values.Keys == Names(fields[..i])
      invariant forall k | 0 <= k < i ::
                  fields[k].name in values && ImportField(fields[k], wire[k]) == Some(values[fields[k].name])
    {
      var value := ImportField(fields[i], wire[i]);
      if value.None? {
        return Err;
      }
      assert Names(fields[..i + 1]) == Names(fields[..i]) + {fields[i].name};
      values := values[fields[i].name := value.value];
    }
    assert fields[..|fields|] == fields;
    ImportedUnique(fields, wire, values);
    if Preimage(registry, kind, values).Err? {
      return Err;
    }
    return Ok(values);
  }

  lemma {:induction false} ImportedUnique(fields: seq<Field>, wire: seq<FieldValue>, values: Values)
    requires Imported(fields, wire, values)
    ensures forall other | Imported(fields, wire, other) :: other == values
  {
    forall other | Imported(fields, wire, other)
      ensures other == values
    {
      forall k | k in values
        ensures other[k] == values[k]
      {
        var i :| 0 <= i < |fields| && fields[i].name == k;
      }
    }
  }

  /** Importing what was exported gives back the values. */
  lemma {:induction false} ExportThenImport(registry: Registry, kind: string, values: Values, wire: seq<FieldValue>)
    requires WellFormed(registry) && ByteValues(values) && Preimage(registry, kind, values).Ok?
    requires Exported(registry[kind].fields, values, wire)
    ensures Imported(registry[kind].fields, wire, values)
  {
    var fields := registry[kind].fields;
    FramesNeedNames(fields, values);
    AcceptedKeys(registry, kind, values);
    forall i | 0 <= i < |fields|
      ensures ImportField(fields[i], wire[i]) == Some(values[fields[i].name])
    {
      assert FieldFrame(fields[i], values).Ok?;
      ExportImportField(fields[i], values[fields[i].name]);
    }
  }

  lemma {:induction false} ExportImportField(definition: Field, v: SemanticValue)
    requires IsBytes(v.bytes) && v.typeOf == definition.typeOf && CanonicalValue(definition, v).Ok?
    ensures ImportField(definition, ExportField(definition, v)) == Some(v)
  {
    if definition.typeOf == U64 { FromBigEndianRoundTrip(v.bytes); }
  }

  /** Exporting what was imported gives back the transport form, 64-bit numbers included. */
  lemma {:induction false} ImportThenExport(registry: Registry, kind: string, values: Values, wire: seq<FieldValue>)
    requires WellFormed(registry) && kind in registry && Imported(registry[kind].fields, wire, values)
    requires ByteValues(values)
    requires forall i | 0 <= i < |wire| :: wire[i].number.Some? ==> wire[i].number.value < TWO64
    ensures Exported(registry[kind].fields, values, wire)
  {
    var fields := registry[kind].fields;
    PowerOfBytes();
    forall i | 0 <= i < |fields|
      ensures wire[i] == ExportField(fields[i], values[fields[i].name])
    {
      assert ImportField(fields[i], wire[i]) == Some(values[fields[i].name]);
      if fields[i].typeOf == U64 { BigEndianRoundTrip(8, wire[i].number.value); }
    }
  }
}

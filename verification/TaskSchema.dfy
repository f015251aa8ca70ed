/** What a task's form schema says: the resource that guards the task and the user who created it. */
module TaskSchema {
  import opened Wrappers
  import opened Text
  import opened Json

  /** One decoding: a string is parsed if it can be, and blank text counts as absent. */
  function Decode(lib: Library, v: Option<Json>): Option<Json> {
    if v.Some? && v.value.Str? then
      if Trim(v.value.s) == "" then None
      else if lib.parse(Trim(v.value.s)).Some? then lib.parse(Trim(v.value.s))
      else v
    else v
  }

  /** `parseJsonLike`: the loop with its early returns is decoding twice. */
  method ParseJsonLike(lib: Library, value: Option<Json>) returns (r: Option<Json>)
    ensures r == Decode(lib, Decode(lib, value))
  {
    var current := value;
    for depth := 0 to 2
      invariant depth == 0 ==> current == value
      invariant depth == 1 ==> current == Decode(lib, value)
      invariant depth == 2 ==> current == Decode(lib, Decode(lib, value))
    {
      if current.None? || !current.value.Str? { return current; }
      var trimmed := Trim(current.value.s);
      if trimmed == "" { return None; }
      match lib.parse(trimmed) {
        case Some(parsed) => current := Some(parsed);
        case None => return current;
      }
    }
    return current;
  }

  // ── The guarding resource ───────────────────────────────────────────────

  /** `String(v)`. */
  function AsString(lib: Library, v: Json): string {
    if v.Str? then v.s else lib.stringOf(v)
  }

  predicate Present(fields: map<string, Json>, name: string) {
    name in fields && fields[name] != Null
  }

  function SchemaResource(lib: Library, fields: map<string, Json>): string {
    Normalize(
      if Present(fields, "resource") then AsString(lib, fields["resource"])
      else if Present(fields, "resourceKey") then AsString(lib, fields["resourceKey"])
      else if Present(fields, "accessResource") then AsString(lib, fields["accessResource"])
      else "")
  }

  predicate IsLineTerminator(ch: char) {
    ch == '\n' || ch == '\r' || ch == '\U{2028}' || ch == '\U{2029}'
  }

  /** The capture of `/^resource:(.+)$/i` on the trimmed type, normalized; empty when there is no match. */
  function TypeResource(kind: string): string {
    var raw := Trim(kind);
    if |raw| > 9 && ToLower(raw[..9]) == "resource:" && forall ch | ch in raw[9..] :: !IsLineTerminator(ch)
    then Normalize(raw[9..]) else ""
  }

  /** `resolveTaskResource`. */
  function ResolveResource(lib: Library, kind: Option<string>, schema: Option<Json>): string {
    var parsed := Decode(lib, Decode(lib, schema));
    if parsed.Some? && parsed.value.Obj? && SchemaResource(lib, parsed.value.fields) != "" then
      SchemaResource(lib, parsed.value.fields)
    else if kind.Some? && TypeResource(kind.value) != "" then TypeResource(kind.value)
    else "TASK"
  }

  // ── The creator ─────────────────────────────────────────────────────────

  predicate Falsy(v: Json) {
    v == Null || v == Bool(false) || v == Num(0.0) || v == Str("")
  }

  /** `Number(v)`; absent for NaN. */
  function AsNumber(lib: Library, v: Json): Option<real> {
    if v.Num? then Some(v.n) else lib.numberOf(v)
  }

  /** `resolveTaskCreatorId`. */
  function CreatorId(lib: Library, schema: Option<Json>): Option<real> {
    var parsed := Decode(lib, Decode(lib, schema));
    if parsed.Some? && parsed.value.Obj? && "createdBy" in parsed.value.fields
        && !Falsy(parsed.value.fields["createdBy"]) then
      AsNumber(lib, parsed.value.fields["createdBy"])
    else Some(0.0)
  }

  /** The schema `createTask` stores: for an identified viewer an object that names the viewer as creator. */
  function StoredSchema(lib: Library, formSchema: Option<string>, viewerId: nat): Option<Json> {
    var parsed := Decode(lib, Decode(lib, Supplied(formSchema)));
    if viewerId == 0 then parsed
    else if parsed.Some? && parsed.value.Obj? then Some(Obj(parsed.value.fields["createdBy" := Num(viewerId as real)]))
    else Some(Obj(map["createdBy" := Num(viewerId as real)]))
  }

  function Supplied(formSchema: Option<string>): Option<Json> {
    if formSchema.Some? then Some(Str(formSchema.value)) else None
  }

  /** The type column defaults to `basic`. */
  function StoredKind(kind: Option<string>): string {
    if kind.Some? then kind.value else "basic"
  }

  lemma BasicNamesNoResource()
    ensures TypeResource("basic") == ""
  {
    assert |Trim("basic")| <= |"basic"|;
  }

  /** The creator stamp is none of the columns that name a resource. */
  lemma StampNamesNoResource(lib: Library, fields: map<string, Json>, creator: Json)
    ensures SchemaResource(lib, fields["createdBy" := creator]) == SchemaResource(lib, fields)
  {
    assert |"resource"| == 8 && |"resourceKey"| == 11 && |"accessResource"| == 14 && |"createdBy"| == 9;
    var fields' := fields["createdBy" := creator];
    assert Present(fields', "resource") == Present(fields, "resource");
    assert Present(fields', "resourceKey") == Present(fields, "resourceKey");
    assert Present(fields', "accessResource") == Present(fields, "accessResource");
  }

  lemma NothingNamed(lib: Library)
    ensures SchemaResource(lib, map[]) == ""
  {
    assert Trim("") == "";
  }

  /** For every supplied schema text, however often encoded or however broken, and every type, the resource read back from
      the stored task is the one checked at creation, and the stored creator is the viewer, whatever creator the text
      claimed. */
  lemma StampSurvives(lib: Library, kind: Option<string>, formSchema: Option<string>, viewerId: nat)
    requires viewerId != 0
    ensures var stored := StoredSchema(lib, formSchema, viewerId);
            && ResolveResource(lib, Some(StoredKind(kind)), stored) == ResolveResource(lib, kind, Supplied(formSchema))
            && CreatorId(lib, stored) == Some(viewerId as real)
  {
    BasicNamesNoResource();
    hide TypeResource, SchemaResource, Trim;
    var stored := StoredSchema(lib, formSchema, viewerId);
    assert Decode(lib, Decode(lib, stored)) == stored;
    var parsed := Decode(lib, Decode(lib, Supplied(formSchema)));
    if parsed.Some? && parsed.value.Obj? {
      StampNamesNoResource(lib, parsed.value.fields, Num(viewerId as real));
    } else {
      StampNamesNoResource(lib, map[], Num(viewerId as real));
      NothingNamed(lib);
    }
  }

  // ── What a schema or a type names ───────────────────────────────────────

  /** The text `s` encodes `v`. */
  predicate Encodes(lib: Library, s: string, v: Json) {
    Trim(s) != "" && lib.parse(Trim(s)) == Some(v)
  }

  /** A value that is stored as it is, encoded once, or encoded twice is read as that value; blank text is read as nothing,
      and text that encodes nothing as itself. */
  lemma ReadsThroughEncodings(lib: Library, v: Json, once: string, twice: string)
    requires !v.Str?
    ensures Decode(lib, Decode(lib, Some(v))) == Some(v)
    ensures Encodes(lib, once, v) ==> Decode(lib, Decode(lib, Some(Str(once)))) == Some(v)
    ensures Encodes(lib, once, v) && Encodes(lib, twice, Str(once)) ==>
              Decode(lib, Decode(lib, Some(Str(twice)))) == Some(v)
    ensures Spells(once, "") ==> Decode(lib, Decode(lib, Some(Str(once)))) == None
    ensures !Spells(once, "") && lib.parse(Trim(once)) == None ==>
              Decode(lib, Decode(lib, Some(Str(once)))) == Some(Str(once))
  {
    NormalFormIsSpelled(once, "");
    assert Normalize(once) == "" <==> Trim(once) == "";
    hide Trim, Normalize, Spells;
  }

  /** The field is a text that spells `name`. */
  ghost predicate FieldSpells(fields: map<string, Json>, field: string, name: string) {
    field in fields && fields[field].Str? && Spells(fields[field].s, name)
  }

  predicate Absent(fields: map<string, Json>, field: string) {
    field !in fields || fields[field] == Null
  }

  /** The type, but for white space around it, is `resource:` in any case and, on one line, a text that spells `name`. */
  ghost predicate KindSpells(kind: string, name: string) {
    var raw := Trim(kind);
    && |raw| > 9 && (forall i | 0 <= i < 9 :: SameLetter(raw[i], "resource:"[i])) && Spells(raw[9..], name)
    && forall ch | ch in raw[9..] :: ch !in {'\n', '\r', '\U{2028}', '\U{2029}'}
  }

  /** A schema names a task's resource by its field `resource`; by `resourceKey` when that one is absent; by
      `accessResource` when both are. When all are, the task goes by its type. */
  lemma ResourceMeaning(lib: Library, kind: Option<string>, fields: map<string, Json>, name: string)
    requires IsNormal(name) && name != ""
    ensures var r := ResolveResource(lib, kind, Some(Obj(fields)));
            && (FieldSpells(fields, "resource", name) ==> r == name)
            && (Absent(fields, "resource") && FieldSpells(fields, "resourceKey", name) ==> r == name)
            && (Absent(fields, "resource") && Absent(fields, "resourceKey") && FieldSpells(fields, "accessResource", name) ==>
                  r == name)
            && (Absent(fields, "resource") && Absent(fields, "resourceKey") && Absent(fields, "accessResource") ==>
                  r == ResolveResource(lib, kind, None))
  {
    SpelledInField(fields, "resource", name);
    SpelledInField(fields, "resourceKey", name);
    SpelledInField(fields, "accessResource", name);
    DecodeFixes(lib, fields);
    assert Normalize("") == "" by { NothingNamed(lib); }
    hide Normalize, TypeResource, FieldSpells, Decode, IsNormal;
  }

  lemma SpelledInField(fields: map<string, Json>, field: string, name: string)
    requires IsNormal(name)
    ensures FieldSpells(fields, field, name) ==>
              field in fields && fields[field].Str? && Normalize(fields[field].s) == name
  {
    if FieldSpells(fields, field, name) { NormalFormIsSpelled(fields[field].s, name); }
  }

  /** The type of a task names its resource by `resource:` in front; a type of any other form, or none, leaves TASK. */
  lemma TypeMeaning(lib: Library, kind: Option<string>, name: string)
    requires IsNormal(name) && name != ""
    ensures kind.Some? && KindSpells(kind.value, name) ==> ResolveResource(lib, kind, None) == name
    ensures (kind.None? || forall other | IsNormal(other) && other != "" :: !KindSpells(kind.value, other)) ==>
              ResolveResource(lib, kind, None) == "TASK"
  {
    DecodeFixes(lib, map[]);
    if kind.Some? {
      TypeNames(kind.value, name);
      TypeNames(kind.value, TypeResource(kind.value));
    }
    hide TypeResource, KindSpells, IsNormal, Decode;
  }

  lemma DecodeFixes(lib: Library, fields: map<string, Json>)
    ensures Decode(lib, Decode(lib, Some(Obj(fields)))) == Some(Obj(fields)) && Decode(lib, Decode(lib, None)) == None
  {
  }

  lemma TypeNames(kind: string, name: string)
    ensures IsNormal(TypeResource(kind))
    ensures IsNormal(name) && name != "" ==> (KindSpells(kind, name) <==> TypeResource(kind) == name)
  {
    NormalizeMeaning("");
    assert Normalize("") == "";
    if |Trim(kind)| > 9 { LongTypeNames(kind, name); }
    hide Normalize, Spells, Trim, ToLower, IsNormal, SameLetter;
  }

  lemma LongTypeNames(kind: string, name: string)
    requires |Trim(kind)| > 9
    ensures IsNormal(TypeResource(kind))
    ensures IsNormal(name) && name != "" ==> (KindSpells(kind, name) <==> TypeResource(kind) == name)
  {
    var raw := Trim(kind);
    NormalizeMeaning("");
    assert Normalize("") == "";
    NormalizeMeaning(raw[9..]);
    PrefixReads(raw[..9]);
    if IsNormal(name) { NormalFormIsSpelled(raw[9..], name); }
    hide Normalize, Spells, Trim, ToLower, IsNormal, SameLetter;
  }

  lemma PrefixReads(s: string)
    requires |s| == 9
    ensures ToLower(s) == "resource:" <==> forall i | 0 <= i < 9 :: SameLetter(s[i], "resource:"[i])
  {
    var prefix := "resource:";
    assert |prefix| == 9;
    LowerSpells(s, prefix);
    hide ToLower, SameLetter;
  }

  /** What `createTask` stores: for an identified viewer an object whose `createdBy` is the viewer's number, with every other
      field of a supplied object and no other; without one, what was supplied. */
  lemma StoredSchemaMeaning(lib: Library, formSchema: Option<string>, viewerId: nat)
    ensures var supplied := Decode(lib, Decode(lib, Supplied(formSchema)));
            var stored := StoredSchema(lib, formSchema, viewerId);
            && (viewerId == 0 ==> stored == supplied)
            && (viewerId != 0 ==>
                  && stored.Some? && stored.value.Obj? && "createdBy" in stored.value.fields
                  && stored.value.fields["createdBy"] == Num(viewerId as real)
                  && forall field | field != "createdBy" ::
                       && (field in stored.value.fields <==>
                             supplied.Some? && supplied.value.Obj? && field in supplied.value.fields)
                       && (field in stored.value.fields ==> stored.value.fields[field] == supplied.value.fields[field]))
    ensures formSchema.None? ==> Decode(lib, Decode(lib, Supplied(formSchema))) == None
  {
    hide Decode;
    assert Decode(lib, None) == None by { DecodeNothing(lib); }
  }

  lemma DecodeNothing(lib: Library)
    ensures Decode(lib, None) == None
  {
  }
}

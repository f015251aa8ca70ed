/** The resource names the project service hard-codes, what makes such a table coherent, and the
    write-side rules built on it: alias resolution and the flags a policy write stores. */
module Catalog {
  import opened Text

  datatype Action = View | Create | Edit | Delete

  datatype Flags = Flags(canView: bool, canCreate: bool, canEdit: bool, canDelete: bool) {
    predicate Allows(a: Action) {
      match a
      case View => canView
      case Create => canCreate
      case Edit => canEdit
      case Delete => canDelete
    }

    /** Flag-wise disjunction. */
    function Or(that: Flags): Flags {
      Flags(canView || that.canView, canCreate || that.canCreate, canEdit || that.canEdit, canDelete || that.canDelete)
    }
  }

  const NO_ACCESS := Flags(false, false, false, false)
  const VIEW_ACCESS := Flags(true, false, false, false)

  /** The read-only lists of the project service. */
  datatype Catalog = Catalog(
    defaults: seq<string>, fields: seq<string>, hardcoded: seq<string>, viewOnly: seq<string>,
    aliases: map<string, string>)
  {
    predicate Allowed(resource: string) {
      resource in defaults || resource in fields || resource in hardcoded
    }

    /** Every name is a non-empty normal form and no alias; no task name is a default; view-only names are task names; an
        alias is a normal form and leads in one step to a task name. */
    ghost predicate Valid() {
      && (forall s | Allowed(s) :: s != "" && IsNormal(s) && s !in aliases)
      && (forall a | a in aliases :: IsNormal(a))
      && (forall s | s in viewOnly :: s in hardcoded)
      && (forall a | a in aliases :: aliases[a] in hardcoded && aliases[a] !in aliases)
      && (forall s | s in hardcoded :: s !in defaults && s != "TASK")
    }
  }

  /** `normalizePolicyResource`. An alias never leads to the empty string, so `||` falls back on absence only. */
  function NormalizePolicyResource(c: Catalog, resource: string): string {
    var normalized := Normalize(resource);
    if normalized in c.aliases && c.aliases[normalized] != "" then c.aliases[normalized] else normalized
  }

  /** `buildPolicyFlags`. */
  function BuildPolicyFlags(c: Catalog, resource: string, flags: Flags): Flags {
    if Normalize(resource) in c.viewOnly then
      flags.(canCreate := false, canEdit := false, canDelete := false)
    else if Normalize(resource) in c.hardcoded then
      flags.(canView := flags.canView || flags.canCreate || flags.canEdit || flags.canDelete)
    else
      flags
  }

  /** What may be granted on a resource key: nothing but viewing on a view-only task, and on another task no
      change without viewing. */
  predicate WellFlagged(c: Catalog, key: string, f: Flags) {
    && (key in c.viewOnly ==> !f.canCreate && !f.canEdit && !f.canDelete)
    && (key in c.hardcoded && key !in c.viewOnly && (f.canCreate || f.canEdit || f.canDelete) ==> f.canView)
  }

  /** Alias resolution is idempotent on all strings. */
  lemma NormalizePolicyResourceIdempotent(c: Catalog, s: string)
    requires c.Valid()
    ensures var r := NormalizePolicyResource(c, s);
            NormalizePolicyResource(c, r) == r && Normalize(r) == r
  {
    var n := Normalize(s);
    NormalizeMeaning(s);
    NormalizeMeaning(n);
    if n in c.aliases {
      NormalizeMeaning(c.aliases[n]);
    }
  }

  /** However it is spelled, an alias resolves to the task name the table gives, which is allowed; a name that is no alias
      resolves to itself, and that goes for everything allowed. Every text spells one name in normal form, so this says what
      any text resolves to. */
  lemma NormalizePolicyResourceMeaning(c: Catalog, s: string, name: string)
    requires c.Valid() && IsNormal(name) && Spells(s, name)
    ensures name in c.aliases ==> NormalizePolicyResource(c, s) == c.aliases[name] && c.Allowed(c.aliases[name])
    ensures name !in c.aliases ==> NormalizePolicyResource(c, s) == name
    ensures c.Allowed(name) ==> NormalizePolicyResource(c, s) == name
    ensures forall other | IsNormal(other) && Spells(s, other) :: other == name
  {
    NormalFormIsSpelled(s, name);
    forall other | IsNormal(other) && Spells(s, other) ensures other == name { NormalFormIsSpelled(s, other); }
    hide Normalize, IsNormal, Spells;
    assert name in c.aliases ==> c.Allowed(c.aliases[name]);
  }

  /** The stored flags are well flagged, are the request itself exactly when the request was well flagged,
      and differ from it only by dropping changes on a view-only task or by adding the view they need. */
  lemma BuildPolicyFlagsMeaning(c: Catalog, resource: string, f: Flags)
    ensures var r, key := BuildPolicyFlags(c, resource, f), Normalize(resource);
            && (c.Valid() ==> WellFlagged(c, key, r))
            && (c.Valid() ==> (r == f <==> WellFlagged(c, key, f)))
            && (key in c.viewOnly ==> r == Flags(f.canView, false, false, false))
            && (f.canView ==> r.canView)
            && (r.canView ==> f.canView || f.canCreate || f.canEdit || f.canDelete)
            && (key !in c.viewOnly ==> r.canCreate == f.canCreate && r.canEdit == f.canEdit && r.canDelete == f.canDelete)
  {
  }

  // ── The service's own tables, one resource family at a time ─────────────

  const DRAWING_RESOURCES: seq<string> := [
    "DRAWING_VIEW_FOLDERS", "DRAWING_VIEW_REGISTERS", "DRAWING_CREATE_FOLDER",
    "DRAWING_RENAME_FOLDER", "DRAWING_DELETE_FOLDER", "DRAWING_VIEW_PDFS",
    "DRAWING_UPLOAD_PDF", "DRAWING_UPLOAD_MULTIPLE_PDFS", "DRAWING_RENAME_PDF",
    "DRAWING_DELETE_PDF", "DRAWING_DELETE_MULTIPLE_PDFS", "DRAWING_CREATE_REGISTER",
    "DRAWING_DELETE_REGISTER"
  ]

  const BILL_OF_MATERIAL_RESOURCES: seq<string> := [
    "BILL_OF_MATERIAL_FOLDER_VIEW", "BILL_OF_MATERIAL_FOLDER_CREATE", "BILL_OF_MATERIAL_FOLDER_RENAME",
    "BILL_OF_MATERIAL_FOLDER_DELETE", "BILL_OF_MATERIAL_TRACK_CREATE", "BILL_OF_MATERIAL_TRACK_VIEW",
    "BILL_OF_MATERIAL_TRACK_RENAME", "BILL_OF_MATERIAL_TRACK_EDIT"
  ]

  const MIV_MIN_RESOURCES: seq<string> := [
    "MIV_MIN_FOLDER_VIEW", "MIV_MIN_FOLDER_CREATE", "MIV_MIN_FOLDER_RENAME",
    "MIV_MIN_FOLDER_DELETE", "MIN_MIV_PDF_VIEW", "MIN_MIV_PDF_UPLOAD",
    "MIN_MIV_PDF_RENAME", "MIN_MIV_PDF_DELETE", "MIV_MIN_REGISTER_CREATE",
    "MIV_MIN_REGISTER_VIEW", "MIV_MIN_REGISTER_RENAME", "MIV_MIN_REGISTER_DELETE"
  ]

  const CHALLAN_RESOURCES: seq<string> := [
    "CHALLAN_FOLDER_VIEW", "CHALLAN_FOLDER_CREATE", "CHALLAN_FOLDER_RENAME",
    "CHALLAN_FOLDER_DELETE", "CHALLAN_PDF_VIEW", "CHALLAN_PDF_UPLOAD",
    "CHALLAN_PDF_RENAME", "CHALLAN_PDF_DELETE", "CHALLAN_REGISTER_CREATE",
    "CHALLAN_REGISTER_VIEW", "CHALLAN_REGISTER_RENAME", "CHALLAN_REGISTER_DELETE",
    "CHALLAN_REGISTER_EDIT"
  ]

  const SCHEDULE_RESOURCES: seq<string> := [
    "SCHEDULE_FOLDER_CREATE", "SCHEDULE_FOLDER_RENAME", "SCHEDULE_FOLDER_VIEW",
    "SCHEDULE_FOLDER_DELETE", "L3_SCHEDULE_VIEW", "L3_SCHEDULE_CREATE",
    "L3_SCHEDULE_EDIT", "L3_SCHEDULE_RENAME", "L3_SCHEDULE_DELETE"
  ]

  const LHS_RESOURCES: seq<string> := [
    "LHS_FOLDER_CREATE", "LHS_FOLDER_VIEW", "LHS_FOLDER_EDIT",
    "LHS_FOLDER_DELETE"
  ]

  const DRAWING_ALIASES: map<string, string> := map[
    "DRAWING_UPLOAD_MULTIPLE_PDF" := "DRAWING_UPLOAD_MULTIPLE_PDFS",
    "DRAWING_DELETE_MULTIPLE_PDF" := "DRAWING_DELETE_MULTIPLE_PDFS",
    "UPLOAD_MULTIPLE_PDFS" := "DRAWING_UPLOAD_MULTIPLE_PDFS",
    "DELETE_MULTIPLE_PDFS" := "DRAWING_DELETE_MULTIPLE_PDFS",
    "DRAWING_VIEW_FOLDER" := "DRAWING_VIEW_FOLDERS",
    "VIEW_FOLDERS" := "DRAWING_VIEW_FOLDERS",
    "DRAWING_VIEW_REGISTER" := "DRAWING_VIEW_REGISTERS",
    "VIEW_REGISTER" := "DRAWING_VIEW_REGISTERS",
    "VIEW_REGISTERS" := "DRAWING_VIEW_REGISTERS",
    "DRAWING_VIEW_PDF" := "DRAWING_VIEW_PDFS",
    "VIEW_PDFS" := "DRAWING_VIEW_PDFS"
  ]

  const BILL_OF_MATERIAL_REGISTER_ALIASES: map<string, string> := map[
    "BILL_OF_MATERIAL_VIEW_TRACK_REGISTER" := "BILL_OF_MATERIAL_TRACK_VIEW",
    "VIEW_BILL_OF_MATERIAL_TRACK_REGISTER" := "BILL_OF_MATERIAL_TRACK_VIEW",
    "BOM_TRACK_VIEW" := "BILL_OF_MATERIAL_TRACK_VIEW",
    "BILL_OF_MATERIAL_EDIT_TRACK_REGISTER" := "BILL_OF_MATERIAL_TRACK_EDIT",
    "EDIT_BILL_OF_MATERIAL_TRACK_REGISTER" := "BILL_OF_MATERIAL_TRACK_EDIT",
    "BOM_TRACK_EDIT" := "BILL_OF_MATERIAL_TRACK_EDIT"
  ]

  const BILL_OF_MATERIAL_FOLDER_ALIASES: map<string, string> := map[
    "BILL_OF_MATERIAL_CREATE_FOLDER" := "BILL_OF_MATERIAL_FOLDER_CREATE",
    "BILL_OF_MATERIAL_VIEW_FOLDER" := "BILL_OF_MATERIAL_FOLDER_VIEW",
    "BILL_OF_MATERIAL_RENAME_FOLDER" := "BILL_OF_MATERIAL_FOLDER_RENAME",
    "BILL_OF_MATERIAL_DELETE_FOLDER" := "BILL_OF_MATERIAL_FOLDER_DELETE"
  ]

  const BILL_OF_MATERIALS_FOLDERS_ALIASES: map<string, string> := map[
    "CREATE_BILL_OF_MATERIALS_FOLDERS" := "BILL_OF_MATERIAL_FOLDER_CREATE",
    "VIEW_BILL_OF_MATERIALS_FOLDERS" := "BILL_OF_MATERIAL_FOLDER_VIEW",
    "RENAME_BILL_OF_MATERIALS_FOLDERS" := "BILL_OF_MATERIAL_FOLDER_RENAME",
    "DELETE_BILL_OF_MATERIALS_FOLDERS" := "BILL_OF_MATERIAL_FOLDER_DELETE"
  ]

  const BILL_OF_MATERIAL_TRACK_ALIASES: map<string, string> := map[
    "BILL_OF_MATERIAL_TRACK_CREATE_REGISTER" := "BILL_OF_MATERIAL_TRACK_CREATE",
    "BILL_OF_MATERIAL_TRACK_RENAME_REGISTER" := "BILL_OF_MATERIAL_TRACK_RENAME",
    "CREATE_BILL_OF_MATERIALS_TRACK_REGISTER" := "BILL_OF_MATERIAL_TRACK_CREATE",
    "RENAME_BILL_OF_MATERIALS_TRACK_REGISTER" := "BILL_OF_MATERIAL_TRACK_RENAME"
  ]

  const BILL_OF_MATERIAL_ALIASES := BILL_OF_MATERIAL_REGISTER_ALIASES + BILL_OF_MATERIAL_FOLDER_ALIASES
      + BILL_OF_MATERIALS_FOLDERS_ALIASES + BILL_OF_MATERIAL_TRACK_ALIASES

  const MIV_MIN_FOLDER_ALIASES: map<string, string> := map[
    "MIV_MIN_CREATE_FOLDER" := "MIV_MIN_FOLDER_CREATE",
    "MIV_MIN_VIEW_FOLDER" := "MIV_MIN_FOLDER_VIEW",
    "MIV_MIN_RENAME_FOLDER" := "MIV_MIN_FOLDER_RENAME",
    "MIV_MIN_DELETE_FOLDER" := "MIV_MIN_FOLDER_DELETE",
    "CREATE_MIV_MIN_FOLDERS" := "MIV_MIN_FOLDER_CREATE",
    "VIEW_MIV_MIN_FOLDERS" := "MIV_MIN_FOLDER_VIEW",
    "RENAME_MIV_MIN_FOLDERS" := "MIV_MIN_FOLDER_RENAME",
    "DELETE_MIV_MIN_FOLDERS" := "MIV_MIN_FOLDER_DELETE"
  ]

  const MIN_MIV_PDF_ALIASES: map<string, string> := map[
    "MIN_MIV_VIEW_PDF" := "MIN_MIV_PDF_VIEW",
    "MIN_MIV_UPLOAD_PDF" := "MIN_MIV_PDF_UPLOAD",
    "MIN_MIV_RENAME_PDF" := "MIN_MIV_PDF_RENAME",
    "MIN_MIV_DELETE_PDF" := "MIN_MIV_PDF_DELETE",
    "VIEW_MIN_MIV_PDF" := "MIN_MIV_PDF_VIEW",
    "UPLOAD_MIN_MIV_PDF" := "MIN_MIV_PDF_UPLOAD",
    "RENAME_MIN_MIV_PDF" := "MIN_MIV_PDF_RENAME",
    "DELETE_MIN_MIV_PDF" := "MIN_MIV_PDF_DELETE"
  ]

  const MIV_MIN_REGISTER_ALIASES: map<string, string> := map[
    "MIV_MIN_CREATE_REGISTER" := "MIV_MIN_REGISTER_CREATE",
    "MIV_MIN_VIEW_REGISTER" := "MIV_MIN_REGISTER_VIEW",
    "MIV_MIN_RENAME_REGISTER" := "MIV_MIN_REGISTER_RENAME",
    "MIV_MIN_DELETE_REGISTER" := "MIV_MIN_REGISTER_DELETE",
    "CREATE_MIV_MIN_REGISTER" := "MIV_MIN_REGISTER_CREATE",
    "VIEW_MIV_MIN_REGISTER" := "MIV_MIN_REGISTER_VIEW",
    "RENAME_MIV_MIN_REGISTER" := "MIV_MIN_REGISTER_RENAME",
    "DELETE_MIV_MIN_REGISTER" := "MIV_MIN_REGISTER_DELETE"
  ]

  const MIV_MIN_ALIASES := MIV_MIN_FOLDER_ALIASES + MIN_MIV_PDF_ALIASES + MIV_MIN_REGISTER_ALIASES

  const CHALLAN_FOLDER_ALIASES: map<string, string> := map[
    "CHALLAN_CREATE_FOLDER" := "CHALLAN_FOLDER_CREATE",
    "CHALLAN_VIEW_FOLDER" := "CHALLAN_FOLDER_VIEW",
    "CHALLAN_RENAME_FOLDER" := "CHALLAN_FOLDER_RENAME",
    "CHALLAN_DELETE_FOLDER" := "CHALLAN_FOLDER_DELETE",
    "CREATE_CHALLAN_FOLDERS" := "CHALLAN_FOLDER_CREATE",
    "VIEW_CHALLAN_FOLDERS" := "CHALLAN_FOLDER_VIEW",
    "RENAME_CHALLAN_FOLDERS" := "CHALLAN_FOLDER_RENAME",
    "DELETE_CHALLAN_FOLDERS" := "CHALLAN_FOLDER_DELETE"
  ]

  const CHALLAN_PDF_ALIASES: map<string, string> := map[
    "CHALLAN_VIEW_PDF" := "CHALLAN_PDF_VIEW",
    "CHALLAN_UPLOAD_PDF" := "CHALLAN_PDF_UPLOAD",
    "CHALLAN_RENAME_PDF" := "CHALLAN_PDF_RENAME",
    "CHALLAN_DELETE_PDF" := "CHALLAN_PDF_DELETE",
    "VIEW_CHALLAN_PDF" := "CHALLAN_PDF_VIEW",
    "UPLOAD_CHALLAN_PDF" := "CHALLAN_PDF_UPLOAD",
    "RENAME_CHALLAN_PDF" := "CHALLAN_PDF_RENAME",
    "DELETE_CHALLAN_PDF" := "CHALLAN_PDF_DELETE"
  ]

  const CHALLAN_REGISTER_ALIASES: map<string, string> := map[
    "CHALLAN_CREATE_REGISTER" := "CHALLAN_REGISTER_CREATE",
    "CHALLAN_VIEW_REGISTER" := "CHALLAN_REGISTER_VIEW",
    "CHALLAN_RENAME_REGISTER" := "CHALLAN_REGISTER_RENAME",
    "CHALLAN_DELETE_REGISTER" := "CHALLAN_REGISTER_DELETE",
    "CHALLAN_EDIT_REGISTER" := "CHALLAN_REGISTER_EDIT",
    "CREATE_CHALLAN_REGISTER" := "CHALLAN_REGISTER_CREATE",
    "VIEW_CHALLAN_REGISTER" := "CHALLAN_REGISTER_VIEW",
    "RENAME_CHALLAN_REGISTER" := "CHALLAN_REGISTER_RENAME",
    "DELETE_CHALLAN_REGISTER" := "CHALLAN_REGISTER_DELETE",
    "EDIT_CHALLAN_REGISTER" := "CHALLAN_REGISTER_EDIT"
  ]

  const CHALLAN_ALIASES := CHALLAN_FOLDER_ALIASES + CHALLAN_PDF_ALIASES + CHALLAN_REGISTER_ALIASES

  const SCHEDULE_FOLDER_ALIASES: map<string, string> := map[
    "SCHEDULE_CREATE_FOLDER" := "SCHEDULE_FOLDER_CREATE",
    "SCHEDULE_RENAME_FOLDER" := "SCHEDULE_FOLDER_RENAME",
    "SCHEDULE_VIEW_FOLDER" := "SCHEDULE_FOLDER_VIEW",
    "SCHEDULE_DELETE_FOLDER" := "SCHEDULE_FOLDER_DELETE",
    "CREATE_SCHEDULE_FOLDERS" := "SCHEDULE_FOLDER_CREATE",
    "RENAME_SCHEDULE_FOLDERS" := "SCHEDULE_FOLDER_RENAME",
    "VIEW_SCHEDULE_FOLDERS" := "SCHEDULE_FOLDER_VIEW",
    "DELETE_SCHEDULE_FOLDERS" := "SCHEDULE_FOLDER_DELETE"
  ]

  const L3_SCHEDULE_ALIASES: map<string, string> := map[
    "VIEW_L3_SCHEDULE" := "L3_SCHEDULE_VIEW",
    "CREATE_L3_SCHEDULE" := "L3_SCHEDULE_CREATE",
    "EDIT_L3_SCHEDULE" := "L3_SCHEDULE_EDIT",
    "RENAME_L3_SCHEDULE" := "L3_SCHEDULE_RENAME",
    "DELETE_L3_SCHEDULE" := "L3_SCHEDULE_DELETE",
    "L3_CREATE_SCHEDULE" := "L3_SCHEDULE_CREATE",
    "L3_EDIT_SCHEDULE" := "L3_SCHEDULE_EDIT",
    "L3_RENAME_SCHEDULE" := "L3_SCHEDULE_RENAME",
    "L3_DELETE_SCHEDULE" := "L3_SCHEDULE_DELETE",
    "L3_VIEW_SCHEDULE" := "L3_SCHEDULE_VIEW"
  ]

  const SCHEDULE_ALIASES := SCHEDULE_FOLDER_ALIASES + L3_SCHEDULE_ALIASES

  const LINE_HISTORY_SHEET_FOLDER_ALIASES: map<string, string> := map[
    "LINE_HISTORY_SHEET_CREATE_FOLDER" := "LHS_FOLDER_CREATE",
    "LINE_HISTORY_SHEET_VIEW_FOLDER" := "LHS_FOLDER_VIEW",
    "LINE_HISTORY_SHEET_EDIT_FOLDER" := "LHS_FOLDER_EDIT",
    "LINE_HISTORY_SHEET_DELETE_FOLDER" := "LHS_FOLDER_DELETE"
  ]

  const LINE_HISTORY_SHEET_FOLDERS_ALIASES: map<string, string> := map[
    "CREATE_LINE_HISTORY_SHEET_FOLDERS" := "LHS_FOLDER_CREATE",
    "VIEW_LINE_HISTORY_SHEET_FOLDERS" := "LHS_FOLDER_VIEW",
    "EDIT_LINE_HISTORY_SHEET_FOLDERS" := "LHS_FOLDER_EDIT",
    "DELETE_LINE_HISTORY_SHEET_FOLDERS" := "LHS_FOLDER_DELETE"
  ]

  const LHS_FOLDER_ALIASES: map<string, string> := map[
    "LHS_CREATE_FOLDER" := "LHS_FOLDER_CREATE",
    "LHS_VIEW_FOLDER" := "LHS_FOLDER_VIEW",
    "LHS_EDIT_FOLDER" := "LHS_FOLDER_EDIT",
    "LHS_DELETE_FOLDER" := "LHS_FOLDER_DELETE"
  ]

  const LHS_ALIASES := LINE_HISTORY_SHEET_FOLDER_ALIASES + LINE_HISTORY_SHEET_FOLDERS_ALIASES + LHS_FOLDER_ALIASES

  const VIEW_ONLY_RESOURCES: seq<string> := [
    "DRAWING_VIEW_FOLDERS", "DRAWING_VIEW_REGISTERS", "DRAWING_VIEW_PDFS",
    "BILL_OF_MATERIAL_FOLDER_VIEW", "BILL_OF_MATERIAL_TRACK_VIEW", "MIV_MIN_FOLDER_VIEW",
    "MIN_MIV_PDF_VIEW", "MIV_MIN_REGISTER_VIEW", "CHALLAN_FOLDER_VIEW",
    "CHALLAN_PDF_VIEW", "CHALLAN_REGISTER_VIEW", "SCHEDULE_FOLDER_VIEW",
    "L3_SCHEDULE_VIEW", "LHS_FOLDER_VIEW"
  ]

  const DEFAULT_RESOURCES: seq<string> := ["WORK_ORDER", "TASK", "SUBTASK", "DEPARTMENT", "USER"]

  const FIELD_RESOURCES: seq<string> := ["FIELD", "PROJECT_FIELD"]

  const ROOEEL := Catalog(
    DEFAULT_RESOURCES,
    FIELD_RESOURCES,
    DRAWING_RESOURCES + BILL_OF_MATERIAL_RESOURCES + MIV_MIN_RESOURCES + CHALLAN_RESOURCES + SCHEDULE_RESOURCES
        + LHS_RESOURCES,
    VIEW_ONLY_RESOURCES,
    LHS_ALIASES + (SCHEDULE_ALIASES + (CHALLAN_ALIASES + (MIV_MIN_ALIASES + (BILL_OF_MATERIAL_ALIASES + DRAWING_ALIASES)))))

  const PLAIN_CHARS := {
    'A', 'B', 'C', 'D', 'E', 'F', 'G', 'H', 'I', 'J', 'K', 'L', 'M', 'N', 'O', 'P', 'Q', 'R', 'S', 'T', 'U', 'V', 'W', 'X',
    'Y', 'Z', '0', '1', '2', '3', '4', '5', '6', '7', '8', '9', '_'
  }

  predicate Plain(s: string) { forall c | c in s :: c in PLAIN_CHARS }

  lemma PlainIsNormal(s: string)
    requires Plain(s)
    ensures IsNormal(s)
  {
    assert s != "" ==> s[0] in s && s[|s| - 1] in s;
  }

  /** A shape every alias has and no task name has: a task name ends in its verb, or in a drawing noun. */
  predicate AliasShaped(s: string) {
    && |s| >= 8 && s[0] != 'W'
    && if s[0] == 'D' && s[1] == 'R' then
         s[|s| - 1] != 'S' && |s| >= 16 && (s[8] == 'V' || s[15] == 'M')
       else
         || (s[0] == 'B' && s[1] == 'O')
         || (s[|s| - 1] == 'R' && s[|s| - 2] == 'E')
         || (s[|s| - 1] == 'S' && (s[|s| - 2] == 'R' || s[|s| - 2] == 'F'))
         || (s[|s| - 1] == 'F' && s[|s| - 2] == 'D')
         || (s[|s| - 1] == 'E' && s[|s| - 2] == 'L')
  }

  /** Longer than every default name, and not an alias. */
  predicate TaskShaped(s: string) { |s| >= 15 && !AliasShaped(s) }

  /** One family: its task names, and aliases that lead into them. */
  ghost predicate Family(resources: seq<string>, aliases: map<string, string>) {
    && (forall s | s in resources :: Plain(s) && TaskShaped(s))
    && (forall a | a in aliases :: Plain(a) && AliasShaped(a) && aliases[a] in resources)
  }

  lemma FamilyIf(r: seq<string>, a: map<string, string>)
    requires forall s | s in r :: Plain(s)
    requires forall s | s in r :: TaskShaped(s)
    requires forall k | k in a :: AliasShaped(k) && a[k] in r
    requires forall k | k in a :: Plain(k)
    ensures Family(r, a)
  {}

  lemma FamiliesJoin(r: seq<string>, a: map<string, string>, r': seq<string>, a': map<string, string>)
    requires Family(r, a) && Family(r', a')
    ensures Family(r + r', a' + a)
  {
  }

  lemma AliasesJoin(r: seq<string>, a: map<string, string>, a': map<string, string>)
    requires Family(r, a) && Family(r, a')
    ensures Family(r, a + a')
  {
  }

  /** A family plus plain short names is a coherent catalog. */
  lemma FamilyIsValid(c: Catalog)
    requires Family(c.hardcoded, c.aliases)
    requires forall s | s in c.defaults || s in c.fields :: Plain(s)
    requires forall s | s in c.defaults || s in c.fields :: 0 < |s| < 15
    requires forall s | s in c.defaults || s in c.fields :: !AliasShaped(s)
    requires forall s | s in c.viewOnly :: s in c.hardcoded
    ensures c.Valid()
  {
    forall s | c.Allowed(s) ensures s != "" && IsNormal(s) { PlainIsNormal(s); }
    forall a | a in c.aliases ensures IsNormal(a) { PlainIsNormal(a); }
  }

  lemma DrawingPlain()
    ensures forall s | s in DRAWING_RESOURCES :: Plain(s)
  {}

  lemma DrawingShaped()
    ensures forall s | s in DRAWING_RESOURCES :: TaskShaped(s)
  {}

  lemma DrawingAliases()
    ensures forall a | a in DRAWING_ALIASES :: AliasShaped(a) && DRAWING_ALIASES[a] in DRAWING_RESOURCES
  {}

  lemma DrawingAliasesPlain()
    ensures forall a | a in DRAWING_ALIASES :: Plain(a)
  {}

  lemma DrawingFamily()
    ensures Family(DRAWING_RESOURCES, DRAWING_ALIASES)
  {
    DrawingPlain(); DrawingShaped(); DrawingAliases(); DrawingAliasesPlain();
    FamilyIf(DRAWING_RESOURCES, DRAWING_ALIASES);
  }

  lemma BillOfMaterialPlain()
    ensures forall s | s in BILL_OF_MATERIAL_RESOURCES :: Plain(s)
  {}

  lemma BillOfMaterialShaped()
    ensures forall s | s in BILL_OF_MATERIAL_RESOURCES :: TaskShaped(s)
  {}

  lemma BillOfMaterialRegisterAliases()
    ensures forall a | a in BILL_OF_MATERIAL_REGISTER_ALIASES ::
              AliasShaped(a) && BILL_OF_MATERIAL_REGISTER_ALIASES[a] in BILL_OF_MATERIAL_RESOURCES
  {}

  lemma BillOfMaterialRegisterAliasesPlain()
    ensures forall a | a in BILL_OF_MATERIAL_REGISTER_ALIASES :: Plain(a)
  {}

  lemma BillOfMaterialRegisterFamily()
    ensures Family(BILL_OF_MATERIAL_RESOURCES, BILL_OF_MATERIAL_REGISTER_ALIASES)
  {
    BillOfMaterialPlain(); BillOfMaterialShaped(); BillOfMaterialRegisterAliases(); BillOfMaterialRegisterAliasesPlain();
    FamilyIf(BILL_OF_MATERIAL_RESOURCES, BILL_OF_MATERIAL_REGISTER_ALIASES);
  }

  lemma BillOfMaterialFolderAliases()
    ensures forall a | a in BILL_OF_MATERIAL_FOLDER_ALIASES ::
              AliasShaped(a) && BILL_OF_MATERIAL_FOLDER_ALIASES[a] in BILL_OF_MATERIAL_RESOURCES
  {}

  lemma BillOfMaterialFolderAliasesPlain()
    ensures forall a | a in BILL_OF_MATERIAL_FOLDER_ALIASES :: Plain(a)
  {}

  lemma BillOfMaterialFolderFamily()
    ensures Family(BILL_OF_MATERIAL_RESOURCES, BILL_OF_MATERIAL_FOLDER_ALIASES)
  {
    BillOfMaterialPlain(); BillOfMaterialShaped(); BillOfMaterialFolderAliases(); BillOfMaterialFolderAliasesPlain();
    FamilyIf(BILL_OF_MATERIAL_RESOURCES, BILL_OF_MATERIAL_FOLDER_ALIASES);
  }

  lemma BillOfMaterialsFoldersAliases()
    ensures forall a | a in BILL_OF_MATERIALS_FOLDERS_ALIASES ::
              AliasShaped(a) && BILL_OF_MATERIALS_FOLDERS_ALIASES[a] in BILL_OF_MATERIAL_RESOURCES
  {}

  lemma BillOfMaterialsFoldersAliasesPlain()
    ensures forall a | a in BILL_OF_MATERIALS_FOLDERS_ALIASES :: Plain(a)
  {}

  lemma BillOfMaterialsFoldersFamily()
    ensures Family(BILL_OF_MATERIAL_RESOURCES, BILL_OF_MATERIALS_FOLDERS_ALIASES)
  {
    BillOfMaterialPlain(); BillOfMaterialShaped(); BillOfMaterialsFoldersAliases(); BillOfMaterialsFoldersAliasesPlain();
    FamilyIf(BILL_OF_MATERIAL_RESOURCES, BILL_OF_MATERIALS_FOLDERS_ALIASES);
  }

  lemma BillOfMaterialTrackAliases()
    ensures forall a | a in BILL_OF_MATERIAL_TRACK_ALIASES ::
              AliasShaped(a) && BILL_OF_MATERIAL_TRACK_ALIASES[a] in BILL_OF_MATERIAL_RESOURCES
  {}

  lemma BillOfMaterialTrackAliasesPlain()
    ensures forall a | a in BILL_OF_MATERIAL_TRACK_ALIASES :: Plain(a)
  {}

  lemma BillOfMaterialTrackFamily()
    ensures Family(BILL_OF_MATERIAL_RESOURCES, BILL_OF_MATERIAL_TRACK_ALIASES)
  {
    BillOfMaterialPlain(); BillOfMaterialShaped(); BillOfMaterialTrackAliases(); BillOfMaterialTrackAliasesPlain();
    FamilyIf(BILL_OF_MATERIAL_RESOURCES, BILL_OF_MATERIAL_TRACK_ALIASES);
  }

  lemma BillOfMaterialFamily()
    ensures Family(BILL_OF_MATERIAL_RESOURCES, BILL_OF_MATERIAL_ALIASES)
  {
    BillOfMaterialRegisterFamily(); BillOfMaterialFolderFamily(); BillOfMaterialsFoldersFamily(); BillOfMaterialTrackFamily();
    AliasesJoin(BILL_OF_MATERIAL_RESOURCES, BILL_OF_MATERIAL_REGISTER_ALIASES, BILL_OF_MATERIAL_FOLDER_ALIASES);
    AliasesJoin(BILL_OF_MATERIAL_RESOURCES, BILL_OF_MATERIAL_REGISTER_ALIASES + BILL_OF_MATERIAL_FOLDER_ALIASES,
        BILL_OF_MATERIALS_FOLDERS_ALIASES);
    AliasesJoin(BILL_OF_MATERIAL_RESOURCES,
        BILL_OF_MATERIAL_REGISTER_ALIASES + BILL_OF_MATERIAL_FOLDER_ALIASES + BILL_OF_MATERIALS_FOLDERS_ALIASES,
        BILL_OF_MATERIAL_TRACK_ALIASES);
  }

  lemma MivMinPlain()
    ensures forall s | s in MIV_MIN_RESOURCES :: Plain(s)
  {}

  lemma MivMinShaped()
    ensures forall s | s in MIV_MIN_RESOURCES :: TaskShaped(s)
  {}

  lemma MivMinFolderAliases()
    ensures forall a | a in MIV_MIN_FOLDER_ALIASES :: AliasShaped(a) && MIV_MIN_FOLDER_ALIASES[a] in MIV_MIN_RESOURCES
  {}

  lemma MivMinFolderAliasesPlain()
    ensures forall a | a in MIV_MIN_FOLDER_ALIASES :: Plain(a)
  {}

  lemma MivMinFolderFamily()
    ensures Family(MIV_MIN_RESOURCES, MIV_MIN_FOLDER_ALIASES)
  {
    MivMinPlain(); MivMinShaped(); MivMinFolderAliases(); MivMinFolderAliasesPlain();
    FamilyIf(MIV_MIN_RESOURCES, MIV_MIN_FOLDER_ALIASES);
  }

  lemma MinMivPdfAliases()
    ensures forall a | a in MIN_MIV_PDF_ALIASES :: AliasShaped(a) && MIN_MIV_PDF_ALIASES[a] in MIV_MIN_RESOURCES
  {}

  lemma MinMivPdfAliasesPlain()
    ensures forall a | a in MIN_MIV_PDF_ALIASES :: Plain(a)
  {}

  lemma MinMivPdfFamily()
    ensures Family(MIV_MIN_RESOURCES, MIN_MIV_PDF_ALIASES)
  {
    MivMinPlain(); MivMinShaped(); MinMivPdfAliases(); MinMivPdfAliasesPlain();
    FamilyIf(MIV_MIN_RESOURCES, MIN_MIV_PDF_ALIASES);
  }

  lemma MivMinRegisterAliases()
    ensures forall a | a in MIV_MIN_REGISTER_ALIASES :: AliasShaped(a) && MIV_MIN_REGISTER_ALIASES[a] in MIV_MIN_RESOURCES
  {}

  lemma MivMinRegisterAliasesPlain()
    ensures forall a | a in MIV_MIN_REGISTER_ALIASES :: Plain(a)
  {}

  lemma MivMinRegisterFamily()
    ensures Family(MIV_MIN_RESOURCES, MIV_MIN_REGISTER_ALIASES)
  {
    MivMinPlain(); MivMinShaped(); MivMinRegisterAliases(); MivMinRegisterAliasesPlain();
    FamilyIf(MIV_MIN_RESOURCES, MIV_MIN_REGISTER_ALIASES);
  }

  lemma MivMinFamily()
    ensures Family(MIV_MIN_RESOURCES, MIV_MIN_ALIASES)
  {
    MivMinFolderFamily(); MinMivPdfFamily(); MivMinRegisterFamily();
    AliasesJoin(MIV_MIN_RESOURCES, MIV_MIN_FOLDER_ALIASES, MIN_MIV_PDF_ALIASES);
    AliasesJoin(MIV_MIN_RESOURCES, MIV_MIN_FOLDER_ALIASES + MIN_MIV_PDF_ALIASES, MIV_MIN_REGISTER_ALIASES);
  }

  lemma ChallanPlain()
    ensures forall s | s in CHALLAN_RESOURCES :: Plain(s)
  {}

  lemma ChallanShaped()
    ensures forall s | s in CHALLAN_RESOURCES :: TaskShaped(s)
  {}

  lemma ChallanFolderAliases()
    ensures forall a | a in CHALLAN_FOLDER_ALIASES :: AliasShaped(a) && CHALLAN_FOLDER_ALIASES[a] in CHALLAN_RESOURCES
  {}

  lemma ChallanFolderAliasesPlain()
    ensures forall a | a in CHALLAN_FOLDER_ALIASES :: Plain(a)
  {}

  lemma ChallanFolderFamily()
    ensures Family(CHALLAN_RESOURCES, CHALLAN_FOLDER_ALIASES)
  {
    ChallanPlain(); ChallanShaped(); ChallanFolderAliases(); ChallanFolderAliasesPlain();
    FamilyIf(CHALLAN_RESOURCES, CHALLAN_FOLDER_ALIASES);
  }

  lemma ChallanPdfAliases()
    ensures forall a | a in CHALLAN_PDF_ALIASES :: AliasShaped(a) && CHALLAN_PDF_ALIASES[a] in CHALLAN_RESOURCES
  {}

  lemma ChallanPdfAliasesPlain()
    ensures forall a | a in CHALLAN_PDF_ALIASES :: Plain(a)
  {}

  lemma ChallanPdfFamily()
    ensures Family(CHALLAN_RESOURCES, CHALLAN_PDF_ALIASES)
  {
    ChallanPlain(); ChallanShaped(); ChallanPdfAliases(); ChallanPdfAliasesPlain();
    FamilyIf(CHALLAN_RESOURCES, CHALLAN_PDF_ALIASES);
  }

  lemma ChallanRegisterAliases()
    ensures forall a | a in CHALLAN_REGISTER_ALIASES :: AliasShaped(a) && CHALLAN_REGISTER_ALIASES[a] in CHALLAN_RESOURCES
  {}

  lemma ChallanRegisterAliasesPlain()
    ensures forall a | a in CHALLAN_REGISTER_ALIASES :: Plain(a)
  {}

  lemma ChallanRegisterFamily()
    ensures Family(CHALLAN_RESOURCES, CHALLAN_REGISTER_ALIASES)
  {
    ChallanPlain(); ChallanShaped(); ChallanRegisterAliases(); ChallanRegisterAliasesPlain();
    FamilyIf(CHALLAN_RESOURCES, CHALLAN_REGISTER_ALIASES);
  }

  lemma ChallanFamily()
    ensures Family(CHALLAN_RESOURCES, CHALLAN_ALIASES)
  {
    ChallanFolderFamily(); ChallanPdfFamily(); ChallanRegisterFamily();
    AliasesJoin(CHALLAN_RESOURCES, CHALLAN_FOLDER_ALIASES, CHALLAN_PDF_ALIASES);
    AliasesJoin(CHALLAN_RESOURCES, CHALLAN_FOLDER_ALIASES + CHALLAN_PDF_ALIASES, CHALLAN_REGISTER_ALIASES);
  }

  lemma SchedulePlain()
    ensures forall s | s in SCHEDULE_RESOURCES :: Plain(s)
  {}

  lemma ScheduleShaped()
    ensures forall s | s in SCHEDULE_RESOURCES :: TaskShaped(s)
  {}

  lemma ScheduleFolderAliases()
    ensures forall a | a in SCHEDULE_FOLDER_ALIASES :: AliasShaped(a) && SCHEDULE_FOLDER_ALIASES[a] in SCHEDULE_RESOURCES
  {}

  lemma ScheduleFolderAliasesPlain()
    ensures forall a | a in SCHEDULE_FOLDER_ALIASES :: Plain(a)
  {}

  lemma ScheduleFolderFamily()
    ensures Family(SCHEDULE_RESOURCES, SCHEDULE_FOLDER_ALIASES)
  {
    SchedulePlain(); ScheduleShaped(); ScheduleFolderAliases(); ScheduleFolderAliasesPlain();
    FamilyIf(SCHEDULE_RESOURCES, SCHEDULE_FOLDER_ALIASES);
  }

  lemma L3ScheduleAliases()
    ensures forall a | a in L3_SCHEDULE_ALIASES :: AliasShaped(a) && L3_SCHEDULE_ALIASES[a] in SCHEDULE_RESOURCES
  {}

  lemma L3ScheduleAliasesPlain()
    ensures forall a | a in L3_SCHEDULE_ALIASES :: Plain(a)
  {}

  lemma L3ScheduleFamily()
    ensures Family(SCHEDULE_RESOURCES, L3_SCHEDULE_ALIASES)
  {
    SchedulePlain(); ScheduleShaped(); L3ScheduleAliases(); L3ScheduleAliasesPlain();
    FamilyIf(SCHEDULE_RESOURCES, L3_SCHEDULE_ALIASES);
  }

  lemma ScheduleFamily()
    ensures Family(SCHEDULE_RESOURCES, SCHEDULE_ALIASES)
  {
    ScheduleFolderFamily(); L3ScheduleFamily();
    AliasesJoin(SCHEDULE_RESOURCES, SCHEDULE_FOLDER_ALIASES, L3_SCHEDULE_ALIASES);
  }

  lemma LhsPlain()
    ensures forall s | s in LHS_RESOURCES :: Plain(s)
  {}

  lemma LhsShaped()
    ensures forall s | s in LHS_RESOURCES :: TaskShaped(s)
  {}

  lemma LineHistorySheetFolderAliases()
    ensures forall a | a in LINE_HISTORY_SHEET_FOLDER_ALIASES ::
              AliasShaped(a) && LINE_HISTORY_SHEET_FOLDER_ALIASES[a] in LHS_RESOURCES
  {}

  lemma LineHistorySheetFolderAliasesPlain()
    ensures forall a | a in LINE_HISTORY_SHEET_FOLDER_ALIASES :: Plain(a)
  {}

  lemma LineHistorySheetFolderFamily()
    ensures Family(LHS_RESOURCES, LINE_HISTORY_SHEET_FOLDER_ALIASES)
  {
    LhsPlain(); LhsShaped(); LineHistorySheetFolderAliases(); LineHistorySheetFolderAliasesPlain();
    FamilyIf(LHS_RESOURCES, LINE_HISTORY_SHEET_FOLDER_ALIASES);
  }

  lemma LineHistorySheetFoldersAliases()
    ensures forall a | a in LINE_HISTORY_SHEET_FOLDERS_ALIASES ::
              AliasShaped(a) && LINE_HISTORY_SHEET_FOLDERS_ALIASES[a] in LHS_RESOURCES
  {}

  lemma LineHistorySheetFoldersAliasesPlain()
    ensures forall a | a in LINE_HISTORY_SHEET_FOLDERS_ALIASES :: Plain(a)
  {}

  lemma LineHistorySheetFoldersFamily()
    ensures Family(LHS_RESOURCES, LINE_HISTORY_SHEET_FOLDERS_ALIASES)
  {
    LhsPlain(); LhsShaped(); LineHistorySheetFoldersAliases(); LineHistorySheetFoldersAliasesPlain();
    FamilyIf(LHS_RESOURCES, LINE_HISTORY_SHEET_FOLDERS_ALIASES);
  }

  lemma LhsFolderAliases()
    ensures forall a | a in LHS_FOLDER_ALIASES :: AliasShaped(a) && LHS_FOLDER_ALIASES[a] in LHS_RESOURCES
  {}

  lemma LhsFolderAliasesPlain()
    ensures forall a | a in LHS_FOLDER_ALIASES :: Plain(a)
  {}

  lemma LhsFolderFamily()
    ensures Family(LHS_RESOURCES, LHS_FOLDER_ALIASES)
  {
    LhsPlain(); LhsShaped(); LhsFolderAliases(); LhsFolderAliasesPlain();
    FamilyIf(LHS_RESOURCES, LHS_FOLDER_ALIASES);
  }

  lemma LhsFamily()
    ensures Family(LHS_RESOURCES, LHS_ALIASES)
  {
    LineHistorySheetFolderFamily(); LineHistorySheetFoldersFamily(); LhsFolderFamily();
    AliasesJoin(LHS_RESOURCES, LINE_HISTORY_SHEET_FOLDER_ALIASES, LINE_HISTORY_SHEET_FOLDERS_ALIASES);
    AliasesJoin(LHS_RESOURCES, LINE_HISTORY_SHEET_FOLDER_ALIASES + LINE_HISTORY_SHEET_FOLDERS_ALIASES, LHS_FOLDER_ALIASES);
  }

  lemma DefaultsPlain()
    ensures forall s | s in DEFAULT_RESOURCES :: Plain(s)
  {}

  lemma FieldsPlain()
    ensures forall s | s in FIELD_RESOURCES :: Plain(s)
  {}

  lemma DefaultsShort()
    ensures forall s | s in DEFAULT_RESOURCES || s in FIELD_RESOURCES :: 0 < |s| < 15
  {}

  lemma DefaultsUnshaped()
    ensures forall s | s in DEFAULT_RESOURCES || s in FIELD_RESOURCES :: !AliasShaped(s)
  {}

  lemma ViewOnlyAreTasks()
    ensures forall s | s in ROOEEL.viewOnly :: s in ROOEEL.hardcoded
  {}

  lemma RooeelFamily()
    ensures Family(ROOEEL.hardcoded, ROOEEL.aliases)
  {
    DrawingFamily(); BillOfMaterialFamily(); MivMinFamily(); ChallanFamily(); ScheduleFamily(); LhsFamily();
    var r, a := DRAWING_RESOURCES, DRAWING_ALIASES;
    FamiliesJoin(r, a, BILL_OF_MATERIAL_RESOURCES, BILL_OF_MATERIAL_ALIASES);
    r, a := r + BILL_OF_MATERIAL_RESOURCES, BILL_OF_MATERIAL_ALIASES + a;
    FamiliesJoin(r, a, MIV_MIN_RESOURCES, MIV_MIN_ALIASES);
    r, a := r + MIV_MIN_RESOURCES, MIV_MIN_ALIASES + a;
    FamiliesJoin(r, a, CHALLAN_RESOURCES, CHALLAN_ALIASES);
    r, a := r + CHALLAN_RESOURCES, CHALLAN_ALIASES + a;
    FamiliesJoin(r, a, SCHEDULE_RESOURCES, SCHEDULE_ALIASES);
    r, a := r + SCHEDULE_RESOURCES, SCHEDULE_ALIASES + a;
    FamiliesJoin(r, a, LHS_RESOURCES, LHS_ALIASES);
  }

  /** The tables in the source are coherent, so everything proved of a valid catalog holds of the service. */
  lemma RooeelIsValid()
    ensures ROOEEL.Valid()
  {
    DefaultsPlain();
    FieldsPlain();
    DefaultsShort();
    DefaultsUnshaped();
    ViewOnlyAreTasks();
    RooeelFamily();
    FamilyIsValid(ROOEEL);
  }

  lemma ViewFoldersIsAlias()
    ensures "VIEW_FOLDERS" in ROOEEL.aliases && ROOEEL.aliases["VIEW_FOLDERS"] == "DRAWING_VIEW_FOLDERS"
  {
    hide BILL_OF_MATERIAL_ALIASES, MIV_MIN_ALIASES, CHALLAN_ALIASES, SCHEDULE_ALIASES, LHS_ALIASES;
    assert DRAWING_ALIASES["VIEW_FOLDERS"] == "DRAWING_VIEW_FOLDERS";
  }

  /** For the service as it is: the old name of the drawing folders, in any spelling, resolves to the task's name. */
  lemma ViewFoldersResolves(s: string)
    requires Spells(s, "VIEW_FOLDERS")
    ensures NormalizePolicyResource(ROOEEL, s) == "DRAWING_VIEW_FOLDERS" && ROOEEL.Allowed("DRAWING_VIEW_FOLDERS")
  {
    RooeelIsValid();
    ViewFoldersIsAlias();
    hide ROOEEL, NormalizePolicyResource, IsNormal, Spells;
    NormalizePolicyResourceMeaning(ROOEEL, s, "VIEW_FOLDERS");
  }
}

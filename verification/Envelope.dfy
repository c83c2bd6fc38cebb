/** `packages/browser-core/src/migrate.ts` and the builders of `packages/browser-core/src/repository.ts`:
    the stored envelope as a JSON value, how it is read back, and what each call makes of it.

    `packages/schema` is not part of this model: validation, the migration of version-1 projects and
    the control-character test are parameters, with `Lawful` saying what validation promises. */
module Envelope {
  import opened Options

  const MAX_PROJECTS: nat := 64
  const MAX_ID_LENGTH: nat := 64
  const MAX_LABEL_LENGTH: nat := 100
  const MAX_MOCK_FILE_PATH_LENGTH: nat := 2048
  const MAX_SAFE_INTEGER: int := 9007199254740991

  /** A plain value; `NotFinite` stands for NaN and the infinities. */
  datatype Json =
    | Undefined
    | Null
    | Bool(b: bool)
    | Num(n: real)
    | NotFinite
    | Str(s: string)
    | Arr(items: seq<Json>)
    | Obj(fields: map<string, Json>)

  datatype StoredProject = StoredProject(
    id: string,
    name: string,
    data: Json,
    revision: int,
    createdAt: real,
    updatedAt: real,
    enabledGroupIds: seq<string>,
    mockFileRoot: Option<string>)

  datatype Env = Env(projects: map<string, StoredProject>, activeProjectId: Option<string>)

  const EmptyEnv := Env(map[], None)

  datatype Schema = Schema(
    validate: Json -> Option<Json>,
    migrateV1: Json -> Option<Json>,
    control: char -> bool)

  // ----- reading values

  function Field(v: Json, key: string): Json {
    if v.Obj? && key in v.fields then v.fields[key] else Undefined
  }

  predicate GoodId(s: string) { 0 < |s| <= MAX_ID_LENGTH }

  predicate GoodLabel(s: string) { 0 < |s| <= MAX_LABEL_LENGTH }

  predicate IsSafeRevision(v: Json) {
    v.Num? && v.n == v.n.Floor as real && 1 <= v.n.Floor <= MAX_SAFE_INTEGER
  }

  predicate NoDuplicates(ids: seq<string>) {
    forall i, j :: 0 <= i < j < |ids| ==> ids[i] != ids[j]
  }

  predicate IsGroupIdList(v: Json) {
    v.Arr? && forall i :: 0 <= i < |v.items| ==> v.items[i].Str? && GoodId(v.items[i].s)
  }

  function Strings(v: Json): (r: seq<string>)
    requires IsGroupIdList(v)
  {
    seq(|v.items|, i requires 0 <= i < |v.items| => v.items[i].s)
  }

  predicate IsLetter(c: char) { 'a' <= c <= 'z' || 'A' <= c <= 'Z' }

  predicate IsAbsoluteMockFileRoot(s: string) {
    || (|s| > 0 && s[0] == '/' && !(|s| > 1 && s[1] == '/'))
    || (|s| > 2 && IsLetter(s[0]) && s[1] == ':' && (s[2] == '\\' || s[2] == '/'))
  }

  predicate HasControl(sch: Schema, s: string) {
    exists k :: 0 <= k < |s| && sch.control(s[k])
  }

  datatype RootResult = BadRoot | GoodRoot(root: Option<string>)

  function NormalizeMockFileRoot(sch: Schema, v: Json): RootResult {
    if v.Undefined? || v.Null? || v == Str("") then GoodRoot(None)
    else if !v.Str? then BadRoot
    else if |v.s| > MAX_MOCK_FILE_PATH_LENGTH || HasControl(sch, v.s) then BadRoot
    else if !IsAbsoluteMockFileRoot(v.s) then GoodRoot(None)
    else GoodRoot(Some(v.s))
  }

  function MigrateProjectData(sch: Schema, data: Json): Option<Json> {
    if !data.Obj? then None
    else if Field(data, "version") == Num(2.0) then Some(data)
    else if Field(data, "version") == Num(1.0) then sch.migrateV1(data)
    else None
  }

  function ValidateStoredProject(sch: Schema, id: string, v: Json): Option<StoredProject> {
    if !v.Obj? || Field(v, "id") != Str(id) || !GoodId(id) then None
    else
      var name, revision := Field(v, "name"), Field(v, "revision");
      var createdAt, updatedAt := Field(v, "createdAt"), Field(v, "updatedAt");
      var groupIds := Field(v, "enabledGroupIds");
      var data := MigrateProjectData(sch, Field(v, "data"));
      if !name.Str? || !GoodLabel(name.s) || data.None? || !IsSafeRevision(revision)
         || !createdAt.Num? || !updatedAt.Num? || !IsGroupIdList(groupIds) || !NoDuplicates(Strings(groupIds))
      then None
      else
        var stored := NormalizeMockFileRoot(sch, Field(v, "mockFileRoot"));
        Some(StoredProject(id, name.s, data.value, revision.n.Floor, createdAt.n, updatedAt.n,
                           Strings(groupIds), if stored.GoodRoot? then stored.root else None))
  }

  function MigrateEnvelope(sch: Schema, raw: Json): Option<Env> {
    if raw.Undefined? then Some(EmptyEnv)
    else if !raw.Obj? then None
    else if Field(raw, "version") != Num(2.0) && Field(raw, "version") != Num(1.0) then None
    else if !Field(raw, "projects").Obj? then None
    else
      var stored := Field(raw, "projects").fields;
      var active := Field(raw, "activeProjectId");
      if exists key :: key in stored && ValidateStoredProject(sch, key, stored[key]).None? then None
      else if !active.Null? && !active.Str? then None
      else if active.Str? && active.s !in stored then None
      else Some(Env(map key | key in stored :: ValidateStoredProject(sch, key, stored[key]).value,
                    if active.Str? then Some(active.s) else None))
  }

  // ----- writing values

  function EncodeStrings(ids: seq<string>): Json {
    Arr(seq(|ids|, i requires 0 <= i < |ids| => Str(ids[i])))
  }

  function EncodeProject(p: StoredProject): Json {
    var base := map[
      "id" := Str(p.id), "name" := Str(p.name), "data" := p.data, "revision" := Num(p.revision as real),
      "createdAt" := Num(p.createdAt), "updatedAt" := Num(p.updatedAt),
      "enabledGroupIds" := EncodeStrings(p.enabledGroupIds)];
    Obj(if p.mockFileRoot.Some? then base["mockFileRoot" := Str(p.mockFileRoot.value)] else base)
  }

  function EncodeProjects(projects: map<string, StoredProject>): map<string, Json> {
    map key | key in projects :: EncodeProject(projects[key])
  }

  function EncodeEnvelope(e: Env): Json {
    Obj(map[
      "version" := Num(2.0),
      "projects" := Obj(EncodeProjects(e.projects)),
      "activeProjectId" := if e.activeProjectId.Some? then Str(e.activeProjectId.value) else Null])
  }

  // ----- what a stored envelope keeps

  predicate StorableRoot(sch: Schema, root: Option<string>) {
    root.Some? ==>
      root.value != "" && |root.value| <= MAX_MOCK_FILE_PATH_LENGTH
      && !HasControl(sch, root.value) && IsAbsoluteMockFileRoot(root.value)
  }

  predicate Storable(sch: Schema, id: string, p: StoredProject) {
    && p.id == id && GoodId(id) && GoodLabel(p.name)
    && p.data.Obj? && Field(p.data, "version") == Num(2.0)
    && 1 <= p.revision <= MAX_SAFE_INTEGER
    && NoDuplicates(p.enabledGroupIds) && (forall i :: 0 <= i < |p.enabledGroupIds| ==> GoodId(p.enabledGroupIds[i]))
    && StorableRoot(sch, p.mockFileRoot)
  }

  ghost predicate StorableEnv(sch: Schema, e: Env) {
    && (forall id :: id in e.projects ==> Storable(sch, id, e.projects[id]))
    && (e.activeProjectId.Some? ==> e.activeProjectId.value in e.projects)
  }

  lemma ProjectFields(p: StoredProject)
    ensures var v := EncodeProject(p);
            && v.Obj? && Field(v, "id") == Str(p.id) && Field(v, "name") == Str(p.name)
            && Field(v, "data") == p.data && Field(v, "revision") == Num(p.revision as real)
            && Field(v, "createdAt") == Num(p.createdAt) && Field(v, "updatedAt") == Num(p.updatedAt)
            && Field(v, "enabledGroupIds") == EncodeStrings(p.enabledGroupIds)
            && Field(v, "mockFileRoot") == if p.mockFileRoot.Some? then Str(p.mockFileRoot.value) else Undefined
  {
    hide EncodeStrings;
  }

  lemma StringsReadBack(ids: seq<string>)
    requires forall i :: 0 <= i < |ids| ==> GoodId(ids[i])
    ensures IsGroupIdList(EncodeStrings(ids)) && Strings(EncodeStrings(ids)) == ids
  {
  }

  lemma ProjectReadBack(sch: Schema, id: string, p: StoredProject)
    requires Storable(sch, id, p)
    ensures ValidateStoredProject(sch, id, EncodeProject(p)) == Some(p)
  {
    hide EncodeProject, Field, EncodeStrings, IsGroupIdList;
    ProjectFields(p);
    StringsReadBack(p.enabledGroupIds);
    assert (p.revision as real).Floor == p.revision;
  }

  lemma EnvelopeFields(e: Env)
    ensures var raw := EncodeEnvelope(e);
            && raw.Obj? && Field(raw, "version") == Num(2.0)
            && Field(raw, "projects") == Obj(EncodeProjects(e.projects))
            && Field(raw, "activeProjectId") == if e.activeProjectId.Some? then Str(e.activeProjectId.value) else Null
  {
    hide EncodeProject;
  }

  /** What is written is read back unchanged. */
  lemma EnvelopeReadBack(sch: Schema, e: Env)
    requires StorableEnv(sch, e)
    ensures MigrateEnvelope(sch, EncodeEnvelope(e)) == Some(e)
  {
    hide EncodeEnvelope, EncodeProject, ValidateStoredProject, Storable, Field;
    EnvelopeFields(e);
    var stored := EncodeProjects(e.projects);
    forall key | key in stored ensures ValidateStoredProject(sch, key, stored[key]) == Some(e.projects[key]) {
      ProjectReadBack(sch, key, e.projects[key]);
    }
    assert (map key | key in stored :: ValidateStoredProject(sch, key, stored[key]).value) == e.projects;
  }

  /** A written envelope is readable only if every project id in it is within bounds. */
  lemma ReadableOnlyIfGoodIds(sch: Schema, e: Env, id: string)
    requires id in e.projects
    requires MigrateEnvelope(sch, EncodeEnvelope(e)).Some?
    ensures GoodId(id)
  {
    hide EncodeEnvelope, EncodeProject, Field;
    EnvelopeFields(e);
    var stored := EncodeProjects(e.projects);
    assert id in stored && ValidateStoredProject(sch, id, stored[id]).Some?;
  }

  /** A migrated version-1 project is a version-2 project. */
  ghost predicate LawfulMigration(sch: Schema) {
    forall d: Json :: sch.migrateV1(d).Some? ==>
      sch.migrateV1(d).value.Obj? && Field(sch.migrateV1(d).value, "version") == Num(2.0)
  }

  lemma ValidatedIsStorable(sch: Schema, id: string, v: Json)
    requires LawfulMigration(sch) && ValidateStoredProject(sch, id, v).Some?
    ensures Storable(sch, id, ValidateStoredProject(sch, id, v).value)
  {
    hide Field;
  }

  /** Reading is a normal form: whatever was accepted, written back it is read the same again. */
  lemma ReadingIsStable(sch: Schema, raw: Json)
    requires LawfulMigration(sch) && MigrateEnvelope(sch, raw).Some?
    ensures StorableEnv(sch, MigrateEnvelope(sch, raw).value)
    ensures MigrateEnvelope(sch, EncodeEnvelope(MigrateEnvelope(sch, raw).value)) == MigrateEnvelope(sch, raw)
  {
    hide Storable, ValidateStoredProject, EncodeEnvelope;
    var e := MigrateEnvelope(sch, raw).value;
    forall id | id in e.projects ensures Storable(sch, id, e.projects[id]) {
      ValidatedIsStorable(sch, id, Field(raw, "projects").fields[id]);
    }
    EnvelopeReadBack(sch, e);
  }

  // ----- what a stored value is read as

  /** The stored record `v` under `id` is read as `p`, field by field. */
  ghost predicate ProjectReadsAs(sch: Schema, id: string, v: Json, p: StoredProject) {
    && v.Obj? && p.id == id && Field(v, "id") == Str(id) && 0 < |id| <= 64
    && Field(v, "name") == Str(p.name) && 0 < |p.name| <= 100
    && DataReadsAs(sch, Field(v, "data"), p.data)
    && Field(v, "revision") == Num(p.revision as real) && 1 <= p.revision <= MAX_SAFE_INTEGER
    && Field(v, "createdAt") == Num(p.createdAt) && Field(v, "updatedAt") == Num(p.updatedAt)
    && GroupsReadAs(Field(v, "enabledGroupIds"), p.enabledGroupIds)
    && (forall root :: p.mockFileRoot == Some(root) <==> Field(v, "mockFileRoot") == Str(root) && FitRoot(sch, root))
  }

  /** Version 2 as it is, version 1 migrated. */
  ghost predicate DataReadsAs(sch: Schema, data: Json, result: Json) {
    data.Obj? && ((Field(data, "version") == Num(2.0) && result == data)
                  || (Field(data, "version") == Num(1.0) && sch.migrateV1(data) == Some(result)))
  }

  ghost predicate GroupsReadAs(v: Json, ids: seq<string>) {
    && v.Arr? && |v.items| == |ids|
    && (forall i :: 0 <= i < |ids| ==> v.items[i] == Str(ids[i]) && 0 < |ids[i]| <= 64)
    && forall i, j :: 0 <= i < j < |ids| ==> ids[i] != ids[j]
  }

  ghost predicate FitRoot(sch: Schema, root: string) {
    && IsAbsoluteMockFileRoot(root) && |root| <= 2048
    && forall k :: 0 <= k < |root| ==> !sch.control(root[k])
  }

  ghost predicate ReadsAs(sch: Schema, raw: Json, e: Env) {
    || (raw == Undefined && e == Env(map[], None))
    || (&& raw.Obj? && (Field(raw, "version") == Num(1.0) || Field(raw, "version") == Num(2.0))
        && Field(raw, "projects").Obj?
        && var stored := Field(raw, "projects").fields;
           && stored.Keys == e.projects.Keys
           && (forall id :: id in stored ==> ProjectReadsAs(sch, id, stored[id], e.projects[id]))
           && (|| (Field(raw, "activeProjectId") == Null && e.activeProjectId == None)
               || exists id :: id in stored && Field(raw, "activeProjectId") == Str(id) && e.activeProjectId == Some(id)))
  }

  lemma DataIsRead(sch: Schema, data: Json, result: Json)
    ensures MigrateProjectData(sch, data) == Some(result) <==> DataReadsAs(sch, data, result)
  {
  }

  lemma GroupsAreRead(v: Json, ids: seq<string>)
    ensures IsGroupIdList(v) && NoDuplicates(Strings(v)) && Strings(v) == ids <==> GroupsReadAs(v, ids)
  {
    if GroupsReadAs(v, ids) {
      assert Strings(v) == ids;
    }
  }

  lemma RevisionIsRead(v: Json, revision: int)
    ensures IsSafeRevision(v) && v.n.Floor == revision <==> v == Num(revision as real) && 1 <= revision <= MAX_SAFE_INTEGER
  {
    assert (revision as real).Floor == revision;
  }

  lemma RootIsRead(sch: Schema, v: Json, root: Option<string>)
    ensures (var read := NormalizeMockFileRoot(sch, v); root == (if read.GoodRoot? then read.root else None)) <==>
            (forall s :: root == Some(s) <==> v == Str(s) && FitRoot(sch, s))
  {
    var read := NormalizeMockFileRoot(sch, v);
    if forall s :: root == Some(s) <==> v == Str(s) && FitRoot(sch, s) {
      if root.Some? {
        assert v == Str(root.value) && FitRoot(sch, root.value);
      } else if v.Str? {
        assert !FitRoot(sch, v.s);
      }
    }
  }

  lemma ProjectIsRead(sch: Schema, id: string, v: Json, p: StoredProject)
    ensures ValidateStoredProject(sch, id, v) == Some(p) <==> ProjectReadsAs(sch, id, v, p)
  {
    hide Field, DataReadsAs, GroupsReadAs, FitRoot, NormalizeMockFileRoot, MigrateProjectData, IsGroupIdList, IsSafeRevision,
         NoDuplicates, Strings;
    DataIsRead(sch, Field(v, "data"), p.data);
    GroupsAreRead(Field(v, "enabledGroupIds"), p.enabledGroupIds);
    RevisionIsRead(Field(v, "revision"), p.revision);
    RootIsRead(sch, Field(v, "mockFileRoot"), p.mockFileRoot);
  }

  /** A stored value is read as an envelope exactly when it says so field by field. */
  lemma EnvelopeIsRead(sch: Schema, raw: Json, e: Env)
    ensures MigrateEnvelope(sch, raw) == Some(e) <==> ReadsAs(sch, raw, e)
  {
    hide Field, ValidateStoredProject, ProjectReadsAs;
    if raw.Obj? && Field(raw, "projects").Obj? {
      var stored := Field(raw, "projects").fields;
      forall id, p: StoredProject | id in stored
        ensures ValidateStoredProject(sch, id, stored[id]) == Some(p) <==> ProjectReadsAs(sch, id, stored[id], p)
      {
        ProjectIsRead(sch, id, stored[id], p);
      }
      if ReadsAs(sch, raw, e) {
        forall id | id in stored ensures ValidateStoredProject(sch, id, stored[id]) == Some(e.projects[id]) {
        }
        assert (map key | key in stored :: ValidateStoredProject(sch, key, stored[key]).value) == e.projects;
      }
      if MigrateEnvelope(sch, raw) == Some(e) {
        forall id | id in stored ensures ValidateStoredProject(sch, id, stored[id]) == Some(e.projects[id]) {
        }
      }
    }
  }
}

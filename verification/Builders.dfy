/** The builders of `packages/browser-core/src/repository.ts`: what one call makes of the envelope it
    reads, as functions of the envelope, the clock and the generated id. */
module Builders {
  import opened Options
  import opened Envelope

  datatype Call =
    | Create(data: Json, id: Option<string>)
    | Import(data: Json, id: Option<string>, expected: Option<int>)
    | Save(projectId: string, data: Json, revision: int)
    | Switch(projectId: string)
    | Remove(projectId: string)
    | SetGroupEnabled(projectId: string, groupId: string, on: bool)
    | SetMockFileRoot(projectId: string, root: Json)

  datatype Code =
    | NotFound | DuplicateName | ProjectLimit | DuplicateId
    | InvalidData | Invariant | StorageCorrupt | StorageConflict

  datatype Value = OfProject(project: StoredProject) | OfEnvelope(envelope: Env)

  datatype Mutation =
    | Commit(next: Env, value: Value)
    | Conflict(current: StoredProject)
    | Failure(code: Code)
    | Throws

  // ----- what validation promises

  predicate ValidData(data: Json) {
    && data.Obj? && Field(data, "version") == Num(2.0)
    && Field(data, "name").Str? && GoodLabel(Field(data, "name").s)
    && Field(data, "groups").Arr?
    && var groups := Field(data, "groups").items;
       forall i :: 0 <= i < |groups| ==>
         groups[i].Obj? && Field(groups[i], "id").Str? && GoodId(Field(groups[i], "id").s)
  }

  ghost predicate Lawful(sch: Schema) {
    forall data: Json :: sch.validate(data).Some? ==> ValidData(sch.validate(data).value)
  }

  predicate HasGroup(data: Json, groupId: string) {
    && Field(data, "groups").Arr?
    && exists i :: 0 <= i < |Field(data, "groups").items| && Field(Field(data, "groups").items[i], "id") == Str(groupId)
  }

  // ----- the builders

  /** `groups.some((group) => group.id === groupId)`; nothing when it throws. */
  function SomeGroup(groups: seq<Json>, groupId: string): Option<bool> {
    if groups == [] then Some(false)
    else if groups[0].Undefined? || groups[0].Null? then None
    else if Field(groups[0], "id") == Str(groupId) then Some(true)
    else SomeGroup(groups[1..], groupId)
  }

  function Without(ids: seq<string>, id: string): (r: seq<string>)
    ensures forall x :: x in r <==> x in ids && x != id
  {
    if ids == [] then [] else (if ids[0] == id then [] else [ids[0]]) + Without(ids[1..], id)
  }

  /** `left < right` on strings. */
  predicate TextLess(left: string, right: string) {
    if right == "" then false
    else if left == "" then true
    else left[0] < right[0] || (left[0] == right[0] && TextLess(left[1..], right[1..]))
  }

  /** The sort order `removeProject` picks the next active project by. */
  predicate SortsBefore(left: StoredProject, right: StoredProject) {
    left.updatedAt > right.updatedAt || (left.updatedAt == right.updatedAt && TextLess(left.id, right.id))
  }

  lemma {:induction false} TextLessTransitive(a: string, b: string, c: string)
    requires TextLess(a, b) && TextLess(b, c)
    ensures TextLess(a, c)
  {
    if a != "" && a[0] == b[0] == c[0] {
      TextLessTransitive(a[1..], b[1..], c[1..]);
    }
  }

  lemma SortsBeforeTransitive(a: StoredProject, b: StoredProject, c: StoredProject)
    requires SortsBefore(a, b) && SortsBefore(b, c)
    ensures SortsBefore(a, c)
  {
    if a.updatedAt == b.updatedAt == c.updatedAt {
      TextLessTransitive(a.id, b.id, c.id);
    }
  }

  ghost predicate SortsFirst(projects: map<string, StoredProject>, id: string) {
    id in projects && forall other :: other in projects ==> !SortsBefore(projects[other], projects[id])
  }

  lemma {:induction false} SomeSortsFirst(projects: map<string, StoredProject>)
    requires projects.Keys != {}
    ensures exists id :: SortsFirst(projects, id)
    decreases |projects|
  {
    var x :| x in projects;
    var rest := projects - {x};
    assert forall other :: other in projects && other != x ==> other in rest && rest[other] == projects[other];
    TextLessIrreflexive(projects[x].id);
    if rest.Keys == {} {
      assert forall other :: other in projects ==> other == x;
      assert SortsFirst(projects, x);
    } else {
      assert |rest.Keys| < |projects.Keys|;
      SomeSortsFirst(rest);
      var y :| SortsFirst(rest, y);
      if SortsBefore(projects[x], projects[y]) {
        forall other | other in projects ensures !SortsBefore(projects[other], projects[x]) {
          if SortsBefore(projects[other], projects[x]) {
            SortsBeforeTransitive(projects[other], projects[x], projects[y]);
          }
        }
        assert SortsFirst(projects, x);
      } else {
        assert SortsFirst(projects, y);
      }
    }
  }

  lemma {:induction false} TextLessIrreflexive(a: string)
    ensures !TextLess(a, a)
  {
    if a != "" {
      TextLessIrreflexive(a[1..]);
    }
  }

  ghost function First(projects: map<string, StoredProject>): (id: string)
    requires projects.Keys != {}
    ensures SortsFirst(projects, id)
  {
    SomeSortsFirst(projects);
    var id :| SortsFirst(projects, id);
    id
  }

  predicate NameTaken(projects: map<string, StoredProject>, name: string) {
    exists id :: id in projects && projects[id].name == name
  }

  ghost function FindByName(projects: map<string, StoredProject>, name: string): (r: Option<string>)
    ensures r.Some? <==> NameTaken(projects, name)
    ensures r.Some? ==> r.value in projects && projects[r.value].name == name
  {
    if NameTaken(projects, name) then
      var id :| id in projects && projects[id].name == name;
      Some(id)
    else None
  }

  function DataName(data: Json): string {
    if Field(data, "name").Str? then Field(data, "name").s else ""
  }

  function Replace(e: Env, p: StoredProject): Env {
    e.(projects := e.projects[p.id := p])
  }

  function BuildCreate(sch: Schema, e: Env, data: Json, id: string, stamp: real): Mutation {
    var validated := sch.validate(data);
    if validated.None? then Failure(InvalidData)
    else if NameTaken(e.projects, DataName(validated.value)) then Failure(DuplicateName)
    else if |e.projects| >= MAX_PROJECTS then Failure(ProjectLimit)
    else if id in e.projects then Failure(DuplicateId)
    else
      var p := StoredProject(id, DataName(validated.value), validated.value, 1, stamp, stamp, [], None);
      Commit(Env(e.projects[id := p], if |e.projects| == 0 then Some(id) else e.activeProjectId), OfProject(p))
  }

  function BuildUpdate(sch: Schema, e: Env, existing: StoredProject, data: Json, expected: Option<int>, stamp: real)
    : Mutation
  {
    var validated := sch.validate(data);
    if expected.Some? && existing.revision != expected.value then Conflict(existing)
    else if validated.None? then Failure(InvalidData)
    else
      var name := DataName(validated.value);
      if name != existing.name
         && exists id :: id in e.projects && e.projects[id].id != existing.id && e.projects[id].name == name
      then Failure(DuplicateName)
      else
        var p := existing.(name := name, data := validated.value, revision := existing.revision + 1,
                           updatedAt := stamp, enabledGroupIds := []);
        Commit(Replace(e, p), OfProject(p))
  }

  ghost function BuildImport(sch: Schema, e: Env, data: Json, id: Option<string>, expected: Option<int>,
                             newId: string, stamp: real): Mutation
  {
    var validated := sch.validate(data);
    if validated.None? then Failure(InvalidData)
    else
      var key := if id.Some? then id else FindByName(e.projects, DataName(validated.value));
      if key.None? then BuildCreate(sch, e, data, newId, stamp)
      else if key.value !in e.projects then BuildCreate(sch, e, data, key.value, stamp)
      else BuildUpdate(sch, e, e.projects[key.value], data, expected, stamp)
  }

  ghost function BuildRemove(e: Env, projectId: string): Mutation {
    if projectId !in e.projects then Failure(NotFound)
    else
      var projects := e.projects - {projectId};
      var active :=
        if e.activeProjectId != Some(projectId) then e.activeProjectId
        else if projects.Keys == {} then None
        else Some(projects[First(projects)].id);
      Commit(Env(projects, active), OfEnvelope(Env(projects, active)))
  }

  function BuildGroupEnabled(e: Env, projectId: string, groupId: string, on: bool, stamp: real): Mutation {
    if projectId !in e.projects then Failure(NotFound)
    else
      var existing := e.projects[projectId];
      var groups := Field(existing.data, "groups");
      var found := if groups.Arr? then SomeGroup(groups.items, groupId) else None;
      if found.None? then Throws
      else if !found.value then Failure(NotFound)
      else
        var ids := existing.enabledGroupIds;
        var p := existing.(
          enabledGroupIds := if !on then Without(ids, groupId) else if groupId in ids then ids else ids + [groupId],
          revision := existing.revision + 1, updatedAt := stamp);
        Commit(Replace(e, p), OfProject(p))
  }

  function BuildMockFileRoot(sch: Schema, e: Env, projectId: string, root: Json, stamp: real): Mutation {
    var normalized := NormalizeMockFileRoot(sch, root);
    if normalized.BadRoot? then Failure(Invariant)
    else if projectId !in e.projects then Failure(NotFound)
    else
      var existing := e.projects[projectId];
      var p := existing.(revision := existing.revision + 1, updatedAt := stamp, mockFileRoot := normalized.root);
      Commit(Replace(e, p), OfProject(p))
  }

  /** What one attempt of `call` makes of the envelope `e`. */
  ghost function Build(sch: Schema, call: Call, e: Env, newId: string, stamp: real): Mutation {
    match call
    case Create(data, id) => BuildCreate(sch, e, data, if id.Some? then id.value else newId, stamp)
    case Import(data, id, expected) => BuildImport(sch, e, data, id, expected, newId, stamp)
    case Save(projectId, data, revision) =>
      if projectId !in e.projects then Failure(NotFound)
      else if e.projects[projectId].revision != revision then Conflict(e.projects[projectId])
      else BuildUpdate(sch, e, e.projects[projectId], data, Some(revision), stamp)
    case Switch(projectId) =>
      if projectId !in e.projects then Failure(NotFound)
      else Commit(e.(activeProjectId := Some(projectId)), OfEnvelope(e.(activeProjectId := Some(projectId))))
    case Remove(projectId) => BuildRemove(e, projectId)
    case SetGroupEnabled(projectId, groupId, on) => BuildGroupEnabled(e, projectId, groupId, on, stamp)
    case SetMockFileRoot(projectId, root) => BuildMockFileRoot(sch, e, projectId, root, stamp)
  }

  /** The checks before the first read; `createProject` checks a generated id here, `importProject`
      checks only an explicit one. */
  predicate Refused(sch: Schema, call: Call, newId: string) {
    match call
    case Create(_, id) => !GoodId(if id.Some? then id.value else newId)
    case Import(_, id, _) => id.Some? && !GoodId(id.value)
    case SetMockFileRoot(_, root) =>
      || (root.Str? && root.s != "" && !IsAbsoluteMockFileRoot(root.s))
      || NormalizeMockFileRoot(sch, root).BadRoot?
    case _ => false
  }

  // ----- what every stored envelope keeps

  ghost predicate ProjectInv(sch: Schema, id: string, p: StoredProject, bound: int) {
    && Storable(sch, id, p)
    && p.revision <= bound
    && ValidData(p.data) && Field(p.data, "name") == Str(p.name)
    && forall g :: g in p.enabledGroupIds ==> HasGroup(p.data, g)
  }

  ghost predicate DistinctNames(projects: map<string, StoredProject>) {
    forall i, j :: i in projects && j in projects && projects[i].name == projects[j].name ==> i == j
  }

  ghost predicate EnvInv(sch: Schema, e: Env, bound: int) {
    && (forall id :: id in e.projects ==> ProjectInv(sch, id, e.projects[id], bound))
    && |e.projects| <= MAX_PROJECTS
    && DistinctNames(e.projects)
    && (e.activeProjectId.None? <==> e.projects.Keys == {})
    && (e.activeProjectId.Some? ==> e.activeProjectId.value in e.projects)
  }

  lemma InvIsStorable(sch: Schema, e: Env, bound: int)
    requires EnvInv(sch, e, bound)
    ensures StorableEnv(sch, e)
  {
  }

  lemma EnvInvGrows(sch: Schema, e: Env, bound: int, wider: int)
    requires EnvInv(sch, e, bound) && bound <= wider
    ensures EnvInv(sch, e, wider)
  {
  }

  lemma AddKeeps(sch: Schema, e: Env, p: StoredProject, bound: int)
    requires EnvInv(sch, e, bound) && p.id !in e.projects && ProjectInv(sch, p.id, p, bound)
    requires |e.projects| < MAX_PROJECTS && !NameTaken(e.projects, p.name)
    ensures EnvInv(sch, Env(e.projects[p.id := p], if |e.projects| == 0 then Some(p.id) else e.activeProjectId), bound)
  {
    hide ProjectInv;
    var projects := e.projects[p.id := p];
    assert p.id in projects;
    assert projects.Keys == e.projects.Keys + {p.id};
    assert |projects.Keys| == |e.projects.Keys| + 1;
    assert |e.projects| == 0 ==> e.projects.Keys == {} by {
      assert |e.projects.Keys| == |e.projects|;
    }
  }

  lemma CreateKeeps(sch: Schema, e: Env, data: Json, id: string, stamp: real, bound: int)
    requires Lawful(sch) && EnvInv(sch, e, bound) && 1 <= bound && GoodId(id)
    requires BuildCreate(sch, e, data, id, stamp).Commit?
    ensures EnvInv(sch, BuildCreate(sch, e, data, id, stamp).next, bound)
  {
    hide ValidData, EnvInv, GoodId, GoodLabel;
    ValidName(sch.validate(data).value);
    AddKeeps(sch, e, BuildCreate(sch, e, data, id, stamp).value.project, bound);
  }

  lemma ValidName(data: Json)
    requires ValidData(data)
    ensures data.Obj? && Field(data, "version") == Num(2.0)
    ensures Field(data, "name") == Str(DataName(data)) && GoodLabel(DataName(data))
  {
  }

  lemma ReplaceDistinct(projects: map<string, StoredProject>, p: StoredProject)
    requires DistinctNames(projects)
    requires forall id :: id in projects && id != p.id ==> projects[id].name != p.name
    ensures DistinctNames(projects[p.id := p])
  {
    var next := projects[p.id := p];
    forall i, j | i in next && j in next && next[i].name == next[j].name ensures i == j {
      assert i != p.id ==> next[i] == projects[i];
      assert j != p.id ==> next[j] == projects[j];
    }
  }

  lemma ReplaceKeeps(sch: Schema, e: Env, p: StoredProject, bound: int)
    requires EnvInv(sch, e, bound) && p.id in e.projects && ProjectInv(sch, p.id, p, bound)
    requires forall id :: id in e.projects && id != p.id ==> e.projects[id].name != p.name
    ensures EnvInv(sch, Replace(e, p), bound)
  {
    hide ProjectInv, DistinctNames;
    var next := Replace(e, p);
    ReplaceDistinct(e.projects, p);
    assert next.projects.Keys == e.projects.Keys;
    assert |next.projects.Keys| == |e.projects.Keys|;
  }

  lemma UpdateKeeps(sch: Schema, e: Env, id: string, data: Json, expected: Option<int>, stamp: real, bound: int)
    requires Lawful(sch) && EnvInv(sch, e, bound) && bound < MAX_SAFE_INTEGER && id in e.projects
    requires BuildUpdate(sch, e, e.projects[id], data, expected, stamp).Commit?
    ensures EnvInv(sch, BuildUpdate(sch, e, e.projects[id], data, expected, stamp).next, bound + 1)
  {
    hide ValidData, IsAbsoluteMockFileRoot, HasControl;
    var p := BuildUpdate(sch, e, e.projects[id], data, expected, stamp).value.project;
    assert ProjectInv(sch, id, e.projects[id], bound);
    ValidName(sch.validate(data).value);
    EnvInvGrows(sch, e, bound, bound + 1);
    forall other | other in e.projects && other != p.id ensures e.projects[other].name != p.name {
      assert ProjectInv(sch, other, e.projects[other], bound);
    }
    ReplaceKeeps(sch, e, p, bound + 1);
  }

  lemma {:induction false} SomeGroupMeans(groups: seq<Json>, groupId: string)
    ensures SomeGroup(groups, groupId) == Some(true) ==>
              exists i :: 0 <= i < |groups| && Field(groups[i], "id") == Str(groupId)
  {
    if groups != [] && SomeGroup(groups, groupId) == Some(true) && Field(groups[0], "id") != Str(groupId) {
      SomeGroupMeans(groups[1..], groupId);
      var i :| 0 <= i < |groups[1..]| && Field(groups[1..][i], "id") == Str(groupId);
      assert groups[i + 1] == groups[1..][i];
    }
  }

  lemma {:induction false} WithoutKeepsDistinct(ids: seq<string>, id: string)
    requires NoDuplicates(ids)
    ensures NoDuplicates(Without(ids, id))
  {
    if ids != [] {
      WithoutKeepsDistinct(ids[1..], id);
      forall k | 0 <= k < |Without(ids[1..], id)| ensures Without(ids[1..], id)[k] != ids[0] {
        assert Without(ids[1..], id)[k] in ids[1..];
      }
    }
  }

  lemma GroupIdGood(data: Json, groupId: string)
    requires ValidData(data) && HasGroup(data, groupId)
    ensures GoodId(groupId)
  {
  }

  /** A change that leaves name and data alone, one revision on. */
  lemma TouchKeeps(sch: Schema, e: Env, id: string, p: StoredProject, bound: int)
    requires EnvInv(sch, e, bound) && bound < MAX_SAFE_INTEGER && id in e.projects
    requires p.id == id && p.name == e.projects[id].name && p.data == e.projects[id].data
    requires p.revision == e.projects[id].revision + 1
    requires NoDuplicates(p.enabledGroupIds) && forall g :: g in p.enabledGroupIds ==> GoodId(g) && HasGroup(p.data, g)
    requires StorableRoot(sch, p.mockFileRoot)
    ensures EnvInv(sch, Replace(e, p), bound + 1)
  {
    hide ValidData, StorableRoot, HasGroup, NoDuplicates, GoodId, GoodLabel, Field;
    assert ProjectInv(sch, id, e.projects[id], bound);
    assert ProjectInv(sch, id, p, bound + 1);
    EnvInvGrows(sch, e, bound, bound + 1);
    ReplaceKeeps(sch, e, p, bound + 1);
  }

  lemma GroupEnabledKeeps(sch: Schema, e: Env, id: string, groupId: string, on: bool, stamp: real, bound: int)
    requires EnvInv(sch, e, bound) && bound < MAX_SAFE_INTEGER
    requires BuildGroupEnabled(e, id, groupId, on, stamp).Commit?
    ensures EnvInv(sch, BuildGroupEnabled(e, id, groupId, on, stamp).next, bound + 1)
  {
    hide ValidData, StorableRoot, GoodId, GoodLabel;
    var existing := e.projects[id];
    var p := BuildGroupEnabled(e, id, groupId, on, stamp).value.project;
    assert ProjectInv(sch, id, existing, bound);
    SomeGroupMeans(Field(existing.data, "groups").items, groupId);
    GroupIdGood(existing.data, groupId);
    WithoutKeepsDistinct(existing.enabledGroupIds, groupId);
    forall g | g in p.enabledGroupIds ensures GoodId(g) && HasGroup(p.data, g) {
      assert g in existing.enabledGroupIds || g == groupId;
    }
    TouchKeeps(sch, e, id, p, bound);
  }

  lemma MockFileRootKeeps(sch: Schema, e: Env, id: string, root: Json, stamp: real, bound: int)
    requires EnvInv(sch, e, bound) && bound < MAX_SAFE_INTEGER
    requires BuildMockFileRoot(sch, e, id, root, stamp).Commit?
    ensures EnvInv(sch, BuildMockFileRoot(sch, e, id, root, stamp).next, bound + 1)
  {
    hide ValidData, HasControl, GoodLabel, GoodId, HasGroup;
    var p := BuildMockFileRoot(sch, e, id, root, stamp).value.project;
    assert ProjectInv(sch, id, e.projects[id], bound);
    NormalizedIsStorable(sch, root);
    TouchKeeps(sch, e, id, p, bound);
  }

  lemma NormalizedIsStorable(sch: Schema, root: Json)
    requires NormalizeMockFileRoot(sch, root).GoodRoot?
    ensures StorableRoot(sch, NormalizeMockFileRoot(sch, root).root)
  {
    hide HasControl, IsAbsoluteMockFileRoot;
  }

  lemma RemoveKeeps(sch: Schema, e: Env, id: string, bound: int)
    requires EnvInv(sch, e, bound) && BuildRemove(e, id).Commit?
    ensures EnvInv(sch, BuildRemove(e, id).next, bound)
  {
    var next := BuildRemove(e, id).next;
    assert next.projects.Keys == e.projects.Keys - {id};
    assert |next.projects.Keys| == |e.projects.Keys| - 1;
    assert forall other :: other in next.projects ==> next.projects[other] == e.projects[other];
    if e.activeProjectId != Some(id) {
      assert e.activeProjectId.value in next.projects;
    }
  }

  /** Every commit keeps the invariant, at most one revision above the old bound, if the generated id
      is one `createProject` would accept. */
  lemma CommitKeeps(sch: Schema, call: Call, e: Env, newId: string, stamp: real, bound: int)
    requires Lawful(sch) && EnvInv(sch, e, bound) && 0 <= bound < MAX_SAFE_INTEGER
    requires !Refused(sch, call, newId) && GoodId(newId)
    requires Build(sch, call, e, newId, stamp).Commit?
    ensures EnvInv(sch, Build(sch, call, e, newId, stamp).next, bound + 1)
  {
    hide EnvInv, BuildCreate, BuildUpdate, BuildRemove, BuildGroupEnabled, BuildMockFileRoot;
    EnvInvGrows(sch, e, bound, bound + 1);
    match call
    case Create(data, id) =>
      CreateKeeps(sch, e, data, if id.Some? then id.value else newId, stamp, bound + 1);
    case Import(data, id, expected) =>
      var key := if id.Some? then id else FindByName(e.projects, DataName(sch.validate(data).value));
      if key.None? {
        CreateKeeps(sch, e, data, newId, stamp, bound + 1);
      } else if key.value !in e.projects {
        CreateKeeps(sch, e, data, key.value, stamp, bound + 1);
      } else {
        UpdateKeeps(sch, e, key.value, data, expected, stamp, bound);
      }
    case Save(projectId, data, revision) => UpdateKeeps(sch, e, projectId, data, Some(revision), stamp, bound);
    case Switch(projectId) => SwitchKeeps(sch, e, projectId, bound + 1);
    case Remove(projectId) =>
      RemoveKeeps(sch, e, projectId, bound + 1);
    case SetGroupEnabled(projectId, groupId, on) => GroupEnabledKeeps(sch, e, projectId, groupId, on, stamp, bound);
    case SetMockFileRoot(projectId, root) => MockFileRootKeeps(sch, e, projectId, root, stamp, bound);
  }

  lemma SwitchKeeps(sch: Schema, e: Env, projectId: string, bound: int)
    requires EnvInv(sch, e, bound) && projectId in e.projects
    ensures EnvInv(sch, e.(activeProjectId := Some(projectId)), bound)
  {
  }

  // ----- revisions

  /** Between two stored envelopes a surviving project is unchanged or one revision further. */
  ghost predicate RevisionsStep(e: Env, next: Env) {
    forall id :: id in e.projects && id in next.projects ==>
      next.projects[id] == e.projects[id] || next.projects[id].revision == e.projects[id].revision + 1
  }

  lemma CommitStepsRevisions(sch: Schema, call: Call, e: Env, newId: string, stamp: real)
    requires forall id :: id in e.projects ==> e.projects[id].id == id
    requires Build(sch, call, e, newId, stamp).Commit?
    ensures RevisionsStep(e, Build(sch, call, e, newId, stamp).next)
    ensures call.Save? ==>
              && call.projectId in e.projects && e.projects[call.projectId].revision == call.revision
              && Build(sch, call, e, newId, stamp).next.projects[call.projectId].revision == call.revision + 1
  {
  }

  /** The gap: an import that has to create a project stores whatever id the generator gave, and the
      stored envelope can be read again exactly when that id is within bounds. */
  lemma ImportedIdUnchecked(sch: Schema, e: Env, data: Json, expected: Option<int>, newId: string, stamp: real, bound: int)
    requires Lawful(sch) && EnvInv(sch, e, bound) && 0 <= bound < MAX_SAFE_INTEGER
    requires sch.validate(data).Some? && !NameTaken(e.projects, DataName(sch.validate(data).value))
    requires |e.projects| < MAX_PROJECTS && newId !in e.projects
    ensures var call := Import(data, None, expected);
            && !Refused(sch, call, newId)
            && Build(sch, call, e, newId, stamp).Commit?
            && (MigrateEnvelope(sch, EncodeEnvelope(Build(sch, call, e, newId, stamp).next)).Some? <==> GoodId(newId))
  {
    hide EncodeEnvelope, MigrateEnvelope, ValidData, GoodId;
    var call := Import(data, None, expected);
    var next := Build(sch, call, e, newId, stamp).next;
    if GoodId(newId) {
      CommitKeeps(sch, call, e, newId, stamp, bound);
      InvIsStorable(sch, next, bound + 1);
      EnvelopeReadBack(sch, next);
    }
    if MigrateEnvelope(sch, EncodeEnvelope(next)).Some? {
      assert newId in next.projects;
      ReadableOnlyIfGoodIds(sch, next, newId);
    }
  }
}

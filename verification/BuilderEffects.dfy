/** What each repository call does to the envelope it is given, said of its arguments, and when it does
    nothing (`packages/browser-core/src/repository.ts`). */
module BuilderEffects {
  import opened Options
  import opened Envelope
  import opened Builders

  // ----- what a commit does

  ghost predicate OthersStay(e: Env, next: Env, id: string) {
    forall other :: other != id ==>
      && (other in next.projects <==> other in e.projects)
      && (other in e.projects ==> next.projects[other] == e.projects[other])
  }

  /** A new project with the validated data; it becomes active when it is the first. */
  ghost predicate Created(sch: Schema, e: Env, next: Env, value: Value, id: string, data: Json, stamp: real) {
    && id !in e.projects && id in next.projects && OthersStay(e, next, id)
    && next.activeProjectId == (if e.projects.Keys == {} then Some(id) else e.activeProjectId)
    && var p := next.projects[id];
       && value == OfProject(p)
       && p.id == id && Some(p.data) == sch.validate(data) && Field(p.data, "name") == Str(p.name)
       && p.revision == 1 && p.createdAt == stamp && p.updatedAt == stamp
       && p.enabledGroupIds == [] && p.mockFileRoot == None
  }

  /** One project goes one revision on, keeping its id and creation time; which other fields change is the
      call's business. */
  ghost predicate Touched(e: Env, next: Env, value: Value, id: string, stamp: real) {
    && id in e.projects && id in next.projects && OthersStay(e, next, id)
    && next.activeProjectId == e.activeProjectId
    && var p, q := e.projects[id], next.projects[id];
       && value == OfProject(q)
       && q.id == p.id && q.createdAt == p.createdAt && q.updatedAt == stamp && q.revision == p.revision + 1
  }

  /** New data under its own name, all groups off. */
  ghost predicate Updated(sch: Schema, e: Env, next: Env, value: Value, id: string, data: Json, stamp: real) {
    && Touched(e, next, value, id, stamp)
    && var p, q := e.projects[id], next.projects[id];
       && Some(q.data) == sch.validate(data) && Field(q.data, "name") == Str(q.name)
       && q.enabledGroupIds == [] && q.mockFileRoot == p.mockFileRoot
  }

  /** `ids` with `id` switched on or off; all other members and their order are kept. */
  ghost predicate Switched(ids: seq<string>, after: seq<string>, id: string, on: bool) {
    && (on == (id in ids) ==> after == ids)
    && (on && id !in ids ==> after == ids + [id])
    && (!on && id in ids ==> exists k :: 0 <= k < |ids| && ids[k] == id && after == ids[..k] + ids[k + 1..])
  }

  /** `a` comes before `b` in the order of strings: a proper prefix, or smaller where they first differ. */
  ghost predicate Precedes(a: string, b: string) {
    exists k :: 0 <= k <= |a| && k < |b| && a[..k] == b[..k] && (k == |a| || a[k] < b[k])
  }

  /** Nobody was updated later, and among those updated at the same time nobody has an earlier id. */
  ghost predicate LatestUpdated(projects: map<string, StoredProject>, id: string) {
    && id in projects
    && forall other :: other in projects ==>
         && projects[other].updatedAt <= projects[id].updatedAt
         && (projects[other].updatedAt == projects[id].updatedAt ==> !Precedes(projects[other].id, projects[id].id))
  }

  ghost predicate Effect(sch: Schema, call: Call, newId: string, stamp: real, e: Env, next: Env, value: Value) {
    match call
    case Create(data, id) => Created(sch, e, next, value, if id.Some? then id.value else newId, data, stamp)
    case Import(data, id, expected) =>
      if id.Some? then
        if id.value in e.projects then
          Updated(sch, e, next, value, id.value, data, stamp) && Expected(expected, e.projects[id.value].revision)
        else Created(sch, e, next, value, id.value, data, stamp)
      else if exists key :: key in e.projects && HasName(sch, data, e.projects[key].name) then
        exists key :: key in e.projects && HasName(sch, data, e.projects[key].name)
                      && Updated(sch, e, next, value, key, data, stamp) && Expected(expected, e.projects[key].revision)
      else Created(sch, e, next, value, newId, data, stamp)
    case Save(projectId, data, revision) =>
      && Updated(sch, e, next, value, projectId, data, stamp)
      && e.projects[projectId].revision == revision
    case Switch(projectId) =>
      && projectId in e.projects && next.projects == e.projects && next.activeProjectId == Some(projectId)
      && value == OfEnvelope(next)
    case Remove(projectId) =>
      && projectId in e.projects && projectId !in next.projects && OthersStay(e, next, projectId)
      && value == OfEnvelope(next)
      && (if e.activeProjectId != Some(projectId) then next.activeProjectId == e.activeProjectId
          else if next.projects.Keys == {} then next.activeProjectId == None
          else next.activeProjectId.Some? && LatestUpdated(next.projects, next.activeProjectId.value))
    case SetGroupEnabled(projectId, groupId, on) =>
      && Touched(e, next, value, projectId, stamp)
      && var p, q := e.projects[projectId], next.projects[projectId];
         && HasGroup(p.data, groupId) && Switched(p.enabledGroupIds, q.enabledGroupIds, groupId, on)
         && q.name == p.name && q.data == p.data && q.mockFileRoot == p.mockFileRoot
    case SetMockFileRoot(projectId, root) =>
      && Touched(e, next, value, projectId, stamp)
      && var p, q := e.projects[projectId], next.projects[projectId];
         && q.mockFileRoot == (if root.Str? && root.s != "" then Some(root.s) else None)
         && q.name == p.name && q.data == p.data && q.enabledGroupIds == p.enabledGroupIds
  }

  predicate Expected(expected: Option<int>, revision: int) { expected.Some? ==> expected.value == revision }

  /** The name of the validated data. */
  predicate HasName(sch: Schema, data: Json, name: string) {
    sch.validate(data).Some? && Field(sch.validate(data).value, "name") == Str(name)
  }

  // ----- why a call does nothing

  /** Some project other than `id` has the name of the new data. */
  ghost predicate NameElsewhere(sch: Schema, e: Env, data: Json, id: string) {
    exists other :: other in e.projects && other != id && HasName(sch, data, e.projects[other].name)
  }

  ghost predicate CreateReason(sch: Schema, e: Env, data: Json, id: string, code: Code) {
    || (code == InvalidData && sch.validate(data).None?)
    || (code == DuplicateName && exists other :: other in e.projects && HasName(sch, data, e.projects[other].name))
    || (code == ProjectLimit && |e.projects| >= 64)
    || (code == DuplicateId && id in e.projects)
  }

  ghost predicate UpdateReason(sch: Schema, e: Env, data: Json, id: string, code: Code) {
    || (code == InvalidData && sch.validate(data).None?)
    || (code == DuplicateName && NameElsewhere(sch, e, data, id))
  }

  /** What `code` tells the caller about the envelope. */
  ghost predicate Reason(sch: Schema, call: Call, newId: string, e: Env, code: Code) {
    match call
    case Create(data, id) =>
      CreateReason(sch, e, data, if id.Some? then id.value else newId, code)
    case Import(data, id, _) =>
      if id.Some? then
        if id.value in e.projects then UpdateReason(sch, e, data, id.value, code) else CreateReason(sch, e, data, id.value, code)
      else if exists key :: key in e.projects && HasName(sch, data, e.projects[key].name) then false
      else CreateReason(sch, e, data, newId, code)
    case Save(projectId, data, _) =>
      if projectId in e.projects then UpdateReason(sch, e, data, projectId, code) else code == NotFound
    case Switch(projectId) => code == NotFound && projectId !in e.projects
    case Remove(projectId) => code == NotFound && projectId !in e.projects
    case SetGroupEnabled(projectId, groupId, _) =>
      code == NotFound && (projectId !in e.projects || !HasGroup(e.projects[projectId].data, groupId))
    case SetMockFileRoot(projectId, root) => code == NotFound && projectId !in e.projects
  }

  /** A conflict carries the project the call is about, at another revision than the caller expects. */
  ghost predicate ConflictReason(sch: Schema, call: Call, e: Env, current: StoredProject) {
    match call
    case Save(projectId, _, revision) =>
      projectId in e.projects && current == e.projects[projectId] && current.revision != revision
    case Import(data, id, expected) =>
      && expected.Some? && current.revision != expected.value
      && exists key :: key in e.projects && current == e.projects[key]
           && (if id.Some? then key == id.value else HasName(sch, data, current.name))
    case _ => false
  }

  /** The builder `m` commits what the call's arguments say, with no reason not to; or it commits nothing, for
      a reason. It never throws. */
  ghost predicate Meant(sch: Schema, call: Call, newId: string, stamp: real, e: Env, m: Mutation) {
    match m
    case Commit(next, value) =>
      && Effect(sch, call, newId, stamp, e, next, value)
      && (forall code :: !Reason(sch, call, newId, e, code)) && forall p :: !ConflictReason(sch, call, e, p)
    case Conflict(current) => ConflictReason(sch, call, e, current)
    case Failure(code) => Reason(sch, call, newId, e, code)
    case Throws => false
  }

  // ----- the builders meet this

  lemma Named(sch: Schema, data: Json, name: string)
    requires Lawful(sch) && sch.validate(data).Some?
    ensures HasName(sch, data, name) <==> DataName(sch.validate(data).value) == name
    ensures Field(sch.validate(data).value, "name") == Str(DataName(sch.validate(data).value))
  {
    hide Field;
    ValidName(sch.validate(data).value);
  }

  lemma CreateMeaning(sch: Schema, e: Env, data: Json, id: string, stamp: real)
    requires Lawful(sch)
    ensures match BuildCreate(sch, e, data, id, stamp)
            case Commit(next, value) =>
              Created(sch, e, next, value, id, data, stamp) && forall code :: !CreateReason(sch, e, data, id, code)
            case Failure(code) => CreateReason(sch, e, data, id, code)
            case _ => false
  {
    hide Field, ValidData, HasName;
    if sch.validate(data).Some? {
      Named(sch, data, "");
      forall other | other in e.projects
        ensures HasName(sch, data, e.projects[other].name) <==> DataName(sch.validate(data).value) == e.projects[other].name
      {
        Named(sch, data, e.projects[other].name);
      }
    }
    assert |e.projects| == |e.projects.Keys|;
  }

  lemma UpdateMeaning(sch: Schema, e: Env, id: string, data: Json, expected: Option<int>, stamp: real)
    requires Lawful(sch) && id in e.projects && DistinctNames(e.projects)
    requires forall key :: key in e.projects ==> e.projects[key].id == key
    ensures match BuildUpdate(sch, e, e.projects[id], data, expected, stamp)
            case Commit(next, value) =>
              && Updated(sch, e, next, value, id, data, stamp) && Expected(expected, e.projects[id].revision)
              && forall code :: !UpdateReason(sch, e, data, id, code)
            case Conflict(current) => current == e.projects[id] && !Expected(expected, current.revision)
            case Failure(code) => UpdateReason(sch, e, data, id, code)
            case Throws => false
  {
    hide Field, ValidData, HasName;
    if sch.validate(data).Some? {
      Named(sch, data, "");
      forall other | other in e.projects
        ensures HasName(sch, data, e.projects[other].name) <==> DataName(sch.validate(data).value) == e.projects[other].name
      {
        Named(sch, data, e.projects[other].name);
      }
    }
  }

  lemma {:induction false} FirstMember(ids: seq<string>, id: string) returns (k: nat)
    requires id in ids && NoDuplicates(ids)
    ensures k < |ids| && ids[k] == id && Without(ids, id) == ids[..k] + ids[k + 1..]
  {
    if ids[0] == id {
      k := 0;
      NothingToDrop(ids[1..], id);
    } else {
      k := FirstMember(ids[1..], id);
      assert ids[..k + 1] == [ids[0]] + ids[1..][..k];
      k := k + 1;
    }
  }

  lemma {:induction false} NothingToDrop(ids: seq<string>, id: string)
    requires id !in ids
    ensures Without(ids, id) == ids
  {
    if ids != [] {
      NothingToDrop(ids[1..], id);
    }
  }

  lemma {:induction false} SomeGroupDecides(groups: seq<Json>, groupId: string)
    requires forall i :: 0 <= i < |groups| ==> groups[i].Obj?
    ensures SomeGroup(groups, groupId) ==
            Some(exists i :: 0 <= i < |groups| && Field(groups[i], "id") == Str(groupId))
  {
    hide Field;
    if groups != [] {
      SomeGroupDecides(groups[1..], groupId);
      forall i | 0 < i < |groups| ensures groups[i] == groups[1..][i - 1] {
      }
      if i :| 0 <= i < |groups[1..]| && Field(groups[1..][i], "id") == Str(groupId) {
        assert groups[i + 1] == groups[1..][i];
      }
    }
  }

  lemma GroupFound(data: Json, groupId: string)
    requires ValidData(data)
    ensures Field(data, "groups").Arr?
    ensures SomeGroup(Field(data, "groups").items, groupId) == Some(HasGroup(data, groupId))
  {
    hide GoodId, GoodLabel;
    SomeGroupDecides(Field(data, "groups").items, groupId);
  }

  lemma SwitchedIds(ids: seq<string>, id: string, on: bool)
    requires NoDuplicates(ids)
    ensures Switched(ids, if !on then Without(ids, id) else if id in ids then ids else ids + [id], id, on)
  {
    if !on && id in ids {
      var k := FirstMember(ids, id);
    }
    if !on && id !in ids {
      NothingToDrop(ids, id);
    }
  }

  lemma GroupEnabledMeaning(sch: Schema, e: Env, projectId: string, groupId: string, on: bool, newId: string, stamp: real,
                            bound: int)
    requires EnvInv(sch, e, bound)
    ensures Meant(sch, SetGroupEnabled(projectId, groupId, on), newId, stamp, e,
                  BuildGroupEnabled(e, projectId, groupId, on, stamp))
  {
    hide Storable, EnvInv, ValidData, HasGroup, SomeGroup, Switched, Without, Field;
    IdsMatch(sch, e, bound);
    if projectId in e.projects {
      var p := e.projects[projectId];
      ProjectParts(sch, e, projectId, bound);
      GroupFound(p.data, groupId);
      SwitchedIds(p.enabledGroupIds, groupId, on);
    }
  }

  lemma ProjectParts(sch: Schema, e: Env, id: string, bound: int)
    requires EnvInv(sch, e, bound) && id in e.projects
    ensures ValidData(e.projects[id].data) && NoDuplicates(e.projects[id].enabledGroupIds)
  {
    hide ValidData, StorableRoot, DistinctNames;
    assert ProjectInv(sch, id, e.projects[id], bound);
  }

  lemma {:induction false} TextLessIsPrecedes(a: string, b: string)
    ensures TextLess(a, b) <==> Precedes(a, b)
  {
    if b != "" && a != "" && a[0] == b[0] {
      TextLessIsPrecedes(a[1..], b[1..]);
      if k :| 0 <= k <= |a| && k < |b| && a[..k] == b[..k] && (k == |a| || a[k] < b[k]) {
        assert k > 0;
        assert a[1..][..k - 1] == a[..k][1..] && b[1..][..k - 1] == b[..k][1..];
        assert Precedes(a[1..], b[1..]);
      }
      if k :| 0 <= k <= |a[1..]| && k < |b[1..]| && a[1..][..k] == b[1..][..k] && (k == |a[1..]| || a[1..][k] < b[1..][k]) {
        assert a[..k + 1] == [a[0]] + a[1..][..k] && b[..k + 1] == [b[0]] + b[1..][..k];
        assert Precedes(a, b);
      }
    } else {
      assert a[..0] == b[..0];
      if k :| 0 < k <= |a| && k < |b| && a[..k] == b[..k] {
        FirstSame(a, b, k);
      }
    }
  }

  lemma FirstSame(a: string, b: string, k: nat)
    requires 0 < k <= |a| && k <= |b| && a[..k] == b[..k]
    ensures a[0] == b[0]
  {
    assert a[..k][0] == a[0] && b[..k][0] == b[0];
  }

  lemma RemoveMeaning(sch: Schema, e: Env, projectId: string, newId: string, stamp: real)
    requires forall key :: key in e.projects ==> e.projects[key].id == key
    ensures Meant(sch, Remove(projectId), newId, stamp, e, BuildRemove(e, projectId))
  {
    hide Precedes, TextLess;
    if projectId in e.projects {
      var next := BuildRemove(e, projectId).next;
      if e.activeProjectId == Some(projectId) && next.projects.Keys != {} {
        var id := First(next.projects);
        forall other | other in next.projects
          ensures next.projects[other].updatedAt <= next.projects[id].updatedAt
          ensures (next.projects[other].updatedAt == next.projects[id].updatedAt) ==>
                    !Precedes(next.projects[other].id, next.projects[id].id)
        {
          TextLessIsPrecedes(next.projects[other].id, next.projects[id].id);
          assert !SortsBefore(next.projects[other], next.projects[id]);
        }
      }
    }
  }

  lemma RootMeaning(sch: Schema, e: Env, projectId: string, root: Json, newId: string, stamp: real)
    requires !Refused(sch, SetMockFileRoot(projectId, root), newId)
    requires forall key :: key in e.projects ==> e.projects[key].id == key
    ensures Meant(sch, SetMockFileRoot(projectId, root), newId, stamp, e, BuildMockFileRoot(sch, e, projectId, root, stamp))
  {
    hide HasControl, IsAbsoluteMockFileRoot;
  }

  /** What every call that was not refused makes of every envelope that keeps the invariant: it commits exactly
      when there is no reason not to, and then does what its arguments say. */
  lemma BuilderMeaning(sch: Schema, call: Call, e: Env, newId: string, stamp: real, bound: int)
    requires Lawful(sch) && EnvInv(sch, e, bound) && !Refused(sch, call, newId)
    ensures Meant(sch, call, newId, stamp, e, Build(sch, call, e, newId, stamp))
  {
    hide BuildCreate, BuildUpdate, BuildRemove, BuildGroupEnabled, BuildMockFileRoot, Created, Updated, Touched, OthersStay,
         CreateReason, UpdateReason, Switched, LatestUpdated, HasName, GoodId, Lawful;
    IdsMatch(sch, e, bound);
    match call
    case Create(data, id) => CreateMeaning(sch, e, data, if id.Some? then id.value else newId, stamp);
    case Import(data, id, expected) => ImportMeaning(sch, e, data, id, expected, newId, stamp);
    case Save(projectId, data, revision) =>
      if projectId in e.projects {
        UpdateMeaning(sch, e, projectId, data, Some(revision), stamp);
      }
    case Switch(_) =>
    case Remove(projectId) => RemoveMeaning(sch, e, projectId, newId, stamp);
    case SetGroupEnabled(projectId, groupId, on) => GroupEnabledMeaning(sch, e, projectId, groupId, on, newId, stamp, bound);
    case SetMockFileRoot(projectId, root) => RootMeaning(sch, e, projectId, root, newId, stamp);
  }

  lemma IdsMatch(sch: Schema, e: Env, bound: int)
    requires EnvInv(sch, e, bound)
    ensures DistinctNames(e.projects) && forall key :: key in e.projects ==> e.projects[key].id == key
  {
  }

  lemma ImportMeaning(sch: Schema, e: Env, data: Json, id: Option<string>, expected: Option<int>, newId: string, stamp: real)
    requires Lawful(sch) && DistinctNames(e.projects)
    requires forall key :: key in e.projects ==> e.projects[key].id == key
    ensures Meant(sch, Import(data, id, expected), newId, stamp, e, BuildImport(sch, e, data, id, expected, newId, stamp))
  {
    hide BuildCreate, BuildUpdate, Created, Updated, HasName, Lawful;
    if sch.validate(data).Some? {
      forall other | other in e.projects
        ensures HasName(sch, data, e.projects[other].name) <==> DataName(sch.validate(data).value) == e.projects[other].name
      {
        Named(sch, data, e.projects[other].name);
      }
    }
    if sch.validate(data).None? {
      NoName(sch, data);
    }
    var found := if sch.validate(data).Some? then FindByName(e.projects, DataName(sch.validate(data).value)) else None;
    var key := if id.Some? then id else found;
    CreateMeaning(sch, e, data, if key.Some? then key.value else newId, stamp);
    if key.Some? && key.value in e.projects {
      UpdateMeaning(sch, e, key.value, data, expected, stamp);
    }
  }

  lemma NoName(sch: Schema, data: Json)
    requires sch.validate(data).None?
    ensures forall name :: !HasName(sch, data, name)
  {
  }

  // ----- data that was never validated

  predicate NoNull(groups: seq<Json>) {
    forall i :: 0 <= i < |groups| ==> groups[i] != Undefined && groups[i] != Null
  }

  /** A group has the id, and no null entry comes before it. */
  ghost predicate Found(groups: seq<Json>, groupId: string) {
    exists i :: 0 <= i < |groups| && FoundAt(groups, groupId, i)
  }

  predicate FoundAt(groups: seq<Json>, groupId: string, i: nat)
    requires i < |groups|
  {
    Field(groups[i], "id") == Str(groupId) && forall j :: 0 <= j < i ==> groups[j] != Undefined && groups[j] != Null
  }

  lemma FoundHead(groups: seq<Json>, groupId: string)
    requires groups != []
    ensures Found(groups, groupId) <==>
            Field(groups[0], "id") == Str(groupId) || (NoNull(groups[..1]) && Found(groups[1..], groupId))
    ensures NoNull(groups) <==> NoNull(groups[..1]) && NoNull(groups[1..])
  {
    var rest := groups[1..];
    assert forall i :: 0 <= i < |rest| ==> rest[i] == groups[i + 1];
    assert FoundAt(groups, groupId, 0) <==> Field(groups[0], "id") == Str(groupId);
    forall i: nat | i < |rest| ensures FoundAt(groups, groupId, i + 1) <==> NoNull(groups[..1]) && FoundAt(rest, groupId, i) {
      assert forall j :: 1 <= j < i + 1 ==> groups[j] == rest[j - 1];
    }
    if i :| 0 < i < |groups| && FoundAt(groups, groupId, i) {
      assert FoundAt(rest, groupId, i - 1);
    }
    if i: nat :| i < |rest| && NoNull(groups[..1]) && FoundAt(rest, groupId, i) {
      assert FoundAt(groups, groupId, i + 1);
    }
  }

  /** The search stops at the first group with the id, and breaks at a null entry before it. */
  lemma {:induction false} SomeGroupStops(groups: seq<Json>, groupId: string)
    ensures SomeGroup(groups, groupId) == Some(true) <==> Found(groups, groupId)
    ensures SomeGroup(groups, groupId) == None <==> !NoNull(groups) && !Found(groups, groupId)
    decreases |groups|
  {
    hide Found;
    if groups == [] {
      NothingFound(groupId);
    } else {
      SomeGroupStops(groups[1..], groupId);
      FoundHead(groups, groupId);
    }
  }

  lemma NothingFound(groupId: string)
    ensures !Found([], groupId)
  {
  }

  /** Only `setGroupEnabled` can throw, for a stored project whose groups are no list, or have a null entry before
      any group with the id. */
  lemma ThrowsMeans(sch: Schema, call: Call, e: Env, newId: string, stamp: real)
    ensures Build(sch, call, e, newId, stamp) == Throws <==>
            && call.SetGroupEnabled? && call.projectId in e.projects
            && var groups := Field(e.projects[call.projectId].data, "groups");
               !groups.Arr?
               || (!NoNull(groups.items) && !Found(groups.items, call.groupId))
  {
    hide SomeGroup, NoNull, Found, BuildCreate, BuildUpdate, BuildImport;
    NeverThrow(sch, e, newId, stamp);
    if call.SetGroupEnabled? && call.projectId in e.projects {
      var groups := Field(e.projects[call.projectId].data, "groups");
      if groups.Arr? {
        SomeGroupStops(groups.items, call.groupId);
      }
    }
  }

  lemma NeverThrow(sch: Schema, e: Env, newId: string, stamp: real)
    ensures forall data, id :: !BuildCreate(sch, e, data, id, stamp).Throws?
    ensures forall p: StoredProject, data, expected :: !BuildUpdate(sch, e, p, data, expected, stamp).Throws?
    ensures forall data, id, expected :: !BuildImport(sch, e, data, id, expected, newId, stamp).Throws?
  {
  }

  // ----- what is refused before the first read

  /** Rooted at `/`, but not `//`, or at a drive letter with a slash of either kind. */
  predicate RootedPath(s: string) {
    || (|s| == 1 && s[0] == '/')
    || (|s| >= 2 && s[0] == '/' && s[1] != '/')
    || (|s| >= 3 && ('a' <= s[0] <= 'z' || 'A' <= s[0] <= 'Z') && s[1] == ':' && (s[2] == '/' || s[2] == '\\'))
  }

  /** A call is refused before it reads anything exactly for an id out of bounds that the caller gave or
      `createProject` generated, or for a mock file root that is neither empty nor a fit rooted path. */
  lemma RefusedMeans(sch: Schema, call: Call, newId: string)
    ensures Refused(sch, call, newId) <==>
            match call
            case Create(_, id) => (id.None? && (newId == "" || |newId| > 64)) || (id.Some? && (id.value == "" || |id.value| > 64))
            case Import(_, id, _) => id.Some? && (id.value == "" || |id.value| > 64)
            case SetMockFileRoot(_, root) =>
              && root != Undefined && root != Null && root != Str("")
              && !(root.Str? && RootedPath(root.s) && |root.s| <= 2048 && forall k :: 0 <= k < |root.s| ==> !sch.control(root.s[k]))
            case _ => false
  {
  }
}

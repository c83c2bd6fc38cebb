/** `packages/extension/src/native-session.ts` and the session-rule bands it fills: body markers, response-body
    redirects and mock redirects. A start is a sequence of steps, each of which may fail; `Start` shows what
    every exit leaves behind. */
module NativeSession {
  import opened Options
  import opened MatchIndex

  const RESPONSE_BODY_ID_MIN: int := 4_000_001
  const RESPONSE_BODY_ID_MAX: int := 5_000_000

  datatype Pair = Pair(op: Operation, token: string)

  datatype SessionRule =
    | Marker(op: Operation)
    | ResponseRedirect(op: Operation, token: string)
    | MockRedirect(pair: Pair)
    | Guard
    | Foreign(detail: int)

  /** How one install call ends in the browser. */
  datatype Fault = Works | ReadFails | UpdateFails

  datatype Step = Done | Failed | Threw

  datatype Reason =
    | NoProject | InvalidPolicy | ProjectSetRefused | ProjectSetThrew | StartRefused | ResponseTokenMissing
    | ResponseInstallFailed | MockListenerUnavailable | MockConnectFailed | MockTokenMismatch | MockInstallFailed

  datatype Result = Started | Refused(reason: Reason) | Thrown

  /** A compiled operation, and whether its group is enabled. */
  datatype SessionOp = SessionOp(op: Operation, enabled: bool)

  /** What the extension brings: the compiled project or why there is none, and its capabilities. */
  datatype Setup = Setup(
    hasProject: bool,
    validPolicy: bool,
    ops: seq<SessionOp>,
    hasSend: bool,
    hasApi: bool,
    stripPath: bool,
    requestGate: bool,
    responseGate: bool)

  datatype Issued = Issued(ruleId: Option<string>, token: Option<string>)

  datatype Proxy = Proxy(port: Option<nat>, responseBodyToken: string)

  /** `runtime.project.set` makes an idle host load the project and start. `NoConnection`: no port, or it went
      before the reply. `NoReply`: nothing came back, and the host may have started all the same. `accepted`
      also covers a host that was running already. */
  datatype SetAnswer = NoConnection | NoReply(hostStarted: bool) | SetReply(accepted: bool)

  /** What the runtime's own start reports, and whether a refused one left the port open. */
  datatype StartAnswer = StartRefusal(connected: bool) | StartsUp(proxy: Option<Proxy>)

  /** What the native host answers. A policy that is not accepted, and mocks that are `None`, are calls that
      throw; `obeysStop` says whether a stop sent over an open port takes effect. */
  datatype Host = Host(
    projectSet: SetAnswer,
    presetDigest: Option<string>,
    policyAccepted: bool,
    start: StartAnswer,
    mocks: Option<seq<Issued>>,
    obeysStop: bool)

  // ----- the bands

  predicate IsResponseBand(id: int) { RESPONSE_BODY_ID_MIN <= id <= RESPONSE_BODY_ID_MAX }

  predicate IsSessionBand(id: int) { IsBodyBand(id) || IsResponseBand(id) || IsMockBand(id) }

  datatype Band = BodyBand | ResponseBand | MockBand

  predicate InBand(id: int, band: Band) {
    match band
    case BodyBand => IsBodyBand(id)
    case ResponseBand => IsResponseBand(id)
    case MockBand => IsMockBand(id)
  }

  type Rules = map<int, SessionRule>

  function WithoutBand(rules: Rules, band: Band): Rules {
    map id | id in rules && !InBand(id, band) :: rules[id]
  }

  /** Outside `band` nothing changed. */
  predicate SameOutside(before: Rules, after: Rules, band: Band) {
    && (forall id :: id in before && !InBand(id, band) ==> id in after && after[id] == before[id])
    && (forall id :: id in after && !InBand(id, band) ==> id in before)
  }

  predicate SameForeign(before: Rules, after: Rules) {
    && (forall id :: id in before && !IsSessionBand(id) ==> id in after && after[id] == before[id])
    && (forall id :: id in after && !IsSessionBand(id) ==> id in before)
  }

  /** In `band` exactly `want` is live. */
  predicate BandIs(rules: Rules, band: Band, want: Rules) {
    && (forall id :: id in want ==> id in rules && rules[id] == want[id])
    && (forall id :: id in rules && InBand(id, band) ==> id in want)
  }

  predicate NoRule(rules: Rules, band: Band) {
    forall id :: id in rules ==> !InBand(id, band)
  }

  predicate NoBodyEntry(index: Index) { forall id :: id in index ==> !IsBodyBand(id) }

  predicate NoMockEntry(index: Index) { forall id :: id in index ==> !IsMockBand(id) }

  predicate IsClean(rules: Rules, index: Index) {
    NoRule(rules, BodyBand) && NoRule(rules, ResponseBand) && NoRule(rules, MockBand)
    && NoBodyEntry(index) && NoMockEntry(index)
  }

  function MarkerRules(ops: seq<Operation>): Rules {
    map id | BODY_MARKER_ID_MIN <= id < BODY_MARKER_ID_MIN + |ops| :: MarkerAt(ops, id)
  }

  function MarkerAt(ops: seq<Operation>, id: int): SessionRule
    requires BODY_MARKER_ID_MIN <= id < BODY_MARKER_ID_MIN + |ops|
  {
    Marker(ops[id - BODY_MARKER_ID_MIN])
  }

  function ResponseRules(ops: seq<Operation>, token: string): Rules {
    map id | RESPONSE_BODY_ID_MIN <= id < RESPONSE_BODY_ID_MIN + |ops| :: ResponseAt(ops, token, id)
  }

  function ResponseAt(ops: seq<Operation>, token: string, id: int): SessionRule
    requires RESPONSE_BODY_ID_MIN <= id < RESPONSE_BODY_ID_MIN + |ops|
  {
    ResponseRedirect(ops[id - RESPONSE_BODY_ID_MIN], token)
  }

  function MockRules(pairs: seq<Pair>): Rules {
    (map id | MOCK_REDIRECT_ID_MIN <= id < MOCK_REDIRECT_ID_MIN + |pairs| :: MockAt(pairs, id))[MOCK_GUARD_ID := Guard]
  }

  function MockAt(pairs: seq<Pair>, id: int): SessionRule
    requires MOCK_REDIRECT_ID_MIN <= id < MOCK_REDIRECT_ID_MIN + |pairs|
  {
    MockRedirect(pairs[id - MOCK_REDIRECT_ID_MIN])
  }

  predicate AllProjectable(ops: seq<Operation>) {
    forall i :: 0 <= i < |ops| ==> ops[i].projectable
  }

  // ----- what a start wants to install

  function Picked(ops: seq<SessionOp>, keep: SessionOp -> bool): (r: seq<Operation>)
    ensures |r| <= |ops|
  {
    if ops == [] then []
    else
      var n := |ops| - 1;
      Picked(ops[..n], keep) + if keep(ops[n]) then [ops[n].op] else []
  }

  predicate IsEnabledMarker(s: Setup, o: SessionOp) {
    o.enabled && ((o.op.kind.RequestBody? && s.requestGate) || (o.op.kind.ResponseBody? && s.responseGate))
  }

  function MarkerPick(s: Setup): SessionOp -> bool { o => IsEnabledMarker(s, o) }

  function ResponsePick(): SessionOp -> bool { (o: SessionOp) => o.op.kind.ResponseBody? }

  function MockPick(): SessionOp -> bool { (o: SessionOp) => o.op.kind.Mock? && o.enabled }

  /** Enabled groups only, and the kinds whose gate is open. */
  function MarkerOps(s: Setup): seq<Operation> {
    if !s.stripPath then [] else Picked(s.ops, MarkerPick(s))
  }

  /** Every group, enabled or not. */
  function ResponseOps(s: Setup): seq<Operation> { Picked(s.ops, ResponsePick()) }

  /** Enabled groups only. */
  function MockOps(s: Setup): seq<Operation> { Picked(s.ops, MockPick()) }

  predicate WantsListener(s: Setup) { ResponseOps(s) != [] || MockOps(s) != [] }

  predicate HasListener(s: Setup, h: Host) {
    && s.hasApi && s.hasSend && h.presetDigest.Some?
    && h.start.StartsUp? && h.start.proxy.Some? && h.start.proxy.value.port.Some?
  }

  // ----- pairing mocks with the tokens the host issued

  ghost predicate WellIssued(issued: seq<Issued>) {
    && (forall i :: 0 <= i < |issued| ==> issued[i].ruleId.Some? && issued[i].token.Some?)
    && (forall i, j :: 0 <= i < j < |issued| ==> issued[i].ruleId != issued[j].ruleId)
  }

  ghost predicate IssuedAs(issued: seq<Issued>, ruleId: string, token: string) {
    Issued(Some(ruleId), Some(token)) in issued
  }

  ghost predicate HasToken(issued: seq<Issued>, ruleId: string) {
    exists token :: IssuedAs(issued, ruleId, token)
  }

  method ReadTokens(issued: seq<Issued>) returns (tokens: map<string, string>)
    ensures !WellIssued(issued) ==> tokens == map[]
    ensures WellIssued(issued) ==>
              forall ruleId: string, token: string ::
                IssuedAs(issued, ruleId, token) <==> ruleId in tokens && tokens[ruleId] == token
  {
    tokens := map[];
    for i := 0 to |issued|
      invariant WellIssued(issued[..i])
      invariant forall ruleId :: ruleId in tokens ==> IssuedAs(issued[..i], ruleId, tokens[ruleId])
      invariant forall j :: 0 <= j < i ==>
                  issued[j].ruleId.value in tokens && tokens[issued[j].ruleId.value] == issued[j].token.value
    {
      var entry := issued[i];
      if entry.ruleId.None? || entry.token.None? {
        assert !WellIssued(issued);
        return map[];
      }
      if entry.ruleId.value in tokens {
        assert IssuedAs(issued[..i], entry.ruleId.value, tokens[entry.ruleId.value]);
        var j :| 0 <= j < i && issued[j] == Issued(entry.ruleId, Some(tokens[entry.ruleId.value]));
        assert !WellIssued(issued);
        return map[];
      }
      assert issued[..i + 1] == issued[..i] + [entry];
      tokens := tokens[entry.ruleId.value := entry.token.value];
    }
    assert issued[..|issued|] == issued;
  }

  /** As many pairs as mocks come back exactly when the host's list is well-formed and names every mock;
      each mock then carries the token issued under its own rule id. */
  method PairMocks(mocks: seq<Operation>, issued: seq<Issued>) returns (paired: seq<Pair>)
    ensures |paired| <= |mocks|
    ensures |paired| == |mocks| <==>
              mocks == [] || (WellIssued(issued) && forall i :: 0 <= i < |mocks| ==> HasToken(issued, mocks[i].ruleId))
    ensures |paired| == |mocks| ==>
              forall i :: 0 <= i < |mocks| ==> paired[i].op == mocks[i] && IssuedAs(issued, mocks[i].ruleId, paired[i].token)
  {
    var tokens := ReadTokens(issued);
    paired := [];
    ghost var missed := false;
    for i := 0 to |mocks|
      invariant |paired| <= i && (|paired| == i <==> !missed)
      invariant missed <==> exists j :: 0 <= j < i && mocks[j].ruleId !in tokens
      invariant !missed ==>
                  forall j :: 0 <= j < i ==>
                    mocks[j].ruleId in tokens && paired[j] == Pair(mocks[j], tokens[mocks[j].ruleId])
    {
      if mocks[i].ruleId in tokens {
        paired := paired + [Pair(mocks[i], tokens[mocks[i].ruleId])];
      } else {
        missed := true;
      }
    }
    if !missed {
      forall i | 0 <= i < |mocks|
        ensures WellIssued(issued) && IssuedAs(issued, mocks[i].ruleId, paired[i].token)
        ensures HasToken(issued, mocks[i].ruleId)
      {
        assert mocks[i].ruleId in tokens;
      }
      assert mocks != [] ==> mocks[0].ruleId in tokens;
    } else {
      ghost var j :| 0 <= j < |mocks| && mocks[j].ruleId !in tokens;
      assert WellIssued(issued) ==> !HasToken(issued, mocks[j].ruleId);
    }
  }

  // ----- splitting the policy into frames

  const FRAME_SIZE: nat := 64 * 1024

  function Joined<T>(frames: seq<seq<T>>): seq<T> {
    if frames == [] then [] else Joined(frames[..|frames| - 1]) + frames[|frames| - 1]
  }

  /** `encodePolicy`: the frames join to the bytes, each is full except possibly the last, none is empty. */
  method EncodePolicy<T>(bytes: seq<T>) returns (frames: seq<seq<T>>)
    ensures Joined(frames) == bytes
    ensures forall i :: 0 <= i < |frames| ==> 0 < |frames[i]| <= 65_536
    ensures forall i :: 0 <= i < |frames| - 1 ==> |frames[i]| == 65_536
  {
    frames := [];
    var i := 0;
    while i < |bytes|
      invariant 0 <= i && Joined(frames) == bytes[..if i < |bytes| then i else |bytes|]
      invariant forall k :: 0 <= k < |frames| ==> 0 < |frames[k]| <= FRAME_SIZE
      invariant forall k :: 0 <= k < |frames| - 1 ==> |frames[k]| == FRAME_SIZE
      invariant i < |bytes| && frames != [] ==> |frames[|frames| - 1]| == FRAME_SIZE
    {
      var end := if i + FRAME_SIZE <= |bytes| then i + FRAME_SIZE else |bytes|;
      var chunk := bytes[i..end];
      assert (frames + [chunk])[..|frames|] == frames;
      assert bytes[..i] + chunk == bytes[..end];
      frames := frames + [chunk];
      i := i + FRAME_SIZE;
    }
    assert bytes[..|bytes|] == bytes;
  }
}

/** What a native session holds in the browser, said of what the extension brings and the host answers: which
    rule stands at which id, and which start has which result
    (`packages/extension/src/native-session.ts:285-538`). */
module SessionContents {
  import opened Options
  import opened MatchIndex
  import opened NativeSession
  import opened Listing

  // ----- which operations are due

  /** `held` are exactly the operations that are due, in their order. */
  ghost predicate AreDue(s: Setup, due: SessionOp -> bool, held: seq<Operation>) {
    exists chosen: seq<SessionOp> :: Chosen(s.ops, due, chosen) && held == OpsOf(chosen)
  }

  function OpsOf(chosen: seq<SessionOp>): seq<Operation> {
    seq(|chosen|, i requires 0 <= i < |chosen| => chosen[i].op)
  }

  /** A marker is due for an enabled body rule whose gate is open, if the runtime can strip paths. */
  function MarkerDue(s: Setup): SessionOp -> bool {
    (o: SessionOp) =>
      s.stripPath && o.enabled && ((o.op.kind == RequestBody && s.requestGate) || (o.op.kind == ResponseBody && s.responseGate))
  }

  function ResponseDue(): SessionOp -> bool { (o: SessionOp) => o.op.kind == ResponseBody }

  function MockDue(): SessionOp -> bool { (o: SessionOp) => o.op.kind == Mock && o.enabled }

  ghost predicate SomeDue(s: Setup, due: SessionOp -> bool) { exists i :: 0 <= i < |s.ops| && due(s.ops[i]) }

  /** Every operation that is due has a browser form. */
  ghost predicate Formed(s: Setup, due: SessionOp -> bool) {
    forall i :: 0 <= i < |s.ops| && due(s.ops[i]) ==> s.ops[i].op.projectable
  }

  /** The host accepted the project and told its digest, and its proxy listens on a port. */
  predicate Listening(s: Setup, h: Host) {
    && s.hasApi && s.hasSend && h.presetDigest.Some?
    && h.start.StartsUp? && h.start.proxy.Some? && h.start.proxy.value.port.Some?
  }

  // ----- which rule stands at which id

  ghost predicate MarkersHeld(san: Sanitizer, rules: Rules, index: Index, held: seq<Operation>) {
    forall id :: 3_000_001 <= id <= 4_000_000 ==>
      && (id in rules <==> id - 3_000_001 < |held|) && (id in index <==> id - 3_000_001 < |held|)
      && (id - 3_000_001 < |held| ==>
            rules[id] == Marker(held[id - 3_000_001]) && LoggedFrom(san, AsEntry(held[id - 3_000_001]), index[id]))
  }

  ghost predicate ResponsesHeld(rules: Rules, held: seq<Operation>, token: string) {
    forall id :: 4_000_001 <= id <= 5_000_000 ==>
      && (id in rules <==> id - 4_000_001 < |held|)
      && (id in rules ==> id - 4_000_001 < |held| && rules[id] == ResponseRedirect(held[id - 4_000_001], token))
  }

  /** With the guard behind them as soon as there are any; each mock with the token the host issued for it. */
  ghost predicate MocksHeld(san: Sanitizer, h: Host, rules: Rules, index: Index, held: seq<Operation>) {
    && (forall id :: 5_000_001 <= id <= 5_999_999 ==>
          && (id in rules <==> id - 5_000_001 < |held|) && (id in index <==> id - 5_000_001 < |held|)
          && (id - 5_000_001 < |held| ==>
                MockWithToken(h, rules[id], held[id - 5_000_001]) && LoggedFrom(san, AsEntry(held[id - 5_000_001]), index[id])))
    && 6_000_000 !in index && (6_000_000 in rules <==> held != []) && (held != [] ==> rules[6_000_000] == Guard)
  }

  ghost predicate MockWithToken(h: Host, rule: SessionRule, op: Operation) {
    && rule.MockRedirect? && rule.pair.op == op
    && h.mocks.Some? && Issued(Some(op.ruleId), Some(rule.pair.token)) in h.mocks.value
  }

  /** The three bands of a started session. `full` says that the markers are known to be in; otherwise there may be
      none of them. Response-body rules go in for every group, but only where a listener takes them. */
  ghost predicate Holds(san: Sanitizer, s: Setup, h: Host, full: bool, rules: Rules, index: Index) {
    && (exists held :: AreDue(s, MarkerDue(s), held)
                       && (MarkersHeld(san, rules, index, held) || (!full && MarkersHeld(san, rules, index, []))))
    && (!s.stripPath ==> MarkersHeld(san, rules, index, []))
    && (if Listening(s, h) then
          exists held :: AreDue(s, ResponseDue(), held) && ResponsesHeld(rules, held, h.start.proxy.value.responseBodyToken)
        else ResponsesHeld(rules, [], ""))
    && (exists held :: AreDue(s, MockDue(), held) && MocksHeld(san, h, rules, index, held))
  }

  // ----- which start has which result

  /** The answers up to a started runtime are all good. */
  predicate ComesUp(s: Setup, h: Host) {
    && s.hasProject && s.validPolicy && (s.hasSend ==> h.projectSet == SetReply(true)) && h.policyAccepted && h.start.StartsUp?
  }

  /** The host's list names no rule twice, gives each a token, and names every enabled mock. */
  ghost predicate EveryMockIssued(s: Setup, h: Host) {
    && h.mocks.Some?
    && var issued := h.mocks.value;
       && (forall i :: 0 <= i < |issued| ==> issued[i].ruleId.Some? && issued[i].token.Some?)
       && (forall i, j :: 0 <= i < j < |issued| ==> issued[i].ruleId != issued[j].ruleId)
       && (forall i :: 0 <= i < |s.ops| && MockDue()(s.ops[i]) ==>
             exists token :: Issued(Some(s.ops[i].op.ruleId), Some(token)) in issued)
  }

  /** When a start in a browser that refuses nothing ends with `result`. */
  ghost predicate Results(s: Setup, h: Host, result: Result) {
    var responds := Listening(s, h) && SomeDue(s, ResponseDue());
    var lacksToken := responds && h.start.proxy.value.responseBodyToken == "";
    var markersIn := ComesUp(s, h) && (s.hasApi ==> Formed(s, MarkerDue(s)));
    var responsesIn := markersIn && !lacksToken && (responds ==> Formed(s, ResponseDue()));
    var mocks := SomeDue(s, MockDue());
    match result
    case Started =>
      responsesIn && (mocks ==> Listening(s, h) && EveryMockIssued(s, h) && Formed(s, MockDue()))
    case Thrown =>
      || (s.hasProject && s.validPolicy && (s.hasSend ==> h.projectSet == SetReply(true)) && !h.policyAccepted)
      || (ComesUp(s, h) && s.hasApi && !Formed(s, MarkerDue(s)))
      || (markersIn && !lacksToken && responds && !Formed(s, ResponseDue()))
      || (responsesIn && mocks && Listening(s, h) && EveryMockIssued(s, h) && !Formed(s, MockDue()))
    case Refused(reason) =>
      match reason
      case NoProject => !s.hasProject
      case InvalidPolicy => s.hasProject && !s.validPolicy
      case ProjectSetThrew => s.hasProject && s.validPolicy && s.hasSend && !h.projectSet.SetReply?
      case ProjectSetRefused => s.hasProject && s.validPolicy && s.hasSend && h.projectSet == SetReply(false)
      case StartRefused =>
        && s.hasProject && s.validPolicy && (s.hasSend ==> h.projectSet == SetReply(true)) && h.policyAccepted
        && h.start.StartRefusal?
      case ResponseTokenMissing => markersIn && lacksToken
      case ResponseInstallFailed => false
      case MockListenerUnavailable => responsesIn && mocks && !Listening(s, h)
      case MockConnectFailed => responsesIn && mocks && Listening(s, h) && h.mocks.None?
      case MockTokenMismatch => responsesIn && mocks && Listening(s, h) && h.mocks.Some? && !EveryMockIssued(s, h)
      case MockInstallFailed => false
  }

  // ----- the selections of the code

  lemma {:induction false} PickedIsChosen(ops: seq<SessionOp>, keep: SessionOp -> bool) returns (chosen: seq<SessionOp>)
    ensures Chosen(ops, keep, chosen) && Picked(ops, keep) == OpsOf(chosen)
  {
    hide Chosen;
    if ops == [] {
      chosen := [];
      NoneChosen(keep);
    } else {
      var n := |ops| - 1;
      var front := PickedIsChosen(ops[..n], keep);
      ChosenMore(ops[..n], keep, front, ops[n]);
      assert ops[..n] + [ops[n]] == ops;
      chosen := front + if keep(ops[n]) then [ops[n]] else [];
    }
  }

  lemma SameChosen(ops: seq<SessionOp>, keep: SessionOp -> bool, due: SessionOp -> bool, chosen: seq<SessionOp>)
    requires Chosen(ops, keep, chosen) && forall o :: keep(o) == due(o)
    ensures Chosen(ops, due, chosen)
  {
    var at: seq<nat> :| Lists(|ops|, At(ops, keep), at) && Taken(ops, at, chosen);
    SameDue(|ops|, At(ops, keep), At(ops, due), at);
  }

  lemma SelectedAreDue(s: Setup, keep: SessionOp -> bool, due: SessionOp -> bool)
    requires forall o :: keep(o) == due(o)
    ensures AreDue(s, due, Picked(s.ops, keep))
    ensures Picked(s.ops, keep) == [] <==> !SomeDue(s, due)
    ensures AllProjectable(Picked(s.ops, keep)) <==> Formed(s, due)
    ensures forall m :: m in Picked(s.ops, keep) <==> exists i :: 0 <= i < |s.ops| && due(s.ops[i]) && s.ops[i].op == m
  {
    hide Picked, Chosen;
    var held := Picked(s.ops, keep);
    var chosen := PickedIsChosen(s.ops, keep);
    SameChosen(s.ops, keep, due, chosen);
    ChosenMembers(s.ops, due, chosen);
    assert held == OpsOf(chosen);
    forall i | 0 <= i < |s.ops| && due(s.ops[i]) ensures s.ops[i] in chosen && s.ops[i].op in held {
      var k :| 0 <= k < |chosen| && chosen[k] == s.ops[i];
      assert held[k] == s.ops[i].op;
    }
    forall m | m in held ensures exists i :: 0 <= i < |s.ops| && due(s.ops[i]) && s.ops[i].op == m {
      var k :| 0 <= k < |held| && held[k] == m;
      assert chosen[k] in s.ops && due(chosen[k]);
      var i :| 0 <= i < |s.ops| && s.ops[i] == chosen[k];
    }
    assert held != [] ==> held[0] in held;
    assert forall k :: 0 <= k < |held| ==> held[k] in held;
  }

  /** The code's three selections are what is due. */
  lemma SelectionsAreDue(s: Setup)
    ensures AreDue(s, MarkerDue(s), MarkerOps(s)) && AreDue(s, ResponseDue(), ResponseOps(s)) && AreDue(s, MockDue(), MockOps(s))
    ensures (AllProjectable(MarkerOps(s)) <==> Formed(s, MarkerDue(s)))
            && (AllProjectable(ResponseOps(s)) <==> Formed(s, ResponseDue()))
            && (AllProjectable(MockOps(s)) <==> Formed(s, MockDue()))
    ensures (ResponseOps(s) == [] <==> !SomeDue(s, ResponseDue())) && (MockOps(s) == [] <==> !SomeDue(s, MockDue()))
    ensures !s.stripPath ==> MarkerOps(s) == []
    ensures forall m :: m in MockOps(s) <==> exists i :: 0 <= i < |s.ops| && MockDue()(s.ops[i]) && s.ops[i].op == m
  {
    hide Picked, AreDue, AllProjectable;
    SelectedAreDue(s, ResponsePick(), ResponseDue());
    SelectedAreDue(s, MockPick(), MockDue());
    if s.stripPath {
      SelectedAreDue(s, MarkerPick(s), MarkerDue(s));
    } else {
      NothingDue(s);
    }
  }

  lemma NothingDue(s: Setup)
    requires !s.stripPath
    ensures AreDue(s, MarkerDue(s), []) && Formed(s, MarkerDue(s)) && AllProjectable([])
  {
    assert Lists(|s.ops|, At(s.ops, MarkerDue(s)), []) && Taken<SessionOp>(s.ops, [], []);
    assert Chosen(s.ops, MarkerDue(s), []) && OpsOf([]) == [];
  }
}

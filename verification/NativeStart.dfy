/** `startNativeSession` and `stopNativeSession` (`packages/extension/src/native-session.ts:224-260,285-538`)
    with the install and remove helpers of the three session-rule bands. */
module NativeStart {
  import opened Options
  import opened MatchIndex
  import opened NativeSession
  import SessionContents

  // ----- what a stage may change, and what it leaves

  /** Rules outside the session bands, and index ids outside the body and mock bands, stay. */
  predicate ForeignStay(rules: Rules, index: Index, rulesAfter: Rules, indexAfter: Index) {
    && SameForeign(rules, rulesAfter)
    && (forall id :: id in index && !IsBodyBand(id) && !IsMockBand(id) ==> id in indexAfter)
    && (forall id :: id in indexAfter && !IsBodyBand(id) && !IsMockBand(id) ==> id in index)
  }

  /** The ids of the band in the index are those of `ops`, from `min` on, with their entries up to sanitising. */
  ghost predicate IndexHolds(san: Sanitizer, index: Index, mock: bool, ops: seq<Operation>, min: int) {
    && (forall id :: id in index && (if mock then IsMockBand(id) else IsBodyBand(id)) ==> Indexed(ops, min, id))
    && (forall id :: Indexed(ops, min, id) ==> id in index && LoggedFrom(san, RawEntry(ops[id - min]).value, index[id]))
  }

  ghost predicate MarkersAre(san: Sanitizer, rules: Rules, index: Index, ops: seq<Operation>) {
    && BandIs(rules, BodyBand, MarkerRules(ops))
    && IndexHolds(san, index, false, ops, BODY_MARKER_ID_MIN)
  }

  ghost predicate MocksAre(san: Sanitizer, rules: Rules, index: Index, pairs: seq<Pair>) {
    && BandIs(rules, MockBand, MockRules(pairs))
    && IndexHolds(san, index, true, Operations(pairs), MOCK_REDIRECT_ID_MIN)
  }

  function Operations(pairs: seq<Pair>): (ops: seq<Operation>)
    ensures |ops| == |pairs|
  {
    seq(|pairs|, i requires 0 <= i < |pairs| => pairs[i].op)
  }

  predicate NoMocks(rules: Rules, index: Index) { NoRule(rules, MockBand) && NoMockEntry(index) }

  predicate IsPairing(pairs: seq<Pair>, mocks: seq<Operation>) {
    |pairs| == |mocks| && forall i :: 0 <= i < |mocks| ==> pairs[i].op == mocks[i]
  }

  // ----- the browser's session rules

  class SessionBrowser {
    const present: bool
    const san: Sanitizer
    const faults: nat -> Fault
    const removalFails: nat -> bool
    var installs: nat
    var removals: nat
    var rules: Rules
    var index: Index

    ghost predicate RemovalsWork() { present && forall n: nat :: !removalFails(n) }

    /** Removals are assumed to succeed where the session-rule calls exist at all. */
    ghost predicate CanRemove() { present ==> RemovalsWork() }

    ghost predicate InstallsWork() { present && forall n: nat :: faults(n) == Works }

    ghost predicate Clean()
      reads this`rules, this`index
    {
      IsClean(rules, index)
    }

    /** Removing a band reads the live rules and drops the band's ids; any failure is swallowed. */
    method Remove(band: Band)
      modifies this`removals, this`rules
      ensures removals == old(removals) + 1
      ensures rules == if present && !removalFails(old(removals)) then WithoutBand(old(rules), band) else old(rules)
    {
      if present && !removalFails(removals) {
        rules := WithoutBand(rules, band);
      }
      removals := removals + 1;
    }

    /** Installing replaces the whole band in one update. Building a rule whose source has no browser form
        throws, after the live rules were read and before anything is changed. */
    method Install(band: Band, add: Rules, projectable: bool) returns (step: Step)
      modifies this`installs, this`rules
      ensures installs == old(installs) + 1
      ensures step == if !present || faults(old(installs)) == ReadFails then Failed
                      else if !projectable then Threw
                      else if faults(old(installs)) == UpdateFails then Failed
                      else Done
      ensures rules == if step == Done then WithoutBand(old(rules), band) + add else old(rules)
    {
      var fault := faults(installs);
      installs := installs + 1;
      if !present || fault == ReadFails {
        return Failed;
      }
      if !projectable {
        return Threw;
      }
      if fault == UpdateFails {
        return Failed;
      }
      rules := WithoutBand(rules, band) + add;
      step := Done;
    }

    method RemoveMarkers()
      modifies this`removals, this`rules, this`index
      ensures !present ==> rules == old(rules)
      ensures ForeignStay(old(rules), old(index), rules, index)
      ensures NoBodyEntry(index) && ((RemovalsWork() || old(NoRule(rules, BodyBand))) ==> NoRule(rules, BodyBand))
      ensures old(NoRule(rules, ResponseBand)) ==> NoRule(rules, ResponseBand)
      ensures old(NoMocks(rules, index)) ==> NoMocks(rules, index)
    {
      Remove(BodyBand);
      index := Sanitized(san, DropBody(index));
    }

    method RemoveResponses()
      modifies this`removals, this`rules
      ensures !present ==> rules == old(rules)
      ensures ForeignStay(old(rules), index, rules, index)
      ensures (RemovalsWork() || old(NoRule(rules, ResponseBand))) ==> NoRule(rules, ResponseBand)
      ensures old(NoRule(rules, BodyBand)) ==> NoRule(rules, BodyBand)
      ensures old(NoMocks(rules, index)) ==> NoMocks(rules, index)
    {
      Remove(ResponseBand);
    }

    method ClearMocks()
      modifies this`removals, this`rules, this`index
      ensures !present ==> rules == old(rules)
      ensures ForeignStay(old(rules), old(index), rules, index)
      ensures NoMockEntry(index) && ((RemovalsWork() || old(NoRule(rules, MockBand))) ==> NoMocks(rules, index))
      ensures old(NoRule(rules, ResponseBand)) ==> NoRule(rules, ResponseBand)
      ensures old(NoRule(rules, BodyBand)) ==> NoRule(rules, BodyBand)
      ensures old(NoBodyEntry(index)) ==> NoBodyEntry(index)
    {
      Remove(MockBand);
      index := Sanitized(san, DropMock(index));
    }

    /** `installSessionBodyMarkers`. */
    method InstallMarkers(ops: seq<Operation>) returns (threw: bool, placed: seq<Operation>)
      requires |ops| <= MAX_RULES_PER_PROJECT
      modifies this
      ensures ForeignStay(old(rules), old(index), rules, index)
      ensures threw ==> !AllProjectable(ops) && rules == old(rules) && index == old(index)
      ensures !threw && (RemovalsWork() || old(NoRule(rules, BodyBand))) ==>
                (placed == ops || placed == []) && MarkersAre(san, rules, index, placed)
      ensures InstallsWork() ==> (threw <==> !AllProjectable(ops)) && (!threw ==> placed == ops)
      ensures !present ==> placed == [] && rules == old(rules)
      ensures old(NoRule(rules, ResponseBand)) ==> NoRule(rules, ResponseBand)
      ensures old(NoMocks(rules, index)) ==> NoMocks(rules, index)
    {
      threw, placed := false, [];
      if ops == [] {
        RemoveMarkers();
        return;
      }
      var step := Install(BodyBand, MarkerRules(ops), AllProjectable(ops));
      match step {
        case Threw =>
          threw := true;
        case Failed =>
          RemoveMarkers();
        case Done =>
          MarkersPlaced(san, old(rules), old(index), ops);
          index := Sanitized(san, MergeBody(index, ops));
          placed := ops;
      }
    }

    /** `installResponseBodyRedirects`. */
    method InstallResponses(ops: seq<Operation>, token: string) returns (step: Step)
      requires |ops| <= MAX_RULES_PER_PROJECT
      modifies this`installs, this`rules
      ensures ForeignStay(old(rules), index, rules, index)
      ensures step == Threw ==> !AllProjectable(ops)
      ensures InstallsWork() ==> step == if AllProjectable(ops) then Done else Threw
      ensures step == Done ==> present && BandIs(rules, ResponseBand, ResponseRules(ops, token))
      ensures step != Done ==> rules == old(rules)
      ensures forall placed: seq<Operation> :: |placed| <= MAX_RULES_PER_PROJECT && old(MarkersAre(san, rules, index, placed)) ==>
                MarkersAre(san, rules, index, placed)
      ensures old(NoMocks(rules, index)) ==> NoMocks(rules, index)
    {
      step := Install(ResponseBand, ResponseRules(ops, token), AllProjectable(ops));
    }

    /** `installMockRedirects`, and the merge into the index once it worked. */
    method InstallMocks(pairs: seq<Pair>) returns (step: Step)
      requires |pairs| <= MAX_RULES_PER_PROJECT
      modifies this`installs, this`rules, this`index
      ensures step == Threw ==> !AllProjectable(Operations(pairs))
      ensures InstallsWork() ==> step == if AllProjectable(Operations(pairs)) then Done else Threw
      ensures step == Done ==> present && MocksAre(san, rules, index, pairs)
      ensures step != Done ==> rules == old(rules) && index == old(index)
      ensures step == Done ==> KeepsOtherBands(san, old(rules), old(index), rules, index)
    {
      step := Install(MockBand, MockRules(pairs), AllProjectable(Operations(pairs)));
      if step == Done {
        MocksPlaced(san, old(rules), old(index), pairs);
        index := Sanitized(san, MergeMock(index, Operations(pairs)));
      }
    }
  }

  lemma MarkersPlaced(san: Sanitizer, rules: Rules, index: Index, ops: seq<Operation>)
    requires |ops| <= MAX_RULES_PER_PROJECT
    ensures var rulesAfter, indexAfter := WithoutBand(rules, BodyBand) + MarkerRules(ops), Sanitized(san, MergeBody(index, ops));
            && ForeignStay(rules, index, rulesAfter, indexAfter)
            && MarkersAre(san, rulesAfter, indexAfter, ops)
            && (NoRule(rules, ResponseBand) ==> NoRule(rulesAfter, ResponseBand))
            && (NoMocks(rules, index) ==> NoMocks(rulesAfter, indexAfter))
  {
    hide LoggedFrom, IndexHolds;
    MarkerRulesPlaced(rules, ops);
    MarkerIndexPlaced(san, index, ops);
  }

  lemma MarkerRulesPlaced(rules: Rules, ops: seq<Operation>)
    requires |ops| <= MAX_RULES_PER_PROJECT
    ensures var rulesAfter := WithoutBand(rules, BodyBand) + MarkerRules(ops);
            BandIs(rulesAfter, BodyBand, MarkerRules(ops)) && SameOutside(rules, rulesAfter, BodyBand)
  {
  }

  lemma MarkerIndexPlaced(san: Sanitizer, index: Index, ops: seq<Operation>)
    requires |ops| <= MAX_RULES_PER_PROJECT
    ensures var indexAfter := Sanitized(san, MergeBody(index, ops));
            && IndexHolds(san, indexAfter, false, ops, BODY_MARKER_ID_MIN)
            && (forall id :: id in index && !IsBodyBand(id) ==> id in indexAfter)
            && (forall id :: id in indexAfter && !IsBodyBand(id) ==> id in index)
  {
    hide LoggedFrom;
    forall id | Indexed(ops, BODY_MARKER_ID_MIN, id)
      ensures LoggedFrom(san, RawEntry(ops[id - BODY_MARKER_ID_MIN]).value, san(RawEntry(ops[id - BODY_MARKER_ID_MIN]).value))
    {
      RawIsLogged(san, RawEntry(ops[id - BODY_MARKER_ID_MIN]).value);
    }
  }

  /** Rules outside the mock band stay, and so do the other ids of the index, sanitised once more. */
  ghost predicate KeepsOtherBands(san: Sanitizer, rules: Rules, index: Index, rulesAfter: Rules, indexAfter: Index) {
    && SameOutside(rules, rulesAfter, MockBand)
    && (forall id :: id in index && !IsMockBand(id) ==> id in indexAfter && indexAfter[id] == san(index[id]))
    && (forall id :: id in indexAfter && !IsMockBand(id) ==> id in index)
  }

  lemma MocksPlaced(san: Sanitizer, rules: Rules, index: Index, pairs: seq<Pair>)
    requires |pairs| <= MAX_RULES_PER_PROJECT
    ensures var rulesAfter := WithoutBand(rules, MockBand) + MockRules(pairs);
            var indexAfter := Sanitized(san, MergeMock(index, Operations(pairs)));
            MocksAre(san, rulesAfter, indexAfter, pairs) && KeepsOtherBands(san, rules, index, rulesAfter, indexAfter)
  {
    hide LoggedFrom;
    MockRulesPlaced(rules, pairs);
    MockIndexPlaced(san, index, Operations(pairs));
  }

  lemma MockRulesPlaced(rules: Rules, pairs: seq<Pair>)
    requires |pairs| <= MAX_RULES_PER_PROJECT
    ensures var rulesAfter := WithoutBand(rules, MockBand) + MockRules(pairs);
            BandIs(rulesAfter, MockBand, MockRules(pairs)) && SameOutside(rules, rulesAfter, MockBand)
  {
  }

  lemma MockIndexPlaced(san: Sanitizer, index: Index, ops: seq<Operation>)
    requires |ops| <= MAX_RULES_PER_PROJECT
    ensures var indexAfter := Sanitized(san, MergeMock(index, ops));
            && IndexHolds(san, indexAfter, true, ops, MOCK_REDIRECT_ID_MIN)
            && (forall id :: id in index && !IsMockBand(id) ==> id in indexAfter && indexAfter[id] == san(index[id]))
            && (forall id :: id in indexAfter && !IsMockBand(id) ==> id in index)
  {
    hide LoggedFrom;
    forall id | Indexed(ops, MOCK_REDIRECT_ID_MIN, id)
      ensures LoggedFrom(san, RawEntry(ops[id - MOCK_REDIRECT_ID_MIN]).value, san(RawEntry(ops[id - MOCK_REDIRECT_ID_MIN]).value))
    {
      RawIsLogged(san, RawEntry(ops[id - MOCK_REDIRECT_ID_MIN]).value);
    }
  }

  lemma OthersKept(san: Sanitizer, rules: Rules, index: Index, rulesAfter: Rules, indexAfter: Index, placed: seq<Operation>)
    requires KeepsOtherBands(san, rules, index, rulesAfter, indexAfter) && |placed| <= MAX_RULES_PER_PROJECT
    requires MarkersAre(san, rules, index, placed)
    ensures MarkersAre(san, rulesAfter, indexAfter, placed)
  {
    hide LoggedFrom;
    forall id | Indexed(placed, BODY_MARKER_ID_MIN, id)
      ensures LoggedFrom(san, RawEntry(placed[id - BODY_MARKER_ID_MIN]).value, indexAfter[id])
    {
      LoggedOnce(san, RawEntry(placed[id - BODY_MARKER_ID_MIN]).value, index[id]);
    }
  }

  // ----- the session

  predicate SetAccepted(s: Setup, h: Host) { s.hasSend ==> h.projectSet == SetReply(true) }

  /** How a start ends that does not get as far as a started runtime. */
  function EarlyFailure(s: Setup, h: Host): Option<Result> {
    if !s.hasProject then Some(Refused(NoProject))
    else if !s.validPolicy then Some(Refused(InvalidPolicy))
    else if s.hasSend && !h.projectSet.SetReply? then Some(Refused(ProjectSetThrew))
    else if !SetAccepted(s, h) then Some(Refused(ProjectSetRefused))
    else if !h.policyAccepted then Some(Thrown)
    else if h.start.StartRefusal? then Some(Refused(StartRefused))
    else None
  }

  /** Up to there the host was made to run. */
  predicate HostReached(s: Setup, h: Host) {
    && s.hasProject && s.validPolicy
    && (if s.hasSend then h.projectSet == SetReply(true) || h.projectSet == NoReply(true)
        else h.policyAccepted && h.start.StartsUp?)
  }

  /** Up to there a port was opened and is still open. */
  predicate PortOpened(s: Setup, h: Host) {
    && s.hasProject && s.validPolicy
    && (|| (s.hasSend && h.projectSet != NoConnection)
        || (SetAccepted(s, h) && h.policyAccepted && (h.start.StartsUp? || h.start.connected)))
  }

  /** A response-body rule needs the token the runtime's proxy reports. */
  predicate MissesToken(s: Setup, h: Host)
    requires HasListener(s, h)
  {
    ResponseOps(s) != [] && h.start.proxy.value.responseBodyToken == ""
  }

  ghost predicate AllPaired(h: Host, mocks: seq<Operation>)
    requires h.mocks.Some?
  {
    WellIssued(h.mocks.value) && forall i :: 0 <= i < |mocks| ==> HasToken(h.mocks.value, mocks[i].ruleId)
  }

  /** The result of a start in a browser that refuses nothing. */
  ghost function Outcome(s: Setup, h: Host): Result {
    if EarlyFailure(s, h).Some? then EarlyFailure(s, h).value
    else if s.hasApi && !AllProjectable(MarkerOps(s)) then Thrown
    else if WantsListener(s) && HasListener(s, h) && MissesToken(s, h) then Refused(ResponseTokenMissing)
    else if WantsListener(s) && HasListener(s, h) && !AllProjectable(ResponseOps(s)) then Thrown
    else if MockOps(s) == [] then Started
    else if !HasListener(s, h) then Refused(MockListenerUnavailable)
    else if h.mocks.None? then Refused(MockConnectFailed)
    else if !AllPaired(h, MockOps(s)) then Refused(MockTokenMismatch)
    else if !AllProjectable(MockOps(s)) then Thrown
    else Started
  }

  /** The markers are all in, or there are none. */
  ghost predicate SomeMarkers(san: Sanitizer, s: Setup, rules: Rules, index: Index) {
    MarkersAre(san, rules, index, []) || MarkersAre(san, rules, index, MarkerOps(s))
  }

  /** What a session that started has in its bands. Response-body rules go in for every group; they are
      left out, without an error, when there is no listener to send them to. */
  ghost predicate Installed(san: Sanitizer, s: Setup, h: Host, rules: Rules, index: Index) {
    && SomeMarkers(san, s, rules, index)
    && ResponsesIn(s, h, rules)
    && (if MockOps(s) == [] then NoMocks(rules, index)
        else exists pairs: seq<Pair> ::
               && IsPairing(pairs, MockOps(s)) && MocksAre(san, rules, index, pairs)
               && h.mocks.Some? && forall i :: 0 <= i < |pairs| ==> IssuedAs(h.mocks.value, pairs[i].op.ruleId, pairs[i].token))
  }

  class Session {
    const browser: SessionBrowser
    const setup: Setup
    const host: Host
    /** What `status()` reports: a port is open. */
    var connected: bool
    /** The host has loaded a project and runs. */
    var hostRuns: bool

    constructor (browser: SessionBrowser, setup: Setup, host: Host)
      ensures this.browser == browser && this.setup == setup && this.host == host && !connected && !hostRuns
    {
      this.browser, this.setup, this.host, this.connected, this.hostRuns := browser, setup, host, false, false;
    }

    method RollbackBodyMarkers()
      modifies browser
      ensures ForeignStay(old(browser.rules), old(browser.index), browser.rules, browser.index)
      ensures setup.hasApi ==> NoBodyEntry(browser.index)
      ensures ((setup.hasApi && browser.RemovalsWork()) || old(NoRule(browser.rules, BodyBand))) ==>
                NoRule(browser.rules, BodyBand)
      ensures old(NoBodyEntry(browser.index)) ==> NoBodyEntry(browser.index)
      ensures old(NoRule(browser.rules, ResponseBand)) ==> NoRule(browser.rules, ResponseBand)
      ensures old(NoMocks(browser.rules, browser.index)) ==> NoMocks(browser.rules, browser.index)
    {
      if setup.hasApi {
        browser.RemoveMarkers();
      }
    }

    /** The runtime's own stop: over an open port the host is told to stop, and the port is forgotten. */
    method StopRuntime()
      modifies this`connected, this`hostRuns
      ensures !connected && (hostRuns <==> old(hostRuns) && !(old(connected) && host.obeysStop))
    {
      if connected && host.obeysStop {
        hostRuns := false;
      }
      connected := false;
    }

    method StopSession()
      modifies this`connected, this`hostRuns, browser
      ensures !connected && (hostRuns <==> old(hostRuns) && !(old(connected) && host.obeysStop))
      ensures ForeignStay(old(browser.rules), old(browser.index), browser.rules, browser.index)
      ensures setup.hasApi && browser.RemovalsWork() ==> browser.Clean()
    {
      if setup.hasApi {
        browser.ClearMocks();
        browser.RemoveResponses();
      }
      RollbackBodyMarkers();
      StopRuntime();
    }

    /** From the project to a started runtime; nothing is installed yet. */
    method StartRuntime() returns (failure: Option<Result>)
      modifies this`connected, this`hostRuns, browser
      ensures ForeignStay(old(browser.rules), old(browser.index), browser.rules, browser.index)
      ensures failure == EarlyFailure(setup, host)
      ensures hostRuns <==> old(hostRuns) || HostReached(setup, host)
      ensures connected <==> old(connected) || PortOpened(setup, host)
      ensures failure.None? ==> browser.rules == old(browser.rules) && browser.index == old(browser.index)
      ensures old(browser.Clean()) ==> browser.Clean()
    {
      if !setup.hasProject {
        return Some(Refused(NoProject));
      }
      if !setup.validPolicy {
        RollbackBodyMarkers();
        return Some(Refused(InvalidPolicy));
      }
      if setup.hasSend {
        if host.projectSet.NoConnection? {
          RollbackBodyMarkers();
          return Some(Refused(ProjectSetThrew));
        }
        connected := true;
        if host.projectSet.NoReply? {
          hostRuns := hostRuns || host.projectSet.hostStarted;
          RollbackBodyMarkers();
          return Some(Refused(ProjectSetThrew));
        }
        if !host.projectSet.accepted {
          RollbackBodyMarkers();
          return Some(Refused(ProjectSetRefused));
        }
        hostRuns := true;
      }
      if !host.policyAccepted {
        return Some(Thrown);
      }
      if host.start.StartRefusal? {
        connected := connected || host.start.connected;
        RollbackBodyMarkers();
        return Some(Refused(StartRefused));
      }
      connected, hostRuns := true, true;
      failure := None;
    }

    /** Undoes whatever a start has installed so far, and stops the runtime. */
    method Undo(mocks: bool)
      modifies this`connected, this`hostRuns, browser
      ensures !connected && (hostRuns <==> old(hostRuns) && !(old(connected) && host.obeysStop))
      ensures ForeignStay(old(browser.rules), old(browser.index), browser.rules, browser.index)
      ensures (browser.CanRemove() && (mocks || old(NoMocks(browser.rules, browser.index))) && old(Removable())) ==>
                browser.Clean()
    {
      if setup.hasApi {
        if mocks {
          browser.ClearMocks();
        }
        browser.RemoveResponses();
      }
      RollbackBodyMarkers();
      StopRuntime();
    }

    /** The runtime was stopped, or it was left alone. */
    twostate predicate UndoneIf(undone: bool)
      reads this
    {
      if undone then !connected && (hostRuns <==> old(hostRuns) && !(old(connected) && host.obeysStop))
      else connected == old(connected) && hostRuns == old(hostRuns)
    }

    /** Whatever cannot be removed is not there. */
    ghost predicate Removable()
      reads this, browser
    {
      && (!setup.hasApi ==> browser.Clean())
      && (!browser.present ==> NoRule(browser.rules, BodyBand) && NoRule(browser.rules, ResponseBand)
                               && NoRule(browser.rules, MockBand))
    }

    /** All wanted markers are in. */
    ghost predicate FullMarkers()
      reads this, browser
    {
      MarkersAre(browser.san, browser.rules, browser.index, MarkerOps(setup))
    }

    ghost predicate Staged()
      reads this, browser
    {
      && SomeMarkers(browser.san, setup, browser.rules, browser.index)
      && NoRule(browser.rules, ResponseBand) && NoMocks(browser.rules, browser.index) && Removable()
    }

    ghost predicate ResponsesStaged()
      reads this, browser
    {
      && SomeMarkers(browser.san, setup, browser.rules, browser.index)
      && ResponsesIn(setup, host, browser.rules) && NoMocks(browser.rules, browser.index) && Removable()
    }

    method SyncMarkers() returns (threw: bool)
      requires |setup.ops| <= MAX_RULES_PER_PROJECT
      modifies browser
      ensures ForeignStay(old(browser.rules), old(browser.index), browser.rules, browser.index)
      ensures threw ==> setup.hasApi && !AllProjectable(MarkerOps(setup))
      ensures !threw && old(browser.Clean()) ==> Staged()
      ensures browser.InstallsWork() && setup.hasApi ==> (threw <==> !AllProjectable(MarkerOps(setup)))
      ensures browser.InstallsWork() && setup.hasApi && !threw && old(browser.Clean()) ==> FullMarkers()
    {
      hide MarkersAre, MarkerOps;
      MarkerOpsShort(setup);
      threw := false;
      if setup.hasApi {
        var placed: seq<Operation>;
        threw, placed := browser.InstallMarkers(MarkerOps(setup));
      } else {
        NothingPlaced(browser.san, browser.rules, browser.index);
      }
    }

    method ResponseStage() returns (failure: Option<Result>)
      requires |setup.ops| <= MAX_RULES_PER_PROJECT
      requires EarlyFailure(setup, host).None?
      modifies this`connected, this`hostRuns, browser
      ensures ForeignStay(old(browser.rules), old(browser.index), browser.rules, browser.index)
      ensures UndoneIf(failure.Some? && failure.value.Refused?)
      ensures failure.None? && old(Staged()) ==> ResponsesStaged()
      ensures failure.None? && old(FullMarkers()) ==> FullMarkers()
      ensures failure.Some? ==> !failure.value.Started?
      ensures failure.Some? && failure.value.Refused? ==>
                (browser.CanRemove() && old(Staged()) ==> browser.Clean())
      ensures failure == Some(Thrown) ==> !AllProjectable(ResponseOps(setup))
      ensures browser.InstallsWork() ==>
                failure == if !(WantsListener(setup) && HasListener(setup, host)) then None
                           else if MissesToken(setup, host) then Some(Refused(ResponseTokenMissing))
                           else if !AllProjectable(ResponseOps(setup)) then Some(Thrown)
                           else None
    {
      hide MarkersAre, MarkerOps, ResponseOps, MockOps, BandIs, NoMocks;
      MarkerOpsShort(setup);
      if WantsListener(setup) && HasListener(setup, host) {
        var responseOps, token := ResponseOps(setup), host.start.proxy.value.responseBodyToken;
        if responseOps != [] && token == "" {
          Undo(false);
          return Some(Refused(ResponseTokenMissing));
        }
        var step := browser.InstallResponses(responseOps, token);
        match step {
          case Threw =>
            return Some(Thrown);
          case Failed =>
            Undo(false);
            return Some(Refused(ResponseInstallFailed));
          case Done =>
        }
      }
      failure := None;
    }

    method MockStage() returns (failure: Option<Result>)
      requires |setup.ops| <= MAX_RULES_PER_PROJECT
      requires EarlyFailure(setup, host).None?
      modifies this`connected, this`hostRuns, browser
      ensures ForeignStay(old(browser.rules), old(browser.index), browser.rules, browser.index)
      ensures UndoneIf(failure.Some? && failure.value.Refused?)
      ensures failure.None? && old(FullMarkers()) ==> FullMarkers()
      ensures failure.None? && old(ResponsesStaged()) ==>
                Installed(browser.san, setup, host, browser.rules, browser.index)
      ensures failure.Some? ==> !failure.value.Started?
      ensures failure.Some? && failure.value.Refused? ==>
                (browser.CanRemove() && old(ResponsesStaged()) ==> browser.Clean())
      ensures failure == Some(Thrown) ==> !AllProjectable(MockOps(setup))
      ensures browser.InstallsWork() ==>
                failure == if MockOps(setup) == [] then None
                           else if !HasListener(setup, host) then Some(Refused(MockListenerUnavailable))
                           else if host.mocks.None? then Some(Refused(MockConnectFailed))
                           else if !AllPaired(host, MockOps(setup)) then Some(Refused(MockTokenMismatch))
                           else if !AllProjectable(MockOps(setup)) then Some(Thrown)
                           else None
    {
      hide MarkersAre, MocksAre, MarkerOps, ResponseOps, MockOps, BandIs, NoMocks, KeepsOtherBands, AllProjectable;
      MarkerOpsShort(setup);
      var mockOps := MockOps(setup);
      if mockOps == [] {
        return None;
      }
      if !HasListener(setup, host) {
        Undo(true);
        return Some(Refused(MockListenerUnavailable));
      }
      if host.mocks.None? {
        Undo(true);
        return Some(Refused(MockConnectFailed));
      }
      var paired := PairMocks(mockOps, host.mocks.value);
      if |paired| != |mockOps| {
        Undo(true);
        return Some(Refused(MockTokenMismatch));
      }
      PairedOperations(paired, mockOps);
      var step := browser.InstallMocks(paired);
      match step {
        case Threw =>
          return Some(Thrown);
        case Failed =>
          Undo(true);
          return Some(Refused(MockInstallFailed));
        case Done =>
          ForeignKept(browser.san, old(browser.rules), old(browser.index), browser.rules, browser.index);
          if old(FullMarkers()) {
            OthersKept(browser.san, old(browser.rules), old(browser.index), browser.rules, browser.index, MarkerOps(setup));
          }
          if old(ResponsesStaged()) {
            MarkersKept(browser.san, setup, host, old(browser.rules), old(browser.index), browser.rules, browser.index);
          }
          failure := None;
      }
    }

    /** From a clean state a refused start leaves no session rule and no body or mock entry; a start that
        reports success had every answer it needs, and leaves exactly its rules and a running host. Whether
        a refusal also leaves the host stopped depends on how far it came: an early one undoes nothing at
        the host, a late one stops it. A throw undoes nothing either. In a browser that refuses nothing the
        result is `Outcome`. Rules and index entries of others are never touched. */
    method Start() returns (result: Result)
      requires |setup.ops| <= MAX_RULES_PER_PROJECT
      modifies this`connected, this`hostRuns, browser
      ensures ForeignStay(old(browser.rules), old(browser.index), browser.rules, browser.index)
      ensures EarlyFailure(setup, host).Some? ==> result == EarlyFailure(setup, host).value
      ensures result.Started? ==>
                setup.hasProject && setup.validPolicy && SetAccepted(setup, host) && host.policyAccepted && host.start.StartsUp?
      ensures old(browser.Clean()) && browser.CanRemove() && result.Refused? ==> browser.Clean()
      ensures old(browser.Clean()) && result.Started? ==>
                connected && hostRuns && Installed(browser.san, setup, host, browser.rules, browser.index)
                && (browser.InstallsWork() && setup.hasApi ==> FullMarkers())
      ensures old(browser.Clean()) && result.Started? ==>
                SessionContents.Holds(browser.san, setup, host, browser.InstallsWork() && setup.hasApi,
                                      browser.rules, browser.index)
      ensures browser.InstallsWork() ==> SessionContents.Results(setup, host, result)
      ensures EarlyFailure(setup, host).Some? ==>
                && (hostRuns <==> old(hostRuns) || HostReached(setup, host))
                && (connected <==> old(connected) || PortOpened(setup, host))
      ensures EarlyFailure(setup, host).None? && result.Refused? ==> !connected && (hostRuns <==> !host.obeysStop)
      ensures EarlyFailure(setup, host).None? && result.Thrown? ==> connected && hostRuns && !AllHaveForm(setup)
      ensures browser.InstallsWork() ==> result == Outcome(setup, host)
    {
      hide Installed, MarkerOps, ResponseOps, MockOps, AllProjectable, SomeMarkers, ResponsesIn, MarkersAre, ForeignStay,
           HasListener, WantsListener, MissesToken, AllPaired, NoMocks, NoRule, NoBodyEntry, NoMockEntry,
           SessionContents.Holds, SessionContents.Results;
      OutcomeMeans(setup, host);
      var failure := StartRuntime();
      if failure.Some? {
        return failure.value;
      }
      StartedReached(setup, host);
      label Ran:
      var threw := SyncMarkers();
      ForeignStayTwice(old(browser.rules), old(browser.index), old@Ran(browser.rules), old@Ran(browser.index),
                       browser.rules, browser.index);
      if threw {
        return Thrown;
      }
      label Synced:
      failure := ResponseStage();
      ForeignStayTwice(old(browser.rules), old(browser.index), old@Synced(browser.rules), old@Synced(browser.index),
                       browser.rules, browser.index);
      if failure.Some? {
        return failure.value;
      }
      label Redirected:
      failure := MockStage();
      ForeignStayTwice(old(browser.rules), old(browser.index), old@Redirected(browser.rules), old@Redirected(browser.index),
                       browser.rules, browser.index);
      if failure.Some? {
        return failure.value;
      }
      result := Started;
      if old(browser.Clean()) {
        InstalledHolds(browser.san, setup, host, browser.InstallsWork() && setup.hasApi, browser.rules, browser.index);
      }
    }
  }

  lemma ForeignStayTwice(rules: Rules, index: Index, rules1: Rules, index1: Index, rules2: Rules, index2: Index)
    requires ForeignStay(rules, index, rules1, index1) && ForeignStay(rules1, index1, rules2, index2)
    ensures ForeignStay(rules, index, rules2, index2)
  {
  }

  lemma StartedReached(s: Setup, h: Host)
    requires EarlyFailure(s, h).None?
    ensures HostReached(s, h) && PortOpened(s, h)
  {
  }

  // ----- what a started session holds, and how a start ends, said of setup and host

  lemma MarkersAreHeld(san: Sanitizer, rules: Rules, index: Index, held: seq<Operation>)
    requires MarkersAre(san, rules, index, held) && |held| <= MAX_RULES_PER_PROJECT
    requires forall i :: 0 <= i < |held| ==> IsBodyKind(held[i].kind)
    ensures SessionContents.MarkersHeld(san, rules, index, held)
  {
    hide LoggedFrom;
  }

  lemma ResponsesAreHeld(rules: Rules, held: seq<Operation>, token: string)
    requires BandIs(rules, ResponseBand, ResponseRules(held, token)) && |held| <= MAX_RULES_PER_PROJECT
    ensures SessionContents.ResponsesHeld(rules, held, token)
  {
  }

  lemma MocksAreHeld(san: Sanitizer, h: Host, rules: Rules, index: Index, pairs: seq<Pair>, held: seq<Operation>)
    requires MocksAre(san, rules, index, pairs) && IsPairing(pairs, held) && 0 < |held| <= MAX_RULES_PER_PROJECT
    requires h.mocks.Some? && forall i :: 0 <= i < |pairs| ==> IssuedAs(h.mocks.value, pairs[i].op.ruleId, pairs[i].token)
    requires forall i :: 0 <= i < |held| ==> held[i].kind == Mock
    ensures SessionContents.MocksHeld(san, h, rules, index, held)
  {
    hide LoggedFrom;
    assert Operations(pairs) == held;
    forall id | 5_000_001 <= id <= 5_999_999 && id - 5_000_001 < |held|
      ensures id in rules && SessionContents.MockWithToken(h, rules[id], held[id - 5_000_001])
    {
      assert MockRules(pairs)[id] == MockRedirect(pairs[id - 5_000_001]);
    }
  }

  lemma NoMocksHeld(san: Sanitizer, h: Host, rules: Rules, index: Index)
    requires NoMocks(rules, index)
    ensures SessionContents.MocksHeld(san, h, rules, index, [])
  {
  }

  lemma KindsPicked(s: Setup)
    ensures forall i :: 0 <= i < |MarkerOps(s)| ==> IsBodyKind(MarkerOps(s)[i].kind)
    ensures forall i :: 0 <= i < |MockOps(s)| ==> MockOps(s)[i].kind == Mock
  {
    hide Picked;
    PickedKinds(s.ops, MarkerPick(s), (o: Operation) => IsBodyKind(o.kind));
    PickedKinds(s.ops, MockPick(), (o: Operation) => o.kind == Mock);
  }

  lemma {:induction false} PickedKinds(ops: seq<SessionOp>, keep: SessionOp -> bool, fits: Operation -> bool)
    requires forall o :: keep(o) ==> fits(o.op)
    ensures forall i :: 0 <= i < |Picked(ops, keep)| ==> fits(Picked(ops, keep)[i])
    decreases |ops|
  {
    if ops != [] {
      PickedKinds(ops[..|ops| - 1], keep, fits);
    }
  }

  lemma InstalledHolds(san: Sanitizer, s: Setup, h: Host, full: bool, rules: Rules, index: Index)
    requires Installed(san, s, h, rules, index) && |s.ops| <= MAX_RULES_PER_PROJECT
    requires full ==> MarkersAre(san, rules, index, MarkerOps(s))
    ensures SessionContents.Holds(san, s, h, full, rules, index)
  {
    hide MarkersAre, MocksAre, MarkerOps, ResponseOps, MockOps, BandIs, NoMocks, SessionContents.AreDue, SessionContents.MarkersHeld,
         SessionContents.ResponsesHeld, SessionContents.MocksHeld;
    MarkerOpsShort(s);
    KindsPicked(s);
    SessionContents.SelectionsAreDue(s);
    MarkersIn(san, s, rules, index);
    ResponsesOfSession(s, h, rules);
    if MockOps(s) == [] {
      NoMocksHeld(san, h, rules, index);
    } else {
      var pairs: seq<Pair> :| IsPairing(pairs, MockOps(s)) && MocksAre(san, rules, index, pairs)
        && h.mocks.Some? && forall i :: 0 <= i < |pairs| ==> IssuedAs(h.mocks.value, pairs[i].op.ruleId, pairs[i].token);
      MocksAreHeld(san, h, rules, index, pairs, MockOps(s));
    }
  }

  lemma MarkersIn(san: Sanitizer, s: Setup, rules: Rules, index: Index)
    requires SomeMarkers(san, s, rules, index) && |s.ops| <= MAX_RULES_PER_PROJECT
    ensures MarkersAre(san, rules, index, MarkerOps(s)) ==> SessionContents.MarkersHeld(san, rules, index, MarkerOps(s))
    ensures SessionContents.MarkersHeld(san, rules, index, MarkerOps(s)) || SessionContents.MarkersHeld(san, rules, index, [])
  {
    hide MarkersAre, MarkerOps, SessionContents.MarkersHeld;
    MarkerOpsShort(s);
    KindsPicked(s);
    if MarkersAre(san, rules, index, MarkerOps(s)) {
      MarkersAreHeld(san, rules, index, MarkerOps(s));
    } else {
      MarkersAreHeld(san, rules, index, []);
    }
  }

  lemma ResponsesOfSession(s: Setup, h: Host, rules: Rules)
    requires ResponsesIn(s, h, rules) && |s.ops| <= MAX_RULES_PER_PROJECT
    ensures if SessionContents.Listening(s, h)
            then SessionContents.ResponsesHeld(rules, ResponseOps(s), h.start.proxy.value.responseBodyToken)
            else SessionContents.ResponsesHeld(rules, [], "")
  {
    hide ResponseOps, MockOps;
    MarkerOpsShort(s);
    if WantsListener(s) && HasListener(s, h) {
      ResponsesAreHeld(rules, ResponseOps(s), h.start.proxy.value.responseBodyToken);
    }
  }

  /** `Outcome` is the one result that setup and host allow. */
  lemma OutcomeMeans(s: Setup, h: Host)
    ensures forall result :: SessionContents.Results(s, h, result) <==> result == Outcome(s, h)
  {
    hide MarkerOps, ResponseOps, MockOps, AllProjectable, SessionContents.Formed, SessionContents.SomeDue,
         SessionContents.EveryMockIssued, SessionContents.AreDue, AllPaired;
    SessionContents.SelectionsAreDue(s);
    MarkerOpsShort(s);
    PairedIsIssued(s, h);
  }

  lemma PairedIsIssued(s: Setup, h: Host)
    ensures SessionContents.EveryMockIssued(s, h) <==> h.mocks.Some? && AllPaired(h, MockOps(s))
  {
    hide MockOps;
    SessionContents.SelectionsAreDue(s);
    if h.mocks.None? {
      return;
    }
    var issued, mocks := h.mocks.value, MockOps(s);
    if AllPaired(h, mocks) {
      forall i | 0 <= i < |s.ops| && SessionContents.MockDue()(s.ops[i])
        ensures exists token :: Issued(Some(s.ops[i].op.ruleId), Some(token)) in issued
      {
        assert s.ops[i].op in mocks;
        var k :| 0 <= k < |mocks| && mocks[k] == s.ops[i].op;
        assert HasToken(issued, mocks[k].ruleId);
      }
    }
    if SessionContents.EveryMockIssued(s, h) {
      forall k | 0 <= k < |mocks| ensures HasToken(issued, mocks[k].ruleId) {
        assert mocks[k] in mocks;
        var i :| 0 <= i < |s.ops| && SessionContents.MockDue()(s.ops[i]) && s.ops[i].op == mocks[k];
        var token :| Issued(Some(s.ops[i].op.ruleId), Some(token)) in issued;
        assert IssuedAs(issued, mocks[k].ruleId, token);
      }
    }
  }

  /** A clean state has no rule in any of the three bands and no body or mock entry. */
  lemma CleanMeans(rules: Rules, index: Index)
    ensures IsClean(rules, index) <==>
            && (forall id :: 3_000_001 <= id <= 6_000_000 ==> id !in rules)
            && forall id :: 3_000_001 <= id <= 4_000_000 || 5_000_001 <= id <= 6_000_000 ==> id !in index
  {
  }

  // ----- what a refused or thrown start leaves at the host

  /** Something a caller can tell from the answers: the refusal comes before the host hears of the project,
      or after the runtime has started, when everything is undone. */
  predicate LeavesStopped(s: Setup, h: Host) {
    || !s.hasProject || !s.validPolicy
    || (s.hasSend && h.projectSet == NoConnection)
    || (!s.hasSend && h.policyAccepted && h.start == StartRefusal(false))
    || EarlyFailure(s, h).None?
  }

  /** An early refusal leaves neither a running host nor an open port exactly in those cases. */
  lemma EarlyRefusalStopped(s: Setup, h: Host)
    requires EarlyFailure(s, h).Some? && EarlyFailure(s, h).value.Refused?
    ensures !HostReached(s, h) && !PortOpened(s, h) <==> LeavesStopped(s, h)
    ensures HostReached(s, h) <==>
              s.hasSend && (h.projectSet == NoReply(true) || EarlyFailure(s, h) == Some(Refused(StartRefused)))
              && s.hasProject && s.validPolicy
  {
  }

  /** What an early end leaves at the host, end by end. */
  lemma EarlyEndLeaves(s: Setup, h: Host)
    ensures var runs, open := HostReached(s, h), PortOpened(s, h);
            match EarlyFailure(s, h)
            case None => runs && open
            case Some(Refused(NoProject)) => !s.hasProject && !runs && !open
            case Some(Refused(InvalidPolicy)) => s.hasProject && !s.validPolicy && !runs && !open
            case Some(Refused(ProjectSetThrew)) =>
              s.hasSend && (runs <==> h.projectSet == NoReply(true)) && (open <==> h.projectSet != NoConnection)
            case Some(Refused(ProjectSetRefused)) => s.hasSend && h.projectSet == SetReply(false) && !runs && open
            case Some(Refused(StartRefused)) =>
              h.start.StartRefusal? && (runs <==> s.hasSend) && (open <==> s.hasSend || h.start == StartRefusal(true))
            case Some(Thrown) => !h.policyAccepted && (runs <==> s.hasSend) && (open <==> s.hasSend)
            case _ => false
  {
  }

  /** The refusal the host survives: the project was accepted, so the host runs, and then the runtime's own
      start is refused, for instance because interception stays inactive. */
  lemma RefusedStartLeavesHostRunning(s: Setup, h: Host)
    requires s.hasProject && s.validPolicy && s.hasSend && h.policyAccepted
    requires h.projectSet == SetReply(true) && h.start.StartRefusal?
    ensures EarlyFailure(s, h) == Some(Refused(StartRefused))
    ensures HostReached(s, h) && PortOpened(s, h) && !LeavesStopped(s, h)
  {
  }

  /** Everything answers well: nothing in the way of a start but rules without a browser form. */
  ghost predicate AllGoesWell(s: Setup, h: Host) {
    && EarlyFailure(s, h).None? && HasListener(s, h) && h.start.proxy.value.responseBodyToken != ""
    && h.mocks.Some? && AllPaired(h, MockOps(s))
  }

  ghost predicate AllHaveForm(s: Setup) {
    AllProjectable(MarkerOps(s)) && AllProjectable(ResponseOps(s)) && AllProjectable(MockOps(s))
  }

  /** When nothing else is in the way a start succeeds exactly if every rule has a browser form, and throws
      otherwise. */
  lemma WellStartsIffFormed(s: Setup, h: Host)
    requires AllGoesWell(s, h)
    ensures Outcome(s, h) == if AllHaveForm(s) then Started else Thrown
  {
    hide MarkerOps, ResponseOps, MockOps;
  }

  /** Such a throw happens: one response-body rule whose source has no browser form is enough. */
  lemma UnformedRuleThrows()
    ensures exists s: Setup, h: Host :: AllGoesWell(s, h) && !AllHaveForm(s) && Outcome(s, h) == Thrown
  {
    var op := Operation(ResponseBody, "r", false, false, 0);
    var s := Setup(true, true, [SessionOp(op, true)], true, true, false, true, true);
    var h := Host(SetReply(true), Some("d"), true, StartsUp(Some(Proxy(Some(1), "t"))), Some([]), true);
    assert s.ops[..0] == [];
    assert Picked([], ResponsePick()) == [] && Picked([], MockPick()) == [];
    assert ResponseOps(s) == [op] && MockOps(s) == [];
    assert AllPaired(h, []);
    WellStartsIffFormed(s, h);
    assert !AllProjectable(ResponseOps(s)) by {
      assert !ResponseOps(s)[0].projectable;
    }
  }

  predicate ResponsesIn(s: Setup, h: Host, rules: Rules) {
    if WantsListener(s) && HasListener(s, h)
    then BandIs(rules, ResponseBand, ResponseRules(ResponseOps(s), h.start.proxy.value.responseBodyToken))
    else NoRule(rules, ResponseBand)
  }

  /** What a started session with every group switched off has in its bands: no marker and no mock, but every
      response-body rule of the project. */
  lemma DisabledGroupsStillRespond(san: Sanitizer, s: Setup, h: Host, rules: Rules, index: Index)
    requires Installed(san, AllDisabled(s), h, rules, index) && HasListener(s, h) && ResponseOps(s) != []
    ensures NoRule(rules, BodyBand) && NoBodyEntry(index) && NoMocks(rules, index)
    ensures BandIs(rules, ResponseBand, ResponseRules(ResponseOps(s), h.start.proxy.value.responseBodyToken))
  {
    hide Picked, LoggedFrom, BandIs, NoMocks;
    DisabledSelections(s);
    assert MarkersAre(san, rules, index, []);
    NoMarkersPlaced(san, rules, index);
  }

  lemma NoMarkersPlaced(san: Sanitizer, rules: Rules, index: Index)
    requires MarkersAre(san, rules, index, [])
    ensures NoRule(rules, BodyBand) && NoBodyEntry(index)
  {
  }

  lemma DisabledSelections(s: Setup)
    ensures ResponseOps(AllDisabled(s)) == ResponseOps(s)
    ensures MarkerOps(AllDisabled(s)) == [] && MockOps(AllDisabled(s)) == []
  {
    hide Picked;
    SamePicked(AllDisabled(s).ops, s.ops, ResponsePick());
    NothingPicked(AllDisabled(s).ops, MarkerPick(AllDisabled(s)));
    NothingPicked(AllDisabled(s).ops, MockPick());
  }

  lemma {:induction false} SamePicked(a: seq<SessionOp>, b: seq<SessionOp>, keep: SessionOp -> bool)
    requires |a| == |b| && forall i :: 0 <= i < |a| ==> a[i].op == b[i].op && keep(a[i]) == keep(b[i])
    ensures Picked(a, keep) == Picked(b, keep)
    decreases |a|
  {
    if a != [] {
      SamePicked(a[..|a| - 1], b[..|b| - 1], keep);
    }
  }

  lemma {:induction false} NothingPicked(a: seq<SessionOp>, keep: SessionOp -> bool)
    requires forall i :: 0 <= i < |a| ==> !keep(a[i])
    ensures Picked(a, keep) == []
    decreases |a|
  {
    if a != [] {
      NothingPicked(a[..|a| - 1], keep);
    }
  }

  function AllDisabled(s: Setup): Setup {
    s.(ops := seq(|s.ops|, i requires 0 <= i < |s.ops| => s.ops[i].(enabled := false)))
  }

  lemma MarkerOpsShort(s: Setup)
    ensures |MarkerOps(s)| <= |s.ops| && |ResponseOps(s)| <= |s.ops| && |MockOps(s)| <= |s.ops|
    ensures MockOps(s) == [] ==> AllProjectable(MockOps(s))
    ensures ResponseOps(s) == [] ==> AllProjectable(ResponseOps(s))
  {
  }

  lemma PairedOperations(pairs: seq<Pair>, mocks: seq<Operation>)
    requires |pairs| == |mocks| && forall i :: 0 <= i < |mocks| ==> pairs[i].op == mocks[i]
    ensures Operations(pairs) == mocks
  {
  }

  lemma ForeignKept(san: Sanitizer, rules: Rules, index: Index, rulesAfter: Rules, indexAfter: Index)
    requires KeepsOtherBands(san, rules, index, rulesAfter, indexAfter)
    ensures ForeignStay(rules, index, rulesAfter, indexAfter)
  {
  }

  lemma MarkersKept(san: Sanitizer, s: Setup, h: Host, rules: Rules, index: Index, rulesAfter: Rules, indexAfter: Index)
    requires KeepsOtherBands(san, rules, index, rulesAfter, indexAfter) && |s.ops| <= MAX_RULES_PER_PROJECT
    requires SomeMarkers(san, s, rules, index) && ResponsesIn(s, h, rules)
    ensures SomeMarkers(san, s, rulesAfter, indexAfter) && ResponsesIn(s, h, rulesAfter)
  {
    hide MarkersAre, MarkerOps, ResponseOps, MockOps, LoggedFrom;
    MarkerOpsShort(s);
    if MarkersAre(san, rules, index, []) {
      OthersKept(san, rules, index, rulesAfter, indexAfter, []);
    } else {
      OthersKept(san, rules, index, rulesAfter, indexAfter, MarkerOps(s));
    }
  }

  lemma NothingPlaced(san: Sanitizer, rules: Rules, index: Index)
    ensures NoRule(rules, BodyBand) && NoBodyEntry(index) ==> MarkersAre(san, rules, index, [])
  {
  }
}

/** `CallPolicy`: the decision taken for each incoming call, a fixed
    precedence of checks where the first that fires wins (emergency, then
    anonymous with "block unknown" on, then a stored number, then a prefix
    rule, then allow), and its mapping onto the platform's call response. */
module CallPolicy {
  import opened Wrappers
  import opened Seqs
  import opened Text
  import opened PhoneLib
  import opened Entities
  import opened Matching
  import opened BlockRepository

  /** `CallPolicy.Decision`. */
  datatype Decision = Decision(
    block: bool,
    shouldSkipCallLog: bool,
    shouldSkipNotification: bool,
    reason: string)

  /** What `decide` reads from `Call.Details`: the handle's scheme-specific
      part (null when there is no handle), and the handle presentation, `None`
      when reading it throws. */
  datatype CallDetails = CallDetails(rawNumber: Option<string>, handlePresentation: Option<int>)

  /** `TelecomManager.PRESENTATION_*`. */
  const PresentationAllowed: int := 1
  const PresentationRestricted: int := 2
  const PresentationUnknown: int := 3
  const PresentationPayphone: int := 4

  predicate IsNullOrBlank(s: Option<string>) {
    s.None? || IsBlank(s.value)
  }

  /** The number is non-null and the platform's emergency registry knows it. */
  function IsEmergency(isEmergencyNumber: string -> bool, details: CallDetails): (b: bool)
    ensures details.rawNumber == None ==> !b
    ensures details.rawNumber.Some? ==> (b <==> isEmergencyNumber(details.rawNumber.value))
  {
    details.rawNumber.Some? && isEmergencyNumber(details.rawNumber.value)
  }

  /** No readable number, or a presentation of RESTRICTED, UNKNOWN or PAYPHONE;
      a presentation that cannot be read counts as ALLOWED. */
  function LooksAnonymous(details: CallDetails): (b: bool)
    ensures IsNullOrBlank(details.rawNumber) ==> b
    ensures details.handlePresentation == None ==> (b <==> IsNullOrBlank(details.rawNumber))
    ensures !b <==> (!IsNullOrBlank(details.rawNumber)
                     && (details.handlePresentation == None
                         || details.handlePresentation.value !in {PresentationRestricted, PresentationUnknown, PresentationPayphone}))
  {
    var presentation := details.handlePresentation.GetOr(PresentationAllowed);
    IsNullOrBlank(details.rawNumber)
    || presentation == PresentationRestricted
    || presentation == PresentationUnknown
    || presentation == PresentationPayphone
  }

  /** `try { NumberMatch.matches(raw, stored) } catch (_) { false }`. */
  function StoredNumberMatches(lib: PhoneUtil, raw: string, stored: string): (b: bool)
    ensures lib.isNumberMatch(raw, stored) == Threw ==> !b
    ensures b <==> exists m :: lib.isNumberMatch(raw, stored) == Returned(m) && m in {ExactMatch, NsnMatch, ShortNsnMatch}
  {
    NumberMatches(lib, raw, stored) == Some(true)
  }

  /** `hitNumber`: the number is not blank and matches some stored number. */
  function HitNumber(lib: PhoneUtil, details: CallDetails, blocked: seq<string>): (r: bool)
    ensures r <==> (!IsNullOrBlank(details.rawNumber)
      && exists i :: 0 <= i < |blocked| && StoredNumberMatches(lib, details.rawNumber.value, blocked[i]))
  {
    if IsNullOrBlank(details.rawNumber) then false
    else Any(blocked, (stored: string) => StoredNumberMatches(lib, details.rawNumber.value, stored))
  }

  /** `hitPrefix`: the number is non-null and some rule passes `matchesPrefix`
      with the repository's default region; a null number makes every rule false. */
  function HitPrefix(lib: PhoneUtil, details: CallDetails, rules: seq<PrefixRule>, region: Option<string>): (r: bool)
    ensures r <==> (details.rawNumber.Some?
      && exists i :: 0 <= i < |rules|
           && MatchesPrefix(lib, details.rawNumber.value, rules[i].digits, rules[i].countryCode, region))
  {
    Any(rules, (rule: PrefixRule) =>
      details.rawNumber.Some? && MatchesPrefix(lib, details.rawNumber.value, rule.digits, rule.countryCode, region))
  }

  /** `CallPolicy.decide`. The skip flags come from the settings on every
      branch, and a call is blocked exactly when one of the three blocking
      reasons is given. */
  function Decide(lib: PhoneUtil, isEmergencyNumber: string -> bool, details: CallDetails, repo: RepoSnapshot,
                  blockUnknownEnabled: bool, skipCallLogOnBlock: bool, skipNotificationOnBlock: bool): (d: Decision)
    ensures d.shouldSkipCallLog == skipCallLogOnBlock && d.shouldSkipNotification == skipNotificationOnBlock
    ensures d.block <==> d.reason in {"unknown", "blocked-number", "blocked-prefix"}
    ensures d.reason in {"emergency", "unknown", "blocked-number", "blocked-prefix", ""}
  {
    if IsEmergency(isEmergencyNumber, details) then
      Decision(false, skipCallLogOnBlock, skipNotificationOnBlock, "emergency")
    else if blockUnknownEnabled && LooksAnonymous(details) then
      Decision(true, skipCallLogOnBlock, skipNotificationOnBlock, "unknown")
    else if HitNumber(lib, details, repo.blockedNumbers) then
      Decision(true, skipCallLogOnBlock, skipNotificationOnBlock, "blocked-number")
    else if HitPrefix(lib, details, repo.prefixes, repo.defaultRegion) then
      Decision(true, skipCallLogOnBlock, skipNotificationOnBlock, "blocked-prefix")
    else
      Decision(false, skipCallLogOnBlock, skipNotificationOnBlock, "")
  }

  /** The checks of `decide`, in the order it applies them. */
  datatype Check = EmergencyCheck | UnknownCheck | NumberCheck | PrefixCheck

  const Precedence: seq<Check> := [EmergencyCheck, UnknownCheck, NumberCheck, PrefixCheck]

  /** Whether one check fires, judged on its own. */
  predicate Fires(c: Check, lib: PhoneUtil, isEmergencyNumber: string -> bool, details: CallDetails,
                  repo: RepoSnapshot, blockUnknownEnabled: bool)
  {
    match c
    case EmergencyCheck => details.rawNumber.Some? && isEmergencyNumber(details.rawNumber.value)
    case UnknownCheck => blockUnknownEnabled && LooksAnonymous(details)
    case NumberCheck =>
      !IsNullOrBlank(details.rawNumber)
      && exists i :: 0 <= i < |repo.blockedNumbers|
           && StoredNumberMatches(lib, details.rawNumber.value, repo.blockedNumbers[i])
    case PrefixCheck =>
      details.rawNumber.Some?
      && exists i :: 0 <= i < |repo.prefixes|
           && MatchesPrefix(lib, details.rawNumber.value, repo.prefixes[i].digits,
                            repo.prefixes[i].countryCode, repo.defaultRegion)
  }

  /** The first check of `checks` that fires, if any. */
  function FirstFiring(checks: seq<Check>, lib: PhoneUtil, isEmergencyNumber: string -> bool,
                       details: CallDetails, repo: RepoSnapshot, blockUnknownEnabled: bool): (r: Option<Check>)
    ensures r.None? <==> forall i :: 0 <= i < |checks| ==> !Fires(checks[i], lib, isEmergencyNumber, details, repo, blockUnknownEnabled)
    ensures r.Some? ==> exists i :: (0 <= i < |checks| && checks[i] == r.value
      && Fires(checks[i], lib, isEmergencyNumber, details, repo, blockUnknownEnabled)
      && forall j :: 0 <= j < i ==> !Fires(checks[j], lib, isEmergencyNumber, details, repo, blockUnknownEnabled))
  {
    if checks == [] then None
    else if Fires(checks[0], lib, isEmergencyNumber, details, repo, blockUnknownEnabled) then Some(checks[0])
    else
      var r := FirstFiring(checks[1..], lib, isEmergencyNumber, details, repo, blockUnknownEnabled);
      assert forall i :: 1 <= i < |checks| ==> checks[i] == checks[1..][i - 1];
      r
  }

  /** The decision a fired check (or none) stands for. */
  function DecisionFor(c: Option<Check>, skipCallLogOnBlock: bool, skipNotificationOnBlock: bool): Decision {
    match c
    case None => Decision(false, skipCallLogOnBlock, skipNotificationOnBlock, "")
    case Some(EmergencyCheck) => Decision(false, skipCallLogOnBlock, skipNotificationOnBlock, "emergency")
    case Some(UnknownCheck) => Decision(true, skipCallLogOnBlock, skipNotificationOnBlock, "unknown")
    case Some(NumberCheck) => Decision(true, skipCallLogOnBlock, skipNotificationOnBlock, "blocked-number")
    case Some(PrefixCheck) => Decision(true, skipCallLogOnBlock, skipNotificationOnBlock, "blocked-prefix")
  }

  /** One step of `FirstFiring`: the head check, or else the rest. */
  lemma FirstFiringStep(checks: seq<Check>, lib: PhoneUtil, isEmergencyNumber: string -> bool,
                        details: CallDetails, repo: RepoSnapshot, blockUnknownEnabled: bool)
    requires checks != []
    ensures FirstFiring(checks, lib, isEmergencyNumber, details, repo, blockUnknownEnabled)
         == if Fires(checks[0], lib, isEmergencyNumber, details, repo, blockUnknownEnabled) then Some(checks[0])
            else FirstFiring(checks[1..], lib, isEmergencyNumber, details, repo, blockUnknownEnabled)
  {
  }

  /** Each check fires exactly when the branch of `decide` it stands for is taken. */
  lemma ChecksAgree(lib: PhoneUtil, isEmergencyNumber: string -> bool, details: CallDetails, repo: RepoSnapshot,
                    blockUnknownEnabled: bool)
    ensures Fires(EmergencyCheck, lib, isEmergencyNumber, details, repo, blockUnknownEnabled) == IsEmergency(isEmergencyNumber, details)
    ensures Fires(UnknownCheck, lib, isEmergencyNumber, details, repo, blockUnknownEnabled) == (blockUnknownEnabled && LooksAnonymous(details))
    ensures Fires(NumberCheck, lib, isEmergencyNumber, details, repo, blockUnknownEnabled) == HitNumber(lib, details, repo.blockedNumbers)
    ensures Fires(PrefixCheck, lib, isEmergencyNumber, details, repo, blockUnknownEnabled)
         == HitPrefix(lib, details, repo.prefixes, repo.defaultRegion)
  {
  }

  /** `decide` is first-match-wins over the precedence list. */
  lemma DecideFollowsPrecedence(lib: PhoneUtil, isEmergencyNumber: string -> bool, details: CallDetails, repo: RepoSnapshot,
                                blockUnknownEnabled: bool, skipCallLogOnBlock: bool, skipNotificationOnBlock: bool)
    ensures Decide(lib, isEmergencyNumber, details, repo, blockUnknownEnabled, skipCallLogOnBlock, skipNotificationOnBlock)
         == DecisionFor(FirstFiring(Precedence, lib, isEmergencyNumber, details, repo, blockUnknownEnabled),
                        skipCallLogOnBlock, skipNotificationOnBlock)
  {
    var p0 := Precedence;
    var p1 := [UnknownCheck, NumberCheck, PrefixCheck];
    var p2 := [NumberCheck, PrefixCheck];
    var p3 := [PrefixCheck];
    assert p0[1..] == p1 && p1[1..] == p2 && p2[1..] == p3 && p3[1..] == [];
    FirstFiringStep(p0, lib, isEmergencyNumber, details, repo, blockUnknownEnabled);
    FirstFiringStep(p1, lib, isEmergencyNumber, details, repo, blockUnknownEnabled);
    FirstFiringStep(p2, lib, isEmergencyNumber, details, repo, blockUnknownEnabled);
    FirstFiringStep(p3, lib, isEmergencyNumber, details, repo, blockUnknownEnabled);
    assert FirstFiring([], lib, isEmergencyNumber, details, repo, blockUnknownEnabled) == None;
    ChecksAgree(lib, isEmergencyNumber, details, repo, blockUnknownEnabled);
  }

  /** An emergency number is never blocked, whatever the settings and rules. */
  lemma EmergencyNeverBlocked(lib: PhoneUtil, isEmergencyNumber: string -> bool, details: CallDetails, repo: RepoSnapshot,
                              blockUnknownEnabled: bool, skipCallLogOnBlock: bool, skipNotificationOnBlock: bool)
    requires IsEmergency(isEmergencyNumber, details)
    ensures Decide(lib, isEmergencyNumber, details, repo, blockUnknownEnabled, skipCallLogOnBlock, skipNotificationOnBlock)
         == Decision(false, skipCallLogOnBlock, skipNotificationOnBlock, "emergency")
  {
  }

  /** With "block unknown" on, an anonymous non-emergency call is blocked as
      unknown, even when its number also matches a rule. */
  lemma AnonymousBlockedAsUnknown(lib: PhoneUtil, isEmergencyNumber: string -> bool, details: CallDetails, repo: RepoSnapshot,
                                  skipCallLogOnBlock: bool, skipNotificationOnBlock: bool)
    requires !IsEmergency(isEmergencyNumber, details) && LooksAnonymous(details)
    ensures var d := Decide(lib, isEmergencyNumber, details, repo, true, skipCallLogOnBlock, skipNotificationOnBlock);
      d.block && d.reason == "unknown"
  {
  }

  /** A call without a number is allowed when "block unknown" is off: the
      number check is skipped and no prefix rule can match. */
  lemma NullNumberAllowed(lib: PhoneUtil, isEmergencyNumber: string -> bool, presentation: Option<int>, repo: RepoSnapshot,
                          skipCallLogOnBlock: bool, skipNotificationOnBlock: bool)
    ensures var d := Decide(lib, isEmergencyNumber, CallDetails(None, presentation), repo, false, skipCallLogOnBlock, skipNotificationOnBlock);
      !d.block && d.reason == ""
  {
  }

  /** Each reason is given exactly when its check is the first to fire. */
  lemma ReasonCharacterisation(lib: PhoneUtil, isEmergencyNumber: string -> bool, details: CallDetails, repo: RepoSnapshot,
                               blockUnknownEnabled: bool, skipCallLogOnBlock: bool, skipNotificationOnBlock: bool)
    ensures var d := Decide(lib, isEmergencyNumber, details, repo, blockUnknownEnabled, skipCallLogOnBlock, skipNotificationOnBlock);
      var emergency := IsEmergency(isEmergencyNumber, details);
      var unknown := blockUnknownEnabled && LooksAnonymous(details);
      var number := !IsNullOrBlank(details.rawNumber)
        && exists i :: 0 <= i < |repo.blockedNumbers|
             && StoredNumberMatches(lib, details.rawNumber.value, repo.blockedNumbers[i]);
      var prefix := details.rawNumber.Some?
        && exists i :: 0 <= i < |repo.prefixes|
             && MatchesPrefix(lib, details.rawNumber.value, repo.prefixes[i].digits,
                              repo.prefixes[i].countryCode, repo.defaultRegion);
      (d.reason == "emergency" <==> emergency)
      && (d.reason == "unknown" <==> !emergency && unknown)
      && (d.reason == "blocked-number" <==> !emergency && !unknown && number)
      && (d.reason == "blocked-prefix" <==> !emergency && !unknown && !number && prefix)
      && (d.reason == "" <==> !emergency && !unknown && !number && !prefix)
  {
  }

  /** With the Room-backed repository and rules whose scope agrees with their
      country code, the prefix check of `decide` is `PrefixMatcher`'s test
      with region "CL". */
  lemma RoomPrefixHitIsPrefixMatcher(lib: PhoneUtil, raw: string, presentation: Option<int>,
                                     settingsRow: Option<Settings>, numberRows: seq<BlockedNumber>,
                                     prefixRows: seq<BlockedPrefixRule>)
    requires forall i :: 0 <= i < |prefixRows| ==> ScopeConsistent(prefixRows[i])
    ensures var repo := RoomSnapshot(settingsRow, numberRows, prefixRows);
      var parsed := lib.parse(raw, "CL");
      HitPrefix(lib, CallDetails(Some(raw), presentation), repo.prefixes, repo.defaultRegion) <==>
        parsed.Parsed? && SomeRuleMatches(prefixRows, parsed.number)
  {
    var repo := RoomSnapshot(settingsRow, numberRows, prefixRows);
    var parsed := lib.parse(raw, "CL");
    var rules := repo.prefixes;
    forall i | 0 <= i < |prefixRows|
      ensures MatchesPrefix(lib, raw, rules[i].digits, rules[i].countryCode, Some("CL")) <==>
        parsed.Parsed? && RuleMatches(prefixRows[i], parsed.number)
    {
      RoomRuleAgreesWithPrefixMatcher(lib, raw, "CL", prefixRows[i]);
    }
  }

  /** `CallScreeningService.CallResponse` as `toResponse` builds it. */
  datatype CallResponse = CallResponse(
    disallowCall: bool,
    rejectCall: bool,
    silenceCall: bool,
    skipCallLog: bool,
    skipNotification: bool)

  /** `Build.VERSION_CODES.Q`. */
  const VersionCodesQ: int := 29

  /** `toResponse`: disallow and reject follow `block`, the skip flags are
      copied, and on API level Q or later the call is also silenced when blocked. */
  function ToResponse(d: Decision, sdkInt: int): (r: CallResponse)
    ensures r.disallowCall == d.block && r.rejectCall == d.block
    ensures r.skipCallLog == d.shouldSkipCallLog && r.skipNotification == d.shouldSkipNotification
    ensures r.silenceCall <==> sdkInt >= VersionCodesQ && d.block
  {
    CallResponse(d.block, d.block, sdkInt >= VersionCodesQ && d.block, d.shouldSkipCallLog, d.shouldSkipNotification)
  }

  /** An emergency call is neither disallowed, rejected nor silenced, and the
      response carries the settings' skip flags. */
  lemma EmergencyCallRings(lib: PhoneUtil, isEmergencyNumber: string -> bool, details: CallDetails, repo: RepoSnapshot,
                           blockUnknownEnabled: bool, skipCallLogOnBlock: bool, skipNotificationOnBlock: bool, sdkInt: int)
    requires IsEmergency(isEmergencyNumber, details)
    ensures var r := ToResponse(Decide(lib, isEmergencyNumber, details, repo, blockUnknownEnabled,
                                       skipCallLogOnBlock, skipNotificationOnBlock), sdkInt);
      !r.disallowCall && !r.rejectCall && !r.silenceCall
      && r.skipCallLog == skipCallLogOnBlock && r.skipNotification == skipNotificationOnBlock
  {
    EmergencyNeverBlocked(lib, isEmergencyNumber, details, repo, blockUnknownEnabled, skipCallLogOnBlock, skipNotificationOnBlock);
  }
}

// The front worker's rules: the fixed-interval wait for the userbot's
// result, the bounded retry for administrator rights, the geo check by
// title, the pass rule of the message-id check, the list of issues and
// the verdict derived from it, the grouping of issues in the report and
// the splitting of a long report into parts.

module FrontBot {
  import opened Wrappers
  import opened Json
  import opened Text
  import opened Database
  import opened Polling
  import Analysis

  // ----- waiting for the userbot -----

  const POLL_INTERVAL := 5 * MILLIS_PER_SECOND
  const COMPLETION_TIMEOUT := 300 * MILLIS_PER_SECOND

  /**
   * Polls `get_userbot_result` every five seconds until it returns a
   * result or the deadline passes. The k-th read sees `env(k)`.
   */
  method WaitForUserbotCompletion(groupId: int, env: nat -> Poll, timeout: int := COMPLETION_TIMEOUT)
    returns (result: Option<Fields>, trace: seq<PollStep>)
    ensures Chained(trace, env) && BeforeDeadline(trace, env, groupId, timeout)
    ensures forall k :: 0 <= k < |trace| - 1 ==> trace[k].seen.None? && trace[k].sleep == POLL_INTERVAL
    ensures result.Some? ==>
              |trace| > 0 && trace[|trace| - 1].seen == result && trace[|trace| - 1].sleep == 0
    ensures result.None? ==>
              && (|trace| == 0 ==> timeout <= 0)
              && (|trace| > 0 ==> trace[|trace| - 1].seen.None? && trace[|trace| - 1].sleep == POLL_INTERVAL
                                  && timeout <= StepEnd(trace, env, |trace| - 1))
  {
    var elapsed := 0;
    trace := [];
    while elapsed < timeout
      invariant Chained(trace, env) && BeforeDeadline(trace, env, groupId, timeout)
      invariant forall k :: 0 <= k < |trace| ==> trace[k].seen.None? && trace[k].sleep == POLL_INTERVAL
      invariant |trace| == 0 ==> elapsed == 0
      invariant |trace| > 0 ==> elapsed == StepEnd(trace, env, |trace| - 1)
      decreases timeout - elapsed
    {
      var k := |trace|;
      var seen := GetUserbotResult(env(k).checks, groupId);
      var step := PollStep(elapsed, seen, if seen.Some? then 0 else POLL_INTERVAL);
      ChainedExtend(trace, env, step);
      BeforeDeadlineExtend(trace, env, groupId, timeout, step);
      trace := trace + [step];
      if seen.Some? {
        return seen, trace;
      }
      elapsed := elapsed + env(k).latency + POLL_INTERVAL;
    }
    result := None;
  }

  // ----- administrator rights -----

  datatype ChatMember = ChatMember(chatId: int, userId: int)

  /** What one `get_chat_member` call yields: the bot as administrator, as something else, or an exception. */
  datatype MemberProbe = Administrator(member: ChatMember) | NotAdministrator | ProbeRaised

  const ADMIN_RETRY_SLEEP := 2 * MILLIS_PER_SECOND
  const ADMIN_MAX_ATTEMPTS := 30

  /**
   * Asks for the bot's membership up to `maxAttempts` times (the k-th
   * answer is `probes(k)`), sleeping two seconds after every answer that
   * is not administrator rights, whether or not the call raised.
   */
  method CheckBotAdminRights(probes: nat -> MemberProbe, maxAttempts: int := ADMIN_MAX_ATTEMPTS)
    returns (isAdmin: bool, member: Option<ChatMember>, attempts: nat, slept: nat)
    ensures isAdmin <==> exists k :: 0 <= k < maxAttempts && probes(k).Administrator?
    ensures isAdmin ==>
              && 1 <= attempts <= maxAttempts && probes(attempts - 1).Administrator?
              && member == Some(probes(attempts - 1).member)
              && (forall k :: 0 <= k < attempts - 1 ==> !probes(k).Administrator?)
              && slept == ADMIN_RETRY_SLEEP * (attempts - 1)
    ensures !isAdmin ==>
              member.None? && attempts == (if maxAttempts < 0 then 0 else maxAttempts)
              && slept == ADMIN_RETRY_SLEEP * attempts
  {
    attempts := 0;
    slept := 0;
    while attempts < maxAttempts
      invariant 0 <= attempts && (maxAttempts >= 0 ==> attempts <= maxAttempts)
      invariant maxAttempts < 0 ==> attempts == 0
      invariant forall k :: 0 <= k < attempts ==> !probes(k).Administrator?
      invariant slept == ADMIN_RETRY_SLEEP * attempts
    {
      var probe := probes(attempts);
      attempts := attempts + 1;
      if probe.Administrator? {
        return true, Some(probe.member), attempts, slept;
      }
      slept := slept + ADMIN_RETRY_SLEEP;
    }
    isAdmin, member := false, None;
  }

  // ----- geo check by title -----

  const FRONT_GEO_KEYWORDS: seq<string> := [
    "город", "city", "москва", "спб", "киев", "moscow", "kiev", "питер",
    "санкт-петербург", "минск", "казахстан", "украина", "россия", "russia",
    "ukraine", "беларусь", "belarus", "казань", "новосибирск", "екатеринбург"]

  datatype GeoByName = GeoByName(isGeo: bool, found: seq<string>)

  /** The keywords, in list order, that occur in the lower-cased title; geo iff there is one. */
  function CheckGeoByName(title: string): (g: GeoByName)
    ensures Subsequence(g.found, FRONT_GEO_KEYWORDS)
    ensures forall kw :: kw in g.found <==> kw in FRONT_GEO_KEYWORDS && IsSubstring(kw, Lower(title))
    ensures g.isGeo <==> exists kw :: kw in FRONT_GEO_KEYWORDS && IsSubstring(kw, Lower(title))
  {
    var found := KeywordsIn(FRONT_GEO_KEYWORDS, Lower(title));
    assert |found| > 0 ==> found[0] in found;
    GeoByName(|found| > 0, found)
  }

  /** A title keyword the userbot lists as a geo reason also makes the front worker's check geo. */
  lemma UserbotKeywordsImplyFrontGeo(title: string)
    requires KeywordsIn(Analysis.USERBOT_GEO_KEYWORDS, Lower(title)) != []
    ensures CheckGeoByName(title).isGeo
  {
    assert Analysis.USERBOT_GEO_KEYWORDS == FRONT_GEO_KEYWORDS[..7];
    KeywordsInSubset(Analysis.USERBOT_GEO_KEYWORDS, FRONT_GEO_KEYWORDS, Lower(title));
  }

  // ----- the message-id check -----

  const DEFAULT_MIN_DIFF := 50

  /** The dict `perform_web_check` returns; the error dict has no ids and no `min_required_diff`. */
  datatype WebCheck = WebCheck(diff: int, latest: Option<int>, oldest: Option<int>, passed: bool, minRequired: Option<int>)

  /**
   * `sent` is the id of the probe message, `None` when sending raised;
   * `readIds` are the ids of the messages read back, in reading order.
   */
  function PerformWebCheck(sent: Option<int>, readIds: seq<int>, minDiff: int): (w: WebCheck)
    ensures sent.None? ==> w == WebCheck(0, None, None, false, None)
    ensures sent.Some? ==>
      && w.latest == sent && w.minRequired == Some(minDiff)
      && w.oldest == Some(if readIds == [] then 1 else readIds[|readIds| - 1])
      && w.diff == sent.value - w.oldest.value
      && (w.passed <==> sent.value - w.oldest.value > minDiff)
  {
    match sent
    case None => WebCheck(0, None, None, false, None)
    case Some(latest) =>
      var oldest := if readIds == [] then 1 else readIds[|readIds| - 1];
      WebCheck(latest - oldest, Some(latest), Some(oldest), latest - oldest > minDiff, Some(minDiff))
  }

  /** Reading nothing back, the check passes exactly when the probe's id exceeds `minDiff + 1`. */
  lemma WebCheckWithoutHistory(latest: int, minDiff: int)
    ensures PerformWebCheck(Some(latest), [], minDiff).passed <==> latest > minDiff + 1
  {
  }

  // ----- issues and the verdict -----

  datatype BotResult = BotResult(web: WebCheck, geo: GeoByName)

  /** One entry of the issue list; each kind stands for the text `identify_issues` appends. */
  datatype Issue =
    | SmallIdDiff(diff: int, required: int)
    | GeoWords(found: seq<string>)
    | GeoChat
    | ImportedCritical
    | ImportedWarning
    | UserbotMissing

  /** `userbot_result.get('imported_status', 'normal')`, given that the result is a dict. */
  function ImportedStatus(u: Fields): Json {
    GetOr(u, "imported_status", JStr("normal"))
  }

  predicate GeoChatFlag(userbot: Option<Fields>) {
    TruthyDict(userbot) && Truthy(Get(userbot.value, "is_geo_group"))
  }

  predicate ImportedIs(userbot: Option<Fields>, status: string) {
    TruthyDict(userbot) && ImportedStatus(userbot.value) == JStr(status)
  }

  /** `x` is an issue the checks call for: its condition holds and it carries the right values. */
  predicate Warranted(bot: BotResult, userbot: Option<Fields>, x: Issue) {
    match x
    case SmallIdDiff(diff, required) =>
      !bot.web.passed && diff == bot.web.diff && required == bot.web.minRequired.GetOr(DEFAULT_MIN_DIFF)
    case GeoWords(found) => bot.geo.isGeo && found == bot.geo.found
    case GeoChat => GeoChatFlag(userbot)
    case ImportedCritical => ImportedIs(userbot, "critical")
    case ImportedWarning => ImportedIs(userbot, "warning")
    case UserbotMissing => userbot.None?
  }

  /** The issues found, in the order they are appended: exactly the warranted ones. */
  function IdentifyIssues(bot: BotResult, userbot: Option<Fields>): (issues: seq<Issue>)
    ensures forall x :: x in issues <==> Warranted(bot, userbot, x)
  {
    var web := if !bot.web.passed then [SmallIdDiff(bot.web.diff, bot.web.minRequired.GetOr(DEFAULT_MIN_DIFF))] else [];
    var words := if bot.geo.isGeo then [GeoWords(bot.geo.found)] else [];
    var chat := if GeoChatFlag(userbot) then [GeoChat] else [];
    var imported :=
      if !TruthyDict(userbot) then []
      else if ImportedStatus(userbot.value) == JStr("critical") then [ImportedCritical]
      else if ImportedStatus(userbot.value) == JStr("warning") then [ImportedWarning]
      else [];
    var missing := if userbot.None? then [UserbotMissing] else [];
    web + words + chat + imported + missing
  }

  /**
   * The userbot's import report, merged into the analysis payload
   * between the entries set before it (`base`) and the later merges
   * (`after`, which do not set `imported_status`), is what the front
   * worker's import issues read: the critical issue is
   * listed exactly when the report's status is critical and the warning
   * issue exactly when it is warning; an error report raises neither.
   */
  lemma ImportIssuesFollowReport(bot: BotResult, base: Fields, r: Analysis.ImportReport, after: Fields)
    requires "imported_status" !in after
    ensures var issues := IdentifyIssues(bot, Some(base + Analysis.ImportFields(r) + after));
      && (ImportedCritical in issues <==> r.status == Analysis.Critical)
      && (ImportedWarning in issues <==> r.status == Analysis.Warning)
  {
    var payload := base + Analysis.ImportFields(r) + after;
    assert "imported_status" in payload;
    assert ImportedStatus(payload) == JStr(Analysis.StatusText(r.status));
    assert TruthyDict(Some(payload));
  }

  /** `final_result`: the group passes when no issue was found, i.e. when no issue is warranted. */
  function FinalResult(bot: BotResult, userbot: Option<Fields>): (passed: bool)
    ensures passed <==> forall x :: !Warranted(bot, userbot, x)
  {
    var issues := IdentifyIssues(bot, userbot);
    if issues != [] then assert issues[0] in issues; false else true
  }

  /** No issues exactly when every individual check passed. */
  lemma NoIssuesIff(bot: BotResult, userbot: Option<Fields>)
    ensures FinalResult(bot, userbot) <==>
      && bot.web.passed && !bot.geo.isGeo && userbot.Some?
      && !GeoChatFlag(userbot)
      && !ImportedIs(userbot, "critical") && !ImportedIs(userbot, "warning")
  {
    var web := SmallIdDiff(bot.web.diff, bot.web.minRequired.GetOr(DEFAULT_MIN_DIFF));
    assert Warranted(bot, userbot, web) <==> !bot.web.passed;
    assert Warranted(bot, userbot, GeoWords(bot.geo.found)) <==> bot.geo.isGeo;
    assert Warranted(bot, userbot, UserbotMissing) <==> userbot.None?;
    assert Warranted(bot, userbot, GeoChat) <==> GeoChatFlag(userbot);
    var issues := IdentifyIssues(bot, userbot);
    if issues != [] {
      assert issues[0] in issues;
    }
  }

  // ----- grouping issues in the report -----

  predicate HasCross(x: Issue) {
    x.SmallIdDiff? || x.GeoChat? || x.ImportedCritical? || x.UserbotMissing?
  }

  predicate HasWarningSign(x: Issue) {
    x.GeoWords? || x.ImportedWarning?
  }

  predicate HasCriticalWord(x: Issue) { x.ImportedCritical? }

  predicate HasWarningWord(x: Issue) { x.ImportedWarning? }

  predicate IsCritical(x: Issue) { HasCross(x) || HasCriticalWord(x) }

  predicate IsWarning(x: Issue) { HasWarningSign(x) || HasWarningWord(x) }

  /** The comprehension `[x for x in s if p(x)]`: every matching element, duplicates included, in order. */
  function Filter(s: seq<Issue>, p: Issue -> bool): (r: seq<Issue>)
    ensures forall x :: x in r <==> x in s && p(x)
    ensures forall x :: multiset(r)[x] == if p(x) then multiset(s)[x] else 0
    ensures Subsequence(r, s)
  {
    if s == [] then []
    else
      var rest := Filter(s[1..], p);
      assert s == [s[0]] + s[1..];
      if p(s[0]) then
        assert ([s[0]] + rest)[1..] == rest;
        [s[0]] + rest
      else rest
  }

  datatype Groups = Groups(critical: seq<Issue>, warning: seq<Issue>, other: seq<Issue>)

  function GroupIssues(issues: seq<Issue>): (g: Groups)
    ensures forall x :: x in g.critical <==> x in issues && IsCritical(x)
    ensures forall x :: x in g.warning <==> x in issues && IsWarning(x)
    ensures forall x :: x in g.other <==> x in issues && !IsCritical(x) && !IsWarning(x)
  {
    var critical := Filter(issues, IsCritical);
    var warning := Filter(issues, IsWarning);
    var cw := critical + warning;
    Groups(critical, warning, Filter(issues, x => x !in cw))
  }

  /** Every issue lands in at least one group. */
  lemma EveryIssueGrouped(issues: seq<Issue>, x: Issue)
    requires x in issues
    ensures var g := GroupIssues(issues); x in g.critical || x in g.warning || x in g.other
  {
  }

  lemma {:induction false} FilterNone(s: seq<Issue>, p: Issue -> bool)
    requires forall i :: 0 <= i < |s| ==> !p(s[i])
    ensures Filter(s, p) == []
  {
    if s != [] {
      FilterNone(s[1..], p);
    }
  }

  /** Every kind of issue `identify_issues` produces carries a marker, so the "other" group stays empty. */
  lemma NoOtherIssues(bot: BotResult, userbot: Option<Fields>)
    ensures GroupIssues(IdentifyIssues(bot, userbot)).other == []
  {
    var issues := IdentifyIssues(bot, userbot);
    var cw := Filter(issues, IsCritical) + Filter(issues, IsWarning);
    forall i | 0 <= i < |issues| ensures issues[i] in cw {
      assert issues[i] in issues;
    }
    FilterNone(issues, x => x !in cw);
  }

  // ----- splitting the report -----

  const PART_SIZE := 4000

  function Concat(parts: seq<string>): string {
    if parts == [] then [] else parts[0] + Concat(parts[1..])
  }

  /** `[report[i:i+4000] for i in range(0, len(report), 4000)]` */
  function Chunks(report: string): (parts: seq<string>)
    ensures Concat(parts) == report
    ensures |parts| == (|report| + PART_SIZE - 1) / PART_SIZE
    ensures forall i :: 0 <= i < |parts| ==> 0 < |parts[i]| <= PART_SIZE
    ensures forall i :: 0 <= i < |parts| - 1 ==> |parts[i]| == PART_SIZE
    decreases |report|
  {
    if report == [] then []
    else if |report| <= PART_SIZE then [report]
    else
      var rest := Chunks(report[PART_SIZE..]);
      assert report[..PART_SIZE] + report[PART_SIZE..] == report;
      [report[..PART_SIZE]] + rest
  }
}

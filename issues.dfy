/** The issues handlers: raising an issue from a school, the three review
    steps (block, district, state) that move an issue along its review path,
    and the summary counts. The issue table is a sequence of records; the
    review handlers change one record in place. */
module Issues {
  import opened Wrappers
  import opened Text
  import opened Seqs

  // ------------------------------------------------------------- levels

  datatype Level = Block | District | State

  function LevelName(l: Level): string {
    match l
    case Block => "BLOCK"
    case District => "DISTRICT"
    case State => "STATE"
  }

  /** The enum value a query string names, if any. */
  function ParseLevel(s: string): (r: Option<Level>)
    ensures r.Some? ==> LevelName(r.value) == s
    ensures forall l :: LevelName(l) == s ==> r == Some(l)
  {
    if s == "BLOCK" then Some(Block)
    else if s == "DISTRICT" then Some(District)
    else if s == "STATE" then Some(State)
    else None
  }

  /** Position of a level on the review path. */
  function LevelRank(l: Level): nat {
    match l
    case Block => 0
    case District => 1
    case State => 2
  }

  /** The level an escalation hands the issue to. */
  function Above(l: Level): (r: Level)
    requires l != State
    ensures LevelRank(r) == LevelRank(l) + 1
  {
    if l == Block then District else State
  }

  // ------------------------------------------------------------- status

  datatype Status =
    | PendingBlockReview | PendingDistrictReview | PendingStateReview
    | Resolved
    | RejectedByBlock | RejectedByDistrict | RejectedByState

  /** The status in which a level's review handler accepts an issue. */
  function PendingAt(l: Level): Status {
    match l
    case Block => PendingBlockReview
    case District => PendingDistrictReview
    case State => PendingStateReview
  }

  function RejectedAt(l: Level): Status {
    match l
    case Block => RejectedByBlock
    case District => RejectedByDistrict
    case State => RejectedByState
  }

  predicate Terminal(s: Status) {
    s.Resolved? || s.RejectedByBlock? || s.RejectedByDistrict? || s.RejectedByState?
  }

  /** Distance along the review path: each accepted review raises it. */
  function Rank(s: Status): nat {
    match s
    case PendingBlockReview => 0
    case PendingDistrictReview => 1
    case PendingStateReview => 2
    case _ => 3
  }

  // ------------------------------------------------------------- actions

  datatype Action = Escalate | Resolve | Reject

  function ActionName(a: Action): string {
    match a
    case Escalate => "escalate"
    case Resolve => "resolve"
    case Reject => "reject"
  }

  /** The actions a level's handler accepts: the state level cannot escalate. */
  predicate Allowed(level: Level, a: Action) {
    level != State || a != Escalate
  }

  /** The action check of the review handlers: an absent action, or one not in
      the level's list, is refused. */
  function ParseAction(level: Level, action: Option<string>): (r: Option<Action>)
    ensures r.Some? ==> action == Some(ActionName(r.value)) && Allowed(level, r.value)
    ensures forall a :: action == Some(ActionName(a)) && Allowed(level, a) ==> r == Some(a)
  {
    if action == Some("escalate") && level != State then Some(Escalate)
    else if action == Some("resolve") then Some(Resolve)
    else if action == Some("reject") then Some(Reject)
    else None
  }

  function InvalidActionMessage(level: Level): string {
    if level == State then "Invalid action. Must be 'resolve' or 'reject'"
    else "Invalid action. Must be 'escalate', 'resolve', or 'reject'"
  }

  function NotPendingMessage(level: Level): string {
    match level
    case Block => "Issue is not pending block review"
    case District => "Issue is not pending district review"
    case State => "Issue is not pending state review"
  }

  /** The action name with `d` appended when it ends in `e`, `ed` otherwise. */
  function PastTense(a: string): string {
    if a != [] && a[|a| - 1] == 'e' then a + "d" else a + "ed"
  }

  function SuccessMessage(a: Action): string {
    "Issue " + PastTense(ActionName(a)) + " successfully"
  }

  /** The message of an escalation: `escalate` ends in `e`, so only `d` is appended. */
  lemma EscalatedMessage()
    ensures SuccessMessage(Escalate) == "Issue escalated successfully"
  {
    assert PastTense("escalate") == "escalate" + "d";
  }

  /** The message of a rejection: `reject` does not end in `e`, so `ed` is appended. */
  lemma RejectedMessage()
    ensures SuccessMessage(Reject) == "Issue rejected successfully"
  {
    assert PastTense("reject") == "reject" + "ed";
  }

  // -------------------------------------------------------------- issues

  /** An issue record. Timestamps are integers; an absent optional field is `None`. */
  datatype Issue = Issue(
    id: string,
    issueId: string,
    title: string,
    description: string,
    priority: string,
    schoolId: string,
    raisedBy: string,
    status: Status,
    currentLevel: Level,
    remarksByBlock: Option<string>,
    remarksByDistrict: Option<string>,
    remarksByState: Option<string>,
    reviewedByBlockAt: Option<int>,
    reviewedByDistrictAt: Option<int>,
    reviewedByStateAt: Option<int>,
    resolvedAt: Option<int>,
    rejectedAt: Option<int>)

  function Remarks(i: Issue, l: Level): Option<string> {
    match l
    case Block => i.remarksByBlock
    case District => i.remarksByDistrict
    case State => i.remarksByState
  }

  function ReviewedAt(i: Issue, l: Level): Option<int> {
    match l
    case Block => i.reviewedByBlockAt
    case District => i.reviewedByDistrictAt
    case State => i.reviewedByStateAt
  }

  /** The fields no review touches. */
  predicate SameIdentity(a: Issue, b: Issue) {
    a.id == b.id && a.issueId == b.issueId && a.title == b.title && a.description == b.description
    && a.priority == b.priority && a.schoolId == b.schoolId && a.raisedBy == b.raisedBy
  }

  /** An optional field written in an update: an absent value leaves it as stored. */
  function Written<T>(stored: Option<T>, given: Option<T>): (r: Option<T>)
    ensures given.Some? ==> r == given
    ensures given.None? ==> r == stored
  {
    if given.Some? then given else stored
  }

  /** The two fields every review writes for its own level: the remarks (an
      absent `remarks` leaves the stored value, as an `undefined` field does in
      an update) and the review time. */
  function WithReview(i: Issue, level: Level, remarks: Option<string>, now: int): Issue {
    match level
    case Block => i.(remarksByBlock := Written(i.remarksByBlock, remarks), reviewedByBlockAt := Some(now))
    case District => i.(remarksByDistrict := Written(i.remarksByDistrict, remarks), reviewedByDistrictAt := Some(now))
    case State => i.(remarksByState := Written(i.remarksByState, remarks), reviewedByStateAt := Some(now))
  }

  /** The update a review at `level` applies. Escalation hands the issue to the
      next level; resolving and rejecting end it and keep the current level;
      only the reviewing level's remarks and review time are written. */
  function Reviewed(i: Issue, level: Level, a: Action, remarks: Option<string>, now: int): (r: Issue)
    requires Allowed(level, a)
    ensures SameIdentity(r, i)
    ensures Remarks(r, level) == Written(Remarks(i, level), remarks) && ReviewedAt(r, level) == Some(now)
    ensures forall l :: l != level ==> Remarks(r, l) == Remarks(i, l) && ReviewedAt(r, l) == ReviewedAt(i, l)
    ensures a == Escalate ==>
              && r.status == PendingAt(r.currentLevel) && LevelRank(r.currentLevel) == LevelRank(level) + 1
              && r.resolvedAt == i.resolvedAt && r.rejectedAt == i.rejectedAt
    ensures a == Resolve ==>
              r.status == Resolved && r.resolvedAt == Some(now) && r.rejectedAt == i.rejectedAt && r.currentLevel == i.currentLevel
    ensures a == Reject ==>
              r.status == RejectedAt(level) && r.rejectedAt == Some(now) && r.resolvedAt == i.resolvedAt && r.currentLevel == i.currentLevel
  {
    var base := WithReview(i, level, remarks, now);
    match a
    case Escalate => base.(status := PendingAt(Above(level)), currentLevel := Above(level))
    case Resolve => base.(status := Resolved, resolvedAt := Some(now))
    case Reject => base.(status := RejectedAt(level), rejectedAt := Some(now))
  }

  /** The shape every stored issue keeps: a pending issue sits at the level
      whose review it awaits; every level below the current one has reviewed
      it and none above has; an ended issue was ended by its current level and
      carries the matching timestamp. */
  predicate WellFormed(i: Issue) {
    && (!Terminal(i.status) ==> i.status == PendingAt(i.currentLevel) && i.resolvedAt.None? && i.rejectedAt.None?)
    && (i.status == Resolved ==> i.resolvedAt.Some? && i.rejectedAt.None? && ReviewedAt(i, i.currentLevel).Some?)
    && (i.status.RejectedByBlock? || i.status.RejectedByDistrict? || i.status.RejectedByState? ==>
          i.status == RejectedAt(i.currentLevel) && i.rejectedAt.Some? && i.resolvedAt.None?
          && ReviewedAt(i, i.currentLevel).Some?)
    && (forall l :: LevelRank(l) < LevelRank(i.currentLevel) ==> ReviewedAt(i, l).Some?)
    && (forall l :: LevelRank(l) > LevelRank(i.currentLevel) ==> ReviewedAt(i, l).None?)
  }

  /** An accepted review keeps an issue well formed and moves it strictly forward. */
  lemma {:induction false} ReviewedWellFormed(i: Issue, level: Level, a: Action, remarks: Option<string>, now: int)
    requires WellFormed(i) && i.status == PendingAt(level) && Allowed(level, a)
    ensures WellFormed(Reviewed(i, level, a, remarks, now))
    ensures Rank(Reviewed(i, level, a, remarks, now).status) > Rank(i.status)
  {
    var r := Reviewed(i, level, a, remarks, now);
    assert i.currentLevel == level;
    forall l | LevelRank(l) < LevelRank(r.currentLevel) ensures ReviewedAt(r, l).Some? {
      if l != level {
        assert LevelRank(l) < LevelRank(level);
      }
    }
    forall l | LevelRank(l) > LevelRank(r.currentLevel) ensures ReviewedAt(r, l).None? {
      assert l != level;
    }
  }

  /** The first position holding an issue with this id. */
  function FindIssue(issues: seq<Issue>, id: string): (r: Option<nat>)
    ensures r.Some? ==> r.value < |issues| && issues[r.value].id == id
    ensures r.Some? ==> forall k :: 0 <= k < r.value ==> issues[k].id != id
    ensures r.None? <==> forall k :: 0 <= k < |issues| ==> issues[k].id != id
  {
    if issues == [] then None
    else if issues[0].id == id then Some(0)
    else
      match FindIssue(issues[1..], id)
      case None => None
      case Some(k) => Some(k + 1)
  }

  /** What a successful review reports back. */
  datatype Done = Done(message: string, issue: Issue)

  /** A review handler (`reviewIssueAtBlock`, `reviewIssueAtDistrict`,
      `reviewIssueAtState`) as a function of the table: the action is checked
      first, then the issue is looked up, then its status must be exactly the
      level's pending status; any refusal leaves the table as it was. */
  function ReviewOutcome(issues: seq<Issue>, level: Level, id: string, action: Option<string>,
                         remarks: Option<string>, now: int): (r: (Reply<Done>, seq<Issue>))
    ensures ParseAction(level, action).None? ==> r == (Err(400, InvalidActionMessage(level)), issues)
    ensures ParseAction(level, action).Some? && FindIssue(issues, id).None? ==> r == (Err(404, "Issue not found"), issues)
    ensures ParseAction(level, action).Some? && FindIssue(issues, id).Some? ==>
              (issues[FindIssue(issues, id).value].status != PendingAt(level)
               ==> r == (Err(400, NotPendingMessage(level)), issues))
    ensures ParseAction(level, action).Some? && FindIssue(issues, id).Some? ==>
              (issues[FindIssue(issues, id).value].status == PendingAt(level) ==> r.0.Ok?)
    ensures r.0.Ok? ==>
              && ParseAction(level, action).Some? && FindIssue(issues, id).Some?
              && var a, k := ParseAction(level, action).value, FindIssue(issues, id).value;
              && issues[k].status == PendingAt(level)
              && r.1 == issues[k := Reviewed(issues[k], level, a, remarks, now)]
              && r.0 == Ok(200, Done(SuccessMessage(a), r.1[k]))
  {
    match ParseAction(level, action)
    case None => (Err(400, InvalidActionMessage(level)), issues)
    case Some(a) =>
      match FindIssue(issues, id)
      case None => (Err(404, "Issue not found"), issues)
      case Some(k) =>
        if issues[k].status != PendingAt(level) then (Err(400, NotPendingMessage(level)), issues)
        else
          var updated := Reviewed(issues[k], level, a, remarks, now);
          (Ok(200, Done(SuccessMessage(a), updated)), issues[k := updated])
  }

  /** Once an issue is resolved or rejected, no review handler accepts it again. */
  lemma TerminalIsFinal(issues: seq<Issue>, level: Level, id: string, action: Option<string>,
                        remarks: Option<string>, now: int)
    requires FindIssue(issues, id).Some? && Terminal(issues[FindIssue(issues, id).value].status)
    ensures ReviewOutcome(issues, level, id, action, remarks, now).0.Err?
    ensures ReviewOutcome(issues, level, id, action, remarks, now).1 == issues
  {
  }

  /** Only the level an issue currently sits at can review it. */
  lemma OnlyCurrentLevelReviews(issues: seq<Issue>, level: Level, id: string, action: Option<string>,
                                remarks: Option<string>, now: int)
    requires FindIssue(issues, id).Some? && WellFormed(issues[FindIssue(issues, id).value])
    requires ReviewOutcome(issues, level, id, action, remarks, now).0.Ok?
    ensures issues[FindIssue(issues, id).value].currentLevel == level
  {
  }

  // --------------------------------------------------------- the table

  /** `"ISS"` followed by the number, zero-padded to at least six digits. */
  function IssueNumber(n: nat): string {
    "ISS" + ZeroPadded(n, 6)
  }

  /** Distinct numbers give distinct issue numbers: the digits after `ISS`
      read back as the number. */
  lemma IssueNumberInjective(m: nat, n: nat)
    requires IssueNumber(m) == IssueNumber(n)
    ensures m == n
  {
    assert IssueNumber(m)[3..] == ZeroPadded(m, 6);
    assert IssueNumber(n)[3..] == ZeroPadded(n, 6);
  }

  /** The table as the handlers keep it: distinct ids, every issue well formed,
      and the `n`-th issue raised numbered `n` (issues are never deleted). */
  predicate Valid(issues: seq<Issue>) {
    && (forall i, j :: 0 <= i < j < |issues| ==> issues[i].id != issues[j].id)
    && (forall i :: 0 <= i < |issues| ==> WellFormed(issues[i]))
    && (forall i :: 0 <= i < |issues| ==> issues[i].issueId == IssueNumber(i + 1))
  }

  /** In a valid table the human-readable issue numbers are distinct. */
  lemma IssueNumbersDistinct(issues: seq<Issue>, i: nat, j: nat)
    requires Valid(issues) && i < j < |issues|
    ensures issues[i].issueId != issues[j].issueId
  {
    if issues[i].issueId == issues[j].issueId {
      IssueNumberInjective(i + 1, j + 1);
    }
  }

  /** A review keeps the table valid. */
  lemma ReviewKeepsValid(issues: seq<Issue>, level: Level, id: string, action: Option<string>,
                         remarks: Option<string>, now: int)
    requires Valid(issues)
    ensures Valid(ReviewOutcome(issues, level, id, action, remarks, now).1)
  {
    var r := ReviewOutcome(issues, level, id, action, remarks, now);
    if r.0.Ok? {
      var a, k := ParseAction(level, action).value, FindIssue(issues, id).value;
      ReviewedWellFormed(issues[k], level, a, remarks, now);
      ReplaceKeepsValid(issues, k, Reviewed(issues[k], level, a, remarks, now));
    }
  }

  lemma ReplaceKeepsValid(issues: seq<Issue>, k: nat, u: Issue)
    requires Valid(issues) && k < |issues| && SameIdentity(u, issues[k]) && WellFormed(u)
    ensures Valid(issues[k := u])
  {
    var t := issues[k := u];
    forall i, j | 0 <= i < j < |t| ensures t[i].id != t[j].id {
      assert t[i].id == issues[i].id && t[j].id == issues[j].id;
    }
    forall i | 0 <= i < |t| ensures WellFormed(t[i]) && t[i].issueId == IssueNumber(i + 1) {
      if i != k {
        assert t[i] == issues[i];
      }
    }
  }

  /** `createIssue` as a function of the table. Title, description, school
      and author must be given; the school must exist; the issue is numbered
      after the current count, defaults to MEDIUM priority, and starts pending
      block review at block level (the store's defaults). */
  function CreateOutcome(issues: seq<Issue>, schoolIds: set<string>, newId: string,
                         title: Option<string>, description: Option<string>, priority: Option<string>,
                         schoolId: Option<string>, raisedBy: Option<string>): (r: (Reply<Issue>, seq<Issue>))
    ensures !(Truthy(title) && Truthy(description) && Truthy(schoolId) && Truthy(raisedBy)) ==>
              r == (Err(400, "Title, description, schoolId, and raisedBy are required"), issues)
    ensures Truthy(title) && Truthy(description) && Truthy(schoolId) && Truthy(raisedBy) && schoolId.value !in schoolIds ==>
              r == (Err(404, "School not found"), issues)
    ensures Truthy(title) && Truthy(description) && Truthy(schoolId) && Truthy(raisedBy) && schoolId.value in schoolIds ==>
              r.0.Ok?
    ensures r.0.Ok? ==>
              && r.0.code == 200 && r.1 == issues + [r.0.value]
              && var i := r.0.value;
              && i.id == newId && i.issueId == IssueNumber(|issues| + 1)
              && i.title == title.value && i.description == description.value
              && i.schoolId == schoolId.value && i.schoolId in schoolIds && i.raisedBy == raisedBy.value
              && i.priority == (if Truthy(priority) then priority.value else "MEDIUM")
              && i.status == PendingBlockReview && i.currentLevel == Block
              && WellFormed(i)
  {
    if !(Truthy(title) && Truthy(description) && Truthy(schoolId) && Truthy(raisedBy)) then
      (Err(400, "Title, description, schoolId, and raisedBy are required"), issues)
    else if schoolId.value !in schoolIds then
      (Err(404, "School not found"), issues)
    else
      var i := Issue(newId, IssueNumber(|issues| + 1), title.value, description.value,
                     if Truthy(priority) then priority.value else "MEDIUM",
                     schoolId.value, raisedBy.value, PendingBlockReview, Block,
                     None, None, None, None, None, None, None, None);
      (Ok(200, i), issues + [i])
  }

  /** Appending a well-formed issue with a fresh id and the next number keeps
      the table valid. */
  lemma AppendKeepsValid(issues: seq<Issue>, x: Issue)
    requires Valid(issues) && forall k :: 0 <= k < |issues| ==> issues[k].id != x.id
    requires WellFormed(x) && x.issueId == IssueNumber(|issues| + 1)
    ensures Valid(issues + [x])
  {
    var t := issues + [x];
    forall a, b | 0 <= a < b < |t| ensures t[a].id != t[b].id {
      assert t[a] == issues[a];
      if b < |issues| {
        assert t[b] == issues[b];
      }
    }
    forall a | 0 <= a < |t| ensures WellFormed(t[a]) && t[a].issueId == IssueNumber(a + 1) {
      if a < |issues| {
        assert t[a] == issues[a];
      }
    }
  }

  /** Creating an issue with a fresh id keeps the table valid. */
  lemma CreateKeepsValid(issues: seq<Issue>, schoolIds: set<string>, newId: string,
                         title: Option<string>, description: Option<string>, priority: Option<string>,
                         schoolId: Option<string>, raisedBy: Option<string>)
    requires Valid(issues) && forall k :: 0 <= k < |issues| ==> issues[k].id != newId
    ensures Valid(CreateOutcome(issues, schoolIds, newId, title, description, priority, schoolId, raisedBy).1)
  {
    var r := CreateOutcome(issues, schoolIds, newId, title, description, priority, schoolId, raisedBy);
    if r.0.Ok? {
      AppendKeepsValid(issues, r.0.value);
    }
  }

  /** The issue table with the school ids issues may be raised for. */
  class IssueStore {
    var issues: seq<Issue>
    const schoolIds: set<string>

    constructor (schoolIds: set<string>)
      ensures issues == [] && this.schoolIds == schoolIds && Valid(issues)
    {
      issues := [];
      this.schoolIds := schoolIds;
    }

    /** The store's lookup by id: a scan from the front. */
    method IndexOf(id: string) returns (k: Option<nat>)
      ensures k == FindIssue(issues, id)
    {
      var i := 0;
      while i < |issues|
        invariant 0 <= i <= |issues|
        invariant forall j :: 0 <= j < i ==> issues[j].id != id
      {
        if issues[i].id == id {
          return Some(i);
        }
        i := i + 1;
      }
      return None;
    }

    /** `createIssue`; `newId` is the id the store generates. */
    method Create(newId: string, title: Option<string>, description: Option<string>, priority: Option<string>,
                  schoolId: Option<string>, raisedBy: Option<string>) returns (r: Reply<Issue>)
      requires Valid(issues) && forall k :: 0 <= k < |issues| ==> issues[k].id != newId
      modifies this
      ensures (r, issues) == CreateOutcome(old(issues), schoolIds, newId, title, description, priority, schoolId, raisedBy)
      ensures Valid(issues)
    {
      CreateKeepsValid(issues, schoolIds, newId, title, description, priority, schoolId, raisedBy);
      if !(Truthy(title) && Truthy(description) && Truthy(schoolId) && Truthy(raisedBy)) {
        return Err(400, "Title, description, schoolId, and raisedBy are required");
      }
      if schoolId.value !in schoolIds {
        return Err(404, "School not found");
      }
      var issueCount := |issues|;
      var issue := Issue(newId, IssueNumber(issueCount + 1), title.value, description.value,
                         if Truthy(priority) then priority.value else "MEDIUM",
                         schoolId.value, raisedBy.value, PendingBlockReview, Block,
                         None, None, None, None, None, None, None, None);
      issues := issues + [issue];
      r := Ok(200, issue);
    }

    /** One of the three review handlers, chosen by `level`; `now` is the
        clock. The update starts with the level's remarks and review time;
        the action then sets the status and its own fields. */
    method Review(level: Level, id: string, action: Option<string>, remarks: Option<string>, now: int)
      returns (r: Reply<Done>)
      requires Valid(issues)
      modifies this
      ensures (r, issues) == ReviewOutcome(old(issues), level, id, action, remarks, now)
      ensures Valid(issues)
    {
      ReviewKeepsValid(issues, level, id, action, remarks, now);
      var a := ParseAction(level, action);
      if a.None? {
        return Err(400, InvalidActionMessage(level));
      }
      var k := IndexOf(id);
      if k.None? {
        return Err(404, "Issue not found");
      }
      var issue := issues[k.value];
      if issue.status != PendingAt(level) {
        return Err(400, NotPendingMessage(level));
      }
      var updated := WithReview(issue, level, remarks, now);
      match a.value {
        case Escalate =>
          updated := updated.(status := PendingAt(Above(level)), currentLevel := Above(level));
        case Resolve =>
          updated := updated.(status := Resolved, resolvedAt := Some(now));
        case Reject =>
          updated := updated.(status := RejectedAt(level), rejectedAt := Some(now));
      }
      issues := issues[k.value := updated];
      r := Ok(200, Done(SuccessMessage(a.value), updated));
    }
  }

  // ------------------------------------------------------------ summary

  function WithStatus(st: Status): Issue -> bool {
    (i: Issue) => i.status == st
  }

  function IsRejected(): Issue -> bool {
    (i: Issue) => i.status.RejectedByBlock? || i.status.RejectedByDistrict? || i.status.RejectedByState?
  }

  function WithPriority(p: string): Issue -> bool {
    (i: Issue) => i.priority == p
  }

  function AtLevel(l: Level): Issue -> bool {
    (i: Issue) => i.currentLevel == l
  }

  datatype IssueCounts = IssueCounts(
    totalIssues: nat, pendingBlock: nat, pendingDistrict: nat, pendingState: nat,
    resolved: nat, rejected: nat, highPriority: nat, criticalPriority: nat)

  /** The five status counts partition the issues: every issue is counted in
      exactly one of them. */
  lemma {:induction false} StatusPartition(s: seq<Issue>)
    ensures |s| == |Filter(s, WithStatus(PendingBlockReview))| + |Filter(s, WithStatus(PendingDistrictReview))|
                   + |Filter(s, WithStatus(PendingStateReview))| + |Filter(s, WithStatus(Resolved))|
                   + |Filter(s, IsRejected())|
    decreases |s|
  {
    if s != [] {
      StatusPartition(s[..|s| - 1]);
    }
  }

  function Counts(s: seq<Issue>): (r: IssueCounts)
    ensures r.totalIssues == |s|
    ensures r.totalIssues == r.pendingBlock + r.pendingDistrict + r.pendingState + r.resolved + r.rejected
    ensures r.highPriority + r.criticalPriority <= r.totalIssues
    ensures r.pendingBlock == |Filter(s, WithStatus(PendingBlockReview))|
    ensures r.pendingDistrict == |Filter(s, WithStatus(PendingDistrictReview))|
    ensures r.pendingState == |Filter(s, WithStatus(PendingStateReview))|
    ensures r.resolved == |Filter(s, WithStatus(Resolved))|
    ensures r.rejected == |Filter(s, IsRejected())|
    ensures r.highPriority == |Filter(s, WithPriority("HIGH"))|
    ensures r.criticalPriority == |Filter(s, WithPriority("CRITICAL"))|
  {
    StatusPartition(s);
    CountDisjoint(s, WithPriority("HIGH"), WithPriority("CRITICAL"));
    IssueCounts(
      |s|,
      |Filter(s, WithStatus(PendingBlockReview))|,
      |Filter(s, WithStatus(PendingDistrictReview))|,
      |Filter(s, WithStatus(PendingStateReview))|,
      |Filter(s, WithStatus(Resolved))|,
      |Filter(s, IsRejected())|,
      |Filter(s, WithPriority("HIGH"))|,
      |Filter(s, WithPriority("CRITICAL"))|)
  }

  /** `getIssuesSummary`: a level other than STATE restricts every count to
      the issues at that level; STATE, or no level, counts every issue. A
      level the store does not know makes the query fail, answered with 500. */
  function IssuesSummary(issues: seq<Issue>, levelParam: Option<string>): (r: Reply<IssueCounts>)
    ensures !Truthy(levelParam) || levelParam == Some("STATE") ==> r == Ok(200, Counts(issues))
    ensures Truthy(levelParam) && levelParam != Some("STATE") && ParseLevel(levelParam.value).None? ==>
              r == Err(500, "Error fetching issues summary")
    ensures r.Ok? ==> r.code == 200 && r.value.totalIssues <= |issues|
    ensures forall l :: l != State && levelParam == Some(LevelName(l)) ==>
              r == Ok(200, Counts(Filter(issues, AtLevel(l))))
  {
    if Truthy(levelParam) && levelParam.value != "STATE" then
      match ParseLevel(levelParam.value)
      case None => Err(500, "Error fetching issues summary")
      case Some(l) => Ok(200, Counts(Filter(issues, AtLevel(l))))
    else
      Ok(200, Counts(issues))
  }
}

/** The notifications handlers: sending a notification from a STATE, DISTRICT
    or BLOCK account to the levels below it, the audience filter behind the
    listing and the dashboard statistics, the read-record upsert, and the
    sender-only update and delete. The notification table and the read-record
    table are sequences of records. */
module Notifications {
  import opened Wrappers
  import opened Text
  import opened Seqs
  import opened Profiles

  // ----------------------------------------------------------- profiles

  /** `s?.toUpperCase()` compared against the profile names: an absent value
      names no profile, and the comparison ignores letter case. */
  function ParseProfile(s: Option<string>): (r: Option<Profile>)
    ensures r.Some? ==> s.Some? && Upper(s.value) == ProfileName(r.value)
    ensures forall p :: s.Some? && Upper(s.value) == ProfileName(p) ==> r == Some(p)
  {
    if s.None? then None else ProfileOf(Upper(s.value))
  }

  // -------------------------------------------------------------- records

  /** The four audience flags a notification carries. */
  datatype Targets = Targets(schools: bool, blocks: bool, districts: bool, states: bool)

  /** A notification as the store holds it; `kind` is the stored `type`. */
  datatype Notification = Notification(
    id: string, notificationId: string, title: string, message: string,
    kind: string, priority: string, sentBy: Option<string>, sentFrom: string,
    targets: Targets,
    specificSchoolIds: seq<string>, specificBlockCodes: seq<int>, specificDistrictCodes: seq<int>,
    expiresAt: Option<int>, isActive: bool)

  /** A read record: `userId` has read the notification with store id `notificationId`. */
  datatype ReadRecord = ReadRecord(notificationId: string, userId: string, userLevel: string, readAt: int)

  /** The store's promises: notification ids are unique, and there is at most
      one read record per notification and user. */
  predicate IdsUnique(ns: seq<Notification>) {
    forall i, j :: 0 <= i < j < |ns| ==> ns[i].id != ns[j].id
  }

  predicate ReadKeysUnique(records: seq<ReadRecord>) {
    forall i, j :: 0 <= i < j < |records| ==>
      !(records[i].notificationId == records[j].notificationId && records[i].userId == records[j].userId)
  }

  /** The first position holding the notification with store id `id`. */
  function FindId(ns: seq<Notification>, id: string): (r: Option<nat>)
    ensures r.Some? ==> r.value < |ns| && ns[r.value].id == id
    ensures r.Some? ==> forall j :: 0 <= j < r.value ==> ns[j].id != id
    ensures r.None? <==> forall j :: 0 <= j < |ns| ==> ns[j].id != id
  {
    if ns == [] then None
    else if ns[0].id == id then Some(0)
    else
      match FindId(ns[1..], id)
      case None => None
      case Some(i) => Some(i + 1)
  }

  /** The position of the read record of `userId` for notification `nid`. */
  function FindRead(records: seq<ReadRecord>, nid: string, userId: string): (r: Option<nat>)
    ensures r.Some? ==> r.value < |records| && records[r.value].notificationId == nid && records[r.value].userId == userId
    ensures r.Some? ==> forall j :: 0 <= j < r.value ==> !(records[j].notificationId == nid && records[j].userId == userId)
    ensures r.None? <==> forall j :: 0 <= j < |records| ==> !(records[j].notificationId == nid && records[j].userId == userId)
  {
    if records == [] then None
    else if records[0].notificationId == nid && records[0].userId == userId then Some(0)
    else
      match FindRead(records[1..], nid, userId)
      case None => None
      case Some(i) => Some(i + 1)
  }

  predicate HasRead(records: seq<ReadRecord>, nid: string, userId: string) {
    exists j :: 0 <= j < |records| && records[j].notificationId == nid && records[j].userId == userId
  }

  // ------------------------------------------------------------- audience

  /** The query parameters of the listing and the statistics. */
  datatype Query = Query(
    userLevel: Option<string>, userId: Option<string>,
    schoolId: Option<string>, blockCode: Option<string>, districtCode: Option<string>,
    page: Option<string>, limit: Option<string>, unreadOnly: Option<string>)

  /** A code parameter as the handler reads it, `parseInt(code || "0")`: an
      absent or empty code is 0, anything else is parsed (`None` for `NaN`). */
  function CodeParam(code: Option<string>): (r: Option<int>)
    ensures !Truthy(code) ==> r == Some(0)
    ensures Truthy(code) ==> r == ParseInt(code.value)
  {
    if Truthy(code) then ParseInt(code.value) else Some(0)
  }

  /** One alternative of the store query's `OR` list. A listed-id condition
      with no value (an absent school id, a code that is `NaN`) holds for no
      notification. */
  datatype Cond =
    | TargetsSchools | SchoolListed(schoolId: Option<string>)
    | TargetsBlocks | BlockListed(blockCode: Option<int>)
    | TargetsDistricts | DistrictListed(districtCode: Option<int>)
    | TargetsStates
    | ExpiresFrom(time: int) | NeverExpires

  predicate Holds(c: Cond, n: Notification) {
    match c
    case TargetsSchools => n.targets.schools
    case SchoolListed(id) => id.Some? && id.value in n.specificSchoolIds
    case TargetsBlocks => n.targets.blocks
    case BlockListed(code) => code.Some? && code.value in n.specificBlockCodes
    case TargetsDistricts => n.targets.districts
    case DistrictListed(code) => code.Some? && code.value in n.specificDistrictCodes
    case TargetsStates => n.targets.states
    case ExpiresFrom(t) => n.expiresAt.Some? && n.expiresAt.value >= t
    case NeverExpires => n.expiresAt.None?
  }

  /** The `OR` list the level switch installs for a user of profile `p`. */
  function TargetConds(p: Profile, q: Query): seq<Cond> {
    match p
    case School => [TargetsSchools, SchoolListed(q.schoolId)]
    case Block => [TargetsBlocks, BlockListed(CodeParam(q.blockCode))]
    case District => [TargetsDistricts, DistrictListed(CodeParam(q.districtCode))]
    case State => [TargetsStates]
  }

  /** The store query's where clause: the notification is active and one of
      the alternatives holds. */
  predicate Matches(conds: seq<Cond>, n: Notification) {
    n.isActive && exists c :: c in conds && Holds(c, n)
  }

  /** The where clause as the listing handler builds it: first the expiry
      alternatives, then the level switch, which replaces the whole `OR` list.
      An unknown level yields `None` (the handler's 400). */
  method BuildFilter(q: Query, now: int) returns (r: Option<seq<Cond>>)
    ensures r.None? <==> ParseProfile(q.userLevel).None?
    ensures r.Some? ==> r.value == TargetConds(ParseProfile(q.userLevel).value, q)
    ensures r.Some? ==> forall c :: c in r.value ==> !c.ExpiresFrom? && !c.NeverExpires?
  {
    var conds := [ExpiresFrom(now), NeverExpires];
    match ParseProfile(q.userLevel) {
      case None =>
        return None;
      case Some(School) =>
        conds := [TargetsSchools, SchoolListed(q.schoolId)];
      case Some(Block) =>
        conds := [TargetsBlocks, BlockListed(CodeParam(q.blockCode))];
      case Some(District) =>
        conds := [TargetsDistricts, DistrictListed(CodeParam(q.districtCode))];
      case Some(State) =>
        conds := [TargetsStates];
    }
    r := Some(conds);
  }

  /** Who sees a notification, level by level: an active notification reaches
      a SCHOOL user when it targets all schools or lists the user's school, a
      BLOCK or DISTRICT user likewise by code (0 when no code is given), and a
      STATE user only through the state flag. */
  predicate Sees(p: Profile, q: Query, n: Notification) {
    n.isActive &&
    match p
    case School => n.targets.schools || (q.schoolId.Some? && q.schoolId.value in n.specificSchoolIds)
    case Block => n.targets.blocks || (CodeParam(q.blockCode).Some? && CodeParam(q.blockCode).value in n.specificBlockCodes)
    case District =>
      n.targets.districts || (CodeParam(q.districtCode).Some? && CodeParam(q.districtCode).value in n.specificDistrictCodes)
    case State => n.targets.states
  }

  /** The where clause selects exactly the notifications the audience rule gives. */
  lemma AudienceRule(p: Profile, q: Query, n: Notification)
    ensures Matches(TargetConds(p, q), n) <==> Sees(p, q, n)
  {
    var conds := TargetConds(p, q);
    if Sees(p, q, n) {
      assert Holds(conds[0], n) || Holds(conds[|conds| - 1], n);
    }
  }

  /** The expiry alternatives never reach the query: whether a notification is
      listed does not depend on its expiry, so an expired one is still listed. */
  lemma ExpiryNotApplied(p: Profile, q: Query, n: Notification, expiresAt: Option<int>)
    ensures Matches(TargetConds(p, q), n) <==> Matches(TargetConds(p, q), n.(expiresAt := expiresAt))
  {
    AudienceRule(p, q, n);
    AudienceRule(p, q, n.(expiresAt := expiresAt));
  }

  // -------------------------------------------------------------- listing

  /** `userId || ""`, the user the read records are looked up for. */
  function UserOf(q: Query): string {
    if Truthy(q.userId) then q.userId.value else ""
  }

  predicate UnreadOnly(q: Query) {
    q.unreadOnly == Some("true") && Truthy(q.userId)
  }

  /** The listing's filter: the audience, and with `unreadOnly=true` and a
      user id, only notifications that user has no read record for. */
  function ListFilter(p: Profile, q: Query, records: seq<ReadRecord>): Notification -> bool {
    (n: Notification) => Matches(TargetConds(p, q), n) && (UnreadOnly(q) ==> !HasRead(records, n.id, UserOf(q)))
  }

  /** `skip: offset, take: limit` over a sequence. */
  function Window<T>(s: seq<T>, offset: nat, limit: nat): (r: seq<T>)
    ensures |r| <= limit
    ensures offset <= |s| ==> |r| == if limit <= |s| - offset then limit else |s| - offset
    ensures forall i :: 0 <= i < |r| ==> offset + i < |s| && r[i] == s[offset + i]
  {
    if offset >= |s| then []
    else if offset + limit >= |s| then s[offset..]
    else s[offset..offset + limit]
  }

  /** `(page - 1) * limit`, the number of rows before page `page`. */
  function Offset(page: int, limit: int): int {
    (page - 1) * limit
  }

  /** Every element lies on the page its position gives: element `j` is row
      `j % limit` of page `j / limit + 1`. */
  lemma PageHolds<T>(s: seq<T>, limit: nat, j: nat)
    requires limit > 0 && j < |s|
    ensures var page := j / limit + 1;
            var w := Window(s, Offset(page, limit), limit);
            j % limit < |w| && w[j % limit] == s[j]
  {
    var offset := (j / limit) * limit;
    assert offset + j % limit == j;
    assert Offset(j / limit + 1, limit) == offset;
  }

  /** `Math.ceil(total / limit)` for a positive limit. */
  function PageCount(total: nat, limit: nat): (r: nat)
    requires limit > 0
    ensures (r - 1) * limit < total <= r * limit
  {
    var r := (total + limit - 1) / limit;
    var m := (total + limit - 1) % limit;
    assert total + limit - 1 == r * limit + m;
    assert (r - 1) * limit == r * limit - limit;
    r
  }

  datatype Listed = Listed(notification: Notification, isRead: bool)

  datatype Listing = Listing(rows: seq<Listed>, page: int, limit: int, total: nat, totalPages: Option<nat>)

  /** Page `page` of `limit` rows of the matching notifications, each marked
      read or unread for `user`. */
  function PageListing(shown: seq<Notification>, records: seq<ReadRecord>, user: string, page: int, limit: int): (l: Listing)
    requires limit >= 0 && Offset(page, limit) >= 0
    ensures l.page == page && l.limit == limit && l.total == |shown| && |l.rows| <= limit
    ensures forall i :: 0 <= i < |l.rows| ==>
              && Offset(page, limit) + i < |shown|
              && l.rows[i].notification == shown[Offset(page, limit) + i]
              && (l.rows[i].isRead <==> HasRead(records, l.rows[i].notification.id, user))
    ensures limit == 0 <==> l.totalPages.None?
    ensures limit > 0 ==> (l.totalPages.value - 1) * limit < l.total <= l.totalPages.value * limit
  {
    var w := Window(shown, Offset(page, limit), limit);
    var rows := seq(|w|, i requires 0 <= i < |w| => Listed(w[i], HasRead(records, w[i].id, user)));
    var totalPages := if limit == 0 then None else Some(PageCount(|shown|, limit));
    Listing(rows, page, limit, |shown|, totalPages)
  }

  /** The page and limit of a listing, absent when either is not a number or
      when they give a negative offset or a negative limit. */
  function PageArgs(q: Query): (r: Option<(int, int)>)
    ensures r.Some? <==> var page, limit := ParseInt(q.page.GetOr("1")), ParseInt(q.limit.GetOr("20"));
                         page.Some? && limit.Some? && limit.value >= 0 && Offset(page.value, limit.value) >= 0
    ensures r.Some? ==> Some(r.value.0) == ParseInt(q.page.GetOr("1")) && Some(r.value.1) == ParseInt(q.limit.GetOr("20"))
  {
    var page := ParseInt(q.page.GetOr("1"));
    var limit := ParseInt(q.limit.GetOr("20"));
    if page.None? || limit.None? || limit.value < 0 || Offset(page.value, limit.value) < 0 then None
    else Some((page.value, limit.value))
  }

  /** GET `/`: the page of the audience's notifications, each marked read or
      unread for the user. A page or limit that is not a number, a negative
      offset or a negative limit makes the store query fail (500). With a
      limit of 0 the page count is not a number (`null`). */
  function ListOutcome(ns: seq<Notification>, records: seq<ReadRecord>, q: Query): (r: Reply<Listing>)
    ensures ParseProfile(q.userLevel).None? <==> r == Err(400, "Invalid user level")
    ensures r.Err? ==> r.code == 400 || r == Err(500, "Failed to fetch notifications")
    ensures ParseProfile(q.userLevel).Some? ==> (PageArgs(q).None? <==> r == Err(500, "Failed to fetch notifications"))
    ensures ParseProfile(q.userLevel).Some? && PageArgs(q).Some? ==> r.Ok?
    ensures r.Ok? ==>
              var p := ParseProfile(q.userLevel).value;
              var l := r.value;
              && r.code == 200
              && Some(l.page) == ParseInt(q.page.GetOr("1")) && Some(l.limit) == ParseInt(q.limit.GetOr("20"))
              && l.limit >= 0 && Offset(l.page, l.limit) >= 0
              && l == PageListing(Filter(ns, ListFilter(p, q, records)), records, UserOf(q), l.page, l.limit)
  {
    match ParseProfile(q.userLevel)
    case None => Err(400, "Invalid user level")
    case Some(p) =>
      match PageArgs(q)
      case None => Err(500, "Failed to fetch notifications")
      case Some((page, limit)) => Ok(200, PageListing(Filter(ns, ListFilter(p, q, records)), records, UserOf(q), page, limit))
  }

  /** A page of notifications none of which the user has read shows only
      unread rows. */
  lemma PageOfUnread(shown: seq<Notification>, records: seq<ReadRecord>, user: string, page: int, limit: int)
    requires limit >= 0 && Offset(page, limit) >= 0
    requires forall k :: 0 <= k < |shown| ==> !HasRead(records, shown[k].id, user)
    ensures forall row :: row in PageListing(shown, records, user, page, limit).rows ==> !row.isRead
  {
    var l := PageListing(shown, records, user, page, limit);
    forall i | 0 <= i < |l.rows| ensures !l.rows[i].isRead {
      assert l.rows[i].notification == shown[Offset(page, limit) + i];
    }
  }

  /** With `unreadOnly=true` and a user id, every listed notification is unread. */
  lemma UnreadOnlyListsUnread(ns: seq<Notification>, records: seq<ReadRecord>, q: Query)
    requires UnreadOnly(q) && ListOutcome(ns, records, q).Ok?
    ensures forall row :: row in ListOutcome(ns, records, q).value.rows ==> !row.isRead
  {
    var l := ListOutcome(ns, records, q).value;
    var p := ParseProfile(q.userLevel).value;
    var f := ListFilter(p, q, records);
    var shown := Filter(ns, f);
    forall k | 0 <= k < |shown| ensures !HasRead(records, shown[k].id, UserOf(q)) {
      assert f(shown[k]);
    }
    PageOfUnread(shown, records, UserOf(q), l.page, l.limit);
  }

  // ----------------------------------------------------------- statistics

  datatype Stats = Stats(total: nat, unread: nat, read: int, urgent: nat)

  function AudienceOf(p: Profile, q: Query): Notification -> bool {
    (n: Notification) => Matches(TargetConds(p, q), n)
  }

  function ReadAmong(p: Profile, q: Query, records: seq<ReadRecord>): Notification -> bool {
    (n: Notification) => Matches(TargetConds(p, q), n) && HasRead(records, n.id, UserOf(q))
  }

  function UnreadBy(p: Profile, q: Query, records: seq<ReadRecord>): Notification -> bool {
    (n: Notification) => Matches(TargetConds(p, q), n) && !HasRead(records, n.id, UserOf(q))
  }

  function UrgentAmong(p: Profile, q: Query): Notification -> bool {
    (n: Notification) => Matches(TargetConds(p, q), n) && n.priority == "URGENT"
  }

  /** GET `/stats`: the audience's notifications, how many the user has not
      read, how many are urgent, and `read` as the difference. */
  function StatsOutcome(ns: seq<Notification>, records: seq<ReadRecord>, q: Query): (r: Reply<Stats>)
    ensures ParseProfile(q.userLevel).None? <==> r == Err(400, "Invalid user level")
    ensures ParseProfile(q.userLevel).Some? ==> r.Ok?
    ensures r.Ok? ==>
              var p := ParseProfile(q.userLevel).value;
              && r.code == 200
              && r.value.total == |Filter(ns, AudienceOf(p, q))| <= |ns|
              && r.value.unread == |Filter(ns, UnreadBy(p, q, records))|
              && r.value.read == r.value.total - r.value.unread
              && r.value.read == |Filter(ns, ReadAmong(p, q, records))|
              && r.value.urgent == |Filter(ns, UrgentAmong(p, q))| <= r.value.total
  {
    match ParseProfile(q.userLevel)
    case None => Err(400, "Invalid user level")
    case Some(p) =>
      var audience := AudienceOf(p, q);
      var total := |Filter(ns, audience)|;
      var unread := |Filter(ns, UnreadBy(p, q, records))|;
      var urgent := |Filter(ns, UrgentAmong(p, q))|;
      CountSplit(ns, audience, ReadAmong(p, q, records), UnreadBy(p, q, records));
      CountMonotone(ns, UrgentAmong(p, q), audience);
      Ok(200, Stats(total, unread, total - unread, urgent))
  }

  /** The unread count of the statistics is the total the listing reports when
      it is asked for unread notifications only. */
  lemma StatsUnreadIsUnreadListing(ns: seq<Notification>, records: seq<ReadRecord>, q: Query)
    requires UnreadOnly(q) && ListOutcome(ns, records, q).Ok?
    ensures StatsOutcome(ns, records, q).Ok?
    ensures StatsOutcome(ns, records, q).value.unread == ListOutcome(ns, records, q).value.total
  {
    var p := ParseProfile(q.userLevel).value;
    FilterCongruent(ns, ListFilter(p, q, records), UnreadBy(p, q, records));
  }

  // -------------------------------------------------------------- sending

  /** The body of a send request. */
  datatype Draft = Draft(
    title: Option<string>, message: Option<string>, kind: Option<string>, priority: Option<string>,
    sentBy: Option<string>, sentFrom: Option<string>, targets: Targets,
    specificSchoolIds: seq<string>, specificBlockCodes: seq<int>, specificDistrictCodes: seq<int>,
    expiresAt: Option<int>)

  /** The levels a notification's flags address. */
  function TargetLevels(t: Targets): (r: set<Profile>)
    ensures School in r <==> t.schools
    ensures Block in r <==> t.blocks
    ensures District in r <==> t.districts
    ensures State in r <==> t.states
  {
    (if t.schools then {School} else {}) + (if t.blocks then {Block} else {})
    + (if t.districts then {District} else {}) + (if t.states then {State} else {})
  }

  /** The targeting rule: a BLOCK sender may not set the block, district or
      state flag, a DISTRICT sender not the district or state flag; a STATE
      sender may set any. */
  predicate TargetsAllowed(sender: Profile, t: Targets) {
    match sender
    case Block => !(t.blocks || t.districts || t.states)
    case District => !(t.districts || t.states)
    case _ => true
  }

  /** The targeting rule says: a sender below STATE addresses only levels
      below its own. */
  lemma {:induction false} TargetsAllowedByRank(sender: Profile, t: Targets)
    requires sender != School
    ensures TargetsAllowed(sender, t) <==> forall l :: l in TargetLevels(t) ==> sender == State || Rank(l) < Rank(sender)
  {
    if !TargetsAllowed(sender, t) {
      var l := if t.states then State else if t.districts then District else Block;
      assert l in TargetLevels(t);
    }
  }

  /** `["STATE", "DISTRICT", "BLOCK"].includes(sentFrom?.toUpperCase())`. */
  function SenderProfile(sentFrom: Option<string>): (r: Option<Profile>)
    ensures r.Some? <==> ParseProfile(sentFrom).Some? && ParseProfile(sentFrom).value != School
    ensures r.Some? ==> r == ParseProfile(sentFrom)
  {
    match ParseProfile(sentFrom)
    case Some(p) => if p == School then None else Some(p)
    case None => None
  }

  /** `NOT-<milliseconds>-<random fragment>`, with the clock and the random
      fragment passed in. */
  function NotificationId(now: nat, random: string): (r: string)
    ensures |r| == 5 + |DecimalString(now)| + |random|
    ensures r[..4] == "NOT-"
    ensures r[4..4 + |DecimalString(now)|] == DecimalString(now)
    ensures r[4 + |DecimalString(now)|..] == "-" + random
  {
    var digits := DecimalString(now);
    var r := "NOT-" + digits + "-" + random;
    assert r[4..4 + |digits|] == digits;
    assert r[4 + |digits|..] == "-" + random;
    r
  }

  /** Notification ids made at different milliseconds differ, whatever the
      random fragments. */
  lemma {:induction false} NotificationIdsDiffer(t1: nat, r1: string, t2: nat, r2: string)
    requires t1 != t2
    ensures NotificationId(t1, r1) != NotificationId(t2, r2)
  {
    var a, b := DecimalString(t1), DecimalString(t2);
    var x, y := NotificationId(t1, r1), NotificationId(t2, r2);
    if |a| == |b| {
      assert x[4..4 + |a|] != y[4..4 + |b|];
    } else if |a| < |b| {
      assert x[4 + |a|..][0] == '-';
      assert y[4 + |a|] == y[4..4 + |b|][|a|] == b[|a|];
      assert x[4 + |a|] != y[4 + |a|];
    } else {
      assert y[4 + |b|..][0] == '-';
      assert x[4 + |b|] == x[4..4 + |a|][|b|] == a[|b|];
      assert x[4 + |b|] != y[4 + |b|];
    }
  }

  const SenderRefused := "Only STATE, DISTRICT, and BLOCK levels can send notifications"

  /** POST `/` as a function of the table: the checks in the handler's order
      (sender level 403, target levels 400, title and message 400), then the
      new record appended with its defaults. */
  function SendOutcome(ns: seq<Notification>, d: Draft, newId: string, now: nat, random: string)
    : (r: (Reply<Notification>, seq<Notification>))
    ensures SenderProfile(d.sentFrom).None? <==> r == (Err(403, SenderRefused), ns)
    ensures SenderProfile(d.sentFrom).Some? ==>
              (!TargetsAllowed(SenderProfile(d.sentFrom).value, d.targets) <==> r == (Err(400, "Invalid target levels"), ns))
    ensures SenderProfile(d.sentFrom).Some? && TargetsAllowed(SenderProfile(d.sentFrom).value, d.targets) ==>
              ((!Truthy(d.title) || !Truthy(d.message)) <==> r == (Err(400, "Title and message are required"), ns))
    ensures SenderProfile(d.sentFrom).Some? && TargetsAllowed(SenderProfile(d.sentFrom).value, d.targets) ==>
              (Truthy(d.title) && Truthy(d.message) ==> r.0.Ok?)
    ensures r.0.Ok? ==>
              var n := r.0.value;
              var sender := SenderProfile(d.sentFrom).value;
              && r.0.code == 200
              && r.1 == ns + [n]
              && n.id == newId && n.notificationId == NotificationId(now, random)
              && Some(n.title) == d.title && Some(n.message) == d.message && n.title != "" && n.message != ""
              && n.kind == d.kind.GetOr("INFO") && n.priority == d.priority.GetOr("MEDIUM")
              && n.sentBy == d.sentBy && Some(n.sentFrom) == d.sentFrom && n.targets == d.targets
              && n.specificSchoolIds == d.specificSchoolIds && n.specificBlockCodes == d.specificBlockCodes
              && n.specificDistrictCodes == d.specificDistrictCodes
              && (forall l :: l in TargetLevels(n.targets) ==> sender == State || Rank(l) < Rank(sender))
              && (n.expiresAt.Some? <==> TruthyInt(d.expiresAt)) && (n.expiresAt.Some? ==> n.expiresAt == d.expiresAt)
              && n.isActive
  {
    match SenderProfile(d.sentFrom)
    case None => (Err(403, SenderRefused), ns)
    case Some(sender) =>
      if !TargetsAllowed(sender, d.targets) then (Err(400, "Invalid target levels"), ns)
      else if !Truthy(d.title) || !Truthy(d.message) then (Err(400, "Title and message are required"), ns)
      else
        TargetsAllowedByRank(sender, d.targets);
        var n := Notification(
          newId, NotificationId(now, random), d.title.value, d.message.value,
          d.kind.GetOr("INFO"), d.priority.GetOr("MEDIUM"), d.sentBy, d.sentFrom.value, d.targets,
          d.specificSchoolIds, d.specificBlockCodes, d.specificDistrictCodes,
          if TruthyInt(d.expiresAt) then d.expiresAt else None, true);
        (Ok(200, n), ns + [n])
  }

  lemma SendKeepsIdsUnique(ns: seq<Notification>, d: Draft, newId: string, now: nat, random: string)
    requires IdsUnique(ns) && forall j :: 0 <= j < |ns| ==> ns[j].id != newId
    ensures IdsUnique(SendOutcome(ns, d, newId, now, random).1)
  {
  }

  // ---------------------------------------------------------- mark read

  /** POST `/:id/read`: both user fields are required (400), the notification
      must exist (404); then the user's read record is created, or its read
      time renewed when it exists. */
  function MarkReadOutcome(ns: seq<Notification>, records: seq<ReadRecord>, id: string,
                           userId: Option<string>, userLevel: Option<string>, now: int)
    : (r: (Reply<string>, seq<ReadRecord>))
    ensures !Truthy(userId) || !Truthy(userLevel) <==> r == (Err(400, "userId and userLevel are required"), records)
    ensures Truthy(userId) && Truthy(userLevel) ==>
              (FindId(ns, id).None? <==> r == (Err(404, "Notification not found"), records))
    ensures Truthy(userId) && Truthy(userLevel) ==> (FindId(ns, id).Some? ==> r.0.Ok?)
    ensures r.0.Ok? && FindRead(records, id, userId.value).Some? ==>
              var j := FindRead(records, id, userId.value).value;
              r.1 == records[j := records[j].(readAt := now)]
    ensures r.0.Ok? ==>
              && r.0 == Ok(200, "Notification marked as read")
              && HasRead(r.1, id, userId.value)
              && (forall j :: 0 <= j < |records| && !(records[j].notificationId == id && records[j].userId == userId.value) ==>
                    j < |r.1| && r.1[j] == records[j])
              && (HasRead(records, id, userId.value) ==> |r.1| == |records|)
              && (!HasRead(records, id, userId.value) ==> r.1 == records + [ReadRecord(id, userId.value, userLevel.value, now)])
  {
    if !Truthy(userId) || !Truthy(userLevel) then (Err(400, "userId and userLevel are required"), records)
    else if FindId(ns, id).None? then (Err(404, "Notification not found"), records)
    else
      var ok := Ok(200, "Notification marked as read");
      match FindRead(records, id, userId.value)
      case Some(j) =>
        var r' := records[j := records[j].(readAt := now)];
        assert r'[j].notificationId == id && r'[j].userId == userId.value;
        (ok, r')
      case None =>
        var r' := records + [ReadRecord(id, userId.value, userLevel.value, now)];
        assert r'[|records|].notificationId == id && r'[|records|].userId == userId.value;
        (ok, r')
  }

  /** The upsert keeps one read record per notification and user, and marking
      the same notification read again at the same time changes nothing more. */
  lemma MarkReadTwice(ns: seq<Notification>, records: seq<ReadRecord>, id: string,
                      userId: Option<string>, userLevel: Option<string>, now: int)
    requires ReadKeysUnique(records)
    ensures var once := MarkReadOutcome(ns, records, id, userId, userLevel, now).1;
            && ReadKeysUnique(once)
            && MarkReadOutcome(ns, once, id, userId, userLevel, now).1 == once
  {
    var once := MarkReadOutcome(ns, records, id, userId, userLevel, now).1;
    if MarkReadOutcome(ns, records, id, userId, userLevel, now).0.Ok? {
      var j := FindRead(once, id, userId.value).value;
      if FindRead(records, id, userId.value).None? {
        assert j == |records|;
      } else {
        assert j == FindRead(records, id, userId.value).value;
      }
      assert once[j := once[j].(readAt := now)] == once;
    }
  }

  // ------------------------------------------------------ update, delete

  /** The stored sender must equal the one in the body (`!==`): a record stored
      without a sender matches no body. */
  predicate SameSender(stored: Option<string>, given: Option<string>) {
    stored.Some? && given == stored
  }

  /** The body of an update request. */
  datatype Changes = Changes(
    title: Option<string>, message: Option<string>, kind: Option<string>, priority: Option<string>,
    isActive: Option<bool>, expiresAt: Option<int>, sentBy: Option<string>)

  /** A text field is written only when given truthy. */
  function IfTruthy(given: Option<string>): (r: Option<string>)
    ensures r.Some? <==> Truthy(given)
    ensures r.Some? ==> r == given
  {
    if Truthy(given) then given else None
  }

  /** The partial update: title, message, type, priority and expiry are
      written when given truthy, `isActive` when given as a boolean; nothing
      else changes. */
  function Edited(n: Notification, c: Changes): (r: Notification)
    ensures r.title == (if Truthy(c.title) then c.title.value else n.title)
    ensures r.message == (if Truthy(c.message) then c.message.value else n.message)
    ensures r.kind == (if Truthy(c.kind) then c.kind.value else n.kind)
    ensures r.priority == (if Truthy(c.priority) then c.priority.value else n.priority)
    ensures r.isActive == c.isActive.GetOr(n.isActive)
    ensures r.expiresAt == (if TruthyInt(c.expiresAt) then c.expiresAt else n.expiresAt)
    ensures r.(title := n.title, message := n.message, kind := n.kind, priority := n.priority,
               isActive := n.isActive, expiresAt := n.expiresAt) == n
  {
    n.(title := Overwrite(n.title, IfTruthy(c.title)),
       message := Overwrite(n.message, IfTruthy(c.message)),
       kind := Overwrite(n.kind, IfTruthy(c.kind)),
       priority := Overwrite(n.priority, IfTruthy(c.priority)),
       isActive := Overwrite(n.isActive, c.isActive),
       expiresAt := if TruthyInt(c.expiresAt) then c.expiresAt else n.expiresAt)
  }

  /** The update's data assembled field by field, each field written only
      when the body gives it. */
  method ApplyChanges(n: Notification, c: Changes) returns (u: Notification)
    ensures u == Edited(n, c)
  {
    var title, message, kind, priority, isActive, expiresAt :=
      n.title, n.message, n.kind, n.priority, n.isActive, n.expiresAt;
    if Truthy(c.title) { title := c.title.value; }
    if Truthy(c.message) { message := c.message.value; }
    if Truthy(c.kind) { kind := c.kind.value; }
    if Truthy(c.priority) { priority := c.priority.value; }
    if c.isActive.Some? { isActive := c.isActive.value; }
    if TruthyInt(c.expiresAt) { expiresAt := c.expiresAt; }
    u := n.(title := title, message := message, kind := kind, priority := priority,
            isActive := isActive, expiresAt := expiresAt);
  }

  /** An update can set an expiry but never clear one, and never empties the
      title or the message. */
  lemma EditNeverClears(n: Notification, c: Changes)
    requires n.title != "" && n.message != ""
    ensures n.expiresAt.Some? ==> Edited(n, c).expiresAt.Some?
    ensures Edited(n, c).title != "" && Edited(n, c).message != ""
  {
  }

  /** PUT `/:id` as a function of the table. */
  function UpdateOutcome(ns: seq<Notification>, id: string, c: Changes): (r: (Reply<Notification>, seq<Notification>))
    ensures FindId(ns, id).None? <==> r == (Err(404, "Notification not found"), ns)
    ensures FindId(ns, id).Some? ==>
              (!SameSender(ns[FindId(ns, id).value].sentBy, c.sentBy)
               <==> r == (Err(403, "You can only update notifications you sent"), ns))
    ensures FindId(ns, id).Some? ==> (SameSender(ns[FindId(ns, id).value].sentBy, c.sentBy) ==> r.0.Ok?)
    ensures r.0.Ok? ==>
              var k := FindId(ns, id).value;
              && r.0 == Ok(200, Edited(ns[k], c))
              && SameSender(ns[k].sentBy, c.sentBy)
              && |r.1| == |ns| && r.1[k] == Edited(ns[k], c)
              && forall j :: 0 <= j < |ns| && j != k ==> r.1[j] == ns[j]
  {
    match FindId(ns, id)
    case None => (Err(404, "Notification not found"), ns)
    case Some(k) =>
      if !SameSender(ns[k].sentBy, c.sentBy) then (Err(403, "You can only update notifications you sent"), ns)
      else (Ok(200, Edited(ns[k], c)), ns[k := Edited(ns[k], c)])
  }

  /** DELETE `/:id` as a function of the table. */
  function DeleteOutcome(ns: seq<Notification>, id: string, sentBy: Option<string>): (r: (Reply<string>, seq<Notification>))
    ensures FindId(ns, id).None? <==> r == (Err(404, "Notification not found"), ns)
    ensures FindId(ns, id).Some? ==>
              (!SameSender(ns[FindId(ns, id).value].sentBy, sentBy)
               <==> r == (Err(403, "You can only delete notifications you sent"), ns))
    ensures FindId(ns, id).Some? ==> (SameSender(ns[FindId(ns, id).value].sentBy, sentBy) ==> r.0.Ok?)
    ensures r.0.Ok? ==>
              var k := FindId(ns, id).value;
              && r.0 == Ok(200, "Notification deleted successfully")
              && SameSender(ns[k].sentBy, sentBy)
              && r.1 == RemoveAt(ns, k)
  {
    match FindId(ns, id)
    case None => (Err(404, "Notification not found"), ns)
    case Some(k) =>
      if !SameSender(ns[k].sentBy, sentBy) then (Err(403, "You can only delete notifications you sent"), ns)
      else (Ok(200, "Notification deleted successfully"), RemoveAt(ns, k))
  }

  /** A delete removes exactly the notification with that id, and keeps ids unique. */
  lemma DeleteRemovesExactly(ns: seq<Notification>, id: string, sentBy: Option<string>)
    requires IdsUnique(ns) && DeleteOutcome(ns, id, sentBy).0.Ok?
    ensures var t := DeleteOutcome(ns, id, sentBy).1;
            && IdsUnique(t) && |t| == |ns| - 1
            && (forall m :: m in t ==> m in ns && m.id != id)
            && (forall m :: m in ns && m.id != id ==> m in t)
  {
    var k := FindId(ns, id).value;
    var t := DeleteOutcome(ns, id, sentBy).1;
    assert t == RemoveAt(ns, k);
    forall i, j | 0 <= i < j < |t| ensures t[i].id != t[j].id {
      var i', j' := if i < k then i else i + 1, if j < k then j else j + 1;
      assert t[i] == ns[i'] && t[j] == ns[j'];
    }
    forall m | m in ns && m.id != id ensures m in t {
      var j :| 0 <= j < |ns| && ns[j] == m;
      if j < k { assert t[j] == m; } else { assert t[j - 1] == m; }
    }
    forall m | m in t ensures m in ns && m.id != id {
      var j :| 0 <= j < |t| && t[j] == m;
      if j < k { assert ns[j] == m; } else { assert ns[j + 1] == m; }
    }
  }

  /** A notification stored without a sender can be neither updated nor deleted. */
  lemma SenderlessIsLocked(ns: seq<Notification>, id: string, c: Changes, sentBy: Option<string>)
    requires FindId(ns, id).Some? && ns[FindId(ns, id).value].sentBy.None?
    ensures UpdateOutcome(ns, id, c).0.Err? && DeleteOutcome(ns, id, sentBy).0.Err?
  {
  }

  // ------------------------------------------------------- read records

  /** Every read record points at a stored notification. */
  predicate ReadsResolve(ns: seq<Notification>, records: seq<ReadRecord>) {
    forall j :: 0 <= j < |records| ==> FindId(ns, records[j].notificationId).Some?
  }

  function NotFor(id: string): ReadRecord -> bool {
    (x: ReadRecord) => x.notificationId != id
  }

  function DistinctReadKeys(): (ReadRecord, ReadRecord) -> bool {
    (a: ReadRecord, b: ReadRecord) => !(a.notificationId == b.notificationId && a.userId == b.userId)
  }

  /** The read records left when notification `id` is deleted: its own go
      with it, the others stay in order. */
  function CascadeReads(records: seq<ReadRecord>, id: string): (r: seq<ReadRecord>)
    ensures forall x :: x in r <==> x in records && x.notificationId != id
    ensures ReadKeysUnique(records) ==> ReadKeysUnique(r)
  {
    var r := Filter(records, NotFor(id));
    if ReadKeysUnique(records) then
      assert Pairwise(records, DistinctReadKeys());
      FilterPairwise(records, NotFor(id), DistinctReadKeys());
      r
    else r
  }

  /** A notification found at some position of `ns` is still found in a
      table holding the same id at that position. */
  lemma StillFound(ns: seq<Notification>, t: seq<Notification>, nid: string, m: nat)
    requires FindId(ns, nid).Some? && m < |t| && t[m].id == nid
    ensures FindId(t, nid).Some?
  {
  }

  /** A send with a fresh id keeps every read record pointing at a notification,
      and nobody has read the new one yet. */
  lemma SendKeepsResolve(ns: seq<Notification>, records: seq<ReadRecord>, d: Draft, newId: string,
                         now: nat, random: string, userId: string)
    requires ReadsResolve(ns, records) && forall j :: 0 <= j < |ns| ==> ns[j].id != newId
    ensures ReadsResolve(SendOutcome(ns, d, newId, now, random).1, records)
    ensures !HasRead(records, newId, userId)
  {
    var t := SendOutcome(ns, d, newId, now, random).1;
    forall j | 0 <= j < |records| ensures FindId(t, records[j].notificationId).Some? {
      var m := FindId(ns, records[j].notificationId).value;
      StillFound(ns, t, records[j].notificationId, m);
    }
    forall j | 0 <= j < |records| ensures records[j].notificationId != newId {
      var m := FindId(ns, records[j].notificationId).value;
      assert ns[m].id == records[j].notificationId;
    }
  }

  /** Marking read only records reads of stored notifications. */
  lemma MarkReadKeepsResolve(ns: seq<Notification>, records: seq<ReadRecord>, id: string,
                             userId: Option<string>, userLevel: Option<string>, now: int)
    requires ReadsResolve(ns, records)
    ensures ReadsResolve(ns, MarkReadOutcome(ns, records, id, userId, userLevel, now).1)
  {
    var t := MarkReadOutcome(ns, records, id, userId, userLevel, now).1;
    if MarkReadOutcome(ns, records, id, userId, userLevel, now).0.Ok? {
      forall j | 0 <= j < |t| ensures FindId(ns, t[j].notificationId).Some? {
        if j < |records| && t[j] != records[j] {
          assert t[j].notificationId == id;
        } else if j >= |records| {
          assert t[j].notificationId == id;
        }
      }
    }
  }

  /** An update keeps every id in its position, so every read record still resolves. */
  lemma UpdateKeepsResolve(ns: seq<Notification>, records: seq<ReadRecord>, id: string, c: Changes)
    requires ReadsResolve(ns, records)
    ensures ReadsResolve(UpdateOutcome(ns, id, c).1, records)
  {
    var t := UpdateOutcome(ns, id, c).1;
    forall j | 0 <= j < |records| ensures FindId(t, records[j].notificationId).Some? {
      var m := FindId(ns, records[j].notificationId).value;
      StillFound(ns, t, records[j].notificationId, m);
    }
  }

  /** Deleting a notification with its read records leaves no record pointing
      at a notification that is gone. */
  lemma DeleteKeepsResolve(ns: seq<Notification>, records: seq<ReadRecord>, id: string, sentBy: Option<string>)
    requires IdsUnique(ns) && ReadsResolve(ns, records) && DeleteOutcome(ns, id, sentBy).0.Ok?
    ensures ReadsResolve(DeleteOutcome(ns, id, sentBy).1, CascadeReads(records, id))
  {
    var t := DeleteOutcome(ns, id, sentBy).1;
    var k := FindId(ns, id).value;
    var c := CascadeReads(records, id);
    assert t == RemoveAt(ns, k);
    forall j | 0 <= j < |c| ensures FindId(t, c[j].notificationId).Some? {
      var x := c[j];
      assert x in c;
      var jj :| 0 <= jj < |records| && records[jj] == x;
      var m := FindId(ns, x.notificationId).value;
      assert m != k;
      var m' := if m < k then m else m - 1;
      assert t[m'] == ns[m];
      StillFound(ns, t, x.notificationId, m');
    }
  }

  // ---------------------------------------------------------------- store

  /** The notification and read-record tables. */
  class NotificationStore {
    var notifications: seq<Notification>
    var records: seq<ReadRecord>

    predicate Valid()
      reads this
    {
      IdsUnique(notifications) && ReadKeysUnique(records) && ReadsResolve(notifications, records)
    }

    constructor ()
      ensures notifications == [] && records == [] && Valid()
    {
      notifications := [];
      records := [];
    }

    /** The store's lookup of a notification by id: a scan from the front. */
    method IndexOf(id: string) returns (k: Option<nat>)
      ensures k == FindId(notifications, id)
    {
      var i := 0;
      while i < |notifications|
        invariant 0 <= i <= |notifications|
        invariant forall j :: 0 <= j < i ==> notifications[j].id != id
      {
        if notifications[i].id == id {
          return Some(i);
        }
        i := i + 1;
      }
      return None;
    }

    /** The store's lookup of a user's read record: a scan from the front. */
    method IndexOfRead(nid: string, userId: string) returns (k: Option<nat>)
      ensures k == FindRead(records, nid, userId)
    {
      var i := 0;
      while i < |records|
        invariant 0 <= i <= |records|
        invariant forall j :: 0 <= j < i ==> !(records[j].notificationId == nid && records[j].userId == userId)
      {
        if records[i].notificationId == nid && records[i].userId == userId {
          return Some(i);
        }
        i := i + 1;
      }
      return None;
    }

    /** GET `/`: the where clause, then the page of what it selects. */
    method List(q: Query, now: int) returns (r: Reply<Listing>)
      ensures r == ListOutcome(notifications, records, q)
    {
      var conds := BuildFilter(q, now);
      if conds.None? {
        return Err(400, "Invalid user level");
      }
      var args := PageArgs(q);
      if args.None? {
        return Err(500, "Failed to fetch notifications");
      }
      var (page, limit) := args.value;
      var shown := Filter(notifications, ListFilter(ParseProfile(q.userLevel).value, q, records));
      r := Ok(200, PageListing(shown, records, UserOf(q), page, limit));
    }

    /** POST `/`: the sender check, the target check, the required fields,
        then the new record. */
    method Send(d: Draft, newId: string, now: nat, random: string) returns (r: Reply<Notification>)
      requires Valid() && forall j :: 0 <= j < |notifications| ==> notifications[j].id != newId
      modifies this
      ensures (r, notifications) == SendOutcome(old(notifications), d, newId, now, random)
      ensures records == old(records) && Valid()
    {
      SendKeepsIdsUnique(notifications, d, newId, now, random);
      SendKeepsResolve(notifications, records, d, newId, now, random, "");
      var sender := SenderProfile(d.sentFrom);
      if sender.None? {
        return Err(403, SenderRefused);
      }
      if !TargetsAllowed(sender.value, d.targets) {
        return Err(400, "Invalid target levels");
      }
      if !Truthy(d.title) || !Truthy(d.message) {
        return Err(400, "Title and message are required");
      }
      var n := Notification(
        newId, NotificationId(now, random), d.title.value, d.message.value,
        d.kind.GetOr("INFO"), d.priority.GetOr("MEDIUM"), d.sentBy, d.sentFrom.value, d.targets,
        d.specificSchoolIds, d.specificBlockCodes, d.specificDistrictCodes,
        if TruthyInt(d.expiresAt) then d.expiresAt else None, true);
      notifications := notifications + [n];
      r := Ok(200, n);
    }

    /** POST `/:id/read`: the upsert of the user's read record. */
    method MarkRead(id: string, userId: Option<string>, userLevel: Option<string>, now: int) returns (r: Reply<string>)
      requires Valid()
      modifies this
      ensures (r, records) == MarkReadOutcome(old(notifications), old(records), id, userId, userLevel, now)
      ensures notifications == old(notifications) && Valid()
    {
      MarkReadTwice(notifications, records, id, userId, userLevel, now);
      MarkReadKeepsResolve(notifications, records, id, userId, userLevel, now);
      if !Truthy(userId) || !Truthy(userLevel) {
        return Err(400, "userId and userLevel are required");
      }
      var k := IndexOf(id);
      if k.None? {
        return Err(404, "Notification not found");
      }
      var j := IndexOfRead(id, userId.value);
      if j.Some? {
        records := records[j.value := records[j.value].(readAt := now)];
      } else {
        records := records + [ReadRecord(id, userId.value, userLevel.value, now)];
      }
      r := Ok(200, "Notification marked as read");
    }

    /** PUT `/:id`: the sender check, then the fields given are written one by one. */
    method Update(id: string, c: Changes) returns (r: Reply<Notification>)
      requires Valid()
      modifies this
      ensures (r, notifications) == UpdateOutcome(old(notifications), id, c)
      ensures records == old(records) && Valid()
    {
      var k := IndexOf(id);
      if k.None? {
        return Err(404, "Notification not found");
      }
      var existing := notifications[k.value];
      if !SameSender(existing.sentBy, c.sentBy) {
        return Err(403, "You can only update notifications you sent");
      }
      UpdateKeepsResolve(notifications, records, id, c);
      var u := ApplyChanges(existing, c);
      notifications := notifications[k.value := u];
      r := Ok(200, u);
      assert forall j :: 0 <= j < |notifications| ==> notifications[j].id == old(notifications)[j].id;
    }

    /** DELETE `/:id`: the sender check, then the record is removed, and its
        read records with it. */
    method Delete(id: string, sentBy: Option<string>) returns (r: Reply<string>)
      requires Valid()
      modifies this
      ensures (r, notifications) == DeleteOutcome(old(notifications), id, sentBy)
      ensures records == if r.Ok? then CascadeReads(old(records), id) else old(records)
      ensures Valid()
    {
      var k := IndexOf(id);
      if k.None? {
        return Err(404, "Notification not found");
      }
      if !SameSender(notifications[k.value].sentBy, sentBy) {
        return Err(403, "You can only delete notifications you sent");
      }
      DeleteRemovesExactly(notifications, id, sentBy);
      DeleteKeepsResolve(notifications, records, id, sentBy);
      notifications := RemoveAt(notifications, k.value);
      records := CascadeReads(records, id);
      r := Ok(200, "Notification deleted successfully");
    }
  }
}

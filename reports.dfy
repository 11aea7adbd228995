/** The reports handlers: the district-wise and IS-wise (block-wise)
    aggregates, the two detailed reports that emit one numbered row per
    requisition of a class, and the overall summary. The store is read as
    a snapshot: blocks with their schools, each school with its class
    enrollments and its requisitions (each requisition with its book's class
    and title). Nothing here changes the store. */
module Reports {
  import opened Wrappers
  import opened Text
  import opened Seqs
  import opened Directory
  import Districts

  datatype Enrollment = Enrollment(grade: int, students: int)

  /** A requisition with the two fields of its book the reports read. */
  datatype Req = Req(quantity: int, received: int, status: string, bookGrade: int, bookTitle: string, updatedAt: int)

  datatype School = School(name: string, category: string, schoolType: string, district: string,
                           enrollments: seq<Enrollment>, requisitions: seq<Req>)

  datatype BlockData = BlockData(name: string, district: string, schools: seq<School>)

  // ------------------------------------------------------- query filters

  /** The `district` query of the district-wise and IS-wise reports, used as
      given: absent, empty and `all` select every district. */
  function RawFilter(query: Option<string>): (r: Option<string>)
    ensures r.None? <==> !Truthy(query) || query.value == "all"
    ensures r.Some? ==> r == query
  {
    if Truthy(query) && query.value != "all" then query else None
  }

  /** The `district` query of the detailed reports: `+` becomes `_`, then the
      whole text is upper-cased. */
  function DetailFilter(query: Option<string>): (r: Option<string>)
    ensures r.None? <==> !Truthy(query) || query.value == "all"
    ensures r.Some? ==> |r.value| == |query.value|
    ensures r.Some? ==> forall i :: 0 <= i < |r.value| ==>
              r.value[i] == UpperChar(if query.value[i] == '+' then '_' else query.value[i])
  {
    if Truthy(query) && query.value != "all" then Some(Upper(ReplaceChar(query.value, '+', '_'))) else None
  }

  predicate InDistrict(filter: Option<string>, district: string) {
    filter.None? || filter.value == district
  }

  // ----------------------------------------------------------- measures

  function Students(e: Enrollment): int { e.students }
  function Quantity(r: Req): int { r.quantity }
  function Received(r: Req): int { r.received }
  function Outstanding(r: Req): int { r.quantity - r.received }

  /** The district-wise and IS-wise test for an open requisition: the status
      text contains `PENDING`. */
  predicate IsPendingReq(r: Req) { Contains(r.status, "PENDING") }

  /** The per-school sum of `f` over its requisitions (the inner `reduce`). */
  function ReqSum(f: Req -> int): School -> int {
    (s: School) => SumOf(s.requisitions, f)
  }

  function EnrollmentSum(s: School): int { SumOf(s.enrollments, Students) }

  /** The per-school sum of the outstanding quantity over its open requisitions. */
  function PendingSum(s: School): int { SumOf(Filter(s.requisitions, IsPendingReq), Outstanding) }

  /** The per-school number of open requisitions. */
  function PendingCount(s: School): int { |Filter(s.requisitions, IsPendingReq)| }

  /** Every requisition of every school, school by school. */
  function AllReqs(ss: seq<School>): (r: seq<Req>)
  {
    if ss == [] then [] else AllReqs(ss[..|ss| - 1]) + ss[|ss| - 1].requisitions
  }

  /** Every class enrollment of every school, school by school. */
  function AllEnrollments(ss: seq<School>): (r: seq<Enrollment>)
  {
    if ss == [] then [] else AllEnrollments(ss[..|ss| - 1]) + ss[|ss| - 1].enrollments
  }

  /** The nested enrollment sum is the flat sum over all enrollments. */
  lemma {:induction false} EnrollmentSumIsFlat(ss: seq<School>)
    ensures SumOf(ss, EnrollmentSum) == SumOf(AllEnrollments(ss), Students)
    decreases |ss|
  {
    if ss != [] {
      var prefix := ss[..|ss| - 1];
      EnrollmentSumIsFlat(prefix);
      SumOfAppend(AllEnrollments(prefix), ss[|ss| - 1].enrollments, Students);
    }
  }

  /** A nested sum over schools and their requisitions is the flat sum over
      all requisitions. */
  lemma {:induction false} ReqSumIsFlat(ss: seq<School>, f: Req -> int)
    ensures SumOf(ss, ReqSum(f)) == SumOf(AllReqs(ss), f)
    decreases |ss|
  {
    if ss != [] {
      var prefix := ss[..|ss| - 1];
      ReqSumIsFlat(prefix, f);
      SumOfAppend(AllReqs(prefix), ss[|ss| - 1].requisitions, f);
    }
  }

  /** The nested pending sum is the sum of the outstanding quantity over all
      open requisitions. */
  lemma {:induction false} PendingSumIsFlat(ss: seq<School>)
    ensures SumOf(ss, PendingSum) == SumOf(Filter(AllReqs(ss), IsPendingReq), Outstanding)
    decreases |ss|
  {
    if ss != [] {
      var prefix := ss[..|ss| - 1];
      var last := ss[|ss| - 1].requisitions;
      PendingSumIsFlat(prefix);
      FilterAppend(AllReqs(prefix), last, IsPendingReq);
      SumOfAppend(Filter(AllReqs(prefix), IsPendingReq), Filter(last, IsPendingReq), Outstanding);
    }
  }

  /** The nested pending count is the number of open requisitions. */
  lemma {:induction false} PendingCountIsFlat(ss: seq<School>)
    ensures SumOf(ss, PendingCount) == |Filter(AllReqs(ss), IsPendingReq)|
    decreases |ss|
  {
    if ss != [] {
      var prefix := ss[..|ss| - 1];
      PendingCountIsFlat(prefix);
      FilterAppend(AllReqs(prefix), ss[|ss| - 1].requisitions, IsPendingReq);
    }
  }

  /** A ratio kept as numerator over denominator; the handlers print it as a
      percentage rounded to one decimal. */
  datatype Fraction = Fraction(num: int, den: int)

  /** The district-wise and IS-wise rate: `part / whole * 100` when `whole`
      is positive, otherwise 0, so there is never a division by zero. */
  function Rate(part: int, whole: int): (r: Fraction)
    ensures r.den > 0
    ensures whole > 0 ==> r.num * whole == part * 100 * r.den
    ensures whole <= 0 ==> r.num == 0
  {
    if whole > 0 then Fraction(part * 100, whole) else Fraction(0, 1)
  }

  // -------------------------------------------------- district-wise report

  /** A school counts in a category bucket when its category or its type is
      that category. */
  function InBucket(c: string): School -> bool {
    (s: School) => s.category == c || s.schoolType == c
  }

  function OfDistrict(district: string): School -> bool {
    (s: School) => s.district == district
  }

  function SchoolsOf(schools: seq<School>, district: string): (r: seq<School>)
    ensures forall i :: 0 <= i < |r| ==> r[i] in schools && r[i].district == district
    ensures forall i :: 0 <= i < |schools| && schools[i].district == district ==> schools[i] in r
  {
    Filter(schools, OfDistrict(district))
  }

  datatype DistrictRow = DistrictRow(
    district: string, totalSchools: nat,
    primarySchools: nat, upperPrimarySchools: nat, secondarySchools: nat, higherSecondarySchools: nat,
    totalEnrollment: int, booksRequisitioned: int, booksReceived: int,
    fulfillmentRate: Fraction, pendingRequisitions: int, lastUpdated: string)

  /** The row of one district, over every school of that district; `today` is
      the date part of the clock's ISO text, stamped on every row. */
  function DistrictRowFor(district: string, schools: seq<School>, today: string): (r: DistrictRow)
    ensures var ss := SchoolsOf(schools, district);
            && r.district == DisplayName(district) && r.totalSchools == |ss|
            && r.primarySchools == |Filter(ss, InBucket("PRIMARY"))|
            && r.upperPrimarySchools == |Filter(ss, InBucket("UPPER_PRIMARY"))|
            && r.secondarySchools == |Filter(ss, InBucket("SECONDARY"))|
            && r.higherSecondarySchools == |Filter(ss, InBucket("HIGHER_SECONDARY"))|
            && r.totalEnrollment == SumOf(AllEnrollments(ss), Students)
            && r.booksRequisitioned == SumOf(AllReqs(ss), Quantity)
            && r.booksReceived == SumOf(AllReqs(ss), Received)
            && r.fulfillmentRate == Rate(r.booksReceived, r.booksRequisitioned)
            && r.pendingRequisitions == SumOf(Filter(AllReqs(ss), IsPendingReq), Outstanding)
            && r.lastUpdated == today
  {
    var ss := SchoolsOf(schools, district);
    ReqSumIsFlat(ss, Quantity);
    ReqSumIsFlat(ss, Received);
    PendingSumIsFlat(ss);
    EnrollmentSumIsFlat(ss);
    var requisitioned := SumOf(ss, ReqSum(Quantity));
    var received := SumOf(ss, ReqSum(Received));
    DistrictRow(
      DisplayName(district), |ss|,
      |Filter(ss, InBucket("PRIMARY"))|, |Filter(ss, InBucket("UPPER_PRIMARY"))|,
      |Filter(ss, InBucket("SECONDARY"))|, |Filter(ss, InBucket("HIGHER_SECONDARY"))|,
      SumOf(ss, EnrollmentSum), requisitioned, received,
      Rate(received, requisitioned), SumOf(ss, PendingSum), today)
  }

  /** The blocks whose district the `district` query selects. */
  function SelectedDistrict(query: Option<string>): Block -> bool {
    (b: Block) => InDistrict(RawFilter(query), b.district)
  }

  function DistrictRows(ds: seq<string>, schools: seq<School>, today: string): (r: seq<DistrictRow>)
    ensures |r| == |ds| && forall i :: 0 <= i < |ds| ==> r[i] == DistrictRowFor(ds[i], schools, today)
  {
    seq(|ds|, i requires 0 <= i < |ds| => DistrictRowFor(ds[i], schools, today))
  }

  /** `row` is the row of the district of some block the query selects. */
  predicate DistrictRowOfSelected(blocks: seq<Block>, schools: seq<School>, query: Option<string>, today: string, row: DistrictRow) {
    exists k :: 0 <= k < |blocks| && InDistrict(RawFilter(query), blocks[k].district)
                && row == DistrictRowFor(blocks[k].district, schools, today)
  }

  lemma DistrictRowsOfSelected(blocks: seq<Block>, schools: seq<School>, query: Option<string>, today: string,
                               selected: seq<Block>, ds: seq<string>, r: seq<DistrictRow>)
    requires selected == Filter(blocks, SelectedDistrict(query)) && ds == Districts.DistrictsIn(selected)
    requires r == DistrictRows(ds, schools, today)
    ensures forall i :: 0 <= i < |r| ==> DistrictRowOfSelected(blocks, schools, query, today, r[i])
  {
    forall i | 0 <= i < |r| ensures DistrictRowOfSelected(blocks, schools, query, today, r[i]) {
      assert Districts.HasDistrict(selected, ds[i]);
      var j :| 0 <= j < |selected| && selected[j].district == ds[i];
      assert selected[j] in blocks && SelectedDistrict(query)(selected[j]);
      var k :| 0 <= k < |blocks| && blocks[k] == selected[j];
      assert r[i] == DistrictRowFor(blocks[k].district, schools, today);
    }
  }

  lemma SelectedDistrictsHaveRows(blocks: seq<Block>, schools: seq<School>, query: Option<string>, today: string,
                                  selected: seq<Block>, ds: seq<string>, r: seq<DistrictRow>)
    requires selected == Filter(blocks, SelectedDistrict(query)) && ds == Districts.DistrictsIn(selected)
    requires r == DistrictRows(ds, schools, today)
    ensures forall k :: 0 <= k < |blocks| && InDistrict(RawFilter(query), blocks[k].district) ==>
              DistrictRowFor(blocks[k].district, schools, today) in r
  {
    forall k | 0 <= k < |blocks| && InDistrict(RawFilter(query), blocks[k].district)
      ensures DistrictRowFor(blocks[k].district, schools, today) in r
    {
      assert SelectedDistrict(query)(blocks[k]);
      var j :| 0 <= j < |selected| && selected[j] == blocks[k];
      var i :| 0 <= i < |ds| && ds[i] == selected[j].district;
      assert r[i] == DistrictRowFor(blocks[k].district, schools, today);
    }
  }

  /** `getDistrictWiseReport`: one row for each distinct district among the
      selected blocks, and a row for the district of every selected block. */
  function DistrictWiseReport(blocks: seq<Block>, schools: seq<School>, query: Option<string>, today: string): (r: seq<DistrictRow>)
    ensures var ds := Districts.DistrictsIn(Filter(blocks, SelectedDistrict(query)));
            && |r| == |ds| && (forall i :: 0 <= i < |r| ==> r[i] == DistrictRowFor(ds[i], schools, today))
            && forall i, j :: 0 <= i < j < |ds| ==> ds[i] != ds[j]
    ensures forall i :: 0 <= i < |r| ==> DistrictRowOfSelected(blocks, schools, query, today, r[i])
    ensures forall k :: 0 <= k < |blocks| && InDistrict(RawFilter(query), blocks[k].district) ==>
              DistrictRowFor(blocks[k].district, schools, today) in r
  {
    var selected := Filter(blocks, SelectedDistrict(query));
    var ds := Districts.DistrictsIn(selected);
    var r := DistrictRows(ds, schools, today);
    DistrictRowsOfSelected(blocks, schools, query, today, selected, ds, r);
    SelectedDistrictsHaveRows(blocks, schools, query, today, selected, ds, r);
    r
  }

  /** The category buckets may overlap: a school whose category and type
      differ is counted in two buckets, so the buckets can add up to more
      than the number of schools. */
  lemma BucketsOverlap(s: School, today: string)
    requires s.category == "PRIMARY" && s.schoolType == "SECONDARY"
    ensures var row := DistrictRowFor(s.district, [s], today);
            row.totalSchools == 1 && row.primarySchools + row.secondarySchools == 2
  {
    FilterSingle(s, OfDistrict(s.district));
    FilterSingle(s, InBucket("PRIMARY"));
    FilterSingle(s, InBucket("SECONDARY"));
  }

  lemma AllReqsSingle(s: School)
    ensures AllReqs([s]) == s.requisitions
  {
    assert [s][..0] == [];
  }

  /** The pending figure is not clamped: a pending requisition with more
      received than requested makes it negative. */
  lemma PendingCanBeNegative(s: School, q: Req, today: string)
    requires s.requisitions == [q] && Contains(q.status, "PENDING") && q.received > q.quantity
    ensures DistrictRowFor(s.district, [s], today).pendingRequisitions == q.quantity - q.received < 0
  {
    FilterSingle(s, OfDistrict(s.district));
    AllReqsSingle(s);
    FilterSingle(q, IsPendingReq);
    SumOfSingle(q, Outstanding);
  }

  // ----------------------------------------------------- IS-wise report

  /** The latest update time among some requisitions, starting from 0 (the epoch). */
  function Latest(reqs: seq<Req>): (r: int)
    ensures r >= 0 && forall i :: 0 <= i < |reqs| ==> reqs[i].updatedAt <= r
    ensures r == 0 || exists i :: 0 <= i < |reqs| && reqs[i].updatedAt == r
  {
    if reqs == [] then 0
    else
      var p := Latest(reqs[..|reqs| - 1]);
      var t := reqs[|reqs| - 1].updatedAt;
      if t > p then t else p
  }

  /** The latest update time over the schools of a block, starting from 0. */
  function BlockLatest(ss: seq<School>): (r: int)
    ensures r >= 0
    ensures forall j, i :: 0 <= j < |ss| && 0 <= i < |ss[j].requisitions| ==> ss[j].requisitions[i].updatedAt <= r
    ensures r == 0 || exists j, i :: 0 <= j < |ss| && 0 <= i < |ss[j].requisitions| && ss[j].requisitions[i].updatedAt == r
  {
    if ss == [] then 0
    else
      var prefix := ss[..|ss| - 1];
      var p := BlockLatest(prefix);
      var t := Latest(ss[|ss| - 1].requisitions);
      var r := if t > p then t else p;
      assert forall j :: 0 <= j < |prefix| ==> ss[j] == prefix[j];
      if r == 0 then r
      else if r == t then
        var i :| 0 <= i < |ss[|ss| - 1].requisitions| && ss[|ss| - 1].requisitions[i].updatedAt == t;
        r
      else
        var j, i :| 0 <= j < |prefix| && 0 <= i < |prefix[j].requisitions| && prefix[j].requisitions[i].updatedAt == p;
        assert ss[j] == prefix[j];
        r
  }

  datatype ISRow = ISRow(
    isName: string, district: string, totalSchools: nat, booksDistributed: int, studentsEnrolled: int,
    pendingRequests: nat, completionRate: Fraction, lastActivity: int)

  /** The row of one block. `pendingRequests` counts open requisitions (it does
      not sum their quantities). */
  function ISRowFor(b: BlockData): (r: ISRow)
    ensures r.isName == b.name && r.district == DisplayName(b.district) && r.totalSchools == |b.schools|
    ensures r.booksDistributed == SumOf(AllReqs(b.schools), Received)
    ensures r.studentsEnrolled == SumOf(AllEnrollments(b.schools), Students)
    ensures r.pendingRequests == |Filter(AllReqs(b.schools), IsPendingReq)| <= |AllReqs(b.schools)|
    ensures r.completionRate == Rate(r.booksDistributed, SumOf(AllReqs(b.schools), Quantity))
    ensures r.lastActivity == BlockLatest(b.schools)
  {
    var ss := b.schools;
    ReqSumIsFlat(ss, Quantity);
    ReqSumIsFlat(ss, Received);
    PendingCountIsFlat(ss);
    EnrollmentSumIsFlat(ss);
    var distributed := SumOf(ss, ReqSum(Received));
    var requisitioned := SumOf(ss, ReqSum(Quantity));
    ISRow(b.name, DisplayName(b.district), |ss|, distributed, SumOf(ss, EnrollmentSum),
          SumOf(ss, PendingCount), Rate(distributed, requisitioned), BlockLatest(ss))
  }

  /** The blocks whose district the `district` query selects. */
  function SelectedBlock(query: Option<string>): BlockData -> bool {
    (b: BlockData) => InDistrict(RawFilter(query), b.district)
  }

  function ISRows(bs: seq<BlockData>): (r: seq<ISRow>)
    ensures |r| == |bs| && forall i :: 0 <= i < |bs| ==> r[i] == ISRowFor(bs[i])
  {
    seq(|bs|, i requires 0 <= i < |bs| => ISRowFor(bs[i]))
  }

  /** `row` is the row of some block the query selects. */
  predicate RowOfSelected(blocks: seq<BlockData>, query: Option<string>, row: ISRow) {
    exists k :: 0 <= k < |blocks| && InDistrict(RawFilter(query), blocks[k].district) && row == ISRowFor(blocks[k])
  }

  lemma ISRowsOfSelected(blocks: seq<BlockData>, query: Option<string>, selected: seq<BlockData>, r: seq<ISRow>)
    requires selected == Filter(blocks, SelectedBlock(query)) && r == ISRows(selected)
    ensures forall i :: 0 <= i < |r| ==> RowOfSelected(blocks, query, r[i])
    ensures forall k :: 0 <= k < |blocks| && InDistrict(RawFilter(query), blocks[k].district) ==> ISRowFor(blocks[k]) in r
  {
    forall i | 0 <= i < |r| ensures RowOfSelected(blocks, query, r[i]) {
      assert selected[i] in blocks && SelectedBlock(query)(selected[i]);
      var k :| 0 <= k < |blocks| && blocks[k] == selected[i];
      assert r[i] == ISRowFor(blocks[k]);
    }
    forall k | 0 <= k < |blocks| && InDistrict(RawFilter(query), blocks[k].district)
      ensures ISRowFor(blocks[k]) in r
    {
      assert SelectedBlock(query)(blocks[k]);
      var i :| 0 <= i < |selected| && selected[i] == blocks[k];
      assert r[i] == ISRowFor(blocks[k]);
    }
  }

  /** `getISWiseReport`: one row per selected block, in table order. */
  function ISWiseReport(blocks: seq<BlockData>, query: Option<string>): (r: seq<ISRow>)
    ensures var sel := Filter(blocks, SelectedBlock(query));
            |r| == |sel| && forall i :: 0 <= i < |r| ==> r[i] == ISRowFor(sel[i])
    ensures forall i :: 0 <= i < |r| ==> RowOfSelected(blocks, query, r[i])
    ensures forall k :: 0 <= k < |blocks| && InDistrict(RawFilter(query), blocks[k].district) ==> ISRowFor(blocks[k]) in r
  {
    var selected := Filter(blocks, SelectedBlock(query));
    var r := ISRows(selected);
    ISRowsOfSelected(blocks, query, selected, r);
    r
  }

  // ---------------------------------------------------- detailed reports

  /** One row of a detailed report. `schoolName` is present only in the IS-wise one. */
  datatype Row = Row(
    slNo: nat, districtName: string, isName: string, schoolName: Option<string>,
    grade: int, enrollment: int, bookName: string,
    requirement: int, dispatched: int, availableStock: int)

  /** Stock still to come, never below zero. */
  predicate Clamped(row: Row) {
    row.availableStock == if row.requirement - row.dispatched > 0 then row.requirement - row.dispatched else 0
  }

  function MatchesGrade(grade: int): Req -> bool {
    (q: Req) => q.bookGrade == grade
  }

  function ReqRow(b: BlockData, s: School, e: Enrollment, q: Req, withSchoolName: bool): (r: Row)
    ensures Clamped(r)
  {
    var available := q.quantity - q.received;
    Row(0, DisplayName(b.district), b.name, if withSchoolName then Some(s.name) else None,
        e.grade, e.students, q.bookTitle, q.quantity, q.received, if available > 0 then available else 0)
  }

  function Placeholder(b: BlockData, s: School, e: Enrollment, withSchoolName: bool): Row {
    Row(0, DisplayName(b.district), b.name, if withSchoolName then Some(s.name) else None,
        e.grade, e.students, "No books requisitioned", 0, 0, 0)
  }

  function ReqRows(b: BlockData, s: School, e: Enrollment, qs: seq<Req>, withSchoolName: bool): (r: seq<Row>)
    ensures |r| == |qs|
    ensures forall i :: 0 <= i < |qs| ==> r[i] == ReqRow(b, s, e, qs[i], withSchoolName)
  {
    seq(|qs|, i requires 0 <= i < |qs| => ReqRow(b, s, e, qs[i], withSchoolName))
  }

  /** The rows for one class enrollment: one per requisition of a book for
      that class, or a single placeholder with zero figures when there is none. */
  function EnrollmentRows(b: BlockData, s: School, e: Enrollment, withSchoolName: bool): (r: seq<Row>)
    ensures var m := Filter(s.requisitions, MatchesGrade(e.grade));
            && |r| == (if |m| > 0 then |m| else 1)
            && (|m| == 0 ==> r[0].requirement == 0 && r[0].dispatched == 0 && r[0].availableStock == 0)
            && (forall i :: 0 <= i < |m| ==> r[i].bookName == m[i].bookTitle && r[i].requirement == m[i].quantity
                                             && r[i].dispatched == m[i].received)
    ensures forall i :: 0 <= i < |r| ==> Clamped(r[i]) && r[i].slNo == 0 && r[i].grade == e.grade
  {
    var m := Filter(s.requisitions, MatchesGrade(e.grade));
    if |m| > 0 then ReqRows(b, s, e, m, withSchoolName) else [Placeholder(b, s, e, withSchoolName)]
  }

  /** The rows for the first `n` enrollments of a school. */
  function SchoolRows(b: BlockData, s: School, n: nat, withSchoolName: bool): (r: seq<Row>)
    requires n <= |s.enrollments|
    ensures forall i :: 0 <= i < |r| ==> Clamped(r[i]) && r[i].slNo == 0
    ensures |r| >= n
  {
    if n == 0 then [] else SchoolRows(b, s, n - 1, withSchoolName) + EnrollmentRows(b, s, s.enrollments[n - 1], withSchoolName)
  }

  /** The rows for the first `n` schools of a block. */
  function BlockRows(b: BlockData, n: nat, withSchoolName: bool): (r: seq<Row>)
    requires n <= |b.schools|
    ensures forall i :: 0 <= i < |r| ==> Clamped(r[i]) && r[i].slNo == 0
  {
    if n == 0 then []
    else
      var s := b.schools[n - 1];
      BlockRows(b, n - 1, withSchoolName) + SchoolRows(b, s, |s.enrollments|, withSchoolName)
  }

  lemma BlockRowsSnoc(b: BlockData, n: nat, withSchoolName: bool)
    requires n < |b.schools|
    ensures BlockRows(b, n + 1, withSchoolName)
            == BlockRows(b, n, withSchoolName) + SchoolRows(b, b.schools[n], |b.schools[n].enrollments|, withSchoolName)
  {
  }

  /** The rows for the first `n` blocks. */
  function ReportRows(blocks: seq<BlockData>, n: nat, withSchoolName: bool): (r: seq<Row>)
    requires n <= |blocks|
    ensures forall i :: 0 <= i < |r| ==> Clamped(r[i]) && r[i].slNo == 0
  {
    if n == 0 then []
    else
      var b := blocks[n - 1];
      ReportRows(blocks, n - 1, withSchoolName) + BlockRows(b, |b.schools|, withSchoolName)
  }

  /** `rows` are `spec` numbered consecutively from `start`. */
  predicate NumberedFrom(rows: seq<Row>, spec: seq<Row>, start: nat) {
    |rows| == |spec| && forall i :: 0 <= i < |rows| ==> rows[i] == spec[i].(slNo := start + i)
  }

  lemma NumberedAppend(a: seq<Row>, sa: seq<Row>, b: seq<Row>, sb: seq<Row>, start: nat)
    requires NumberedFrom(a, sa, start) && NumberedFrom(b, sb, start + |a|)
    ensures NumberedFrom(a + b, sa + sb, start)
  {
    forall i | 0 <= i < |a + b| ensures (a + b)[i] == (sa + sb)[i].(slNo := start + i) {
      if i >= |a| {
        assert (a + b)[i] == b[i - |a|];
      }
    }
  }

  /** Rows emitted after `report` in two steps are the two specifications,
      one after the other, numbered on from `start`. */
  lemma EmittedInSteps(report: seq<Row>, mid: seq<Row>, after: seq<Row>, first: seq<Row>, second: seq<Row>,
                        whole: seq<Row>, start: nat)
    requires |report| <= |mid| && mid[..|report|] == report && NumberedFrom(mid[|report|..], first, start)
    requires |mid| <= |after| && after[..|mid|] == mid && NumberedFrom(after[|mid|..], second, start + |first|)
    requires whole == first + second
    ensures |report| <= |after| && after[..|report|] == report && NumberedFrom(after[|report|..], whole, start)
  {
    assert after[|report|..] == mid[|report|..] + after[|mid|..];
    NumberedAppend(mid[|report|..], first, after[|mid|..], second, start);
  }

  lemma EmittedAfter(before: seq<Row>, after: seq<Row>, first: seq<Row>, second: seq<Row>)
    requires NumberedFrom(before, first, 1)
    requires |before| <= |after| && after[..|before|] == before && NumberedFrom(after[|before|..], second, 1 + |first|)
    ensures NumberedFrom(after, first + second, 1)
  {
    assert after == before + after[|before|..];
    NumberedAppend(before, first, after[|before|..], second, 1);
  }

  /** Emits the rows of one enrollment (the innermost loop). */
  method EmitEnrollment(report: seq<Row>, slNo: nat, b: BlockData, s: School, e: Enrollment, withSchoolName: bool)
    returns (report': seq<Row>, slNo': nat)
    requires slNo == |report| + 1
    ensures slNo' == |report'| + 1 && |report'| >= |report| && report'[..|report|] == report
    ensures NumberedFrom(report'[|report|..], EnrollmentRows(b, s, e, withSchoolName), slNo)
  {
    report', slNo' := report, slNo;
    var matching := Filter(s.requisitions, MatchesGrade(e.grade));
    if |matching| > 0 {
      var i := 0;
      while i < |matching|
        invariant 0 <= i <= |matching|
        invariant slNo' == |report'| + 1 && |report'| == |report| + i && report'[..|report|] == report
        invariant NumberedFrom(report'[|report|..], ReqRows(b, s, e, matching[..i], withSchoolName), slNo)
      {
        report' := report' + [ReqRow(b, s, e, matching[i], withSchoolName).(slNo := slNo')];
        slNo' := slNo' + 1;
        i := i + 1;
      }
      assert matching[..i] == matching;
    } else {
      report' := report' + [Placeholder(b, s, e, withSchoolName).(slNo := slNo')];
      slNo' := slNo' + 1;
    }
  }

  lemma SchoolRowsSnoc(b: BlockData, s: School, n: nat, withSchoolName: bool)
    requires n < |s.enrollments|
    ensures SchoolRows(b, s, n + 1, withSchoolName)
            == SchoolRows(b, s, n, withSchoolName) + EnrollmentRows(b, s, s.enrollments[n], withSchoolName)
  {
  }

  /** Emits the rows of the next enrollment of a school. */
  method EmitNextEnrollment(report: seq<Row>, slNo: nat, b: BlockData, s: School, i: nat, withSchoolName: bool,
                            before: seq<Row>, slNoBefore: nat)
    returns (report': seq<Row>, slNo': nat)
    requires i < |s.enrollments| && slNo == |report| + 1
    requires slNoBefore == |before| + 1 && |before| >= |report| && before[..|report|] == report
    requires NumberedFrom(before[|report|..], SchoolRows(b, s, i, withSchoolName), slNo)
    ensures slNo' == |report'| + 1 && |report'| >= |report| && report'[..|report|] == report
    ensures NumberedFrom(report'[|report|..], SchoolRows(b, s, i + 1, withSchoolName), slNo)
  {
    report', slNo' := EmitEnrollment(before, slNoBefore, b, s, s.enrollments[i], withSchoolName);
    SchoolRowsSnoc(b, s, i, withSchoolName);
    EmittedInSteps(report, before, report', SchoolRows(b, s, i, withSchoolName),
                   EnrollmentRows(b, s, s.enrollments[i], withSchoolName), SchoolRows(b, s, i + 1, withSchoolName), slNo);
  }

  /** Emits the rows of one school, enrollment by enrollment. */
  method EmitSchool(report: seq<Row>, slNo: nat, b: BlockData, s: School, withSchoolName: bool)
    returns (report': seq<Row>, slNo': nat)
    requires slNo == |report| + 1
    ensures slNo' == |report'| + 1 && |report'| >= |report| && report'[..|report|] == report
    ensures NumberedFrom(report'[|report|..], SchoolRows(b, s, |s.enrollments|, withSchoolName), slNo)
  {
    report', slNo' := report, slNo;
    var i := 0;
    while i < |s.enrollments|
      invariant 0 <= i <= |s.enrollments|
      invariant slNo' == |report'| + 1 && |report'| >= |report| && report'[..|report|] == report
      invariant NumberedFrom(report'[|report|..], SchoolRows(b, s, i, withSchoolName), slNo)
    {
      report', slNo' := EmitNextEnrollment(report, slNo, b, s, i, withSchoolName, report', slNo');
      i := i + 1;
    }
  }

  /** Emits the rows of the next school of a block. */
  method EmitNextSchool(report: seq<Row>, slNo: nat, b: BlockData, i: nat, withSchoolName: bool,
                        before: seq<Row>, slNoBefore: nat)
    returns (report': seq<Row>, slNo': nat)
    requires i < |b.schools| && slNo == |report| + 1
    requires slNoBefore == |before| + 1 && |before| >= |report| && before[..|report|] == report
    requires NumberedFrom(before[|report|..], BlockRows(b, i, withSchoolName), slNo)
    ensures slNo' == |report'| + 1 && |report'| >= |report| && report'[..|report|] == report
    ensures NumberedFrom(report'[|report|..], BlockRows(b, i + 1, withSchoolName), slNo)
  {
    var s := b.schools[i];
    report', slNo' := EmitSchool(before, slNoBefore, b, s, withSchoolName);
    BlockRowsSnoc(b, i, withSchoolName);
    EmittedInSteps(report, before, report', BlockRows(b, i, withSchoolName),
                   SchoolRows(b, s, |s.enrollments|, withSchoolName), BlockRows(b, i + 1, withSchoolName), slNo);
  }

  /** Emits the rows of one block, school by school. */
  method EmitBlock(report: seq<Row>, slNo: nat, b: BlockData, withSchoolName: bool)
    returns (report': seq<Row>, slNo': nat)
    requires slNo == |report| + 1
    ensures slNo' == |report'| + 1 && |report'| >= |report| && report'[..|report|] == report
    ensures NumberedFrom(report'[|report|..], BlockRows(b, |b.schools|, withSchoolName), slNo)
  {
    report', slNo' := report, slNo;
    var i := 0;
    while i < |b.schools|
      invariant 0 <= i <= |b.schools|
      invariant slNo' == |report'| + 1 && |report'| >= |report| && report'[..|report|] == report
      invariant NumberedFrom(report'[|report|..], BlockRows(b, i, withSchoolName), slNo)
    {
      report', slNo' := EmitNextSchool(report, slNo, b, i, withSchoolName, report', slNo');
      i := i + 1;
    }
  }

  /** The blocks a detailed report covers. */
  function DetailBlocks(blocks: seq<BlockData>, query: Option<string>): (r: seq<BlockData>)
    ensures forall i :: 0 <= i < |r| ==> r[i] in blocks && InDistrict(DetailFilter(query), r[i].district)
    ensures forall k :: 0 <= k < |blocks| && InDistrict(DetailFilter(query), blocks[k].district) ==> blocks[k] in r
  {
    Filter(blocks, (b: BlockData) => InDistrict(DetailFilter(query), b.district))
  }

  /** Numbered rows carry their position as serial number and keep the
      clamped stock of their specification. */
  lemma NumberedRows(report: seq<Row>, spec: seq<Row>)
    requires NumberedFrom(report, spec, 1) && forall k :: 0 <= k < |spec| ==> Clamped(spec[k])
    ensures forall i :: 0 <= i < |report| ==> report[i].slNo == i + 1 && report[i].availableStock >= 0
  {
    forall i | 0 <= i < |report| ensures report[i].slNo == i + 1 && report[i].availableStock >= 0 {
      assert report[i] == spec[i].(slNo := 1 + i) && Clamped(spec[i]);
    }
  }

  /** `getDetailedDistrictWiseReport` (without school names) and
      `getDetailedISWiseReport` (with them) over the selected blocks: the
      rows of every enrollment of every school of every block, numbered
      consecutively from 1 in the order they are emitted, with the available
      stock never below zero. */
  method DetailedReport(blocks: seq<BlockData>, query: Option<string>, withSchoolName: bool) returns (report: seq<Row>)
    ensures NumberedFrom(report, ReportRows(DetailBlocks(blocks, query), |DetailBlocks(blocks, query)|, withSchoolName), 1)
    ensures forall i :: 0 <= i < |report| ==> report[i].slNo == i + 1 && report[i].availableStock >= 0
  {
    var selected := DetailBlocks(blocks, query);
    report := [];
    var slNo: nat := 1;
    var i := 0;
    while i < |selected|
      invariant 0 <= i <= |selected|
      invariant slNo == |report| + 1
      invariant NumberedFrom(report, ReportRows(selected, i, withSchoolName), 1)
    {
      var before := report;
      var b := selected[i];
      report, slNo := EmitBlock(report, slNo, b, withSchoolName);
      EmittedAfter(before, report, ReportRows(selected, i, withSchoolName), BlockRows(b, |b.schools|, withSchoolName));
      i := i + 1;
    }
    NumberedRows(report, ReportRows(selected, |selected|, withSchoolName));
  }

  // ---------------------------------------------------------- summary

  /** The statuses the summary counts as pending. */
  predicate AwaitingApproval(status: string) {
    status == "PENDING_BLOCK_APPROVAL" || status == "PENDING_DISTRICT_APPROVAL" || status == "PENDING_STATE_APPROVAL"
  }

  predicate IsAwaitingReq(q: Req) { AwaitingApproval(q.status) }

  datatype Summary = Summary(
    totalSchools: nat, totalBlocks: nat, totalEnrollment: int,
    totalBooksRequisitioned: int, totalBooksDistributed: int, pendingRequisitions: nat,
    overallFulfillmentRate: Option<Fraction>)

  /** `getReportSummary` over the whole store. The rate is absent (printed
      `"0.0"`) exactly when the requisitioned total is 0; a sum over no rows
      is 0. */
  function ReportSummary(schoolCount: nat, blockCount: nat, enrollments: seq<Enrollment>, reqs: seq<Req>): (r: Summary)
    ensures r.totalSchools == schoolCount && r.totalBlocks == blockCount
    ensures r.totalBooksRequisitioned == SumOf(reqs, Quantity) && r.totalBooksDistributed == SumOf(reqs, Received)
    ensures r.overallFulfillmentRate.None? <==> r.totalBooksRequisitioned == 0
    ensures r.overallFulfillmentRate.Some? ==>
              r.overallFulfillmentRate.value == Fraction(r.totalBooksDistributed * 100, r.totalBooksRequisitioned)
              && r.overallFulfillmentRate.value.den != 0
    ensures r.totalEnrollment == SumOf(enrollments, Students)
    ensures r.pendingRequisitions == |Filter(reqs, IsAwaitingReq)|
    ensures r.pendingRequisitions <= |Filter(reqs, IsPendingReq)|
  {
    var quantity := SumOf(reqs, Quantity);
    var received := SumOf(reqs, Received);
    forall q: Req | IsAwaitingReq(q) ensures IsPendingReq(q) {
      ApprovalStatusesArePending(q.status);
    }
    CountMonotone(reqs, IsAwaitingReq, IsPendingReq);
    Summary(schoolCount, blockCount, SumOf(enrollments, Students), quantity, received,
            |Filter(reqs, IsAwaitingReq)|,
            if quantity != 0 then Some(Fraction(received * 100, quantity)) else None)
  }

  /** Every status the summary counts as pending also reads as pending in the
      district-wise and IS-wise reports. */
  lemma ApprovalStatusesArePending(status: string)
    requires AwaitingApproval(status)
    ensures Contains(status, "PENDING")
  {
    assert "PENDING" == status[0..][..7];
  }

  /** A requisition as created (status `PENDING`) is open for the district-wise
      and IS-wise reports but not pending for the summary. */
  lemma NewRequisitionCountedDifferently(q: Req)
    requires q.status == "PENDING"
    ensures IsPendingReq(q) && !AwaitingApproval(q.status)
  {
    assert "PENDING" == q.status[0..][..7];
  }
}

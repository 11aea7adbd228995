/** The e-challan handlers: a delivery note for a consignment of books, with
    one line per title. Creating a challan derives its id from the date and
    the clock and its totals from the lines; the status update may stamp the
    delivery time; deleting removes the lines and then the challan. */
module EChallan {
  import opened Wrappers
  import opened Text
  import opened Seqs

  /** One book line of the request body; the counts arrive as text. */
  datatype LineInput = LineInput(
    bookId: string, className: string, subject: string, bookName: string,
    noOfBooks: Option<string>, noOfBoxes: Option<string>, noOfPackets: Option<string>, noOfLooseBoxes: Option<string>)

  /** The challan fields of the request body that are stored as given. */
  datatype Header = Header(
    challanNo: Option<string>, destinationType: Option<string>, destinationName: Option<string>,
    destinationId: Option<string>, requisitionId: Option<string>, academicYear: Option<string>,
    vehicleNo: Option<string>, agency: Option<string>)

  /** A stored line; `eChallanId` is the store id of its challan. */
  datatype Line = Line(
    eChallanId: string, bookId: string, className: string, subject: string, bookName: string,
    noOfBooks: int, noOfBoxes: int, noOfPackets: int, noOfLooseBoxes: int, totalQuantity: int)

  datatype Challan = Challan(
    id: string, challanId: string, header: Header,
    totalBooks: nat, totalBoxes: int, totalPackets: int, totalLooseBoxes: int,
    status: string, deliveredAt: Option<int>)

  /** The local calendar date of the clock reading. */
  datatype Calendar = Calendar(year: nat, month: nat, day: nat)

  // ------------------------------------------------------------ challan id

  /** `s.slice(-6)`: the last six characters, or all of a shorter string. */
  function LastSix(s: string): (r: string)
    ensures |r| == if |s| < 6 then |s| else 6
    ensures r == s[|s| - |r|..]
  {
    if |s| <= 6 then s else s[|s| - 6..]
  }

  /** `ECH-<year><month, 2 digits><day, 2 digits>-<last six digits of the clock>`. */
  function ChallanId(date: Calendar, now: nat): string {
    "ECH-" + DecimalString(date.year) + ZeroPadded(date.month, 2) + ZeroPadded(date.day, 2)
    + "-" + LastSix(DecimalString(now))
  }

  /** A number below 100 zero-padded to width 2 takes exactly two digits. */
  lemma TwoDigits(n: nat)
    requires n < 100
    ensures |ZeroPadded(n, 2)| == 2
  {
    DecimalLength(n, 2);
  }

  lemma Pow10Values()
    ensures Pow10(5) == 100000 && Pow10(6) == 1000000
  {
    assert Pow10(2) == 100;
    assert Pow10(4) == 10000;
  }

  /** A remainder reads back the low part of a number split at 10^6. */
  lemma ModSplit(a: nat, b: nat)
    requires b < 1000000
    ensures (a * 1000000 + b) % 1000000 == b
  {
  }

  /** The last six digits of a clock reading past 100000 are its value
      modulo 10^6. */
  lemma {:induction false} LastSixValue(now: nat)
    requires now >= 100000
    ensures var tail := LastSix(DecimalString(now));
            |tail| == 6 && IsDigits(tail) && DigitsValue(tail) == now % 1000000
  {
    var t := DecimalString(now);
    Pow10Values();
    DecimalLength(now, 5);
    var tail := LastSix(t);
    assert IsDigits(tail);
    if |t| == 6 {
      DecimalLength(now, 6);
      assert tail == t;
    } else {
      var head := t[..|t| - 6];
      assert t == head + tail;
      DigitsValueAppend(head, tail);
      DigitsBelow(tail);
      ModSplit(DigitsValue(head), DigitsValue(tail));
    }
  }

  /** Where the parts of a challan id sit. */
  lemma Slices(y: string, m: string, d: string, tail: string)
    requires |y| == 4 && |m| == 2 && |d| == 2 && |tail| == 6
    ensures var id := "ECH-" + y + m + d + "-" + tail;
            && |id| == 19 && id[..4] == "ECH-" && id[12] == '-'
            && id[4..8] == y && id[8..10] == m && id[10..12] == d && id[13..] == tail
  {
  }

  /** For a four-digit year and a clock past 100000 the id has a fixed layout
      from which the date and the clock's last six decimal digits read back. */
  lemma ChallanIdLayout(date: Calendar, now: nat)
    requires 1000 <= date.year <= 9999 && 1 <= date.month <= 12 && 1 <= date.day <= 31
    requires now >= 100000
    ensures var id := ChallanId(date, now);
            && |id| == 19 && id[..4] == "ECH-" && id[12] == '-'
            && IsDigits(id[4..8]) && DigitsValue(id[4..8]) == date.year
            && IsDigits(id[8..10]) && DigitsValue(id[8..10]) == date.month
            && IsDigits(id[10..12]) && DigitsValue(id[10..12]) == date.day
            && IsDigits(id[13..]) && DigitsValue(id[13..]) == now % 1000000
  {
    DecimalLength(date.year, 4);
    DecimalLength(date.year, 3);
    TwoDigits(date.month);
    TwoDigits(date.day);
    LastSixValue(now);
    Slices(DecimalString(date.year), ZeroPadded(date.month, 2), ZeroPadded(date.day, 2), LastSix(DecimalString(now)));
  }

  // ---------------------------------------------------------------- totals

  /** `parseInt(x) || 0` on a count that may be absent. */
  function Count(x: Option<string>): (r: int)
    ensures x.None? || ParseInt(x.value).None? ==> r == 0
    ensures x.Some? && ParseInt(x.value).Some? ==> r == ParseInt(x.value).value
  {
    if x.Some? then ParseIntOrZero(x.value) else 0
  }

  /** The stored form of a body line: each count parsed the same way, and
      `totalQuantity` the sum of boxes, packets and loose boxes. */
  function LineOf(challan: string, b: LineInput): (r: Line)
    ensures r.totalQuantity == r.noOfBoxes + r.noOfPackets + r.noOfLooseBoxes
    ensures r.noOfBooks == Count(b.noOfBooks) && r.noOfBoxes == Count(b.noOfBoxes)
    ensures r.noOfPackets == Count(b.noOfPackets) && r.noOfLooseBoxes == Count(b.noOfLooseBoxes)
  {
    Line(challan, b.bookId, b.className, b.subject, b.bookName,
         Count(b.noOfBooks), Count(b.noOfBoxes), Count(b.noOfPackets), Count(b.noOfLooseBoxes),
         Count(b.noOfBoxes) + Count(b.noOfPackets) + Count(b.noOfLooseBoxes))
  }

  /** The number of books on a line has no part in its total quantity. */
  lemma QuantityIgnoresBooks(challan: string, b: LineInput, books: Option<string>)
    ensures LineOf(challan, b).totalQuantity == LineOf(challan, b.(noOfBooks := books)).totalQuantity
  {
  }

  function LinesOf(challan: string, books: seq<LineInput>): (r: seq<Line>)
    ensures |r| == |books| && forall i :: 0 <= i < |r| ==> r[i] == LineOf(challan, books[i])
  {
    seq(|books|, i requires 0 <= i < |books| => LineOf(challan, books[i]))
  }

  function Boxes(b: LineInput): int { Count(b.noOfBoxes) }
  function Packets(b: LineInput): int { Count(b.noOfPackets) }
  function LooseBoxes(b: LineInput): int { Count(b.noOfLooseBoxes) }
  function StoredBoxes(l: Line): int { l.noOfBoxes }
  function StoredPackets(l: Line): int { l.noOfPackets }
  function StoredLooseBoxes(l: Line): int { l.noOfLooseBoxes }
  function Quantity(l: Line): int { l.totalQuantity }

  /** The sums over the body lines equal the sums over the stored lines, and
      the three challan totals add up to the lines' total quantities. */
  lemma {:induction false} TotalsAgree(challan: string, books: seq<LineInput>)
    ensures var ls := LinesOf(challan, books);
            && SumOf(books, Boxes) == SumOf(ls, StoredBoxes)
            && SumOf(books, Packets) == SumOf(ls, StoredPackets)
            && SumOf(books, LooseBoxes) == SumOf(ls, StoredLooseBoxes)
            && SumOf(ls, Quantity) == SumOf(books, Boxes) + SumOf(books, Packets) + SumOf(books, LooseBoxes)
    decreases |books|
  {
    if books != [] {
      var init := books[..|books| - 1];
      TotalsAgree(challan, init);
      assert LinesOf(challan, books)[..|books| - 1] == LinesOf(challan, init);
    }
  }

  /** Every line names a book the store holds; the nested create of the lines
      writes each `bookId` through the line's `book` relation. */
  predicate BooksKnown(books: seq<LineInput>, bookIds: set<string>) {
    forall i :: 0 <= i < |books| ==> books[i].bookId in bookIds
  }

  /** `createEChallan`: the id from the date and the clock, `totalBooks` the
      number of lines (not the number of books), the other totals the parsed
      sums; the challan and its lines are appended. A body without a list of
      lines, or a line naming a book the store does not hold, makes the
      handler fail (500) and writes nothing. */
  function CreateOutcome(challans: seq<Challan>, lines: seq<Line>, bookIds: set<string>, header: Header,
                         books: Option<seq<LineInput>>, newId: string, date: Calendar, now: nat, initialStatus: string)
    : (r: (Reply<Challan>, seq<Challan>, seq<Line>))
    ensures books.None? || !BooksKnown(books.value, bookIds) <==>
              r == (Err(500, "Failed to create e-challan"), challans, lines)
    ensures books.Some? && BooksKnown(books.value, bookIds) ==> r.0.Ok?
    ensures r.0.Ok? ==> forall l :: l in r.2 && l !in lines ==> l.bookId in bookIds
    ensures r.0.Ok? ==>
              var c := r.0.value;
              var added := LinesOf(newId, books.value);
              && r.0.code == 200
              && r.1 == challans + [c] && r.2 == lines + added
              && c.id == newId && c.challanId == ChallanId(date, now) && c.header == header
              && c.totalBooks == |books.value|
              && c.totalBoxes == SumOf(added, StoredBoxes)
              && c.totalPackets == SumOf(added, StoredPackets)
              && c.totalLooseBoxes == SumOf(added, StoredLooseBoxes)
              && SumOf(added, Quantity) == c.totalBoxes + c.totalPackets + c.totalLooseBoxes
              && c.status == initialStatus && c.deliveredAt.None?
  {
    if books.None? || !BooksKnown(books.value, bookIds) then (Err(500, "Failed to create e-challan"), challans, lines)
    else
      var bs := books.value;
      TotalsAgree(newId, bs);
      var c := Challan(newId, ChallanId(date, now), header, |bs|,
                       SumOf(bs, Boxes), SumOf(bs, Packets), SumOf(bs, LooseBoxes), initialStatus, None);
      (Ok(200, c), challans + [c], lines + LinesOf(newId, bs))
  }

  // -------------------------------------------------------- status, delete

  function FindId(cs: seq<Challan>, id: string): (r: Option<nat>)
    ensures r.Some? ==> r.value < |cs| && cs[r.value].id == id
    ensures r.Some? ==> forall j :: 0 <= j < r.value ==> cs[j].id != id
    ensures r.None? <==> forall j :: 0 <= j < |cs| ==> cs[j].id != id
  {
    if cs == [] then None
    else if cs[0].id == id then Some(0)
    else
      match FindId(cs[1..], id)
      case None => None
      case Some(i) => Some(i + 1)
  }

  /** The status update's data: `status` as given (an absent one leaves the
      stored status), and `deliveredAt` only for a delivery with a date. */
  function StatusChanged(c: Challan, status: Option<string>, deliveredAt: Option<DateField>): (r: Option<Challan>)
    ensures r.None? <==> status == Some("DELIVERED") && Given(deliveredAt) && deliveredAt.value.time.None?
    ensures r.Some? ==> r.value.status == status.GetOr(c.status)
    ensures r.Some? ==> (r.value.deliveredAt != c.deliveredAt ==> status == Some("DELIVERED") && Given(deliveredAt))
    ensures r.Some? && status == Some("DELIVERED") && Given(deliveredAt) ==> r.value.deliveredAt == deliveredAt.value.time
    ensures r.Some? ==> r.value.(status := c.status, deliveredAt := c.deliveredAt) == c
  {
    var c' := c.(status := Overwrite(c.status, status));
    if status == Some("DELIVERED") && Given(deliveredAt) then
      if deliveredAt.value.time.None? then None
      else Some(c'.(deliveredAt := deliveredAt.value.time))
    else Some(c')
  }

  /** `updateEChallanStatus` as a function of the table. An unknown id or an
      invalid delivery date makes the store update fail (500). */
  function StatusOutcome(challans: seq<Challan>, id: string, status: Option<string>, deliveredAt: Option<DateField>)
    : (r: (Reply<Challan>, seq<Challan>))
    ensures FindId(challans, id).None? ==> r == (Err(500, "Failed to update e-challan status"), challans)
    ensures r.0.Err? ==> r == (Err(500, "Failed to update e-challan status"), challans)
    ensures FindId(challans, id).Some? ==>
              (StatusChanged(challans[FindId(challans, id).value], status, deliveredAt).Some? ==> r.0.Ok?)
    ensures r.0.Ok? ==>
              var k := FindId(challans, id).value;
              && StatusChanged(challans[k], status, deliveredAt).Some?
              && r.0 == Ok(200, StatusChanged(challans[k], status, deliveredAt).value)
              && r.1 == challans[k := r.0.value]
  {
    match FindId(challans, id)
    case None => (Err(500, "Failed to update e-challan status"), challans)
    case Some(k) =>
      match StatusChanged(challans[k], status, deliveredAt)
      case None => (Err(500, "Failed to update e-challan status"), challans)
      case Some(c) => (Ok(200, c), challans[k := c])
  }

  function OtherChallan(id: string): Line -> bool {
    (l: Line) => l.eChallanId != id
  }

  /** The challan table and the line table, with the ids of the books the
      lines may name. */
  class ChallanStore {
    var challans: seq<Challan>
    var lines: seq<Line>
    const bookIds: set<string>
    const initialStatus: string

    constructor (bookIds: set<string>, initialStatus: string)
      ensures challans == [] && lines == [] && this.bookIds == bookIds && this.initialStatus == initialStatus
    {
      challans := [];
      lines := [];
      this.bookIds := bookIds;
      this.initialStatus := initialStatus;
    }

    /** The store's foreign-key check on the lines, one line at a time. */
    method AllBooksKnown(bs: seq<LineInput>) returns (known: bool)
      ensures known <==> BooksKnown(bs, bookIds)
    {
      var i := 0;
      while i < |bs|
        invariant 0 <= i <= |bs|
        invariant forall j :: 0 <= j < i ==> bs[j].bookId in bookIds
      {
        if bs[i].bookId !in bookIds {
          return false;
        }
        i := i + 1;
      }
      return true;
    }

    /** The store's lookup by id: a scan from the front. */
    method IndexOf(id: string) returns (k: Option<nat>)
      ensures k == FindId(challans, id)
    {
      var i := 0;
      while i < |challans|
        invariant 0 <= i <= |challans|
        invariant forall j :: 0 <= j < i ==> challans[j].id != id
      {
        if challans[i].id == id {
          return Some(i);
        }
        i := i + 1;
      }
      return None;
    }

    /** `createEChallan`: the challan with its totals, then its lines. */
    method Create(header: Header, books: Option<seq<LineInput>>, newId: string, date: Calendar, now: nat)
      returns (r: Reply<Challan>)
      modifies this
      ensures (r, challans, lines) == CreateOutcome(old(challans), old(lines), bookIds, header, books, newId, date, now, initialStatus)
    {
      if books.None? {
        return Err(500, "Failed to create e-challan");
      }
      var bs := books.value;
      var known := AllBooksKnown(bs);
      if !known {
        return Err(500, "Failed to create e-challan");
      }
      var c := Challan(newId, ChallanId(date, now), header, |bs|,
                       SumOf(bs, Boxes), SumOf(bs, Packets), SumOf(bs, LooseBoxes), initialStatus, None);
      challans := challans + [c];
      lines := lines + LinesOf(newId, bs);
      r := Ok(200, c);
    }

    /** `updateEChallanStatus`: the status is always written; the delivery
        time only for a delivery with a date. */
    method UpdateStatus(id: string, status: Option<string>, deliveredAt: Option<DateField>) returns (r: Reply<Challan>)
      modifies this
      ensures (r, challans) == StatusOutcome(old(challans), id, status, deliveredAt)
      ensures lines == old(lines)
    {
      var k := IndexOf(id);
      if k.None? {
        return Err(500, "Failed to update e-challan status");
      }
      var c := challans[k.value];
      var updated := c.(status := Overwrite(c.status, status));
      if status == Some("DELIVERED") && Given(deliveredAt) {
        if deliveredAt.value.time.None? {
          return Err(500, "Failed to update e-challan status");
        }
        updated := updated.(deliveredAt := deliveredAt.value.time);
      }
      challans := challans[k.value := updated];
      r := Ok(200, updated);
    }

    /** `deleteEChallan` in its two steps: first every line of the challan is
        removed, then the challan. When no challan has that id the second step
        fails (500) after the first has already run. */
    method Delete(id: string) returns (r: Reply<string>)
      modifies this
      ensures lines == Filter(old(lines), OtherChallan(id))
      ensures forall l :: l in lines ==> l.eChallanId != id
      ensures FindId(old(challans), id).None? ==> r == Err(500, "Failed to delete e-challan") && challans == old(challans)
      ensures FindId(old(challans), id).Some? ==>
                var k := FindId(old(challans), id).value;
                r == Ok(200, "E-challan deleted successfully") && challans == RemoveAt(old(challans), k)
    {
      lines := Filter(lines, OtherChallan(id));
      var k := IndexOf(id);
      if k.None? {
        return Err(500, "Failed to delete e-challan");
      }
      challans := RemoveAt(challans, k.value);
      r := Ok(200, "E-challan deleted successfully");
    }
  }
}

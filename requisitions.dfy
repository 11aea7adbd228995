/** The requisition handlers that are plain table operations: raising a
    requisition, the field-wise update, deletion, and the three listings (all,
    by school, by block). The approval workflow of requisitions is not part of
    this model. The table is a sequence of records in creation order. */
module Requisitions {
  import opened Wrappers
  import opened Text
  import opened Seqs

  /** A requisition (a school's order of one book) as the store holds it. */
  datatype Requisition = Requisition(
    id: string,
    reqId: string,
    schoolId: string,
    bookId: string,
    quantity: int,
    received: int,
    status: string,
    remarksByBlock: Option<string>,
    remarksByDistrict: Option<string>)

  /** The first position holding a requisition with this id. */
  function FindReq(reqs: seq<Requisition>, id: string): (r: Option<nat>)
    ensures r.Some? ==> r.value < |reqs| && reqs[r.value].id == id
    ensures r.Some? ==> forall j :: 0 <= j < r.value ==> reqs[j].id != id
    ensures r.None? <==> forall j :: 0 <= j < |reqs| ==> reqs[j].id != id
  {
    if reqs == [] then None
    else if reqs[0].id == id then Some(0)
    else
      match FindReq(reqs[1..], id)
      case None => None
      case Some(k) => Some(k + 1)
  }

  predicate IdsUnique(reqs: seq<Requisition>) {
    forall i, j :: 0 <= i < j < |reqs| ==> reqs[i].id != reqs[j].id
  }

  // ------------------------------------------------------------ creating

  const CreateRequired := "School ID, Book ID, quantity, and reqId are required"

  /** The record `createRequisition` writes: the quantity as given, nothing
      received yet, status `PENDING`, no remarks. */
  function NewRequisition(id: string, schoolId: string, bookId: string, quantity: int, reqId: string): (r: Requisition)
    ensures r.received == 0 && r.status == "PENDING"
    ensures r.remarksByBlock.None? && r.remarksByDistrict.None?
    ensures r.id == id && r.schoolId == schoolId && r.bookId == bookId && r.quantity == quantity && r.reqId == reqId
  {
    Requisition(id, reqId, schoolId, bookId, quantity, 0, "PENDING", None, None)
  }

  /** `createRequisition` as a function of the table. School, book, quantity
      and request number must all be truthy, so a quantity of 0 is refused;
      a school or book the store does not hold makes the write fail (500). */
  function CreateOutcome(reqs: seq<Requisition>, schoolIds: set<string>, bookIds: set<string>, newId: string,
                         schoolId: Option<string>, bookId: Option<string>, quantity: Option<int>,
                         reqId: Option<string>): (r: (Reply<Requisition>, seq<Requisition>))
    ensures !(Truthy(schoolId) && Truthy(bookId) && TruthyInt(quantity) && Truthy(reqId)) <==>
              r == (Err(400, CreateRequired), reqs)
    ensures r.0.Err? ==> r.1 == reqs
    ensures Truthy(schoolId) && Truthy(bookId) && TruthyInt(quantity) && Truthy(reqId) ==>
              ((schoolId.value !in schoolIds || bookId.value !in bookIds) <==>
               r == (Err(500, "Failed to create requisition"), reqs))
    ensures Truthy(schoolId) && Truthy(bookId) && TruthyInt(quantity) && Truthy(reqId) ==>
              (schoolId.value in schoolIds && bookId.value in bookIds ==> r.0.Ok?)
    ensures quantity == Some(0) ==> r.0 == Err(400, CreateRequired)
    ensures r.0.Ok? ==>
              && r.0.code == 200 && r.1 == reqs + [r.0.value]
              && r.0.value.schoolId in schoolIds && r.0.value.bookId in bookIds
              && r.0.value == NewRequisition(newId, schoolId.value, bookId.value, quantity.value, reqId.value)
              && r.0.value.quantity != 0
  {
    if !(Truthy(schoolId) && Truthy(bookId) && TruthyInt(quantity) && Truthy(reqId)) then
      (Err(400, CreateRequired), reqs)
    else if schoolId.value !in schoolIds || bookId.value !in bookIds then
      (Err(500, "Failed to create requisition"), reqs)
    else
      var q := NewRequisition(newId, schoolId.value, bookId.value, quantity.value, reqId.value);
      (Ok(200, q), reqs + [q])
  }

  // ------------------------------------------------------------ updating

  /** The body of `updateRequisition`: every field is optional. */
  datatype Changes = Changes(
    quantity: Option<int>,
    received: Option<int>,
    status: Option<string>,
    remarksByBlock: Option<Option<string>>,
    remarksByDistrict: Option<Option<string>>)

  /** The record after an update: each field present in the body is written,
      every other field keeps its stored value. Nothing relates `received`
      to `quantity` and any status may follow any other. */
  function Patched(q: Requisition, c: Changes): (r: Requisition)
    ensures r.id == q.id && r.reqId == q.reqId && r.schoolId == q.schoolId && r.bookId == q.bookId
    ensures r.quantity == (if c.quantity.Some? then c.quantity.value else q.quantity)
    ensures r.received == (if c.received.Some? then c.received.value else q.received)
    ensures r.status == (if c.status.Some? then c.status.value else q.status)
    ensures r.remarksByBlock == (if c.remarksByBlock.Some? then c.remarksByBlock.value else q.remarksByBlock)
    ensures r.remarksByDistrict == (if c.remarksByDistrict.Some? then c.remarksByDistrict.value else q.remarksByDistrict)
  {
    q.(quantity := Overwrite(q.quantity, c.quantity),
       received := Overwrite(q.received, c.received),
       status := Overwrite(q.status, c.status),
       remarksByBlock := Overwrite(q.remarksByBlock, c.remarksByBlock),
       remarksByDistrict := Overwrite(q.remarksByDistrict, c.remarksByDistrict))
  }

  /** An empty body changes nothing. */
  lemma PatchedNothing(q: Requisition)
    ensures Patched(q, Changes(None, None, None, None, None)) == q
  {
  }

  /** `updateRequisition` as a function of the table: the first requisition
      with the id is patched; an unknown id makes the store update fail (500). */
  function UpdateOutcome(reqs: seq<Requisition>, id: string, c: Changes): (r: (Reply<Requisition>, seq<Requisition>))
    ensures FindReq(reqs, id).None? <==> r == (Err(500, "Failed to update requisition"), reqs)
    ensures FindReq(reqs, id).Some? ==>
              var k := FindReq(reqs, id).value;
              && r.1 == reqs[k := Patched(reqs[k], c)]
              && r.0 == Ok(200, r.1[k])
  {
    match FindReq(reqs, id)
    case None => (Err(500, "Failed to update requisition"), reqs)
    case Some(k) =>
      var q := Patched(reqs[k], c);
      (Ok(200, q), reqs[k := q])
  }

  /** The update enforces no bound of `received` against `quantity` and no
      rule on status changes: for a stored requisition any numbers and any
      status are written as given. */
  lemma UpdateUnchecked(reqs: seq<Requisition>, id: string, quantity: int, received: int, status: string)
    requires FindReq(reqs, id).Some?
    ensures var r := UpdateOutcome(reqs, id, Changes(Some(quantity), Some(received), Some(status), None, None));
            && r.0.Ok?
            && r.0.value.quantity == quantity && r.0.value.received == received && r.0.value.status == status
  {
  }

  /** The update leaves every other requisition, and the table's length and
      ids, as they were. */
  lemma UpdateTouchesOne(reqs: seq<Requisition>, id: string, c: Changes)
    ensures var t := UpdateOutcome(reqs, id, c).1;
            && |t| == |reqs|
            && (forall j :: 0 <= j < |t| ==> t[j].id == reqs[j].id)
            && (forall j :: 0 <= j < |t| && reqs[j].id != id ==> t[j] == reqs[j])
  {
  }

  // ------------------------------------------------------------ deleting

  /** `deleteRequisition` as a function of the table; an unknown id makes
      the store delete fail (500). */
  function DeleteOutcome(reqs: seq<Requisition>, id: string): (r: (Reply<string>, seq<Requisition>))
    ensures FindReq(reqs, id).None? <==> r == (Err(500, "Failed to delete requisition"), reqs)
    ensures FindReq(reqs, id).Some? ==>
              r == (Ok(200, "Requisition deleted successfully"), RemoveAt(reqs, FindReq(reqs, id).value))
  {
    match FindReq(reqs, id)
    case None => (Err(500, "Failed to delete requisition"), reqs)
    case Some(k) => (Ok(200, "Requisition deleted successfully"), RemoveAt(reqs, k))
  }

  /** In a table with distinct ids, deleting removes exactly the requisition
      with that id: it is gone and every other one is still there. */
  lemma DeleteRemovesExactly(reqs: seq<Requisition>, id: string)
    requires IdsUnique(reqs)
    ensures var t := DeleteOutcome(reqs, id).1;
            && (forall q :: q in t ==> q.id != id)
            && (forall q :: q in reqs && q.id != id ==> q in t)
            && (forall q :: q in t ==> q in reqs)
  {
    var t := DeleteOutcome(reqs, id).1;
    if FindReq(reqs, id).Some? {
      var k := FindReq(reqs, id).value;
      forall q | q in t ensures q.id != id && q in reqs {
        var j :| 0 <= j < |t| && t[j] == q;
        if j < k {
          assert q == reqs[j];
        } else {
          assert q == reqs[j + 1];
        }
      }
      forall q | q in reqs && q.id != id ensures q in t {
        var j :| 0 <= j < |reqs| && reqs[j] == q;
        if j < k {
          assert t[j] == q;
        } else {
          assert j != k;
          assert t[j - 1] == q;
        }
      }
    }
  }

  // ------------------------------------------------------------- listing

  /** The filter `getAllRequisitions` builds: school and status are matched
      only when the query gives them (non-empty). */
  function ListFilter(schoolId: Option<string>, status: Option<string>): Requisition -> bool {
    (q: Requisition) => (Truthy(schoolId) ==> q.schoolId == schoolId.value) && (Truthy(status) ==> q.status == status.value)
  }

  /** `getAllRequisitions`: exactly the requisitions that match every given
      parameter, in table order; with neither parameter, the whole table. */
  function AllRequisitions(reqs: seq<Requisition>, schoolId: Option<string>, status: Option<string>): (r: seq<Requisition>)
    ensures forall q :: q in r <==> q in reqs && (Truthy(schoolId) ==> q.schoolId == schoolId.value)
                                              && (Truthy(status) ==> q.status == status.value)
    ensures !Truthy(schoolId) && !Truthy(status) ==> r == reqs
  {
    var p := ListFilter(schoolId, status);
    if !Truthy(schoolId) && !Truthy(status) then
      FilterAll(reqs, p);
      Filter(reqs, p)
    else
      Filter(reqs, p)
  }

  function OfSchool(schoolId: string): Requisition -> bool {
    (q: Requisition) => q.schoolId == schoolId
  }

  /** `getRequisitionsBySchool`: exactly the requisitions of one school. */
  function BySchool(reqs: seq<Requisition>, schoolId: string): (r: seq<Requisition>)
    ensures forall q :: q in r <==> q in reqs && q.schoolId == schoolId
  {
    Filter(reqs, OfSchool(schoolId))
  }

  /** The listing by school is the general listing with only a school given. */
  lemma BySchoolIsListing(reqs: seq<Requisition>, schoolId: string)
    requires schoolId != ""
    ensures BySchool(reqs, schoolId) == AllRequisitions(reqs, Some(schoolId), None)
  {
    FilterCongruent(reqs, OfSchool(schoolId), ListFilter(Some(schoolId), None));
  }

  function InBlock(schoolBlock: map<string, int>, code: int): Requisition -> bool {
    (q: Requisition) => q.schoolId in schoolBlock && schoolBlock[q.schoolId] == code
  }

  /** `getRequisitionsByBlock`: the parameter is parsed as an integer, then
      exactly the requisitions whose school has that block code are listed.
      `schoolBlock` maps each school to its block code. A parameter that is
      not a number makes the store query fail (500). */
  function ByBlock(reqs: seq<Requisition>, schoolBlock: map<string, int>, blockCode: string): (r: Reply<seq<Requisition>>)
    ensures ParseInt(blockCode).None? <==> r == Err(500, "Failed to fetch block requisitions")
    ensures r.Ok? ==> r.code == 200 && ParseInt(blockCode).Some?
    ensures r.Ok? ==> forall q :: q in r.value <==>
              q in reqs && q.schoolId in schoolBlock && Some(schoolBlock[q.schoolId]) == ParseInt(blockCode)
  {
    match ParseInt(blockCode)
    case None => Err(500, "Failed to fetch block requisitions")
    case Some(code) => Ok(200, Filter(reqs, InBlock(schoolBlock, code)))
  }

  /** Every requisition of a school of the block is listed by the block's
      decimal code. */
  lemma ByBlockFindsSchool(reqs: seq<Requisition>, schoolBlock: map<string, int>, q: Requisition)
    requires q in reqs && q.schoolId in schoolBlock
    ensures var r := ByBlock(reqs, schoolBlock, IntString(schoolBlock[q.schoolId]));
            r.Ok? && q in r.value
  {
    ParseIntString(schoolBlock[q.schoolId]);
  }

  // ---------------------------------------------------------- the table

  /** The requisition table, with the school and book records it refers to:
      each school's block code, and the book ids. */
  class RequisitionStore {
    var reqs: seq<Requisition>
    const schoolBlock: map<string, int>
    const bookIds: set<string>

    constructor (schoolBlock: map<string, int>, bookIds: set<string>)
      ensures reqs == [] && this.schoolBlock == schoolBlock && this.bookIds == bookIds
    {
      reqs := [];
      this.schoolBlock := schoolBlock;
      this.bookIds := bookIds;
    }

    /** The store's lookup by id: a scan from the front. */
    method IndexOf(id: string) returns (k: Option<nat>)
      ensures k == FindReq(reqs, id)
    {
      var i := 0;
      while i < |reqs|
        invariant 0 <= i <= |reqs|
        invariant forall j :: 0 <= j < i ==> reqs[j].id != id
      {
        if reqs[i].id == id {
          return Some(i);
        }
        i := i + 1;
      }
      return None;
    }

    /** `createRequisition`; `newId` is the id the store generates. */
    method Create(newId: string, schoolId: Option<string>, bookId: Option<string>, quantity: Option<int>,
                  reqId: Option<string>) returns (r: Reply<Requisition>)
      requires IdsUnique(reqs) && forall j :: 0 <= j < |reqs| ==> reqs[j].id != newId
      modifies this
      ensures (r, reqs) == CreateOutcome(old(reqs), schoolBlock.Keys, bookIds, newId, schoolId, bookId, quantity, reqId)
      ensures IdsUnique(reqs)
    {
      if !(Truthy(schoolId) && Truthy(bookId) && TruthyInt(quantity) && Truthy(reqId)) {
        return Err(400, CreateRequired);
      }
      if schoolId.value !in schoolBlock || bookId.value !in bookIds {
        return Err(500, "Failed to create requisition");
      }
      var q := NewRequisition(newId, schoolId.value, bookId.value, quantity.value, reqId.value);
      reqs := reqs + [q];
      r := Ok(200, q);
    }

    /** `updateRequisition`: the patch is assembled field by field from the
        fields present in the body, then applied to the stored record. */
    method Update(id: string, c: Changes) returns (r: Reply<Requisition>)
      requires IdsUnique(reqs)
      modifies this
      ensures (r, reqs) == UpdateOutcome(old(reqs), id, c)
      ensures IdsUnique(reqs)
    {
      var patch := Changes(None, None, None, None, None);
      if c.quantity.Some? { patch := patch.(quantity := c.quantity); }
      if c.received.Some? { patch := patch.(received := c.received); }
      if c.status.Some? { patch := patch.(status := c.status); }
      if c.remarksByBlock.Some? { patch := patch.(remarksByBlock := c.remarksByBlock); }
      if c.remarksByDistrict.Some? { patch := patch.(remarksByDistrict := c.remarksByDistrict); }
      assert patch == c;
      var k := IndexOf(id);
      if k.None? {
        return Err(500, "Failed to update requisition");
      }
      var q := Patched(reqs[k.value], patch);
      reqs := reqs[k.value := q];
      r := Ok(200, q);
    }

    /** `deleteRequisition`. */
    method Delete(id: string) returns (r: Reply<string>)
      requires IdsUnique(reqs)
      modifies this
      ensures (r, reqs) == DeleteOutcome(old(reqs), id)
      ensures IdsUnique(reqs)
    {
      var k := IndexOf(id);
      if k.None? {
        return Err(500, "Failed to delete requisition");
      }
      reqs := RemoveAt(reqs, k.value);
      r := Ok(200, "Requisition deleted successfully");
    }
  }
}

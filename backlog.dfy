/** The backlog handlers: an entry records, for one user and one profile
    type, how many copies of a book are still owed. Creating an entry for a
    (book, type, user) combination that already has one replaces its
    quantity instead of adding a second entry. The table is a sequence of
    entries in creation order. */
module Backlog {
  import opened Wrappers
  import opened Seqs

  datatype Entry = Entry(id: string, bookId: string, kind: string, userId: string, quantity: int)

  /** The combination `createBacklogEntry` looks entries up by. */
  datatype Key = Key(bookId: string, kind: string, userId: string)

  function KeyOf(e: Entry): Key {
    Key(e.bookId, e.kind, e.userId)
  }

  /** The first entry with this combination (the store's `findFirst`). */
  function FindKey(es: seq<Entry>, key: Key): (r: Option<nat>)
    ensures r.Some? ==> r.value < |es| && KeyOf(es[r.value]) == key
    ensures r.Some? ==> forall j :: 0 <= j < r.value ==> KeyOf(es[j]) != key
    ensures r.None? <==> forall j :: 0 <= j < |es| ==> KeyOf(es[j]) != key
  {
    if es == [] then None
    else if KeyOf(es[0]) == key then Some(0)
    else
      match FindKey(es[1..], key)
      case None => None
      case Some(k) => Some(k + 1)
  }

  /** The entry with this id. */
  function FindId(es: seq<Entry>, id: string): (r: Option<nat>)
    ensures r.Some? ==> r.value < |es| && es[r.value].id == id
    ensures r.Some? ==> forall j :: 0 <= j < r.value ==> es[j].id != id
    ensures r.None? <==> forall j :: 0 <= j < |es| ==> es[j].id != id
  {
    if es == [] then None
    else if es[0].id == id then Some(0)
    else
      match FindId(es[1..], id)
      case None => None
      case Some(k) => Some(k + 1)
  }

  predicate IdsUnique(es: seq<Entry>) {
    forall i, j :: 0 <= i < j < |es| ==> es[i].id != es[j].id
  }

  /** At most one entry per combination. */
  predicate KeysUnique(es: seq<Entry>) {
    forall i, j :: 0 <= i < j < |es| ==> KeyOf(es[i]) != KeyOf(es[j])
  }

  // ------------------------------------------------------------ creating

  /** `createBacklogEntry` as a function of the table. Book, type and user
      must be truthy and the quantity present (0 is accepted). An existing
      entry for the combination gets the new quantity (200); otherwise a new
      entry is appended (201). A book the store does not hold makes the new
      entry's write fail (500). */
  function CreateOutcome(es: seq<Entry>, bookIds: set<string>, newId: string,
                         bookId: Option<string>, kind: Option<string>, userId: Option<string>,
                         quantity: Option<int>): (r: (Reply<Entry>, seq<Entry>))
    ensures !(Truthy(bookId) && Truthy(kind) && Truthy(userId) && quantity.Some?) <==>
              r == (Err(400, "Missing required fields"), es)
    ensures r.0.Err? ==> r.1 == es
    ensures r.0.Ok? ==>
              var key := Key(bookId.value, kind.value, userId.value);
              && KeyOf(r.0.value) == key && r.0.value.quantity == quantity.value
              && match FindKey(es, key)
                 case Some(k) => r.0.code == 200 && r.1 == es[k := r.0.value] && r.0.value.id == es[k].id
                 case None => r.0.code == 201 && r.1 == es + [r.0.value] && r.0.value.id == newId
    ensures Truthy(bookId) && Truthy(kind) && Truthy(userId) && quantity.Some? ==>
              (r.0.Ok? || (bookId.value !in bookIds && r == (Err(500, "Failed to create backlog entry"), es)))
    ensures Truthy(bookId) && Truthy(kind) && Truthy(userId) && quantity.Some? ==>
              (FindKey(es, Key(bookId.value, kind.value, userId.value)).Some? || bookId.value in bookIds ==> r.0.Ok?)
  {
    if !(Truthy(bookId) && Truthy(kind) && Truthy(userId) && quantity.Some?) then
      (Err(400, "Missing required fields"), es)
    else
      var key := Key(bookId.value, kind.value, userId.value);
      match FindKey(es, key)
      case Some(k) =>
        var e := es[k].(quantity := quantity.value);
        (Ok(200, e), es[k := e])
      case None =>
        if bookId.value !in bookIds then (Err(500, "Failed to create backlog entry"), es)
        else
          var e := Entry(newId, bookId.value, kind.value, userId.value, quantity.value);
          (Ok(201, e), es + [e])
  }

  /** Creating never adds a second entry for a combination: a table with one
      entry per combination keeps that shape; given a fresh id, distinct ids
      stay distinct. */
  lemma CreateKeepsUnique(es: seq<Entry>, bookIds: set<string>, newId: string,
                          bookId: Option<string>, kind: Option<string>, userId: Option<string>, quantity: Option<int>)
    requires IdsUnique(es) && forall j :: 0 <= j < |es| ==> es[j].id != newId
    ensures KeysUnique(es) ==> KeysUnique(CreateOutcome(es, bookIds, newId, bookId, kind, userId, quantity).1)
    ensures IdsUnique(CreateOutcome(es, bookIds, newId, bookId, kind, userId, quantity).1)
  {
    var r := CreateOutcome(es, bookIds, newId, bookId, kind, userId, quantity);
    if r.0.Ok? {
      var t := r.1;
      var key := KeyOf(r.0.value);
      match FindKey(es, key)
      case Some(k) =>
        forall i, j | 0 <= i < j < |t| ensures t[i].id != t[j].id && (KeysUnique(es) ==> KeyOf(t[i]) != KeyOf(t[j])) {
          if i == k {
            assert KeyOf(t[i]) == KeyOf(es[i]);
          } else if j == k {
            assert KeyOf(t[j]) == KeyOf(es[j]);
          }
        }
      case None =>
    }
  }

  /** Repeating the same creation leaves the table as the first one left it. */
  lemma CreateTwice(es: seq<Entry>, bookIds: set<string>, newId: string, otherId: string,
                    bookId: Option<string>, kind: Option<string>, userId: Option<string>, quantity: Option<int>)
    ensures var once := CreateOutcome(es, bookIds, newId, bookId, kind, userId, quantity).1;
            CreateOutcome(once, bookIds, otherId, bookId, kind, userId, quantity).1 == once
  {
    var first := CreateOutcome(es, bookIds, newId, bookId, kind, userId, quantity);
    var once := first.1;
    if first.0.Ok? {
      var key := Key(bookId.value, kind.value, userId.value);
      var m := match FindKey(es, key) case Some(m) => m case None => |es|;
      assert KeyOf(once[m]) == key && once[m].quantity == quantity.value;
      assert FindKey(once, key).Some?;
      var k' := FindKey(once, key).value;
      assert k' == m;
      assert once[k' := once[k'].(quantity := quantity.value)] == once;
    }
  }

  // ------------------------------------------------------------ updating

  /** The body of `updateBacklogEntry`. */
  datatype Changes = Changes(bookId: Option<string>, kind: Option<string>, userId: Option<string>, quantity: Option<int>)

  /** The entry after an update: book, type and user are overwritten only by
      a truthy value, the quantity by any value present; the id never changes. */
  function Edited(e: Entry, c: Changes): (r: Entry)
    ensures r.id == e.id
    ensures r.bookId == (if Truthy(c.bookId) then c.bookId.value else e.bookId)
    ensures r.kind == (if Truthy(c.kind) then c.kind.value else e.kind)
    ensures r.userId == (if Truthy(c.userId) then c.userId.value else e.userId)
    ensures r.quantity == (if c.quantity.Some? then c.quantity.value else e.quantity)
  {
    Entry(e.id,
          if Truthy(c.bookId) then c.bookId.value else e.bookId,
          if Truthy(c.kind) then c.kind.value else e.kind,
          if Truthy(c.userId) then c.userId.value else e.userId,
          Overwrite(e.quantity, c.quantity))
  }

  /** `updateBacklogEntry` as a function of the table. An unknown id, or a
      new book the store does not hold, makes the store update fail (500). */
  function UpdateOutcome(es: seq<Entry>, bookIds: set<string>, id: string, c: Changes): (r: (Reply<Entry>, seq<Entry>))
    ensures FindId(es, id).None? ==> r == (Err(500, "Failed to update backlog entry"), es)
    ensures r.0.Err? ==> r.1 == es
    ensures r.0.Ok? ==>
              && FindId(es, id).Some?
              && var k := FindId(es, id).value;
              && r.0 == Ok(200, Edited(es[k], c)) && r.1 == es[k := r.0.value]
    ensures FindId(es, id).Some? ==> (r.0.Ok? <==> !Truthy(c.bookId) || c.bookId.value in bookIds)
    ensures IdsUnique(es) ==> IdsUnique(r.1)
  {
    match FindId(es, id)
    case None => (Err(500, "Failed to update backlog entry"), es)
    case Some(k) =>
      if Truthy(c.bookId) && c.bookId.value !in bookIds then (Err(500, "Failed to update backlog entry"), es)
      else
        var e := Edited(es[k], c);
        assert forall j :: 0 <= j < |es| ==> es[k := e][j].id == es[j].id;
        (Ok(200, e), es[k := e])
  }

  // ------------------------------------------------------------ deleting

  /** `deleteBacklogEntry` as a function of the table. */
  function DeleteOutcome(es: seq<Entry>, id: string): (r: (Reply<string>, seq<Entry>))
    ensures FindId(es, id).None? <==> r == (Err(500, "Failed to delete backlog entry"), es)
    ensures FindId(es, id).Some? ==> r.0 == Ok(200, "Backlog entry deleted successfully")
    ensures r.0.Ok? ==> |r.1| == |es| - 1
    ensures IdsUnique(es) ==> IdsUnique(r.1)
    ensures IdsUnique(es) ==> forall e :: e in r.1 ==> e.id != id
    ensures forall e :: e in es && e.id != id ==> e in r.1
    ensures forall e :: e in r.1 ==> e in es
  {
    match FindId(es, id)
    case None => (Err(500, "Failed to delete backlog entry"), es)
    case Some(k) =>
      var t := RemoveAt(es, k);
      assert forall j :: 0 <= j < |t| ==> t[j] == es[if j < k then j else j + 1];
      assert forall e :: e in es && e.id != id ==> e in t by {
        forall e | e in es && e.id != id ensures e in t {
          var j :| 0 <= j < |es| && es[j] == e;
          if j < k { assert t[j] == e; } else { assert t[j - 1] == e; }
        }
      }
      (Ok(200, "Backlog entry deleted successfully"), t)
  }

  // ------------------------------------------------------------- listing

  function Matching(kind: Option<string>, userId: Option<string>): Entry -> bool {
    (e: Entry) => (Truthy(kind) ==> e.kind == kind.value) && (Truthy(userId) ==> e.userId == userId.value)
  }

  /** `getAllBacklogEntries`: exactly the entries matching each given
      (non-empty) parameter; with neither, the whole table. */
  function AllEntries(es: seq<Entry>, kind: Option<string>, userId: Option<string>): (r: seq<Entry>)
    ensures forall e :: e in r <==> e in es && (Truthy(kind) ==> e.kind == kind.value)
                                            && (Truthy(userId) ==> e.userId == userId.value)
    ensures !Truthy(kind) && !Truthy(userId) ==> r == es
  {
    if !Truthy(kind) && !Truthy(userId) then
      FilterAll(es, Matching(kind, userId));
      Filter(es, Matching(kind, userId))
    else
      Filter(es, Matching(kind, userId))
  }

  function OfKind(kind: string, userId: Option<string>): Entry -> bool {
    (e: Entry) => e.kind == kind && (Truthy(userId) ==> e.userId == userId.value)
  }

  /** `getBacklogEntriesByType`: the type from the path always filters, the
      user only when given. */
  function EntriesByType(es: seq<Entry>, kind: string, userId: Option<string>): (r: seq<Entry>)
    ensures forall e :: e in r <==> e in es && e.kind == kind && (Truthy(userId) ==> e.userId == userId.value)
  {
    Filter(es, OfKind(kind, userId))
  }

  /** For a non-empty type the two listings agree. */
  lemma ByTypeIsListing(es: seq<Entry>, kind: string, userId: Option<string>)
    requires kind != ""
    ensures EntriesByType(es, kind, userId) == AllEntries(es, Some(kind), userId)
  {
    FilterCongruent(es, OfKind(kind, userId), Matching(Some(kind), userId));
  }

  // ---------------------------------------------------------- the table

  class BacklogStore {
    var entries: seq<Entry>
    const bookIds: set<string>

    /** The store's promise: entry ids are distinct. */
    predicate Valid()
      reads this
    {
      IdsUnique(entries)
    }

    constructor (bookIds: set<string>)
      ensures entries == [] && this.bookIds == bookIds && Valid()
    {
      entries := [];
      this.bookIds := bookIds;
    }

    /** The store's `findFirst` on the combination: a scan from the front. */
    method FirstWithKey(key: Key) returns (k: Option<nat>)
      ensures k == FindKey(entries, key)
    {
      var i := 0;
      while i < |entries|
        invariant 0 <= i <= |entries|
        invariant forall j :: 0 <= j < i ==> KeyOf(entries[j]) != key
      {
        if KeyOf(entries[i]) == key {
          return Some(i);
        }
        i := i + 1;
      }
      return None;
    }

    /** The store's lookup by id: a scan from the front. */
    method IndexOf(id: string) returns (k: Option<nat>)
      ensures k == FindId(entries, id)
    {
      var i := 0;
      while i < |entries|
        invariant 0 <= i <= |entries|
        invariant forall j :: 0 <= j < i ==> entries[j].id != id
      {
        if entries[i].id == id {
          return Some(i);
        }
        i := i + 1;
      }
      return None;
    }

    /** `createBacklogEntry`: look the combination up, then either overwrite
        the quantity of the entry found or append a new one. */
    method Create(newId: string, bookId: Option<string>, kind: Option<string>, userId: Option<string>,
                  quantity: Option<int>) returns (r: Reply<Entry>)
      requires Valid() && forall j :: 0 <= j < |entries| ==> entries[j].id != newId
      modifies this
      ensures (r, entries) == CreateOutcome(old(entries), bookIds, newId, bookId, kind, userId, quantity)
      ensures Valid()
    {
      CreateKeepsUnique(entries, bookIds, newId, bookId, kind, userId, quantity);
      if !(Truthy(bookId) && Truthy(kind) && Truthy(userId) && quantity.Some?) {
        return Err(400, "Missing required fields");
      }
      var existing := FirstWithKey(Key(bookId.value, kind.value, userId.value));
      if existing.Some? {
        var e := entries[existing.value].(quantity := quantity.value);
        entries := entries[existing.value := e];
        return Ok(200, e);
      }
      if bookId.value !in bookIds {
        return Err(500, "Failed to create backlog entry");
      }
      var e := Entry(newId, bookId.value, kind.value, userId.value, quantity.value);
      entries := entries + [e];
      r := Ok(201, e);
    }

    /** `updateBacklogEntry`. */
    method Update(id: string, c: Changes) returns (r: Reply<Entry>)
      requires Valid()
      modifies this
      ensures (r, entries) == UpdateOutcome(old(entries), bookIds, id, c)
      ensures Valid()
    {
      var k := IndexOf(id);
      if k.None? || (Truthy(c.bookId) && c.bookId.value !in bookIds) {
        return Err(500, "Failed to update backlog entry");
      }
      var e := Edited(entries[k.value], c);
      entries := entries[k.value := e];
      r := Ok(200, e);
    }

    /** `deleteBacklogEntry`. */
    method Delete(id: string) returns (r: Reply<string>)
      requires Valid()
      modifies this
      ensures (r, entries) == DeleteOutcome(old(entries), id)
      ensures Valid()
      ensures forall e :: e in entries ==> e.id != id
    {
      var k := IndexOf(id);
      if k.None? {
        return Err(500, "Failed to delete backlog entry");
      }
      entries := RemoveAt(entries, k.value);
      r := Ok(200, "Backlog entry deleted successfully");
    }
  }
}

/** The blocks handlers: the block listing (optionally for one district), the
    lookup of one block by its code, and the password update, the one handler
    here that changes the store. */
module Blocks {
  import opened Wrappers
  import opened Text
  import opened Seqs
  import opened Directory

  /** A block as the listing and the lookup show it. */
  datatype BlockView = BlockView(id: string, name: string, district: string, phone: string, schoolCount: nat)

  /** What a successful password update reports back. */
  datatype BlockRef = BlockRef(id: string, name: string)

  /** The shown form of a block: the code rendered in decimal as id, the
      district in display form. */
  function View(b: Block, schoolBlockCodes: seq<int>): (r: BlockView)
    ensures ParseInt(r.id) == Some(b.code)
    ensures r.district == DisplayName(b.district)
    ensures r.name == b.name && r.phone == b.phone
  {
    ParseIntString(b.code);
    BlockView(IntString(b.code), b.name, DisplayName(b.district), b.phone, SchoolCount(schoolBlockCodes, b.code))
  }

  /** The `district` query turned into the filter the store is queried with:
      an absent or empty query filters nothing, any other is put in enum form. */
  function DistrictFilter(query: Option<string>): (r: Option<string>)
    ensures r.Some? <==> Truthy(query)
    ensures r.Some? ==> r.value == EnumName(query.value)
  {
    if Truthy(query) then Some(EnumName(query.value)) else None
  }

  predicate Selected(filter: Option<string>, b: Block) {
    filter.None? || b.district == filter.value
  }

  function SelectedBy(filter: Option<string>): Block -> bool {
    (b: Block) => Selected(filter, b)
  }

  /** The shown forms of a sequence of blocks, position by position. */
  function Views(bs: seq<Block>, schoolBlockCodes: seq<int>): (r: seq<BlockView>)
    ensures |r| == |bs| && forall i :: 0 <= i < |r| ==> r[i] == View(bs[i], schoolBlockCodes)
  {
    seq(|bs|, i requires 0 <= i < |bs| => View(bs[i], schoolBlockCodes))
  }

  /** A block is shown in the views of a sequence that holds it. */
  lemma ViewIn(bs: seq<Block>, schoolBlockCodes: seq<int>, b: Block)
    requires b in bs
    ensures View(b, schoolBlockCodes) in Views(bs, schoolBlockCodes)
  {
    var i :| 0 <= i < |bs| && bs[i] == b;
    assert Views(bs, schoolBlockCodes)[i] == View(b, schoolBlockCodes);
  }

  /** Every view of a sequence is the view of one of its blocks. */
  lemma ViewFrom(bs: seq<Block>, schoolBlockCodes: seq<int>, i: nat) returns (b: Block)
    requires i < |bs|
    ensures b in bs && b == bs[i] && Views(bs, schoolBlockCodes)[i] == View(b, schoolBlockCodes)
  {
    b := bs[i];
  }

  /** The views of a filtered table are exactly the views of the selected blocks. */
  lemma ViewsOfSelected(blocks: seq<Block>, schoolBlockCodes: seq<int>, filter: Option<string>, bs: seq<Block>, r: seq<BlockView>)
    requires bs == Filter(blocks, SelectedBy(filter)) && r == Views(bs, schoolBlockCodes)
    ensures forall i :: 0 <= i < |r| ==>
              exists k :: 0 <= k < |blocks| && Selected(filter, blocks[k]) && r[i] == View(blocks[k], schoolBlockCodes)
    ensures forall k :: 0 <= k < |blocks| && Selected(filter, blocks[k]) ==> View(blocks[k], schoolBlockCodes) in r
  {
    forall i | 0 <= i < |r|
      ensures exists k :: 0 <= k < |blocks| && Selected(filter, blocks[k]) && r[i] == View(blocks[k], schoolBlockCodes)
    {
      var b := ViewFrom(bs, schoolBlockCodes, i);
      assert SelectedBy(filter)(b);
      var k :| 0 <= k < |blocks| && blocks[k] == b;
      assert Selected(filter, blocks[k]) && r[i] == View(blocks[k], schoolBlockCodes);
    }
    forall k | 0 <= k < |blocks| && Selected(filter, blocks[k])
      ensures View(blocks[k], schoolBlockCodes) in r
    {
      assert SelectedBy(filter)(blocks[k]);
      ViewIn(bs, schoolBlockCodes, blocks[k]);
    }
  }

  /** `getAllBlocks`: the views of exactly the blocks the district filter selects, in table order. */
  function AllBlocks(blocks: seq<Block>, schoolBlockCodes: seq<int>, query: Option<string>): (r: seq<BlockView>)
    ensures !Truthy(query) ==> |r| == |blocks| && forall i :: 0 <= i < |r| ==> r[i] == View(blocks[i], schoolBlockCodes)
    ensures forall i :: 0 <= i < |r| ==>
              exists k :: 0 <= k < |blocks| && Selected(DistrictFilter(query), blocks[k]) && r[i] == View(blocks[k], schoolBlockCodes)
    ensures forall k :: 0 <= k < |blocks| && Selected(DistrictFilter(query), blocks[k]) ==> View(blocks[k], schoolBlockCodes) in r
  {
    var filter := DistrictFilter(query);
    var bs := Filter(blocks, SelectedBy(filter));
    assert !Truthy(query) ==> bs == blocks by {
      if !Truthy(query) {
        FilterAll(blocks, SelectedBy(filter));
      }
    }
    var r := Views(bs, schoolBlockCodes);
    ViewsOfSelected(blocks, schoolBlockCodes, filter, bs, r);
    r
  }

  /** Listing by the district name a block is shown with returns that block
      and only blocks shown with the same district. */
  lemma ListByShownDistrict(blocks: seq<Block>, schoolBlockCodes: seq<int>, k: nat)
    requires k < |blocks|
    requires IsEnumForm(blocks[k].district) && blocks[k].district != ""
    ensures var shown := View(blocks[k], schoolBlockCodes).district;
            var r := AllBlocks(blocks, schoolBlockCodes, Some(shown));
            View(blocks[k], schoolBlockCodes) in r && forall i :: 0 <= i < |r| ==> r[i].district == shown
  {
    var shown := DisplayName(blocks[k].district);
    EnumOfDisplay(blocks[k].district);
    assert shown[0] == DisplayName(blocks[k].district)[0];
    assert Truthy(Some(shown));
  }

  /** The first position holding a block with `code`. */
  function FindCode(blocks: seq<Block>, code: int): (r: Option<nat>)
    ensures r.Some? ==> r.value < |blocks| && blocks[r.value].code == code
    ensures r.Some? ==> forall j :: 0 <= j < r.value ==> blocks[j].code != code
    ensures r.None? <==> forall j :: 0 <= j < |blocks| ==> blocks[j].code != code
  {
    if blocks == [] then None
    else if blocks[0].code == code then Some(0)
    else
      match FindCode(blocks[1..], code)
      case None => None
      case Some(i) => Some(i + 1)
  }

  /** The store keeps block codes unique. */
  predicate CodesUnique(blocks: seq<Block>) {
    forall i, j :: 0 <= i < j < |blocks| ==> blocks[i].code != blocks[j].code
  }

  /** `getBlockById`: the id is parsed as a number; a block with that code is
      shown, none is a 404. An id that is not a number makes the store query
      fail, which the handler answers with its catch-all 500. */
  function BlockById(blocks: seq<Block>, schoolBlockCodes: seq<int>, id: string): (r: Reply<BlockView>)
    ensures ParseInt(id).None? ==> r == Err(500, "Failed to fetch block")
    ensures ParseInt(id).Some? ==>
              ((forall k :: 0 <= k < |blocks| ==> blocks[k].code != ParseInt(id).value) <==> r == Err(404, "Block not found"))
    ensures r.Ok? ==> r.code == 200 && exists k :: 0 <= k < |blocks| && blocks[k].code == ParseInt(id).value
                                         && r.value == View(blocks[k], schoolBlockCodes)
  {
    match ParseInt(id)
    case None => Err(500, "Failed to fetch block")
    case Some(code) =>
      match FindCode(blocks, code)
      case None => Err(404, "Block not found")
      case Some(k) => Ok(200, View(blocks[k], schoolBlockCodes))
  }

  /** Looking a block up by the id it is shown with gives back its view. */
  lemma LookupByShownId(blocks: seq<Block>, schoolBlockCodes: seq<int>, k: nat)
    requires k < |blocks| && CodesUnique(blocks)
    ensures BlockById(blocks, schoolBlockCodes, View(blocks[k], schoolBlockCodes).id) == Ok(200, View(blocks[k], schoolBlockCodes))
  {
    assert FindCode(blocks, blocks[k].code).Some?;
  }

  /** `updateBlockPassword` as a function of the table: the reply and the new table. */
  function PasswordUpdate(blocks: seq<Block>, id: string, password: Option<string>): (r: (Reply<BlockRef>, seq<Block>))
    ensures !Truthy(password) ==> r == (Err(400, "Password is required"), blocks)
    ensures Truthy(password) ==>
              ((ParseInt(id).None? || FindCode(blocks, ParseInt(id).value).None?)
               <==> r == (Err(500, "Failed to update block password"), blocks))
    ensures Truthy(password) && ParseInt(id).Some? ==> (FindCode(blocks, ParseInt(id).value).Some? ==> r.0.Ok?)
    ensures r.0.Ok? ==> r.0.code == 200 && Truthy(password)
    ensures r.0.Ok? ==>
              var k := FindCode(blocks, ParseInt(id).value).value;
              && r.0.value == BlockRef(IntString(blocks[k].code), blocks[k].name)
              && |r.1| == |blocks|
              && r.1[k] == blocks[k].(password := password.value)
              && forall j :: 0 <= j < |blocks| && j != k ==> r.1[j] == blocks[j]
  {
    if !Truthy(password) then (Err(400, "Password is required"), blocks)
    else
      match ParseInt(id)
      case None => (Err(500, "Failed to update block password"), blocks)
      case Some(code) =>
        match FindCode(blocks, code)
        case None => (Err(500, "Failed to update block password"), blocks)
        case Some(k) =>
          (Ok(200, BlockRef(IntString(blocks[k].code), blocks[k].name)), blocks[k := blocks[k].(password := password.value)])
  }

  /** A password update changes nothing a block shows, and keeps codes unique. */
  lemma PasswordUpdateKeepsViews(blocks: seq<Block>, schoolBlockCodes: seq<int>, id: string, password: Option<string>)
    requires CodesUnique(blocks)
    ensures var t := PasswordUpdate(blocks, id, password).1;
            && |t| == |blocks| && CodesUnique(t)
            && forall i :: 0 <= i < |t| ==> View(t[i], schoolBlockCodes) == View(blocks[i], schoolBlockCodes)
  {
    var r := PasswordUpdate(blocks, id, password);
    if r.0.Ok? {
      var t, k := r.1, FindCode(blocks, ParseInt(id).value).value;
      forall i | 0 <= i < |t| ensures t[i].code == blocks[i].code && View(t[i], schoolBlockCodes) == View(blocks[i], schoolBlockCodes) {
        if i == k {
          assert t[i] == blocks[i].(password := password.value);
        }
      }
    }
  }

  /** The block table. */
  class BlockStore {
    var blocks: seq<Block>

    constructor (blocks: seq<Block>)
      ensures this.blocks == blocks
    {
      this.blocks := blocks;
    }

    /** The store's lookup by code: a scan from the front. */
    method IndexOfCode(code: int) returns (k: Option<nat>)
      ensures k == FindCode(blocks, code)
    {
      var i := 0;
      while i < |blocks|
        invariant 0 <= i <= |blocks|
        invariant forall j :: 0 <= j < i ==> blocks[j].code != code
      {
        if blocks[i].code == code {
          return Some(i);
        }
        i := i + 1;
      }
      return None;
    }

    /** `updateBlockPassword`: the password is required; the block with the
        parsed code gets the new password, and a missing block makes the
        store update fail. */
    method UpdatePassword(id: string, password: Option<string>) returns (r: Reply<BlockRef>)
      modifies this
      ensures (r, blocks) == PasswordUpdate(old(blocks), id, password)
    {
      if !Truthy(password) {
        return Err(400, "Password is required");
      }
      var code := ParseInt(id);
      if code.None? {
        return Err(500, "Failed to update block password");
      }
      var k := IndexOfCode(code.value);
      if k.None? {
        return Err(500, "Failed to update block password");
      }
      var b := blocks[k.value];
      blocks := blocks[k.value := b.(password := password.value)];
      r := Ok(200, BlockRef(IntString(b.code), b.name));
    }
  }
}

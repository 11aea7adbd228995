/** The districts handlers: the list of districts with their blocks, and the
    lookup of one district by name. Nothing here changes the store. */
module Districts {
  import opened Wrappers
  import opened Text
  import opened Seqs
  import opened Directory

  /** A block as a district listing shows it. */
  datatype BlockSummary = BlockSummary(id: string, name: string, phone: string, schoolCount: nat)

  /** One entry of the district listing. */
  datatype DistrictEntry = DistrictEntry(id: string, name: string, blocks: seq<BlockSummary>)

  function Summary(b: Block, schoolBlockCodes: seq<int>): (r: BlockSummary)
    ensures ParseInt(r.id) == Some(b.code)
  {
    ParseIntString(b.code);
    BlockSummary(IntString(b.code), b.name, b.phone, SchoolCount(schoolBlockCodes, b.code))
  }

  function Summaries(bs: seq<Block>, schoolBlockCodes: seq<int>): (r: seq<BlockSummary>)
    ensures |r| == |bs|
    ensures forall i :: 0 <= i < |bs| ==> r[i] == Summary(bs[i], schoolBlockCodes)
  {
    seq(|bs|, i requires 0 <= i < |bs| => Summary(bs[i], schoolBlockCodes))
  }

  /** Some block of the table lies in district `d`. */
  predicate HasDistrict(blocks: seq<Block>, d: string) {
    exists k :: 0 <= k < |blocks| && blocks[k].district == d
  }

  /** The distinct districts of the block table, in order of first appearance. */
  function DistrictsIn(blocks: seq<Block>): (r: seq<string>)
    ensures forall i, j :: 0 <= i < j < |r| ==> r[i] != r[j]
    ensures forall k :: 0 <= k < |blocks| ==> blocks[k].district in r
    ensures forall i :: 0 <= i < |r| ==> HasDistrict(blocks, r[i])
  {
    var names := seq(|blocks|, i requires 0 <= i < |blocks| => blocks[i].district);
    var r := Dedup(names);
    assert forall k :: 0 <= k < |blocks| ==> names[k] == blocks[k].district;
    forall i | 0 <= i < |r| ensures HasDistrict(blocks, r[i]) {
      var k :| 0 <= k < |names| && names[k] == r[i];
    }
    r
  }

  /** The entry listed for `district`: the raw enum as id, the display form as
      name, and the district's blocks. */
  function EntryFor(blocks: seq<Block>, schoolBlockCodes: seq<int>, district: string): (r: DistrictEntry)
    ensures r.id == district
  {
    DistrictEntry(district, DisplayName(district), Summaries(BlocksOf(blocks, district), schoolBlockCodes))
  }

  /** `getAllDistricts`: one entry per distinct district of the block table,
      each the one listed for its id (raw enum as id, display form as name,
      exactly the blocks of that district). */
  function AllDistricts(blocks: seq<Block>, schoolBlockCodes: seq<int>): (r: seq<DistrictEntry>)
    ensures forall i, j :: 0 <= i < j < |r| ==> r[i].id != r[j].id
    ensures forall i :: 0 <= i < |r| ==> HasDistrict(blocks, r[i].id) && r[i] == EntryFor(blocks, schoolBlockCodes, r[i].id)
  {
    var ds := DistrictsIn(blocks);
    seq(|ds|, i requires 0 <= i < |ds| => EntryFor(blocks, schoolBlockCodes, ds[i]))
  }

  /** No district is missing from the listing: every block's district has its entry. */
  lemma AllDistrictsCover(blocks: seq<Block>, schoolBlockCodes: seq<int>, k: nat)
    requires k < |blocks|
    ensures EntryFor(blocks, schoolBlockCodes, blocks[k].district) in AllDistricts(blocks, schoolBlockCodes)
  {
    var ds := DistrictsIn(blocks);
    var r := AllDistricts(blocks, schoolBlockCodes);
    var i :| 0 <= i < |ds| && ds[i] == blocks[k].district;
    assert r[i] == EntryFor(blocks, schoolBlockCodes, ds[i]);
  }

  /** `getDistrictById`: the parameter is put in enum form for the query; no
      block in that district is a 404; otherwise the id is the enum form and
      the name is formatted from the raw parameter. */
  function DistrictById(blocks: seq<Block>, schoolBlockCodes: seq<int>, param: string): (r: Reply<DistrictEntry>)
    ensures r.Err? <==> forall k :: 0 <= k < |blocks| ==> blocks[k].district != EnumName(param)
    ensures r.Err? ==> r == Err(404, "District not found")
    ensures r.Ok? ==> r.code == 200 && r.value.id == EnumName(param) && r.value.name == DisplayName(param)
    ensures r.Ok? ==> r.value.blocks == Summaries(BlocksOf(blocks, EnumName(param)), schoolBlockCodes)
  {
    var e := EnumName(param);
    var bs := BlocksOf(blocks, e);
    if |bs| == 0 then
      Err(404, "District not found")
    else
      assert bs[0] in blocks;
      Ok(200, DistrictEntry(e, DisplayName(param), Summaries(bs, schoolBlockCodes)))
  }

  /** Looking a listed district up by the name the listing shows gives back
      the same entry: same id, same name, same blocks. */
  lemma LookupListedByName(blocks: seq<Block>, schoolBlockCodes: seq<int>, i: nat)
    requires i < |AllDistricts(blocks, schoolBlockCodes)|
    requires IsEnumForm(AllDistricts(blocks, schoolBlockCodes)[i].id)
    ensures var entry := AllDistricts(blocks, schoolBlockCodes)[i];
            DistrictById(blocks, schoolBlockCodes, entry.name) == Ok(200, entry)
  {
    var entry := AllDistricts(blocks, schoolBlockCodes)[i];
    EnumOfDisplay(entry.id);
    DisplayIdempotent(entry.id);
  }
}

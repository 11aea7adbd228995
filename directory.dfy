/** The block directory that the districts, blocks and reports handlers read:
    the block record, and the two conversions between a district's stored
    enum form (`EAST_KHASI_HILLS`) and its display form (`EAST KHASI HILLS`: underscores become spaces and the first letter of each word is raised, the rest keeps its case). */
module Directory {
  import opened Text
  import opened Seqs

  /** A block (administrative sub-unit) as the store holds it. */
  datatype Block = Block(code: int, name: string, district: string, phone: string, password: string)

  /** A regular-expression word character, `\w`. */
  predicate IsWordChar(c: char) {
    'a' <= c <= 'z' || 'A' <= c <= 'Z' || IsDigit(c) || c == '_'
  }

  /** True at the positions where `\b\w` matches: a word character that
      starts the text or follows a non-word character. */
  predicate WordStart(s: string, i: int)
    requires 0 <= i < |s|
  {
    IsWordChar(s[i]) && (i == 0 || !IsWordChar(s[i - 1]))
  }

  /** `s.replace(/\b\w/g, l => l.toUpperCase())`. */
  function TitleCase(s: string): (r: string)
    ensures |r| == |s|
    ensures forall i :: 0 <= i < |s| ==> r[i] == if WordStart(s, i) then UpperChar(s[i]) else s[i]
  {
    seq(|s|, i requires 0 <= i < |s| => if WordStart(s, i) then UpperChar(s[i]) else s[i])
  }

  /** `d.replace(/_/g, " ").replace(/\b\w/g, l => l.toUpperCase())`: the
      display form of a district name. Every underscore becomes a space, the
      first character of each word is raised, nothing else changes. */
  function DisplayName(d: string): (r: string)
    ensures |r| == |d|
    ensures forall i :: 0 <= i < |d| ==> r[i] != '_'
    ensures forall i :: 0 <= i < |d| ==> (r[i] == ' ' <==> d[i] == '_' || d[i] == ' ')
    ensures forall i :: 0 <= i < |d| && d[i] != '_' ==> r[i] == d[i] || r[i] == UpperChar(d[i])
  {
    TitleCase(ReplaceChar(d, '_', ' '))
  }

  /** `name.toUpperCase().replace(/ /g, "_")`: the enum form the store is
      queried with. */
  function EnumName(name: string): (r: string)
    ensures |r| == |name|
    ensures forall i :: 0 <= i < |r| ==> r[i] != ' ' && !IsLower(r[i])
  {
    ReplaceChar(Upper(name), ' ', '_')
  }

  /** A district enum value: no spaces and no lower-case letters. */
  predicate IsEnumForm(e: string) {
    forall i :: 0 <= i < |e| ==> e[i] != ' ' && !IsLower(e[i])
  }

  /** Converting a displayed district name back to enum form recovers the
      stored enum value. */
  lemma {:induction false} EnumOfDisplay(e: string)
    requires IsEnumForm(e)
    ensures EnumName(DisplayName(e)) == e
  {
    var d := DisplayName(e);
    forall i | 0 <= i < |e| ensures EnumName(d)[i] == e[i] {
      assert d[i] == ' ' <==> e[i] == '_';
      assert !IsLower(d[i]);
    }
  }

  /** Display form is stable: formatting an already displayed name again
      changes nothing, so a name taken from a listing and formatted again by
      a lookup reads the same. */
  lemma {:induction false} DisplayIdempotent(d: string)
    ensures DisplayName(DisplayName(d)) == DisplayName(d)
  {
    var t := ReplaceChar(d, '_', ' ');
    var r := TitleCase(t);
    assert ReplaceChar(r, '_', ' ') == r;
    forall i | 0 <= i < |r| ensures TitleCase(r)[i] == r[i] {
      assert IsWordChar(r[i]) <==> IsWordChar(t[i]);
      assert i > 0 ==> (IsWordChar(r[i - 1]) <==> IsWordChar(t[i - 1]));
    }
  }

  /** Number of schools whose block code is `code` (the store's `_count.schools`). */
  function SchoolCount(schoolBlockCodes: seq<int>, code: int): nat {
    |Filter(schoolBlockCodes, c => c == code)|
  }

  /** The blocks of one district, in table order. */
  function BlocksOf(blocks: seq<Block>, district: string): (r: seq<Block>)
    ensures forall i :: 0 <= i < |r| ==> r[i] in blocks && r[i].district == district
    ensures forall i :: 0 <= i < |blocks| && blocks[i].district == district ==> blocks[i] in r
  {
    Filter(blocks, (b: Block) => b.district == district)
  }
}

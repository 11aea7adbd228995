/** The seed script's logic over the lines of the school list: the
    quote-aware CSV line splitter, the normalisation of district and block
    names, the de-duplicating extraction of the block list (two passes over
    the file), and the school import that validates rows and writes them in
    batches of 100. Reading the file and writing to the store are left to the
    caller: the input is the file's text, the outputs are the block list and
    the batches. */
module Seed {
  import opened Wrappers
  import opened Text
  import opened Seqs
  import Directory

  // ------------------------------------------------------- plain splitting

  /** `s.split(sep)`: the pieces between the separators, at least one. */
  function SplitOn(s: string, sep: char): (r: seq<string>)
    ensures |r| >= 1
    ensures forall k :: 0 <= k < |r| ==> sep !in r[k]
  {
    if s == [] then [""]
    else
      var fs := SplitOn(s[..|s| - 1], sep);
      var c := s[|s| - 1];
      if c == sep then fs + [""]
      else fs[..|fs| - 1] + [fs[|fs| - 1] + [c]]
  }

  /** The pieces joined back with a separator. */
  function Join(fs: seq<string>, sep: char): string {
    if fs == [] then ""
    else if |fs| == 1 then fs[0]
    else Join(fs[..|fs| - 1], sep) + [sep] + fs[|fs| - 1]
  }

  lemma JoinExtendLast(fs: seq<string>, sep: char, c: char)
    requires fs != []
    ensures Join(fs[..|fs| - 1] + [fs[|fs| - 1] + [c]], sep) == Join(fs, sep) + [c]
  {
    var gs := fs[..|fs| - 1] + [fs[|fs| - 1] + [c]];
    if |fs| > 1 {
      assert gs[..|gs| - 1] == fs[..|fs| - 1];
    }
  }

  lemma JoinAppendEmpty(fs: seq<string>, sep: char)
    requires fs != []
    ensures Join(fs + [""], sep) == Join(fs, sep) + [sep]
  {
    assert (fs + [""])[..|fs|] == fs;
  }

  /** Splitting and joining again gives back the text. */
  lemma {:induction false} SplitJoin(s: string, sep: char)
    ensures Join(SplitOn(s, sep), sep) == s
    decreases |s|
  {
    if s != [] {
      var init, c := s[..|s| - 1], s[|s| - 1];
      var fs := SplitOn(init, sep);
      SplitJoin(init, sep);
      assert s == init + [c];
      if c == sep {
        JoinAppendEmpty(fs, sep);
      } else {
        JoinExtendLast(fs, sep, c);
      }
    }
  }

  // ------------------------------------------------------------- CSV fields

  function QuoteCount(s: string): nat {
    if s == [] then 0 else QuoteCount(s[..|s| - 1]) + (if s[|s| - 1] == '"' then 1 else 0)
  }

  /** After the text `s`, the splitter is inside a quoted stretch exactly when
      it has passed an odd number of quote characters. */
  predicate InQuotes(s: string) {
    QuoteCount(s) % 2 == 1
  }

  /** The fields of a CSV line before trimming: commas outside quotes
      separate fields, quote characters are dropped, every other character
      belongs to the current field. */
  function RawFields(s: string): (r: seq<string>)
    ensures |r| >= 1
  {
    if s == [] then [""]
    else
      var init := s[..|s| - 1];
      var c := s[|s| - 1];
      var fs := RawFields(init);
      if c == '"' then fs
      else if c == ',' && !InQuotes(init) then fs + [""]
      else fs[..|fs| - 1] + [fs[|fs| - 1] + [c]]
  }

  /** Every field of the line, trimmed. */
  function Fields(line: string): (r: seq<string>)
    ensures |r| == |RawFields(line)|
    ensures forall k :: 0 <= k < |r| ==> r[k] == Trim(RawFields(line)[k])
  {
    var raw := RawFields(line);
    seq(|raw|, k requires 0 <= k < |raw| => Trim(raw[k]))
  }

  /** The splitter's state after reading `s`: the quote flag, the trimmed
      fields finished so far and the field being read. */
  predicate ReadSoFar(s: string, done: seq<string>, current: string, inQuotes: bool) {
    var raw := RawFields(s);
    && inQuotes == InQuotes(s)
    && |done| + 1 == |raw|
    && (forall k :: 0 <= k < |done| ==> done[k] == Trim(raw[k]))
    && current == raw[|done|]
  }

  /** A quote character only flips the flag. */
  lemma ReadQuote(s: string, done: seq<string>, current: string, inQuotes: bool)
    requires ReadSoFar(s, done, current, inQuotes)
    ensures ReadSoFar(s + ['"'], done, current, !inQuotes)
  {
    assert (s + ['"'])[..|s|] == s;
  }

  /** A comma outside quotes finishes the current field. */
  lemma ReadComma(s: string, done: seq<string>, current: string)
    requires ReadSoFar(s, done, current, false)
    ensures ReadSoFar(s + [','], done + [Trim(current)], "", false)
  {
    assert (s + [','])[..|s|] == s;
    var raw, raw' := RawFields(s), RawFields(s + [',']);
    assert raw' == raw + [""];
    var done' := done + [Trim(current)];
    forall k | 0 <= k < |done'| ensures done'[k] == Trim(raw'[k]) {
      assert raw'[k] == raw[k];
    }
  }

  /** Any other character extends the current field. */
  lemma ReadOther(s: string, c: char, done: seq<string>, current: string, inQuotes: bool)
    requires ReadSoFar(s, done, current, inQuotes)
    requires c != '"' && !(c == ',' && !inQuotes)
    ensures ReadSoFar(s + [c], done, current + [c], inQuotes)
  {
    assert (s + [c])[..|s|] == s;
    var raw := RawFields(s);
    var raw' := RawFields(s + [c]);
    assert raw' == raw[..|raw| - 1] + [raw[|raw| - 1] + [c]];
    assert forall k :: 0 <= k < |done| ==> raw'[k] == raw[k];
  }

  /** At the end of the line the last field joins the finished ones. */
  lemma ReadDone(s: string, done: seq<string>, current: string, inQuotes: bool)
    requires ReadSoFar(s, done, current, inQuotes)
    ensures done + [Trim(current)] == Fields(s)
  {
    var all, f := done + [Trim(current)], Fields(s);
    assert |all| == |f|;
    forall k | 0 <= k < |f| ensures all[k] == f[k] {
      if k < |done| {
        assert all[k] == done[k];
      }
    }
  }

  /** `parseCSVLine`: one pass over the characters with a quote flag, the
      current field and the fields finished so far. */
  method ParseCsvLine(line: string) returns (result: seq<string>)
    ensures result == Fields(line)
  {
    result := [];
    var current := "";
    var inQuotes := false;
    for i := 0 to |line|
      invariant ReadSoFar(line[..i], result, current, inQuotes)
    {
      var ch := line[i];
      assert line[..i + 1] == line[..i] + [ch];
      if ch == '"' {
        ReadQuote(line[..i], result, current, inQuotes);
        inQuotes := !inQuotes;
      } else if ch == ',' && !inQuotes {
        ReadComma(line[..i], result, current);
        result := result + [Trim(current)];
        current := "";
      } else {
        ReadOther(line[..i], ch, result, current, inQuotes);
        current := current + [ch];
      }
    }
    assert line[..|line|] == line;
    ReadDone(line, result, current, inQuotes);
    result := result + [Trim(current)];
  }

  /** The number of commas outside quotes. */
  function UnquotedCommas(s: string): nat {
    if s == [] then 0
    else UnquotedCommas(s[..|s| - 1]) + (if s[|s| - 1] == ',' && !InQuotes(s[..|s| - 1]) then 1 else 0)
  }

  /** `s` with every quote character removed. */
  function Unquoted(s: string): (r: string)
    ensures '"' !in r
  {
    if s == [] then [] else Unquoted(s[..|s| - 1]) + (if s[|s| - 1] == '"' then [] else [s[|s| - 1]])
  }

  /** The splitter's promises: one field more than there are unquoted commas,
      no field holds a quote character, and joining the raw fields with commas
      gives back the line without its quotes. */
  lemma {:induction false} RawFieldsSpec(s: string)
    ensures |RawFields(s)| == UnquotedCommas(s) + 1
    ensures forall k :: 0 <= k < |RawFields(s)| ==> '"' !in RawFields(s)[k]
    ensures Join(RawFields(s), ',') == Unquoted(s)
    decreases |s|
  {
    if s != [] {
      var init := s[..|s| - 1];
      var c := s[|s| - 1];
      RawFieldsSpec(init);
      var fs := RawFields(init);
      if c == '"' {
      } else if c == ',' && !InQuotes(init) {
        JoinAppendEmpty(fs, ',');
      } else {
        JoinExtendLast(fs, ',', c);
        var r := RawFields(s);
        forall k | 0 <= k < |r| ensures '"' !in r[k] {
          if k < |fs| - 1 {
            assert r[k] == fs[k];
          }
        }
      }
    }
  }

  /** On a line without quote characters the splitter is `split(",")`. */
  lemma {:induction false} UnquotedIsSplit(s: string)
    requires '"' !in s
    ensures RawFields(s) == SplitOn(s, ',')
    ensures QuoteCount(s) == 0
    decreases |s|
  {
    if s != [] {
      UnquotedIsSplit(s[..|s| - 1]);
    }
  }

  /** Every field is trimmed and free of quote characters. */
  lemma FieldsClean(line: string)
    ensures forall k :: 0 <= k < |Fields(line)| ==> '"' !in Fields(line)[k] && Trim(Fields(line)[k]) == Fields(line)[k]
  {
    RawFieldsSpec(line);
    var f := Fields(line);
    forall k | 0 <= k < |f| ensures '"' !in f[k] && Trim(f[k]) == f[k] {
      TrimmedPart(RawFields(line)[k]);
    }
  }

  // ------------------------------------------------- name normalisation

  /** `s.replace(/p+/g, to)` for a character class `p`: every maximal run of
      characters in the class becomes one `to`; every other character is
      kept. */
  function CollapseRuns(s: string, p: char -> bool, to: char): (r: string)
    ensures |r| <= |s| && (r == [] <==> s == [])
    ensures r != [] && p(s[|s| - 1]) ==> r[|r| - 1] == to
    ensures r != [] && !p(s[|s| - 1]) ==> r[|r| - 1] == s[|s| - 1]
    ensures forall i :: 0 <= i < |r| ==> r[i] == to || (!p(r[i]) && r[i] in s)
    ensures p(to) ==> forall i :: 0 <= i < |r| - 1 ==> !(r[i] == to && r[i + 1] == to)
    ensures r != [] ==> r[0] == if p(s[0]) then to else s[0]
    ensures |s| == 1 ==> r == if p(s[0]) then [to] else s
  {
    if s == [] then []
    else
      var init := CollapseRuns(s[..|s| - 1], p, to);
      var c := s[|s| - 1];
      assert forall x :: x in s[..|s| - 1] ==> x in s;
      if p(c) then
        if |s| >= 2 && p(s[|s| - 2]) then init else init + [to]
      else init + [c]
  }

  /** The characters outside the class `p`. */
  function Outside(p: char -> bool): char -> bool {
    c => !p(c)
  }

  /** When the replacement is itself in the class, collapsing keeps every
      character outside the class, in order, and adds none. */
  lemma {:induction false} CollapseKeeps(s: string, p: char -> bool, to: char)
    requires p(to)
    ensures Filter(CollapseRuns(s, p, to), Outside(p)) == Filter(s, Outside(p))
    decreases |s|
  {
    if s != [] {
      var init, c := s[..|s| - 1], s[|s| - 1];
      var q := Outside(p);
      CollapseKeeps(init, p, to);
      var ci := CollapseRuns(init, p, to);
      assert Filter(s, q) == Filter(init, q) + (if q(c) then [c] else []);
      if p(c) {
        if !(|s| >= 2 && p(s[|s| - 2])) {
          FilterAppend(ci, [to], q);
          FilterSingle(to, q);
        }
      } else {
        FilterAppend(ci, [c], q);
        FilterSingle(c, q);
      }
    }
  }

  /** A non-empty run of characters of the class becomes exactly one `to`. */
  lemma {:induction false} CollapseRun(s: string, p: char -> bool, to: char)
    requires s != [] && forall i :: 0 <= i < |s| ==> p(s[i])
    ensures CollapseRuns(s, p, to) == [to]
    decreases |s|
  {
    if |s| > 1 {
      CollapseRun(s[..|s| - 1], p, to);
    }
  }

  /** What one more character adds to the collapsed text: nothing when it
      continues a run, one `to` when it starts one, itself otherwise. */
  function RunStep(u: string, c: char, p: char -> bool, to: char): string {
    if p(c) then (if u != [] && p(u[|u| - 1]) then [] else [to]) else [c]
  }

  lemma CollapseSnoc(u: string, c: char, p: char -> bool, to: char)
    ensures CollapseRuns(u + [c], p, to) == CollapseRuns(u, p, to) + RunStep(u, c, p, to)
  {
    assert (u + [c])[..|u|] == u;
  }

  /** A character starts, continues or breaks a run the same way after
      `b` as after `a + b`, unless a run crosses from `a` into `b + [c]`. */
  lemma RunStepAfter(a: string, b: string, c: char, p: char -> bool, to: char)
    requires a == [] || !p(a[|a| - 1]) || !p((b + [c])[0])
    ensures RunStep(a + b, c, p, to) == RunStep(b, c, p, to)
  {
    if b != [] {
      assert (a + b)[|a + b| - 1] == b[|b| - 1];
    } else {
      assert a + b == a;
    }
  }

  /** Collapsing works piece by piece wherever the cut does not fall inside
      a run: together with `CollapseRun` and the single-character case this
      fixes the result on every input. */
  lemma {:induction false} CollapseSplit(a: string, b: string, p: char -> bool, to: char)
    requires a == [] || b == [] || !p(a[|a| - 1]) || !p(b[0])
    ensures CollapseRuns(a + b, p, to) == CollapseRuns(a, p, to) + CollapseRuns(b, p, to)
    decreases |b|
  {
    if b == [] {
      assert a + b == a;
    } else {
      var b', c := b[..|b| - 1], b[|b| - 1];
      assert a + b == (a + b') + [c] && b == b' + [c];
      CollapseSnoc(a + b', c, p, to);
      CollapseSnoc(b', c, p, to);
      RunStepAfter(a, b', c, p, to);
      assert b' != [] ==> b'[0] == b[0];
      CollapseSplit(a, b', p, to);
      Associative(CollapseRuns(a, p, to), CollapseRuns(b', p, to), RunStep(b', c, p, to));
    }
  }

  predicate IsUnderscore(c: char) { c == '_' }

  /** The district column as the block list stores it: trimmed, white-space
      runs turned into `_`, runs of `_` collapsed, upper-cased. */
  function DistrictName(col: string): string {
    Upper(CollapseRuns(CollapseRuns(Trim(col), IsSpace, '_'), IsUnderscore, '_'))
  }

  /** The block-name column: trimmed, white-space runs turned into one space. */
  function BlockName(col: string): (r: string)
    ensures forall i :: 0 <= i < |r| ==> (IsSpace(r[i]) ==> r[i] == ' ')
    ensures forall i :: 0 <= i < |r| - 1 ==> !(r[i] == ' ' && r[i + 1] == ' ')
    ensures r == [] <==> Trim(col) == []
    ensures r != [] ==> !IsSpace(r[0]) && !IsSpace(r[|r| - 1])
    ensures Filter(r, Outside(IsSpace)) == Filter(Trim(col), Outside(IsSpace))
  {
    CollapseKeeps(Trim(col), IsSpace, ' ');
    CollapseRuns(Trim(col), IsSpace, ' ')
  }

  /** A normalised district name holds no white space, no lower-case letter
      and no two underscores in a row; in particular it is in the enum form
      the districts and blocks handlers convert to and from. */
  lemma DistrictNameShape(col: string)
    ensures var d := DistrictName(col);
            && (forall i :: 0 <= i < |d| ==> !IsSpace(d[i]) && !IsLower(d[i]))
            && (forall i :: 0 <= i < |d| - 1 ==> !(d[i] == '_' && d[i + 1] == '_'))
            && Directory.IsEnumForm(d)
  {
    var a := CollapseRuns(Trim(col), IsSpace, '_');
    var b := CollapseRuns(a, IsUnderscore, '_');
    CollapsedNoSpace(a, b);
    UpperKeepsShape(b);
  }

  /** Collapsing underscore runs of text whose white space is already gone
      leaves no white space and no two underscores in a row. */
  lemma CollapsedNoSpace(a: string, b: string)
    requires forall i :: 0 <= i < |a| ==> a[i] == '_' || !IsSpace(a[i])
    requires b == CollapseRuns(a, IsUnderscore, '_')
    ensures forall i :: 0 <= i < |b| ==> !IsSpace(b[i])
    ensures forall i :: 0 <= i < |b| - 1 ==> !(b[i] == '_' && b[i + 1] == '_')
  {
    forall i | 0 <= i < |b| ensures !IsSpace(b[i]) {
      if b[i] != '_' {
        var j :| 0 <= j < |a| && a[j] == b[i];
      }
    }
  }

  /** Upper-casing keeps white space and underscores where they are and
      leaves no lower-case letter. */
  lemma UpperKeepsShape(b: string)
    requires forall i :: 0 <= i < |b| ==> !IsSpace(b[i])
    requires forall i :: 0 <= i < |b| - 1 ==> !(b[i] == '_' && b[i + 1] == '_')
    ensures var d := Upper(b);
            && (forall i :: 0 <= i < |d| ==> !IsSpace(d[i]) && !IsLower(d[i]))
            && (forall i :: 0 <= i < |d| - 1 ==> !(d[i] == '_' && d[i + 1] == '_'))
            && Directory.IsEnumForm(d)
  {
    var d := Upper(b);
    forall i | 0 <= i < |d| - 1 ensures !(d[i] == '_' && d[i + 1] == '_') {
      assert d[i] == '_' ==> b[i] == '_';
      assert d[i + 1] == '_' ==> b[i + 1] == '_';
    }
  }

  // ----------------------------------------------------- block extraction

  datatype BlockInfo = BlockInfo(code: string, name: string, district: string)

  /** The key blocks are de-duplicated by: `code|name|district`. */
  function BlockKey(b: BlockInfo): string {
    b.code + "|" + b.name + "|" + b.district
  }

  /** The block a line of the school list names, when it has at least four
      comma-separated columns (quotes are not honoured here). */
  function BlockOfLine(line: string): (r: Option<BlockInfo>)
    ensures r.None? <==> |SplitOn(line, ',')| < 4
    ensures r.Some? ==> var cols := SplitOn(line, ',');
                        && r.value.district == DistrictName(cols[1])
                        && r.value.code == Trim(cols[2])
                        && r.value.name == BlockName(cols[3])
  {
    var cols := SplitOn(line, ',');
    if |cols| < 4 then None
    else Some(BlockInfo(Trim(cols[2]), BlockName(cols[3]), DistrictName(cols[1])))
  }

  /** The blocks named by the lines, one per line that has enough columns. */
  function LineBlocks(rows: seq<string>): (r: seq<BlockInfo>)
    ensures |r| == |Filter(rows, HasBlock)| <= |rows|
  {
    if rows == [] then []
    else LineBlocks(rows[..|rows| - 1]) + Found(rows[|rows| - 1])
  }

  /** The blocks found are exactly those of the lines that name one. */
  lemma LineBlocksMembers(rows: seq<string>)
    ensures forall i, b :: 0 <= i < |rows| && b in Found(rows[i]) ==> b in LineBlocks(rows)
    ensures forall b :: b in LineBlocks(rows) ==> exists i :: 0 <= i < |rows| && b in Found(rows[i])
  {
    LineBlocksFlat(rows);
    FlatMapMembers(rows, Found);
  }

  lemma {:induction false} LineBlocksFlat(rows: seq<string>)
    ensures LineBlocks(rows) == FlatMap(rows, Found)
    decreases |rows|
  {
    if rows != [] {
      LineBlocksFlat(rows[..|rows| - 1]);
    }
  }

  /** A line with the four columns a block needs. */
  predicate HasBlock(line: string) {
    BlockOfLine(line).Some?
  }

  /** The lines of two stretches of the file give their blocks one after
      the other. */
  lemma {:induction false} LineBlocksAppend(a: seq<string>, b: seq<string>)
    ensures LineBlocks(a + b) == LineBlocks(a) + LineBlocks(b)
    decreases |b|
  {
    if b == [] {
      assert a + b == a;
    } else {
      assert (a + b)[..|a + b| - 1] == a + b[..|b| - 1];
      LineBlocksAppend(a, b[..|b| - 1]);
      Associative(LineBlocks(a), LineBlocks(b[..|b| - 1]), Found(b[|b| - 1]));
    }
  }

  function Found(line: string): seq<BlockInfo> {
    match BlockOfLine(line) case Some(b) => [b] case None => []
  }

  /** The body of a pass for one line: the line's block is recorded when its
      key has not been seen yet. */
  method Visit(line: string, ghost done: seq<BlockInfo>, seen0: set<string>, blocks0: seq<BlockInfo>)
    returns (seen: set<string>, blocks: seq<BlockInfo>)
    requires seen0 == KeySet(blocks0, BlockKey) && blocks0 == DedupBy(done, BlockKey)
    ensures seen == KeySet(blocks, BlockKey)
    ensures blocks == DedupBy(done + Found(line), BlockKey)
  {
    seen, blocks := seen0, blocks0;
    DedupByExtend(done, Found(line), BlockKey);
    var b := BlockOfLine(line);
    if b.Some? {
      var key := BlockKey(b.value);
      if key !in seen {
        KeySetSnoc(blocks, b.value, BlockKey);
        seen := seen + {key};
        blocks := blocks + [b.value];
      }
    }
  }

  /** The blocks found on the lines after the header up to line `i`. */
  function BlocksUpTo(lines: seq<string>, i: nat): seq<BlockInfo>
    requires 1 <= i <= |lines|
    decreases i
  {
    if i == 1 then [] else BlocksUpTo(lines, i - 1) + Found(lines[i - 1])
  }

  lemma {:induction false} BlocksUpToRows(lines: seq<string>, i: nat, rows: seq<string>)
    requires 1 <= i <= |lines| && |rows| == i - 1
    requires forall k :: 0 <= k < |rows| ==> rows[k] == lines[k + 1]
    ensures BlocksUpTo(lines, i) == LineBlocks(rows)
    decreases i
  {
    if i > 1 {
      BlocksUpToRows(lines, i - 1, rows[..|rows| - 1]);
    }
  }

  /** One pass of `extractBlocks` over the lines after the header: the
      blocks not yet seen are appended in order of first appearance, and
      `seen` keeps the keys of every block so far. */
  method Pass(lines: seq<string>, ghost before: seq<BlockInfo>, seen0: set<string>, blocks0: seq<BlockInfo>)
    returns (seen: set<string>, blocks: seq<BlockInfo>)
    requires seen0 == KeySet(blocks0, BlockKey) && blocks0 == DedupBy(before, BlockKey)
    ensures seen == KeySet(blocks, BlockKey)
    ensures blocks == DedupBy(before + LineBlocks(if lines == [] then [] else lines[1..]), BlockKey)
  {
    if lines == [] {
      assert before + LineBlocks([]) == before;
      return seen0, blocks0;
    }
    seen, blocks := PassLines(lines, before, seen0, blocks0);
    BlocksUpToRows(lines, |lines|, lines[1..]);
  }

  /** The loop of a pass, over the lines after the header. */
  method PassLines(lines: seq<string>, ghost before: seq<BlockInfo>, seen0: set<string>, blocks0: seq<BlockInfo>)
    returns (seen: set<string>, blocks: seq<BlockInfo>)
    requires |lines| >= 1
    requires seen0 == KeySet(blocks0, BlockKey) && blocks0 == DedupBy(before, BlockKey)
    ensures seen == KeySet(blocks, BlockKey)
    ensures blocks == DedupBy(before + BlocksUpTo(lines, |lines|), BlockKey)
  {
    seen, blocks := seen0, blocks0;
    ghost var done := before;
    assert before + BlocksUpTo(lines, 1) == before;
    for i := 1 to |lines|
      invariant done == before + BlocksUpTo(lines, i)
      invariant seen == KeySet(blocks, BlockKey)
      invariant blocks == DedupBy(done, BlockKey)
    {
      seen, blocks := Visit(lines[i], done, seen, blocks);
      Associative(before, BlocksUpTo(lines, i), Found(lines[i]));
      done := done + Found(lines[i]);
    }
  }

  /** `extractBlocks`: two passes over the same lines sharing one `seen`
      set. The second pass adds nothing: the result is the block list of one
      pass, one block per distinct key, in order of first appearance. */
  method ExtractBlocks(lines: seq<string>) returns (blocks: seq<BlockInfo>)
    ensures blocks == DedupBy(LineBlocks(if lines == [] then [] else lines[1..]), BlockKey)
    ensures forall i, j :: 0 <= i < j < |blocks| ==> BlockKey(blocks[i]) != BlockKey(blocks[j])
    ensures forall b :: b in blocks ==> b in LineBlocks(if lines == [] then [] else lines[1..])
    ensures forall b :: b in LineBlocks(if lines == [] then [] else lines[1..]) ==> BlockKey(b) in KeySet(blocks, BlockKey)
  {
    var seen: set<string> := {};
    blocks := [];
    ghost var found := LineBlocks(if lines == [] then [] else lines[1..]);
    assert [] + found == found;
    seen, blocks := Pass(lines, [], seen, blocks);
    seen, blocks := Pass(lines, found, seen, blocks);
    DedupByTwice(found, BlockKey);
    assert forall b :: b in found ==> BlockKey(b) in KeySet(found, BlockKey);
  }

  // ------------------------------------------------------- school import

  /** A school row as it is written to the store. */
  datatype School = School(
    districtCode: int, district: string, blockCode: int, blockName: string, udise: int,
    name: string, management: string, category: string, schoolType: string)

  /** What the import makes of one line: a blank line is skipped silently; a
      rejected line is counted as an error; an accepted line yields a school. */
  datatype Row = Blank | Rejected | Accepted(school: School)

  /** `BigInt(s)` on trimmed text: decimal digits after an optional sign, or
      hexadecimal digits after `0x`/`0X`; anything else throws (`None`). */
  function BigIntOf(s: string): Option<int> {
    var (negative, u) := Unsigned(s);
    if IsDigits(u) then Some(if negative then -(DigitsValue(u) as int) else DigitsValue(u))
    else if |s| > 2 && s[0] == '0' && (s[1] == 'x' || s[1] == 'X') && forall i :: 2 <= i < |s| ==> IsHexDigit(s[i]) then
      Some(DigitRun(s[2..], true, 0).0)
    else None
  }

  /** `(v || "").replace(/"/g, "").trim()`. */
  function Clean(v: string): string {
    Trim(Unquoted(v))
  }

  /** The import's decision for one line: the line is trimmed; a blank line
      is skipped; fewer than 9 fields, a district or block code `parseInt`
      cannot read, an empty UDISE, or a UDISE `BigInt` refuses make it an
      error; otherwise the text fields are cleaned of quotes. */
  function RowOf(line: string): (r: Row)
    ensures r.Blank? <==> Trim(line) == ""
    ensures Trim(line) != "" ==>
              var f := Fields(Trim(line));
              (r.Rejected? <==> |f| < 9 || ParseInt(f[0]).None? || ParseInt(f[2]).None? || f[4] == "" || BigIntOf(f[4]).None?)
    ensures r.Accepted? ==>
              var f, x := Fields(Trim(line)), r.school;
              && |f| >= 9 && f[4] != ""
              && ParseInt(f[0]) == Some(x.districtCode) && ParseInt(f[2]) == Some(x.blockCode)
              && BigIntOf(f[4]) == Some(x.udise)
  {
    var t := Trim(line);
    if t == "" then Blank
    else
      var values := Fields(t);
      if |values| < 9 then Rejected
      else
        var districtCode, blockCode, udise := ParseInt(values[0]), ParseInt(values[2]), values[4];
        if districtCode.None? || blockCode.None? || udise == "" then Rejected
        else
          match BigIntOf(udise)
          case None => Rejected
          case Some(n) =>
            Accepted(School(districtCode.value, Clean(values[1]), blockCode.value, Clean(values[3]), n,
                            Clean(values[5]), Clean(values[6]), Clean(values[7]), Clean(values[8])))
  }

  /** The school of an accepted row; nothing for the others. */
  function RowSchools(row: Row): (r: seq<School>)
    ensures |r| == if row.Accepted? then 1 else 0
  {
    match row
    case Accepted(x) => [x]
    case _ => []
  }

  /** The schools of the accepted rows, in file order. */
  function ValidSchools(rows: seq<string>): (r: seq<School>)
    ensures |r| <= |rows|
  {
    if rows == [] then []
    else ValidSchools(rows[..|rows| - 1]) + RowSchools(RowOf(rows[|rows| - 1]))
  }

  /** The number of rejected rows. */
  function Errors(rows: seq<string>): nat {
    if rows == [] then 0
    else Errors(rows[..|rows| - 1]) + (if RowOf(rows[|rows| - 1]).Rejected? then 1 else 0)
  }

  /** The number of blank rows. */
  function Blanks(rows: seq<string>): nat {
    if rows == [] then 0
    else Blanks(rows[..|rows| - 1]) + (if RowOf(rows[|rows| - 1]).Blank? then 1 else 0)
  }

  /** Every row is exactly one of blank, an error, or a school. */
  lemma {:induction false} RowsPartition(rows: seq<string>)
    ensures |ValidSchools(rows)| + Errors(rows) + Blanks(rows) == |rows|
    decreases |rows|
  {
    if rows != [] {
      RowsPartition(rows[..|rows| - 1]);
    }
  }

  /** Text without quote characters is its own unquoted form. */
  lemma {:induction false} UnquotedNoQuote(s: string)
    requires '"' !in s
    ensures Unquoted(s) == s
    decreases |s|
  {
    if s != [] {
      assert '"' !in s[..|s| - 1] by {
        assert forall x :: x in s[..|s| - 1] ==> x in s;
      }
      UnquotedNoQuote(s[..|s| - 1]);
    }
  }

  /** Quotes were already dropped by the splitter and fields are trimmed, so
      the cleaning of an accepted row's text fields changes nothing: each is
      the field as split, and none holds a quote. */
  lemma AcceptedFields(line: string)
    requires RowOf(line).Accepted?
    ensures var x, values := RowOf(line).school, Fields(Trim(line));
            && x.district == values[1] && x.blockName == values[3] && x.name == values[5]
            && x.management == values[6] && x.category == values[7] && x.schoolType == values[8]
            && '"' !in x.district && '"' !in x.blockName && '"' !in x.name
  {
    var values := Fields(Trim(line));
    FieldsClean(Trim(line));
    forall k | 0 <= k < |values| ensures Clean(values[k]) == values[k] {
      UnquotedNoQuote(values[k]);
    }
  }

  lemma FlattenSnoc<T>(bs: seq<seq<T>>, b: seq<T>)
    ensures Flatten(bs + [b]) == Flatten(bs) + b
  {
    assert (bs + [b])[..|bs|] == bs;
  }

  /** Batches that are all full hold a hundred schools each. */
  lemma {:induction false} FullBatches<T>(bs: seq<seq<T>>)
    requires forall k :: 0 <= k < |bs| ==> |bs[k]| == 100
    ensures |Flatten(bs)| == 100 * |bs|
    decreases |bs|
  {
    if bs != [] {
      FullBatches(bs[..|bs| - 1]);
    }
  }

  /** Pushing one school onto the current batch, and writing the batch out
      once it holds 100. */
  method PushSchool(batches0: seq<seq<School>>, schools0: seq<School>, school: School)
    returns (batches: seq<seq<School>>, schools: seq<School>)
    requires |schools0| < 100 && forall k :: 0 <= k < |batches0| ==> |batches0[k]| == 100
    ensures Flatten(batches) + schools == Flatten(batches0) + schools0 + [school]
    ensures |schools| < 100 && forall k :: 0 <= k < |batches| ==> |batches[k]| == 100
  {
    batches, schools := batches0, schools0 + [school];
    if |schools| == 100 {
      FlattenSnoc(batches, schools);
      batches := batches + [schools];
      schools := [];
    }
  }

  /** Writing out the last, partial batch. */
  method FinalBatch(batches0: seq<seq<School>>, schools: seq<School>) returns (batches: seq<seq<School>>)
    requires |schools| < 100 && forall k :: 0 <= k < |batches0| ==> |batches0[k]| == 100
    ensures Flatten(batches) == Flatten(batches0) + schools
    ensures forall k :: 0 <= k < |batches| ==> 0 < |batches[k]| <= 100
    ensures forall k :: 0 <= k < |batches| - 1 ==> |batches[k]| == 100
    ensures |batches| == (|Flatten(batches0)| + |schools| + 99) / 100
  {
    FullBatches(batches0);
    var full := |batches0|;
    batches := batches0;
    if |schools| > 0 {
      FlattenSnoc(batches, schools);
      batches := batches + [schools];
      assert 100 * full + |schools| + 99 == 100 * (full + 1) + (|schools| - 1);
    } else {
      assert schools == [];
      assert 100 * full + |schools| + 99 == 100 * full + 99;
    }
  }

  /** Counting one row read from the file, and pushing its school if it has one. */
  method Tally(row: Row, ghost pushed: seq<School>, batches0: seq<seq<School>>, schools0: seq<School>,
               successCount0: nat, errorCount0: nat)
    returns (batches: seq<seq<School>>, schools: seq<School>, successCount: nat, errorCount: nat)
    requires Flatten(batches0) + schools0 == pushed
    requires |schools0| < 100 && forall k :: 0 <= k < |batches0| ==> |batches0[k]| == 100
    ensures Flatten(batches) + schools == pushed + RowSchools(row)
    ensures |schools| < 100 && forall k :: 0 <= k < |batches| ==> |batches[k]| == 100
    ensures successCount == successCount0 + |RowSchools(row)|
    ensures errorCount == errorCount0 + (if row.Rejected? then 1 else 0)
  {
    batches, schools, successCount, errorCount := batches0, schools0, successCount0, errorCount0;
    match row {
      case Blank =>
        assert schools0 + [] == schools0;
      case Rejected =>
        assert schools0 + [] == schools0;
        errorCount := errorCount + 1;
      case Accepted(school) =>
        batches, schools := PushSchool(batches, schools, school);
        successCount := successCount + 1;
    }
  }

  /** The loop body of the import for one line: the line's school, if it
      has one, is pushed after the ones before, and it is counted. */
  method ImportLine(line: string, ghost pushed: seq<School>, ghost errors: nat,
                    batches0: seq<seq<School>>, schools0: seq<School>, successCount0: nat, errorCount0: nat)
    returns (batches: seq<seq<School>>, schools: seq<School>, successCount: nat, errorCount: nat)
    requires Flatten(batches0) + schools0 == pushed
    requires |schools0| < 100 && forall k :: 0 <= k < |batches0| ==> |batches0[k]| == 100
    requires successCount0 == |pushed| && errorCount0 == errors
    ensures Flatten(batches) + schools == pushed + RowSchools(RowOf(line))
    ensures |schools| < 100 && forall k :: 0 <= k < |batches| ==> |batches[k]| == 100
    ensures successCount == |pushed + RowSchools(RowOf(line))|
    ensures errorCount == errors + (if RowOf(line).Rejected? then 1 else 0)
  {
    var row := RowOf(line);
    batches, schools, successCount, errorCount := Tally(row, pushed, batches0, schools0, successCount0, errorCount0);
  }

  /** The lines of the file after the header: the text is trimmed and split
      on line feeds. */
  function DataRows(content: string): seq<string> {
    SplitOn(Trim(content), '\n')[1..]
  }

  /** The school import of `main`: each accepted school is pushed onto the
      current batch, which is written out as soon as it holds 100 schools; a
      last, partial batch is written after the loop. Every accepted school
      lands in exactly one batch, in file order; every batch but the last is
      full; the counters are the number of schools and of errors. */
  method Import(content: string) returns (batches: seq<seq<School>>, successCount: nat, errorCount: nat)
    ensures Flatten(batches) == ValidSchools(DataRows(content))
    ensures forall k :: 0 <= k < |batches| ==> 0 < |batches[k]| <= 100
    ensures forall k :: 0 <= k < |batches| - 1 ==> |batches[k]| == 100
    ensures successCount == |ValidSchools(DataRows(content))| && errorCount == Errors(DataRows(content))
    ensures |batches| == (successCount + 99) / 100
  {
    var lines := SplitOn(Trim(content), '\n');
    var schools;
    batches, schools, successCount, errorCount := ReadLines(lines);
    batches := FinalBatch(batches, schools);
  }

  /** The schools of the lines after the header up to line `i`. */
  function SchoolsUpTo(lines: seq<string>, i: nat): seq<School>
    requires 1 <= i <= |lines|
    decreases i
  {
    if i == 1 then [] else SchoolsUpTo(lines, i - 1) + RowSchools(RowOf(lines[i - 1]))
  }

  /** The rejected lines after the header up to line `i`. */
  function ErrorsUpTo(lines: seq<string>, i: nat): nat
    requires 1 <= i <= |lines|
    decreases i
  {
    if i == 1 then 0 else ErrorsUpTo(lines, i - 1) + (if RowOf(lines[i - 1]).Rejected? then 1 else 0)
  }

  lemma {:induction false} UpToRows(lines: seq<string>, i: nat, rows: seq<string>)
    requires 1 <= i <= |lines| && |rows| == i - 1
    requires forall k :: 0 <= k < |rows| ==> rows[k] == lines[k + 1]
    ensures SchoolsUpTo(lines, i) == ValidSchools(rows)
    ensures ErrorsUpTo(lines, i) == Errors(rows)
    decreases i
  {
    if i > 1 {
      UpToRows(lines, i - 1, rows[..|rows| - 1]);
    }
  }

  /** The loop of the import over the lines of the file, header first: the
      full batches written so far and the current one hold the schools of the
      lines read, and the counters count them. */
  method ReadLines(lines: seq<string>) returns (batches: seq<seq<School>>, schools: seq<School>, successCount: nat, errorCount: nat)
    requires |lines| >= 1
    ensures Flatten(batches) + schools == ValidSchools(lines[1..])
    ensures |schools| < 100 && forall k :: 0 <= k < |batches| ==> |batches[k]| == 100
    ensures successCount == |ValidSchools(lines[1..])| && errorCount == Errors(lines[1..])
  {
    batches, schools, successCount, errorCount := ReadEach(lines);
    UpToRows(lines, |lines|, lines[1..]);
  }

  /** The loop itself. */
  method ReadEach(lines: seq<string>) returns (batches: seq<seq<School>>, schools: seq<School>, successCount: nat, errorCount: nat)
    requires |lines| >= 1
    ensures Flatten(batches) + schools == SchoolsUpTo(lines, |lines|)
    ensures |schools| < 100 && forall k :: 0 <= k < |batches| ==> |batches[k]| == 100
    ensures successCount == |SchoolsUpTo(lines, |lines|)| && errorCount == ErrorsUpTo(lines, |lines|)
  {
    batches, schools, successCount, errorCount := [], [], 0, 0;
    for i := 1 to |lines|
      invariant Flatten(batches) + schools == SchoolsUpTo(lines, i)
      invariant |schools| < 100
      invariant forall k :: 0 <= k < |batches| ==> |batches[k]| == 100
      invariant successCount == |SchoolsUpTo(lines, i)|
      invariant errorCount == ErrorsUpTo(lines, i)
    {
      batches, schools, successCount, errorCount :=
        ImportLine(lines[i], SchoolsUpTo(lines, i), ErrorsUpTo(lines, i), batches, schools, successCount, errorCount);
    }
  }
}

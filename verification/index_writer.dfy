/** Writing a record, and why reading it gives back what was written. */
module IndexWriter {
  import opened Bytes
  import opened Options
  import opened Sequences
  import opened StringTables
  import opened TokenLists
  import opened IndexFormat
  import opened IndexReader

  // ---------------------------------------------------------------- text too long for the table

  const DIGITS: seq<Byte> := [48, 49, 50, 51, 52, 53, 54, 55, 56, 57]

  function DecimalBytes(n: nat): seq<Byte> {
    if n < 10 then [DIGITS[n]] else DecimalBytes(n / 10) + [DIGITS[n % 10]]
  }

  // "...[truncated, " and " bytes total]" in ASCII.
  const TRUNCATED: seq<Byte> := [46, 46, 46, 91, 116, 114, 117, 110, 99, 97, 116, 101, 100, 44, 32]
  const TOTAL: seq<Byte> := [32, 98, 121, 116, 101, 115, 32, 116, 111, 116, 97, 108, 93]

  function Marker(n: nat): seq<Byte> {
    TRUNCATED + DecimalBytes(n) + TOTAL
  }

  // What is stored of a displayed text: all of it, or as much as leaves room for a mark that says how
  // much there was.
  function Projected(text: seq<Byte>): (r: seq<Byte>)
    ensures |r| <= MAX_STRING_LENGTH
    ensures |text| <= MAX_STRING_LENGTH ==> r == text
    ensures |text| > MAX_STRING_LENGTH ==> |r| == MAX_STRING_LENGTH
    ensures |text| > MAX_STRING_LENGTH && |Marker(|text|)| <= MAX_STRING_LENGTH ==>
      r == text[..MAX_STRING_LENGTH - |Marker(|text|)|] + Marker(|text|)
  {
    if |text| <= MAX_STRING_LENGTH then text
    else
      var marker := Marker(|text|);
      var kept := if |marker| < MAX_STRING_LENGTH then MAX_STRING_LENGTH - |marker| else 0;
      (text[..kept] + marker)[..MAX_STRING_LENGTH]
  }

  // ---------------------------------------------------------------- the image

  datatype Layout = Layout(
    header: Header, files: seq<RawFile>, commands: seq<RawCommand>, edges: seq<EdgeEntry>,
    records: seq<seq<Byte>>, table: seq<nat>, strings: seq<Byte>)

  function FileBytes(files: seq<RawFile>): (r: seq<seq<Byte>>)
    ensures |r| == |files| && forall i :: 0 <= i < |files| ==> r[i] == EncodeFile(files[i])
  {
    seq(|files|, i requires 0 <= i < |files| => EncodeFile(files[i]))
  }

  function CommandBytes(commands: seq<RawCommand>): (r: seq<seq<Byte>>)
    ensures |r| == |commands| && forall i :: 0 <= i < |commands| ==> r[i] == EncodeCommand(commands[i])
  {
    seq(|commands|, i requires 0 <= i < |commands| => EncodeCommand(commands[i]))
  }

  function EdgeBytes(edges: seq<EdgeEntry>): (r: seq<seq<Byte>>)
    ensures |r| == |edges| && forall i :: 0 <= i < |edges| ==> r[i] == EncodeEdge(edges[i])
  {
    seq(|edges|, i requires 0 <= i < |edges| => EncodeEdge(edges[i]))
  }

  function Content(l: Layout): seq<Byte> {
    EncodeHeader(l.header)
    + (Flat(FileBytes(l.files)) + (Flat(CommandBytes(l.commands)) + (Flat(EdgeBytes(l.edges))
       + (Words(l.table) + (Flat(l.records) + l.strings)))))
  }

  // Each section begins where the one before it ends.
  ghost predicate LaidOut(l: Layout) {
    && var h := l.header;
       && h.fileCount == |l.files| && h.commandCount == |l.commands| && h.edgeCount == |l.edges|
       && h.stringTableSize == |l.strings|
       && h.fileOffset == HEADER_SIZE
       && h.commandOffset == h.fileOffset + |Flat(FileBytes(l.files))|
       && h.edgeOffset == h.commandOffset + |Flat(CommandBytes(l.commands))|
       && h.tableOffset == h.edgeOffset + |Flat(EdgeBytes(l.edges))|
       && h.dataOffset == h.tableOffset + |Words(l.table)|
       && h.stringOffset == h.dataOffset + |Flat(l.records)|
       && h.stringOffset + h.stringTableSize + FOOTER_SIZE <= MAX_U32 && h.saveTime < Pow256(8)
  }

  ghost predicate Stores(strings: seq<Byte>, offset: nat, text: seq<Byte>) {
    offset <= MAX_U32 && ReadString(strings, 0, |strings|, offset) == Some(text)
  }

  ghost predicate FileStored(r: RawFile, f: FileEntry, strings: seq<Byte>) {
    && r == RawFile(f.parentId, f.srcId, r.nameOffset, f.fileType, f.flags, f.size, f.mtime, f.hash)
    && Stores(strings, r.nameOffset, f.name)
  }

  ghost predicate CommandStored(r: RawCommand, c: CommandEntry, strings: seq<Byte>) {
    && r == RawCommand(c.dirId, r.cmdOffset, r.displayOffset, r.envOffset, if c.mustRerun then 1 else 0, c.key,
                       c.signature)
    && Stores(strings, r.cmdOffset, Projected(c.instruction)) && Stores(strings, r.displayOffset, Projected(c.display))
    && Stores(strings, r.envOffset, c.env)
  }

  predicate Before(a: EdgeEntry, b: EdgeEntry) {
    a.from < b.from || (a.from == b.from && (a.to < b.to || (a.to == b.to && a.link <= b.link)))
  }

  predicate Sorted(edges: seq<EdgeEntry>) {
    forall i, j :: 0 <= i < j < |edges| ==> Before(edges[i], edges[j])
  }

  // The layout holds the index.
  ghost predicate Describes(l: Layout, idx: Index) {
    && LaidOut(l) && |l.files| == |idx.files| && |l.commands| == |idx.commands|
    && (forall i :: 0 <= i < |l.files| ==> FileStored(l.files[i], idx.files[i], l.strings))
    && (forall i :: 0 <= i < |l.commands| ==> CommandStored(l.commands[i], idx.commands[i], l.strings))
    && Sorted(l.edges) && multiset(l.edges) == multiset(idx.edges)
    && |l.records| == |l.table| == |l.commands|
    && forall i :: 0 <= i < |l.records| ==>
         l.records[i] == Words(OperandWords(idx.commands[i])) && l.table[i] == |Flat(l.records[..i])|
  }

  // ---------------------------------------------------------------- finding the sections again

  lemma SectionsAt(b: seq<Byte>, l: Layout)
    requires LaidOut(l) && At(b, 0, Content(l))
    ensures var h := l.header;
      && At(b, 0, EncodeHeader(h)) && At(b, h.fileOffset, Flat(FileBytes(l.files)))
      && At(b, h.commandOffset, Flat(CommandBytes(l.commands))) && At(b, h.edgeOffset, Flat(EdgeBytes(l.edges)))
      && At(b, h.tableOffset, Words(l.table)) && At(b, h.dataOffset, Flat(l.records)) &&
        At(b, h.stringOffset, l.strings)
  {
    hide At, Flat, Words, EncodeHeader, FileBytes, CommandBytes, EdgeBytes;
    var h := l.header;
    var t5 := Flat(l.records) + l.strings;
    var t4 := Words(l.table) + t5;
    var t3 := Flat(EdgeBytes(l.edges)) + t4;
    var t2 := Flat(CommandBytes(l.commands)) + t3;
    var t1 := Flat(FileBytes(l.files)) + t2;
    AtConcat(b, 0, EncodeHeader(h), t1);
    AtConcat(b, h.fileOffset, Flat(FileBytes(l.files)), t2);
    AtConcat(b, h.commandOffset, Flat(CommandBytes(l.commands)), t3);
    AtConcat(b, h.edgeOffset, Flat(EdgeBytes(l.edges)), t4);
    AtConcat(b, h.tableOffset, Words(l.table), t5);
    AtConcat(b, h.dataOffset, Flat(l.records), l.strings);
  }

  lemma ContentLength(l: Layout)
    requires LaidOut(l)
    ensures |Content(l)| == l.header.stringOffset + l.header.stringTableSize
  {
    hide Flat, Words, EncodeHeader;
  }

  lemma SectionSizes(l: Layout, idx: Index)
    requires Describes(l, idx) && Typed(idx)
    ensures |Flat(FileBytes(l.files))| == FILE_SIZE * |l.files| &&
      |Flat(CommandBytes(l.commands))| == COMMAND_SIZE * |l.commands|
    ensures |Flat(EdgeBytes(l.edges))| == EDGE_SIZE * |l.edges|
  {
    hide Flat, Words, Stores;
    assert forall i ::
      0 <= i < |l.files| ==> FileStored(l.files[i], idx.files[i], l.strings) && TypedFile(idx.files[i]);
    assert forall i :: 0 <= i < |l.commands| ==>
      CommandStored(l.commands[i], idx.commands[i], l.strings) && TypedCommand(idx.commands[i]);
    FlatLength(FileBytes(l.files), FILE_SIZE);
    FlatLength(CommandBytes(l.commands), COMMAND_SIZE);
    FlatLength(EdgeBytes(l.edges), EDGE_SIZE);
  }

  // The file: content and checksum.
  function ImageOf(l: Layout, checksum: Checksum): seq<Byte> {
    Content(l) + checksum(Content(l))
  }

  lemma HeaderHolds(l: Layout, idx: Index)
    requires Describes(l, idx) && Typed(idx)
    ensures FitsHeader(l.header) && LayoutFits(|Content(l)| + FOOTER_SIZE, l.header)
  {
    hide Content, Flat, FileStored, CommandStored, Sorted, FileBytes, CommandBytes, EdgeBytes, Typed;
    ContentLength(l);
    SectionSizes(l, idx);
  }

  lemma ImageOpens(l: Layout, idx: Index, checksum: Checksum)
    requires Describes(l, idx) && Typed(idx) && |checksum(Content(l))| == FOOTER_SIZE
    ensures Open(ImageOf(l, checksum), checksum) == Ok(l.header)
  {
    hide Content, At, EncodeHeader, ReadU32, DecodeHeader, Describes, Typed, LayoutFits, FitsHeader;
    var b, c := ImageOf(l, checksum), Content(l);
    HeaderHolds(l, idx);
    DescribesLaidOut(l, idx);
    AtWhole(b, c);
    SectionsAt(b, l);
    HeaderDecodes(b, l.header);
    HeaderFirst(b, l.header);
    assert b[..|b| - FOOTER_SIZE] == c && b[|b| - FOOTER_SIZE..] == checksum(c);
  }

  lemma DescribesLaidOut(l: Layout, idx: Index)
    requires Describes(l, idx)
    ensures LaidOut(l) && |Content(l)| == l.header.stringOffset + l.header.stringTableSize >= HEADER_SIZE
  {
    ContentLength(l);
  }

  lemma HeaderFirst(b: seq<Byte>, h: Header)
    requires At(b, 0, EncodeHeader(h))
    ensures |b| >= HEADER_SIZE
  {
  }

  lemma AtWhole(b: seq<Byte>, c: seq<Byte>)
    requires c <= b
    ensures At(b, 0, c)
  {
  }

  // ---------------------------------------------------------------- reading it back

  // What a reader needs besides the widths of the fields.
  predicate Recordable(idx: Index) {
    && Typed(idx)
    && (forall i :: 0 <= i < |idx.files| ==> NamesNodeType(idx.files[i].fileType) && idx.files[i].flags < FLAGS_LIMIT)
    && (forall i :: 0 <= i < |idx.edges| ==> NamesLinkType(idx.edges[i].link))
  }

  // What the record keeps of a command: texts too long for the table are cut.
  function Kept(c: CommandEntry): CommandEntry {
    c.(instruction := Projected(c.instruction), display := Projected(c.display))
  }

  ghost predicate Image(b: seq<Byte>, l: Layout) {
    LaidOut(l) && At(b, 0, Content(l)) && LayoutFits(|b|, l.header)
  }

  lemma StoredReads(b: seq<Byte>, l: Layout, offset: nat, text: seq<Byte>)
    requires Image(b, l) && Stores(l.strings, offset, text)
    ensures SemanticString(b, l.header, offset) == Some(text)
  {
    SectionsAt(b, l);
    hide At, Content, LayoutFits, ReadString;
    ReadElsewhere(b, l.header.stringOffset, l.strings, offset);
  }

  lemma DescribesFile(l: Layout, idx: Index, i: nat)
    requires Describes(l, idx) && i < |l.files|
    ensures i < |idx.files| && i < l.header.fileCount && FileStored(l.files[i], idx.files[i], l.strings)
  {
  }

  lemma FileFits(idx: Index, i: nat, r: RawFile, strings: seq<Byte>)
    requires Recordable(idx) && i < |idx.files| && FileStored(r, idx.files[i], strings)
    ensures FitsFile(r) && NamesNodeType(r.fileType) && r.flags < FLAGS_LIMIT
  {
    assert TypedFile(idx.files[i]);
  }

  lemma FileReads(b: seq<Byte>, l: Layout, idx: Index, i: nat)
    requires Image(b, l) && Describes(l, idx) && Recordable(idx) && i < |l.files|
    ensures i < l.header.fileCount && i < |idx.files| && ReadFile(b, l.header, i) == Ok(idx.files[i])
  {
    hide At, Content, Flat, Stores, LaidOut, SemanticString, LayoutFits, EncodeFile, DecodeFile, Describes, Typed,
      FitsFile, NamesNodeType;
    DescribesFile(l, idx, i);
    SectionsAt(b, l);
    FileWidths(l, idx);
    RecordAt(b, l.header.fileOffset, FileBytes(l.files), FILE_SIZE, i);
    FileFits(idx, i, l.files[i], l.strings);
    FileDecodes(b, l.header.fileOffset + FILE_SIZE * i, l.files[i]);
    StoredReads(b, l, l.files[i].nameOffset, idx.files[i].name);
  }

  lemma FileWidths(l: Layout, idx: Index)
    requires Describes(l, idx) && Typed(idx)
    ensures forall k :: 0 <= k < |l.files| ==> |FileBytes(l.files)[k]| == FILE_SIZE
    ensures forall k :: 0 <= k < |l.commands| ==> |CommandBytes(l.commands)[k]| == COMMAND_SIZE
    ensures l.header.fileCount == |l.files| && l.header.commandCount == |l.commands| && l.header.edgeCount == |l.edges|
  {
    hide Stores, Flat;
    assert forall i ::
      0 <= i < |l.files| ==> FileStored(l.files[i], idx.files[i], l.strings) && TypedFile(idx.files[i]);
    assert forall i :: 0 <= i < |l.commands| ==>
      CommandStored(l.commands[i], idx.commands[i], l.strings) && TypedCommand(idx.commands[i]);
  }

  lemma EdgeReads(b: seq<Byte>, l: Layout, idx: Index, i: nat)
    requires Image(b, l) && Describes(l, idx) && Recordable(idx) && i < |l.edges|
    ensures ReadEdge(b, l.header, i) == Ok(l.edges[i])
  {
    hide At, Content, Flat, LaidOut, FileStored, CommandStored, LayoutFits, EncodeEdge, DecodeEdge, Sorted;
    var e := l.edges[i];
    assert e in multiset(l.edges) && e in multiset(idx.edges) && e in idx.edges;
    SectionsAt(b, l);
    FileWidths(l, idx);
    RecordAt(b, l.header.edgeOffset, EdgeBytes(l.edges), EDGE_SIZE, i);
    EdgeDecodes(b, l.header.edgeOffset + EDGE_SIZE * i, e);
  }

  function HeadWords(c: CommandEntry): (r: seq<nat>)
    ensures |r| == HEAD_WORDS
  {
    [|c.inputs.ids|, |c.outputs.ids|, TokenCount(c.inputs), TokenCount(c.outputs), |c.orderOnly.ids|,
     TokenCount(c.orderOnly)]
  }

  lemma {:induction false} AllU32Concat(a: seq<nat>, b: seq<nat>)
    ensures AllU32(a + b) <==> AllU32(a) && AllU32(b)
  {
    var all := a + b;
    assert forall k :: 0 <= k < |a| ==> all[k] == a[k];
    assert forall k :: 0 <= k < |b| ==> all[|a| + k] == b[k];
  }

  // A run of words that begins with some words is read part by part.
  lemma WordsPart(b: seq<Byte>, at: nat, first: seq<nat>, rest: seq<nat>)
    requires At(b, at, Words(first + rest)) && AllU32(first + rest)
    ensures at + 4 * |first| <= |b| && ReadWords(b, at, |first|) == first
    ensures At(b, at + 4 * |first|, Words(rest)) && AllU32(first) && AllU32(rest)
  {
    hide At, Words, AllU32, ReadWords;
    AllU32Concat(first, rest);
    WordsConcat(first, rest);
    AtConcat(b, at, Words(first), Words(rest));
    WordsRead(b, at, first);
  }

  lemma HeadReads(b: seq<Byte>, at: nat, c: CommandEntry, rest: seq<nat>)
    requires At(b, at, Words(HeadWords(c) + rest)) && AllU32(HeadWords(c) + rest)
    ensures at + 24 <= |b| && ReadU32(b, at) == |c.inputs.ids| && ReadU32(b, at + 4) == |c.outputs.ids|
    ensures ReadU32(b, at + 8) == TokenCount(c.inputs) && ReadU32(b, at + 12) == TokenCount(c.outputs)
    ensures ReadU32(b, at + 16) == |c.orderOnly.ids| && ReadU32(b, at + 20) == TokenCount(c.orderOnly)
  {
    hide At, Words, AllU32, ReadU32;
    var ws := HeadWords(c) + rest;
    WordAt(b, at, ws, 0);
    WordAt(b, at, ws, 1);
    WordAt(b, at, ws, 2);
    WordAt(b, at, ws, 3);
    WordAt(b, at, ws, 4);
    WordAt(b, at, ws, 5);
  }

  // The lists of a record, read one after the other.
  lemma ListsRead(b: seq<Byte>, at: nat, c: CommandEntry)
    requires At(b, at, Words(OperandWords(c))) && AllU32(OperandWords(c))
    ensures var a1 := at + 24; var a2 := a1 + 4 * |c.inputs.ids|; var a3 := a2 + 4 * |c.outputs.ids|;
      var a4 := a3 + 4 * |c.orderOnly.ids|; var a5 := a4 + 4 * |c.inputs.starts|; var a6 := a5 + 4 * |c.outputs.starts|;
      && a6 + 4 * |c.orderOnly.starts| <= |b|
      && ReadWords(b, a1, |c.inputs.ids|) == c.inputs.ids && ReadWords(b, a2, |c.outputs.ids|) == c.outputs.ids
      && ReadWords(b, a3, |c.orderOnly.ids|) == c.orderOnly.ids &&
        ReadWords(b, a4, |c.inputs.starts|) == c.inputs.starts
      && ReadWords(b, a5, |c.outputs.starts|) == c.outputs.starts &&
        ReadWords(b, a6, |c.orderOnly.starts|) == c.orderOnly.starts
  {
    hide At, Words, AllU32, ReadWords;
    var t5 := c.outputs.starts + c.orderOnly.starts;
    var t4 := c.inputs.starts + t5;
    var t3 := c.orderOnly.ids + t4;
    var t2 := c.outputs.ids + t3;
    var t1 := c.inputs.ids + t2;
    var a1 := at + 24;
    var a2 := a1 + 4 * |c.inputs.ids|;
    var a3 := a2 + 4 * |c.outputs.ids|;
    var a4 := a3 + 4 * |c.orderOnly.ids|;
    var a5 := a4 + 4 * |c.inputs.starts|;
    assert OperandWords(c) == HeadWords(c) + t1;
    WordsPart(b, at, HeadWords(c), t1);
    WordsPart(b, a1, c.inputs.ids, t2);
    WordsPart(b, a2, c.outputs.ids, t3);
    WordsPart(b, a3, c.orderOnly.ids, t4);
    WordsPart(b, a4, c.inputs.starts, t5);
    WordsPart(b, a5, c.outputs.starts, c.orderOnly.starts);
    WordsRead(b, a5 + 4 * |c.outputs.starts|, c.orderOnly.starts);
  }

  lemma DescribesRecord(l: Layout, idx: Index, i: nat)
    requires Describes(l, idx) && i < |l.commands|
    ensures i < |idx.commands| && i < |l.records| && i < |l.table| && l.header.commandCount == |l.commands|
    ensures l.records[i] == Words(OperandWords(idx.commands[i])) && l.table[i] == |Flat(l.records[..i])|
  {
  }

  lemma RecordInside(b: seq<Byte>, l: Layout, idx: Index, i: nat)
    requires Image(b, l) && Describes(l, idx) && i < |l.commands|
    ensures i < |l.records| && i < |l.table|
    ensures At(b, l.header.dataOffset + l.table[i], l.records[i])
    ensures l.header.dataOffset + l.table[i] + |l.records[i]| <= l.header.stringOffset <= MAX_U32
  {
    hide At, Content, Flat, Words, Describes, LayoutFits, OperandWords;
    DescribesRecord(l, idx, i);
    SectionsAt(b, l);
    PartAt(b, l.header.dataOffset, l.records, i);
  }

  lemma TableReads(b: seq<Byte>, l: Layout, idx: Index, i: nat)
    requires Image(b, l) && Describes(l, idx) && i < |l.commands|
    ensures i < |l.table| && l.header.tableOffset + 4 * i + 4 <= |b| &&
      ReadU32(b, l.header.tableOffset + 4 * i) == l.table[i]
  {
    hide At, Content, Flat, Words, Describes, LayoutFits, OperandWords, ReadU32;
    DescribesRecord(l, idx, i);
    TableLength(l, idx);
    SectionsAt(b, l);
    forall k | 0 <= k < |l.table| ensures l.table[k] < U32_LIMIT {
      RecordInside(b, l, idx, k);
    }
    WordAt(b, l.header.tableOffset, l.table, i);
  }

  lemma TableLength(l: Layout, idx: Index)
    requires Describes(l, idx)
    ensures |l.table| == |l.commands|
  {
  }

  // Where the record of a command is, and that it ends before the strings.
  lemma RecordFound(b: seq<Byte>, l: Layout, idx: Index, i: nat)
    requires Image(b, l) && Describes(l, idx) && Typed(idx) && i < |l.commands|
    ensures i < |idx.commands| && i < l.header.commandCount && l.header.tableOffset + 4 * i + 4 <= |b|
    ensures var h := l.header; var ws := OperandWords(idx.commands[i]);
      var at := h.dataOffset + ReadU32(b, h.tableOffset + 4 * i);
      At(b, at, Words(ws)) && AllU32(ws) && at + 4 * |ws| <= h.stringOffset
  {
    hide At, Content, Flat, Words, Describes, LayoutFits, OperandWords, ReadU32, LaidOut, Typed, TypedCommand, AllU32,
      Image;
    DescribesRecord(l, idx, i);
    CommandTyped(l, idx, i);
    RecordInside(b, l, idx, i);
    TableReads(b, l, idx, i);
    OperandsSmall(idx.commands[i]);
  }

  lemma OperandsSmall(c: CommandEntry)
    requires TypedCommand(c) && 4 * |OperandWords(c)| < U32_LIMIT
    ensures AllU32(OperandWords(c))
  {
    StartsSmall(c.inputs);
    StartsSmall(c.outputs);
    StartsSmall(c.orderOnly);
    var t5 := c.outputs.starts + c.orderOnly.starts;
    var t4 := c.inputs.starts + t5;
    var t3 := c.orderOnly.ids + t4;
    var t2 := c.outputs.ids + t3;
    var t1 := c.inputs.ids + t2;
    assert |OperandWords(c)| == HEAD_WORDS + |c.inputs.ids| + |c.outputs.ids| + |c.orderOnly.ids|
                                + |c.inputs.starts| + |c.outputs.starts| + |c.orderOnly.starts|;
    assert OperandWords(c) == HeadWords(c) + t1;
    hide OperandWords;
    AllU32Concat(c.outputs.starts, c.orderOnly.starts);
    AllU32Concat(c.inputs.starts, t5);
    AllU32Concat(c.orderOnly.ids, t4);
    AllU32Concat(c.outputs.ids, t3);
    AllU32Concat(c.inputs.ids, t2);
    AllU32Concat(HeadWords(c), t1);
  }

  lemma StartsSmall(l: TokenList)
    requires Grouping(l) && |l.ids| < U32_LIMIT
    ensures AllU32(l.starts)
  {
    forall i | 0 <= i < |l.starts| ensures l.starts[i] < U32_LIMIT {
      assert l.starts[i] <= l.starts[|l.starts| - 1];
    }
  }

  lemma OperandsRead(b: seq<Byte>, l: Layout, idx: Index, i: nat)
    requires Image(b, l) && Describes(l, idx) && Typed(idx) && i < |l.commands|
    ensures i < l.header.commandCount && i < |idx.commands|
    ensures var c := idx.commands[i]; ReadOperands(b, l.header, i) == Ok(Operands(c.inputs, c.orderOnly, c.outputs))
  {
    hide At, Content, Flat, Words, Describes, LaidOut, Typed, LayoutFits, ReadU32, ReadWords, AllU32, ReadOperands,
      OperandWords, TypedCommand;
    RecordFound(b, l, idx, i);
    CommandTyped(l, idx, i);
    var c, h := idx.commands[i], l.header;
    var at := h.dataOffset + ReadU32(b, h.tableOffset + 4 * i);
    OperandsDecode(b, h, i, at, c);
  }

  lemma CommandTyped(l: Layout, idx: Index, i: nat)
    requires Describes(l, idx) && Typed(idx) && i < |l.commands|
    ensures i < |idx.commands| && TypedCommand(idx.commands[i])
  {
  }

  lemma OperandsDecode(b: seq<Byte>, h: Header, i: nat, at: nat, c: CommandEntry)
    requires IsOpen(b, h) && i < h.commandCount && at == h.dataOffset + ReadU32(b, h.tableOffset + 4 * i)
    requires At(b, at, Words(OperandWords(c))) && AllU32(OperandWords(c)) &&
      at + 4 * |OperandWords(c)| <= h.stringOffset
    requires TypedCommand(c)
    ensures ReadOperands(b, h, i) == Ok(Operands(c.inputs, c.orderOnly, c.outputs))
  {
    hide At, Words, ReadU32, ReadWords, AllU32, LayoutFits;
    var rest := c.inputs.ids +
      (c.outputs.ids + (c.orderOnly.ids + (c.inputs.starts + (c.outputs.starts + c.orderOnly.starts))));
    assert OperandWords(c) == HeadWords(c) + rest;
    HeadReads(b, at, c, rest);
    ListsRead(b, at, c);
    assert |OperandWords(c)| == HEAD_WORDS + |c.inputs.ids| + |c.outputs.ids| + |c.orderOnly.ids|
                                + |c.inputs.starts| + |c.outputs.starts| + |c.orderOnly.starts|;
  }

  lemma DescribesCommand(l: Layout, idx: Index, i: nat)
    requires Describes(l, idx) && i < |l.commands|
    ensures i < |idx.commands| && i < l.header.commandCount && CommandStored(l.commands[i], idx.commands[i], l.strings)
  {
  }

  lemma CommandFits(r: RawCommand, c: CommandEntry, strings: seq<Byte>)
    requires CommandStored(r, c, strings) && TypedCommand(c)
    ensures FitsCommand(r)
  {
  }

  lemma CommandDecoded(b: seq<Byte>, l: Layout, idx: Index, i: nat)
    requires Image(b, l) && Describes(l, idx) && Typed(idx) && i < |l.commands|
    ensures var at := l.header.commandOffset + COMMAND_SIZE * i;
      at + COMMAND_SIZE <= |b| && DecodeCommand(b, at) == l.commands[i]
  {
    hide At, Content, Flat, CommandStored, TypedCommand, LaidOut, LayoutFits, EncodeCommand, DecodeCommand, Describes,
      Typed, FitsCommand;
    SectionsAt(b, l);
    FileWidths(l, idx);
    RecordAt(b, l.header.commandOffset, CommandBytes(l.commands), COMMAND_SIZE, i);
    DescribesCommand(l, idx, i);
    CommandTyped(l, idx, i);
    CommandFits(l.commands[i], idx.commands[i], l.strings);
    CommandDecodes(b, l.header.commandOffset + COMMAND_SIZE * i, l.commands[i]);
  }

  lemma CommandReads(b: seq<Byte>, l: Layout, idx: Index, i: nat)
    requires Image(b, l) && Describes(l, idx) && Recordable(idx) && i < |l.commands|
    ensures i < l.header.commandCount && i < |idx.commands| && ReadCommand(b, l.header, i) == Ok(Kept(idx.commands[i]))
  {
    hide At, Content, Flat, Stores, LaidOut, SemanticString, LayoutFits, DecodeCommand, ReadOperands, Describes, Typed,
      Projected;
    DescribesCommand(l, idx, i);
    CommandDecoded(b, l, idx, i);
    OperandsRead(b, l, idx, i);
    var r, c := l.commands[i], idx.commands[i];
    StoredReads(b, l, r.cmdOffset, Projected(c.instruction));
    StoredReads(b, l, r.displayOffset, Projected(c.display));
    StoredReads(b, l, r.envOffset, c.env);
  }

  // Reading a written record gives the files, the commands and the edges back: the edges in order,
  // every displayed text as far as it fits.
  lemma WrittenReads(l: Layout, idx: Index, checksum: Checksum)
    requires Describes(l, idx) && Recordable(idx) && |checksum(Content(l))| == FOOTER_SIZE
    ensures var b := ImageOf(l, checksum);
      && Open(b, checksum) == Ok(l.header) && IsOpen(b, l.header)
      && ReadsAs(b, l.header,
                 Index(idx.files, seq(|idx.commands|, i requires 0 <= i < |idx.commands| => Kept(idx.commands[i])),
                       l.edges))
  {
    hide Content, At, Describes, Recordable, LayoutFits, ReadFile, ReadCommand, ReadEdge, Open, LaidOut, Kept, ImageOf;
    var b := ImageOf(l, checksum);
    RecordableTyped(idx);
    IsImage(l, idx, checksum);
    DescribesSizes(l, idx);
    forall i | 0 <= i < |l.files| ensures ReadFile(b, l.header, i) == Ok(idx.files[i]) {
      FileReads(b, l, idx, i);
    }
    forall i | 0 <= i < |l.commands| ensures ReadCommand(b, l.header, i) == Ok(Kept(idx.commands[i])) {
      CommandReads(b, l, idx, i);
    }
    forall i | 0 <= i < |l.edges| ensures ReadEdge(b, l.header, i) == Ok(l.edges[i]) {
      EdgeReads(b, l, idx, i);
    }
  }

  lemma RecordableTyped(idx: Index)
    requires Recordable(idx)
    ensures Typed(idx)
  {
  }

  lemma IsImage(l: Layout, idx: Index, checksum: Checksum)
    requires Describes(l, idx) && Typed(idx) && |checksum(Content(l))| == FOOTER_SIZE
    ensures var b := ImageOf(l, checksum); Open(b, checksum) == Ok(l.header) && Image(b, l)
  {
    hide Content, At, Describes, Typed, LayoutFits, Open, LaidOut;
    var b := ImageOf(l, checksum);
    ImageOpens(l, idx, checksum);
    OpenFits(b, checksum);
    DescribesLaidOut(l, idx);
    AtWhole(b, Content(l));
  }

  lemma OpenFits(b: seq<Byte>, checksum: Checksum)
    requires Open(b, checksum).Ok?
    ensures LayoutFits(|b|, Open(b, checksum).value)
  {
  }

  lemma DescribesSizes(l: Layout, idx: Index)
    requires Describes(l, idx)
    ensures |l.files| == |idx.files| && |l.commands| == |idx.commands|
    ensures l.header.fileCount == |l.files| && l.header.commandCount == |l.commands| && l.header.edgeCount == |l.edges|
  {
  }

  // Nothing is cut exactly when both texts fit.
  lemma KeptIff(c: CommandEntry)
    ensures Kept(c) == c <==> |c.instruction| <= MAX_STRING_LENGTH && |c.display| <= MAX_STRING_LENGTH
  {
  }

  // Whatever a reader makes of a written record is the index that was written, its edges in order,
  // exactly when no text of a command is too long.
  lemma WrittenReadsBack(l: Layout, idx: Index, checksum: Checksum, back: Index)
    requires Describes(l, idx) && Recordable(idx) && |checksum(Content(l))| == FOOTER_SIZE
    requires Loads(ImageOf(l, checksum), checksum, back)
    ensures back.files == idx.files && Sorted(back.edges) && multiset(back.edges) == multiset(idx.edges)
    ensures back.commands == idx.commands <==>
      forall i :: 0 <= i < |idx.commands| ==>
        |idx.commands[i].instruction| <= MAX_STRING_LENGTH && |idx.commands[i].display| <= MAX_STRING_LENGTH
  {
    hide Content, LaidOut, ImageOf, Open, LayoutFits, Recordable, ReadsAs, FileStored, CommandStored, Words, Flat,
      OperandWords, Kept, Projected;
    WrittenReads(l, idx, checksum);
    OpenIff(ImageOf(l, checksum), checksum);
    var kept := seq(|idx.commands|, i requires 0 <= i < |idx.commands| => Kept(idx.commands[i]));
    ReadsAsOne(ImageOf(l, checksum), l.header, back, Index(idx.files, kept, l.edges));
    forall i | 0 <= i < |idx.commands| ensures kept[i] == idx.commands[i] <==>
      |idx.commands[i].instruction| <= MAX_STRING_LENGTH && |idx.commands[i].display| <= MAX_STRING_LENGTH
    {
      KeptIff(idx.commands[i]);
    }
  }

  // ---------------------------------------------------------------- whatever is read

  lemma {:induction false} UnLEBound(b: seq<Byte>)
    ensures UnLE(b) < Pow256(|b|)
    decreases |b|
  {
    if b != [] { UnLEBound(b[1..]); }
  }

  lemma ReadLEBound(b: seq<Byte>, at: nat, k: nat)
    requires at + k <= |b|
    ensures ReadLE(b, at, k) < Pow256(k)
  {
    UnLEBound(b[at..at + k]);
  }

  lemma ReadU32Bound(b: seq<Byte>, at: nat)
    requires at + 4 <= |b|
    ensures ReadU32(b, at) < U32_LIMIT
  {
    hide ReadLE;
    ReadLEBound(b, at, 4);
    U32Limit();
  }

  lemma {:induction false} ReadWordsBound(b: seq<Byte>, at: nat, count: nat)
    requires at + 4 * count <= |b|
    ensures AllU32(ReadWords(b, at, count))
    decreases count
  {
    hide ReadU32;
    if count > 0 {
      ReadU32Bound(b, at);
      ReadWordsBound(b, at + 4, count - 1);
    }
  }

  lemma FileReadTyped(b: seq<Byte>, h: Header, i: nat)
    requires IsOpen(b, h) && i < h.fileCount && ReadFile(b, h, i).Ok?
    ensures var f := ReadFile(b, h, i).value; TypedFile(f) && NamesNodeType(f.fileType) && f.flags < FLAGS_LIMIT
  {
    hide ReadLE, Pow256, SemanticString;
    var at := h.fileOffset + FILE_SIZE * i;
    ReadU32Bound(b, at);
    ReadU32Bound(b, at + 4);
    ReadLEBound(b, at + 12, 1);
    ReadLEBound(b, at + 13, 2);
    ReadLEBound(b, at + 16, 8);
    ReadLEBound(b, at + 24, 8);
    SmallPowers();
  }

  lemma SmallPowers()
    ensures Pow256(1) == 256 && Pow256(2) == 65536
  {
  }

  lemma CommandReadTyped(b: seq<Byte>, h: Header, i: nat)
    requires IsOpen(b, h) && i < h.commandCount && ReadCommand(b, h, i).Ok?
    ensures TypedCommand(ReadCommand(b, h, i).value)
  {
    hide ReadLE, SemanticString, DisplayString, Grouping, AllU32, ReadU32, ReadWords;
    var at := h.commandOffset + COMMAND_SIZE * i;
    ReadU32Bound(b, at);
    OperandsReadTyped(b, h, i);
    hide ReadOperands;
  }

  lemma OperandsReadTyped(b: seq<Byte>, h: Header, i: nat)
    requires IsOpen(b, h) && i < h.commandCount && ReadOperands(b, h, i).Ok?
    ensures var o := ReadOperands(b, h, i).value;
            TypedOperands(o.inputs) && TypedOperands(o.orderOnly) && TypedOperands(o.outputs)
  {
    hide ReadU32, ReadWords, Grouping, AllU32;
    forall at: nat, count: nat | at + 4 * count <= |b| ensures AllU32(ReadWords(b, at, count)) {
      ReadWordsBound(b, at, count);
    }
  }

  lemma EdgeReadTyped(b: seq<Byte>, h: Header, i: nat)
    requires IsOpen(b, h) && i < h.edgeCount && ReadEdge(b, h, i).Ok?
    ensures var e := ReadEdge(b, h, i).value; TypedEdge(e) && NamesLinkType(e.link)
  {
    hide ReadLE;
    var at := h.edgeOffset + EDGE_SIZE * i;
    ReadU32Bound(b, at);
    ReadU32Bound(b, at + 4);
    hide ReadU32;
  }

  // Whatever loads could be saved again, its size aside: every number fits its field, every type is
  // known, every operand belongs to a token.
  lemma LoadedIsRecordable(b: seq<Byte>, checksum: Checksum, idx: Index)
    requires Loads(b, checksum, idx)
    ensures Recordable(idx)
  {
    hide ReadFile, ReadCommand, ReadEdge, LayoutFits, SectionsEnd;
    var h := DecodeHeader(b);
    hide DecodeHeader;
    forall i | 0 <= i < |idx.files|
      ensures TypedFile(idx.files[i]) && NamesNodeType(idx.files[i].fileType) && idx.files[i].flags < FLAGS_LIMIT
    {
      assert ReadFile(b, h, i) == Ok(idx.files[i]);
      FileReadTyped(b, h, i);
    }
    forall i | 0 <= i < |idx.commands| ensures TypedCommand(idx.commands[i]) {
      assert ReadCommand(b, h, i) == Ok(idx.commands[i]);
      CommandReadTyped(b, h, i);
    }
    forall i | 0 <= i < |idx.edges| ensures TypedEdge(idx.edges[i]) && NamesLinkType(idx.edges[i].link) {
      assert ReadEdge(b, h, i) == Ok(idx.edges[i]);
      EdgeReadTyped(b, h, i);
    }
  }
}

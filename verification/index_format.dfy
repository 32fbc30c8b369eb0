/**
 The bytes of a saved record: a header, fixed-size entries for files, commands and edges, the operands
 of each command in a record as long as they need, the strings, and a checksum.
 */
module IndexFormat {
  import opened Bytes
  import opened Options
  import opened Sequences
  import opened StringTables
  import opened TokenLists

  // ---------------------------------------------------------------- what is saved

  datatype FileEntry = FileEntry(
    parentId: nat, srcId: nat, fileType: nat, flags: nat, name: seq<Byte>, size: nat, mtime: nat, hash: seq<Byte>)

  datatype CommandEntry = CommandEntry(
    dirId: nat, instruction: seq<Byte>, display: seq<Byte>, env: seq<Byte>, key: seq<Byte>, signature: seq<Byte>,
    mustRerun: bool, inputs: TokenList, orderOnly: TokenList, outputs: TokenList)

  datatype EdgeEntry = EdgeEntry(from: nat, to: nat, link: nat)

  datatype Index = Index(files: seq<FileEntry>, commands: seq<CommandEntry>, edges: seq<EdgeEntry>)

  const HASH_SIZE := 32

  // The widths of the fields.
  predicate TypedFile(f: FileEntry) {
    && f.parentId < U32_LIMIT && f.srcId < U32_LIMIT && f.fileType < 256 && f.flags < 65536
    && f.size < Pow256(8) && f.mtime < Pow256(8) && |f.hash| == HASH_SIZE
  }

  predicate TypedOperands(l: TokenList) {
    Grouping(l) && AllU32(l.ids)
  }

  predicate TypedCommand(c: CommandEntry) {
    && c.dirId < U32_LIMIT && |c.key| == HASH_SIZE && |c.signature| == HASH_SIZE
    && TypedOperands(c.inputs) && TypedOperands(c.orderOnly) && TypedOperands(c.outputs)
  }

  predicate TypedEdge(e: EdgeEntry) {
    e.from < U32_LIMIT && e.to < U32_LIMIT && e.link < 256
  }

  predicate Typed(idx: Index) {
    && (forall i :: 0 <= i < |idx.files| ==> TypedFile(idx.files[i]))
    && (forall i :: 0 <= i < |idx.commands| ==> TypedCommand(idx.commands[i]))
    && forall i :: 0 <= i < |idx.edges| ==> TypedEdge(idx.edges[i])
  }

  // The values a reader knows.
  predicate NamesNodeType(t: nat) {
    t == 0 || 2 <= t <= 8
  }

  predicate NamesLinkType(t: nat) {
    1 <= t <= 5
  }

  const FLAGS_LIMIT := 64

  // ---------------------------------------------------------------- entries

  datatype RawFile = RawFile(
    parentId: nat, srcId: nat, nameOffset: nat, fileType: nat, flags: nat, size: nat, mtime: nat, hash: seq<Byte>)

  const FILE_SIZE := 64

  predicate FitsFile(r: RawFile) {
    && AllU32([r.parentId, r.srcId, r.nameOffset]) && r.fileType < 256 && r.flags < 65536
    && r.size < Pow256(8) && r.mtime < Pow256(8) && |r.hash| == HASH_SIZE
  }

  function EncodeFile(r: RawFile): (b: seq<Byte>)
    ensures |b| == 32 + |r.hash|
  {
    Words([r.parentId, r.srcId, r.nameOffset])
    + (LE(r.fileType, 1) + (LE(r.flags, 2) + ([0] + (LE(r.size, 8) + (LE(r.mtime, 8) + r.hash)))))
  }

  function DecodeFile(b: seq<Byte>, at: nat): RawFile
    requires at + FILE_SIZE <= |b|
  {
    RawFile(ReadU32(b, at), ReadU32(b, at + 4), ReadU32(b, at + 8), ReadLE(b, at + 12, 1), ReadLE(b, at + 13, 2),
            ReadLE(b, at + 16, 8), ReadLE(b, at + 24, 8), b[at + 32..at + 64])
  }

  lemma FileDecodes(b: seq<Byte>, at: nat, r: RawFile)
    requires At(b, at, EncodeFile(r)) && FitsFile(r)
    ensures at + FILE_SIZE <= |b| && DecodeFile(b, at) == r
  {
    hide At, LE, Words, UnLE, Pow256;
    var ws := [r.parentId, r.srcId, r.nameOffset];
    var tail5 := LE(r.mtime, 8) + r.hash;
    var tail4 := LE(r.size, 8) + tail5;
    var tail3 := [0] + tail4;
    var tail2 := LE(r.flags, 2) + tail3;
    var tail1 := LE(r.fileType, 1) + tail2;
    AtLength(b, at, EncodeFile(r));
    AtConcat(b, at, Words(ws), tail1);
    AtConcat(b, at + 12, LE(r.fileType, 1), tail2);
    AtConcat(b, at + 13, LE(r.flags, 2), tail3);
    AtConcat(b, at + 15, [0], tail4);
    AtConcat(b, at + 16, LE(r.size, 8), tail5);
    AtConcat(b, at + 24, LE(r.mtime, 8), r.hash);
    WordAt(b, at, ws, 0);
    WordAt(b, at, ws, 1);
    WordAt(b, at, ws, 2);
    U32Limit();
    ReadAt(b, at + 12, r.fileType, 1);
    ReadAt(b, at + 13, r.flags, 2);
    ReadAt(b, at + 16, r.size, 8);
    ReadAt(b, at + 24, r.mtime, 8);
    SliceAt(b, at + 32, r.hash);
  }

  lemma SliceAt(b: seq<Byte>, at: nat, part: seq<Byte>)
    requires At(b, at, part)
    ensures at + |part| <= |b| && b[at..at + |part|] == part
  {
  }

  datatype RawCommand = RawCommand(
    dirId: nat, cmdOffset: nat, displayOffset: nat, envOffset: nat, flags: nat, key: seq<Byte>, signature: seq<Byte>)

  const COMMAND_SIZE := 88

  predicate FitsCommand(r: RawCommand) {
    AllU32([r.dirId, r.cmdOffset, r.displayOffset, r.envOffset, r.flags, 0]) && |r.key| == HASH_SIZE &&
      |r.signature| == HASH_SIZE
  }

  function EncodeCommand(r: RawCommand): (b: seq<Byte>)
    ensures |b| == 24 + |r.key| + |r.signature|
  {
    Words([r.dirId, r.cmdOffset, r.displayOffset, r.envOffset, r.flags, 0]) + (r.key + r.signature)
  }

  function DecodeCommand(b: seq<Byte>, at: nat): RawCommand
    requires at + COMMAND_SIZE <= |b|
  {
    RawCommand(ReadU32(b, at), ReadU32(b, at + 4), ReadU32(b, at + 8), ReadU32(b, at + 12), ReadU32(b, at + 16),
               b[at + 24..at + 56], b[at + 56..at + 88])
  }

  lemma CommandDecodes(b: seq<Byte>, at: nat, r: RawCommand)
    requires At(b, at, EncodeCommand(r)) && FitsCommand(r)
    ensures at + COMMAND_SIZE <= |b| && DecodeCommand(b, at) == r
  {
    hide At, LE, Words, UnLE, Pow256;
    var ws := [r.dirId, r.cmdOffset, r.displayOffset, r.envOffset, r.flags, 0];
    AtLength(b, at, EncodeCommand(r));
    AtConcat(b, at, Words(ws), r.key + r.signature);
    AtConcat(b, at + 24, r.key, r.signature);
    WordAt(b, at, ws, 0);
    WordAt(b, at, ws, 1);
    WordAt(b, at, ws, 2);
    WordAt(b, at, ws, 3);
    WordAt(b, at, ws, 4);
    SliceAt(b, at + 24, r.key);
    SliceAt(b, at + 56, r.signature);
  }

  const EDGE_SIZE := 16

  function EncodeEdge(e: EdgeEntry): (b: seq<Byte>)
    ensures |b| == EDGE_SIZE
  {
    Words([e.from, e.to]) + (LE(e.link, 1) + [0, 0, 0, 0, 0, 0, 0])
  }

  function DecodeEdge(b: seq<Byte>, at: nat): EdgeEntry
    requires at + EDGE_SIZE <= |b|
  {
    EdgeEntry(ReadU32(b, at), ReadU32(b, at + 4), ReadLE(b, at + 8, 1))
  }

  lemma EdgeDecodes(b: seq<Byte>, at: nat, e: EdgeEntry)
    requires At(b, at, EncodeEdge(e)) && TypedEdge(e)
    ensures at + EDGE_SIZE <= |b| && DecodeEdge(b, at) == e
  {
    hide At, LE, Words, UnLE, Pow256;
    var zeros: seq<Byte> := [0, 0, 0, 0, 0, 0, 0];
    AtLength(b, at, EncodeEdge(e));
    AtConcat(b, at, Words([e.from, e.to]), LE(e.link, 1) + zeros);
    AtConcat(b, at + 8, LE(e.link, 1), zeros);
    WordAt(b, at, [e.from, e.to], 0);
    WordAt(b, at, [e.from, e.to], 1);
    U32Limit();
    ReadAt(b, at + 8, e.link, 1);
  }

  // ---------------------------------------------------------------- operands

  const HEAD_WORDS := 6

  function OperandWords(c: CommandEntry): seq<nat> {
    [|c.inputs.ids|, |c.outputs.ids|, TokenCount(c.inputs), TokenCount(c.outputs), |c.orderOnly.ids|,
     TokenCount(c.orderOnly)]
    + (c.inputs.ids + (c.outputs.ids + (c.orderOnly.ids + (c.inputs.starts + (c.outputs.starts + c.orderOnly.starts)))))
  }

  datatype Operands = Operands(inputs: TokenList, orderOnly: TokenList, outputs: TokenList)

  // Consecutive words.
  function ReadWords(b: seq<Byte>, at: nat, count: nat): (ws: seq<nat>)
    requires at + 4 * count <= |b|
    ensures |ws| == count
    decreases count
  {
    if count == 0 then [] else [ReadU32(b, at)] + ReadWords(b, at + 4, count - 1)
  }

  lemma {:induction false} WordsRead(b: seq<Byte>, at: nat, ws: seq<nat>)
    requires At(b, at, Words(ws)) && AllU32(ws)
    ensures at + 4 * |ws| <= |b| && ReadWords(b, at, |ws|) == ws
    decreases |ws|
  {
    if ws != [] {
      WordAt(b, at, ws, 0);
      AtConcat(b, at, LE(ws[0], 4), Words(ws[1..]));
      WordsRead(b, at + 4, ws[1..]);
    }
  }

  // ---------------------------------------------------------------- the header

  datatype Header = Header(
    fileCount: nat, commandCount: nat, edgeCount: nat, stringTableSize: nat, fileOffset: nat, commandOffset: nat,
    edgeOffset: nat, tableOffset: nat, dataOffset: nat, stringOffset: nat, saveTime: nat)

  const MAGIC: seq<Byte> := [80, 85, 80, 73]
  const VERSION := 28
  const HEADER_SIZE := 56
  const FOOTER_SIZE := 32

  function HeaderWords(h: Header): seq<nat> {
    [VERSION, h.fileCount, h.commandCount, h.edgeCount, h.stringTableSize, h.fileOffset, h.commandOffset,
     h.edgeOffset, h.tableOffset, h.dataOffset, h.stringOffset]
  }

  predicate FitsHeader(h: Header) {
    AllU32(HeaderWords(h)) && h.saveTime < Pow256(8)
  }

  function EncodeHeader(h: Header): (b: seq<Byte>)
    ensures |b| == HEADER_SIZE
  {
    MAGIC + (Words(HeaderWords(h)) + LE(h.saveTime, 8))
  }

  function DecodeHeader(b: seq<Byte>): Header
    requires |b| >= HEADER_SIZE
  {
    Header(ReadU32(b, 8), ReadU32(b, 12), ReadU32(b, 16), ReadU32(b, 20), ReadU32(b, 24), ReadU32(b, 28),
           ReadU32(b, 32), ReadU32(b, 36), ReadU32(b, 40), ReadU32(b, 44), ReadLE(b, 48, 8))
  }

  lemma HeaderDecodes(b: seq<Byte>, h: Header)
    requires At(b, 0, EncodeHeader(h)) && FitsHeader(h)
    ensures |b| >= HEADER_SIZE && b[..4] == MAGIC && ReadU32(b, 4) == VERSION && DecodeHeader(b) == h
  {
    hide At, LE, Words, UnLE, Pow256, ReadU32;
    var ws := HeaderWords(h);
    AtLength(b, 0, EncodeHeader(h));
    AtConcat(b, 0, MAGIC, Words(ws) + LE(h.saveTime, 8));
    AtConcat(b, 4, Words(ws), LE(h.saveTime, 8));
    SliceAt(b, 0, MAGIC);
    HeaderWordsRead(b, h);
    ReadAt(b, 48, h.saveTime, 8);
  }

  lemma HeaderWordsRead(b: seq<Byte>, h: Header)
    requires At(b, 4, Words(HeaderWords(h))) && AllU32(HeaderWords(h))
    ensures |b| >= 48 && ReadU32(b, 4) == VERSION && ReadU32(b, 8) == h.fileCount && ReadU32(b, 12) == h.commandCount
    ensures ReadU32(b, 16) == h.edgeCount && ReadU32(b, 20) == h.stringTableSize && ReadU32(b, 24) == h.fileOffset
    ensures ReadU32(b, 28) == h.commandOffset && ReadU32(b, 32) == h.edgeOffset && ReadU32(b, 36) == h.tableOffset
    ensures ReadU32(b, 40) == h.dataOffset && ReadU32(b, 44) == h.stringOffset
  {
    hide At, Words, AllU32, ReadU32;
    var ws := HeaderWords(h);
    WordAt(b, 4, ws, 0);
    WordAt(b, 4, ws, 1);
    WordAt(b, 4, ws, 2);
    WordAt(b, 4, ws, 3);
    WordAt(b, 4, ws, 4);
    WordAt(b, 4, ws, 5);
    WordAt(b, 4, ws, 6);
    WordAt(b, 4, ws, 7);
    WordAt(b, 4, ws, 8);
    WordAt(b, 4, ws, 9);
    WordAt(b, 4, ws, 10);
  }
}

/** Reading a saved record, and refusing a damaged one. */
module IndexReader {
  import opened Bytes
  import opened Options
  import opened Sequences
  import opened StringTables
  import opened TokenLists
  import opened IndexFormat

  datatype ReadError = TooSmall | BadMagic | BadVersion | BadLayout | BadChecksum | Damaged

  // The checksum of what comes before the footer.
  type Checksum = seq<Byte> -> seq<Byte>

  // ---------------------------------------------------------------- opening

  function Fits(contentEnd: nat, offset: nat, size: nat): bool {
    offset <= contentEnd && size <= contentEnd - offset
  }

  // Every section the header declares lies ahead of the footer.
  predicate LayoutFits(fileSize: nat, h: Header) {
    && fileSize >= HEADER_SIZE + FOOTER_SIZE
    && var end := fileSize - FOOTER_SIZE;
       && Fits(end, h.fileOffset, FILE_SIZE * h.fileCount)
       && Fits(end, h.commandOffset, COMMAND_SIZE * h.commandCount)
       && Fits(end, h.edgeOffset, EDGE_SIZE * h.edgeCount)
       && Fits(end, h.tableOffset, 4 * h.commandCount)
       && Fits(end, h.stringOffset, h.stringTableSize)
       && h.dataOffset <= h.stringOffset
  }

  function Open(b: seq<Byte>, checksum: Checksum): Result<Header, ReadError> {
    if |b| < HEADER_SIZE + FOOTER_SIZE then Err(TooSmall)
    else if b[..4] != MAGIC then Err(BadMagic)
    else if ReadU32(b, 4) != VERSION then Err(BadVersion)
    else
      var h := DecodeHeader(b);
      if !LayoutFits(|b|, h) then Err(BadLayout)
      else if checksum(b[..|b| - FOOTER_SIZE]) != b[|b| - FOOTER_SIZE..] then Err(BadChecksum)
      else Ok(h)
  }

  // What the bytes of a sound record satisfy, entries aside: its mark and version, sections that end
  // before the last 32 bytes, and these the checksum of all that come before.
  predicate Sealed(b: seq<Byte>, checksum: Checksum) {
    && |b| >= 88 && b[..4] == [80, 85, 80, 73] && ReadU32(b, 4) == 28 && SectionsEnd(b, |b| - 32)
    && checksum(b[..|b| - 32]) == b[|b| - 32..]
  }

  // Files, commands, edges, the table of operands and the strings.
  predicate SectionsEnd(b: seq<Byte>, end: nat)
    requires |b| >= 88
  {
    && ReadU32(b, 24) + 64 * ReadU32(b, 8) <= end
    && ReadU32(b, 28) + 88 * ReadU32(b, 12) <= end
    && ReadU32(b, 32) + 16 * ReadU32(b, 16) <= end
    && ReadU32(b, 36) + 4 * ReadU32(b, 12) <= end
    && ReadU32(b, 44) + ReadU32(b, 20) <= end
    && ReadU32(b, 40) <= ReadU32(b, 44)
  }

  // A record opens exactly when it is sealed; otherwise the first thing wrong with it is named.
  lemma OpenIff(b: seq<Byte>, checksum: Checksum)
    ensures Open(b, checksum).Ok? <==> Sealed(b, checksum)
    ensures Sealed(b, checksum) ==> Open(b, checksum).value == DecodeHeader(b) && IsOpen(b, DecodeHeader(b))
    ensures Open(b, checksum) == Err(TooSmall) <==> |b| < 88
    ensures Open(b, checksum) == Err(BadMagic) <==> |b| >= 88 && b[..4] != [80, 85, 80, 73]
    ensures Open(b, checksum) == Err(BadVersion) <==> |b| >= 88 && b[..4] == [80, 85, 80, 73] && ReadU32(b, 4) != 28
    ensures Open(b, checksum) == Err(BadChecksum) <==>
      |b| >= 88 && b[..4] == [80, 85, 80, 73] && ReadU32(b, 4) == 28 && SectionsEnd(b, |b| - 32) && !Sealed(b, checksum)
  {
    hide ReadU32;
  }

  // ---------------------------------------------------------------- entries

  predicate IsOpen(b: seq<Byte>, h: Header) {
    LayoutFits(|b|, h)
  }

  // A string that means something: one that cannot be read fails the record.
  function SemanticString(b: seq<Byte>, h: Header, offset: nat): Option<seq<Byte>>
    requires IsOpen(b, h)
  {
    ReadString(b, h.stringOffset, h.stringOffset + h.stringTableSize, offset)
  }

  const UNREADABLE: seq<Byte> := [91, 117, 110, 114, 101, 97, 100, 97, 98, 108, 101, 93]

  // A string only shown to people gives way to a mark.
  function DisplayString(b: seq<Byte>, h: Header, offset: nat): seq<Byte>
    requires IsOpen(b, h)
  {
    match SemanticString(b, h, offset)
    case Some(text) => text
    case None => UNREADABLE
  }

  function ReadFile(b: seq<Byte>, h: Header, i: nat): Result<FileEntry, ReadError>
    requires IsOpen(b, h) && i < h.fileCount
  {
    var r := DecodeFile(b, h.fileOffset + FILE_SIZE * i);
    match SemanticString(b, h, r.nameOffset)
    case None => Err(Damaged)
    case Some(name) =>
      if !NamesNodeType(r.fileType) || r.flags >= FLAGS_LIMIT then Err(Damaged)
      else Ok(FileEntry(r.parentId, r.srcId, r.fileType, r.flags, name, r.size, r.mtime, r.hash))
  }

  // The record must end before the strings begin, whatever counts it claims.
  function ReadOperands(b: seq<Byte>, h: Header, i: nat): Result<Operands, ReadError>
    requires IsOpen(b, h) && i < h.commandCount
  {
    var at := h.dataOffset + ReadU32(b, h.tableOffset + 4 * i);
    if at + 4 * HEAD_WORDS > h.stringOffset then Err(Damaged)
    else
      var ins, outs, inTokens := ReadU32(b, at), ReadU32(b, at + 4), ReadU32(b, at + 8);
      var outTokens, orders, orderTokens := ReadU32(b, at + 12), ReadU32(b, at + 16), ReadU32(b, at + 20);
      var size := 4 * HEAD_WORDS + 4 * (ins + outs + orders) + 4 * (inTokens + 1 + (outTokens + 1) + (orderTokens + 1));
      if at + size > h.stringOffset then Err(Damaged)
      else
        var a1 := at + 4 * HEAD_WORDS;
        var a2 := a1 + 4 * ins;
        var a3 := a2 + 4 * outs;
        var a4 := a3 + 4 * orders;
        var a5 := a4 + 4 * (inTokens + 1);
        var a6 := a5 + 4 * (outTokens + 1);
        var inputs := TokenList(ReadWords(b, a1, ins), ReadWords(b, a4, inTokens + 1));
        var outputs := TokenList(ReadWords(b, a2, outs), ReadWords(b, a5, outTokens + 1));
        var orderOnly := TokenList(ReadWords(b, a3, orders), ReadWords(b, a6, orderTokens + 1));
        if Grouping(inputs) && Grouping(outputs) && Grouping(orderOnly) then Ok(Operands(inputs, orderOnly, outputs))
        else Err(Damaged)
  }

  function ReadCommand(b: seq<Byte>, h: Header, i: nat): Result<CommandEntry, ReadError>
    requires IsOpen(b, h) && i < h.commandCount
  {
    var r := DecodeCommand(b, h.commandOffset + COMMAND_SIZE * i);
    match SemanticString(b, h, r.envOffset)
    case None => Err(Damaged)
    case Some(env) =>
      match ReadOperands(b, h, i)
      case Err(e) => Err(e)
      case Ok(o) =>
        if r.flags > 1 then Err(Damaged)
        else Ok(CommandEntry(r.dirId, DisplayString(b, h, r.cmdOffset), DisplayString(b, h, r.displayOffset), env,
                             r.key, r.signature, r.flags == 1, o.inputs, o.orderOnly, o.outputs))
  }

  function ReadEdge(b: seq<Byte>, h: Header, i: nat): Result<EdgeEntry, ReadError>
    requires IsOpen(b, h) && i < h.edgeCount
  {
    var e := DecodeEdge(b, h.edgeOffset + EDGE_SIZE * i);
    if NamesLinkType(e.link) then Ok(e) else Err(Damaged)
  }

  // All entries of the record, and no failure among them.
  ghost predicate ReadsAs(b: seq<Byte>, h: Header, idx: Index)
    requires IsOpen(b, h)
  {
    && |idx.files| == h.fileCount && |idx.commands| == h.commandCount && |idx.edges| == h.edgeCount
    && (forall i :: 0 <= i < h.fileCount ==> ReadFile(b, h, i) == Ok(idx.files[i]))
    && (forall i :: 0 <= i < h.commandCount ==> ReadCommand(b, h, i) == Ok(idx.commands[i]))
    && forall i :: 0 <= i < h.edgeCount ==> ReadEdge(b, h, i) == Ok(idx.edges[i])
  }

  method ReadFiles(b: seq<Byte>, h: Header) returns (r: Result<seq<FileEntry>, ReadError>)
    requires IsOpen(b, h)
    ensures r.Ok? ==>
      |r.value| == h.fileCount && forall i :: 0 <= i < h.fileCount ==> ReadFile(b, h, i) == Ok(r.value[i])
    ensures r.Err? ==> exists i :: 0 <= i < h.fileCount && ReadFile(b, h, i).Err?
  {
    var files: seq<FileEntry> := [];
    hide ReadFile;
    for i := 0 to h.fileCount
      invariant |files| == i && forall k :: 0 <= k < i ==> ReadFile(b, h, k) == Ok(files[k])
    {
      var f := ReadFile(b, h, i);
      if f.Err? { return Err(f.error); }
      files := files + [f.value];
    }
    return Ok(files);
  }

  method ReadCommands(b: seq<Byte>, h: Header) returns (r: Result<seq<CommandEntry>, ReadError>)
    requires IsOpen(b, h)
    ensures r.Ok? ==>
      |r.value| == h.commandCount && forall i :: 0 <= i < h.commandCount ==> ReadCommand(b, h, i) == Ok(r.value[i])
    ensures r.Err? ==> exists i :: 0 <= i < h.commandCount && ReadCommand(b, h, i).Err?
  {
    var commands: seq<CommandEntry> := [];
    hide ReadCommand;
    for i := 0 to h.commandCount
      invariant |commands| == i && forall k :: 0 <= k < i ==> ReadCommand(b, h, k) == Ok(commands[k])
    {
      var c := ReadCommand(b, h, i);
      if c.Err? { return Err(c.error); }
      commands := commands + [c.value];
    }
    return Ok(commands);
  }

  method ReadEdges(b: seq<Byte>, h: Header) returns (r: Result<seq<EdgeEntry>, ReadError>)
    requires IsOpen(b, h)
    ensures r.Ok? ==>
      |r.value| == h.edgeCount && forall i :: 0 <= i < h.edgeCount ==> ReadEdge(b, h, i) == Ok(r.value[i])
    ensures r.Err? ==> exists i :: 0 <= i < h.edgeCount && ReadEdge(b, h, i).Err?
  {
    var edges: seq<EdgeEntry> := [];
    hide ReadEdge;
    for i := 0 to h.edgeCount
      invariant |edges| == i && forall k :: 0 <= k < i ==> ReadEdge(b, h, k) == Ok(edges[k])
    {
      var e := ReadEdge(b, h, i);
      if e.Err? { return Err(e.error); }
      edges := edges + [e.value];
    }
    return Ok(edges);
  }

  // The record is sealed, and all its entries read as these.
  ghost predicate Loads(b: seq<Byte>, checksum: Checksum, idx: Index) {
    Sealed(b, checksum) && IsOpen(b, DecodeHeader(b)) && ReadsAs(b, DecodeHeader(b), idx)
  }

  // What a record reads as is settled by its bytes.
  lemma ReadsAsOne(b: seq<Byte>, h: Header, a: Index, c: Index)
    requires IsOpen(b, h) && ReadsAs(b, h, a) && ReadsAs(b, h, c)
    ensures a == c
  {
    hide ReadFile, ReadCommand, ReadEdge;
    assert forall i :: 0 <= i < h.fileCount ==> ReadFile(b, h, i) == Ok(a.files[i]) == Ok(c.files[i]);
    assert a.files == c.files && a.commands == c.commands && a.edges == c.edges;
  }

  // ---------------------------------------------------------------- what the bytes say

  // Two bytes, the lower one first.
  function TwoBytes(b: seq<Byte>, at: nat): nat
    requires at + 2 <= |b|
  {
    (b[at] as int) + 256 * (b[at + 1] as int)
  }

  // A text lies in the string section with its length ahead of it.
  predicate TextLies(b: seq<Byte>, offset: nat)
    requires |b| >= 88
  {
    var at, end := ReadU32(b, 44) + offset, ReadU32(b, 44) + ReadU32(b, 20);
    at + 2 <= end <= |b| && at + 2 + TwoBytes(b, at) <= end
  }

  function TextThere(b: seq<Byte>, offset: nat): seq<Byte>
    requires |b| >= 88 && TextLies(b, offset)
  {
    var at := ReadU32(b, 44) + offset;
    b[at + 2..at + 2 + TwoBytes(b, at)]
  }

  // "[unreadable]" stands for a text that is not there.
  function Shown(b: seq<Byte>, offset: nat): seq<Byte>
    requires |b| >= 88
  {
    if TextLies(b, offset) then TextThere(b, offset) else UNREADABLE
  }

  // Six counts, three lists of operands and where each token's begin, all ahead of the strings.
  predicate OperandsLie(b: seq<Byte>, i: nat)
    requires |b| >= 88
  {
    var slot := ReadU32(b, 36) + 4 * i;
    slot + 4 <= |b| &&
    var at, end := ReadU32(b, 40) + ReadU32(b, slot), ReadU32(b, 44);
    at + 24 <= end <= |b| &&
    var operands := ReadU32(b, at) + ReadU32(b, at + 4) + ReadU32(b, at + 16);
    var tokens := ReadU32(b, at + 8) + ReadU32(b, at + 12) + ReadU32(b, at + 20);
    at + 24 + 4 * operands + 4 * (tokens + 3) <= end
  }

  function OperandsThere(b: seq<Byte>, i: nat): Operands
    requires |b| >= 88 && OperandsLie(b, i)
  {
    var at := ReadU32(b, 40) + ReadU32(b, ReadU32(b, 36) + 4 * i);
    var ins, outs, orders := ReadU32(b, at), ReadU32(b, at + 4), ReadU32(b, at + 16);
    var inTokens, outTokens, orderTokens := ReadU32(b, at + 8), ReadU32(b, at + 12), ReadU32(b, at + 20);
    var starts := at + 24 + 4 * (ins + outs + orders);
    Operands(
      TokenList(ReadWords(b, at + 24, ins), ReadWords(b, starts, inTokens + 1)),
      TokenList(ReadWords(b, at + 24 + 4 * (ins + outs), orders),
                ReadWords(b, starts + 4 * (inTokens + outTokens + 2), orderTokens + 1)),
      TokenList(ReadWords(b, at + 24 + 4 * ins, outs), ReadWords(b, starts + 4 * (inTokens + 1), outTokens + 1)))
  }

  predicate OperandsSound(b: seq<Byte>, i: nat)
    requires |b| >= 88
  {
    OperandsLie(b, i) &&
    var o := OperandsThere(b, i);
    Grouping(o.inputs) && Grouping(o.orderOnly) && Grouping(o.outputs)
  }

  // What the 64, 88 and 16 bytes of an entry say.
  predicate FileAt(b: seq<Byte>, i: nat, f: FileEntry)
    requires |b| >= 88
  {
    var at := ReadU32(b, 24) + 64 * i;
    at + 64 <= |b| && TextLies(b, ReadU32(b, at + 8)) &&
    f == FileEntry(ReadU32(b, at), ReadU32(b, at + 4), b[at + 12], TwoBytes(b, at + 13),
                   TextThere(b, ReadU32(b, at + 8)), ReadLE(b, at + 16, 8), ReadLE(b, at + 24, 8), b[at + 32..at + 64])
  }

  predicate CommandAt(b: seq<Byte>, i: nat, c: CommandEntry)
    requires |b| >= 88
  {
    var at := ReadU32(b, 28) + 88 * i;
    at + 88 <= |b| && TextLies(b, ReadU32(b, at + 12)) && OperandsLie(b, i) &&
    var o := OperandsThere(b, i);
    c == CommandEntry(ReadU32(b, at), Shown(b, ReadU32(b, at + 4)), Shown(b, ReadU32(b, at + 8)),
                      TextThere(b, ReadU32(b, at + 12)), b[at + 24..at + 56], b[at + 56..at + 88],
                      ReadU32(b, at + 16) == 1, o.inputs, o.orderOnly, o.outputs)
  }

  predicate EdgeAt(b: seq<Byte>, i: nat, e: EdgeEntry)
    requires |b| >= 88
  {
    var at := ReadU32(b, 32) + 16 * i;
    at + 16 <= |b| && e == EdgeEntry(ReadU32(b, at), ReadU32(b, at + 4), b[at + 8])
  }

  // A record that loads says what its bytes say: every file's name and every command's environment lie in
  // the string section; a command's own texts give way to a mark exactly when they do not.
  lemma LoadedContents(b: seq<Byte>, checksum: Checksum, idx: Index)
    requires Loads(b, checksum, idx)
    ensures |b| >= 88
    ensures |idx.files| == ReadU32(b, 8) && |idx.commands| == ReadU32(b, 12) && |idx.edges| == ReadU32(b, 16)
    ensures forall i :: 0 <= i < |idx.files| ==> FileAt(b, i, idx.files[i])
    ensures forall i :: 0 <= i < |idx.commands| ==> CommandAt(b, i, idx.commands[i])
    ensures forall i :: 0 <= i < |idx.edges| ==> EdgeAt(b, i, idx.edges[i])
  {
    hide ReadFile, ReadCommand, ReadEdge, FileAt, CommandAt, EdgeAt, DecodeHeader, LayoutFits;
    var h := DecodeHeader(b);
    HeaderCounts(b);
    forall i | 0 <= i < |idx.files| ensures FileAt(b, i, idx.files[i]) {
      assert ReadFile(b, h, i) == Ok(idx.files[i]);
      FileIsAt(b, h, i);
    }
    forall i | 0 <= i < |idx.commands| ensures CommandAt(b, i, idx.commands[i]) {
      assert ReadCommand(b, h, i) == Ok(idx.commands[i]);
      CommandIsAt(b, h, i);
    }
    forall i | 0 <= i < |idx.edges| ensures EdgeAt(b, i, idx.edges[i]) {
      assert ReadEdge(b, h, i) == Ok(idx.edges[i]);
      EdgeIsAt(b, h, i);
    }
  }

  lemma FileIsAt(b: seq<Byte>, h: Header, i: nat)
    requires |b| >= 88 && h == DecodeHeader(b) && IsOpen(b, h) && i < h.fileCount && ReadFile(b, h, i).Ok?
    ensures FileAt(b, i, ReadFile(b, h, i).value)
  {
    hide ReadU32, TextLies, TextThere, SemanticString, UnLE, TwoBytes;
    var at := h.fileOffset + FILE_SIZE * i;
    TextIs(b, h, ReadU32(b, at + 8));
    OneByteIs(b, at + 12);
    TwoBytesAre(b, at + 13);
  }

  lemma EdgeIsAt(b: seq<Byte>, h: Header, i: nat)
    requires |b| >= 88 && h == DecodeHeader(b) && IsOpen(b, h) && i < h.edgeCount && ReadEdge(b, h, i).Ok?
    ensures EdgeAt(b, i, ReadEdge(b, h, i).value)
  {
    hide ReadU32, UnLE;
    OneByteIs(b, h.edgeOffset + EDGE_SIZE * i + 8);
  }

  lemma CommandIsAt(b: seq<Byte>, h: Header, i: nat)
    requires |b| >= 88 && h == DecodeHeader(b) && IsOpen(b, h) && i < h.commandCount && ReadCommand(b, h, i).Ok?
    ensures CommandAt(b, i, ReadCommand(b, h, i).value)
  {
    hide ReadU32, TextLies, TextThere, SemanticString, ReadOperands, OperandsLie, OperandsThere, Grouping;
    var r := DecodeCommand(b, h.commandOffset + COMMAND_SIZE * i);
    TextIs(b, h, r.cmdOffset);
    TextIs(b, h, r.displayOffset);
    TextIs(b, h, r.envOffset);
    OperandsAreRead(b, h, i);
  }

  lemma TextIs(b: seq<Byte>, h: Header, offset: nat)
    requires |b| >= 88 && h == DecodeHeader(b) && IsOpen(b, h)
    ensures SemanticString(b, h, offset) == if TextLies(b, offset) then Some(TextThere(b, offset)) else None
  {
    hide ReadU32, ReadString, TwoBytes;
    StringIs(b, h.stringOffset, h.stringOffset + h.stringTableSize, offset);
  }

  lemma StringIs(b: seq<Byte>, start: nat, end: nat, offset: nat)
    requires end <= |b|
    ensures ReadString(b, start, end, offset) ==
      var at := start + offset;
      if at + 2 <= end && at + 2 + TwoBytes(b, at) <= end then Some(b[at + 2..at + 2 + TwoBytes(b, at)]) else None
  {
    hide ReadLE, TwoBytes;
    var at := start + offset;
    if at + 2 <= end {
      TwoBytesAre(b, at);
      assert b[at + 2..at + 2] == [];
    }
  }

  lemma TwoBytesAre(b: seq<Byte>, at: nat)
    requires at + 2 <= |b|
    ensures ReadLE(b, at, 2) == TwoBytes(b, at)
  {
    var two := b[at..at + 2];
    assert two[1..][1..] == [] && UnLE(two[1..]) == two[1] + 256 * UnLE(two[1..][1..]);
  }

  // ---------------------------------------------------------------- which records load

  // A name that is there, a known type and known flags.
  predicate FileSound(b: seq<Byte>, i: nat)
    requires |b| >= 88
  {
    var at := ReadU32(b, 24) + 64 * i;
    && at + 64 <= |b| && TextLies(b, ReadU32(b, at + 8))
    && (b[at + 12] == 0 || 2 <= b[at + 12] <= 8) && TwoBytes(b, at + 13) < 64
  }

  predicate EdgeSound(b: seq<Byte>, i: nat)
    requires |b| >= 88
  {
    var at := ReadU32(b, 32) + 16 * i;
    at + 16 <= |b| && 1 <= b[at + 8] <= 5
  }

  // An environment that is there, a mark that is 0 or 1, and operands.
  predicate CommandSound(b: seq<Byte>, i: nat)
    requires |b| >= 88
  {
    var at := ReadU32(b, 28) + 88 * i;
    at + 88 <= |b| && TextLies(b, ReadU32(b, at + 12)) && ReadU32(b, at + 16) <= 1 && OperandsSound(b, i)
  }

  predicate Sound(b: seq<Byte>)
    requires |b| >= 88
  {
    && (forall i :: 0 <= i < ReadU32(b, 8) ==> FileSound(b, i))
    && (forall i :: 0 <= i < ReadU32(b, 12) ==> CommandSound(b, i))
    && forall i :: 0 <= i < ReadU32(b, 16) ==> EdgeSound(b, i)
  }

  // A record loads exactly when it is sealed and every entry is sound.
  lemma LoadsIff(b: seq<Byte>, checksum: Checksum)
    ensures (exists idx :: Loads(b, checksum, idx)) <==> Sealed(b, checksum) && Sound(b)
  {
    hide ReadFile, ReadCommand, ReadEdge, Sealed, LayoutFits, FileSound, CommandSound, EdgeSound, DecodeHeader;
    OpenIff(b, checksum);
    if Sealed(b, checksum) {
      SealedIsLong(b, checksum);
      var h := DecodeHeader(b);
      HeaderCounts(b);
      forall i | 0 <= i < h.fileCount ensures ReadFile(b, h, i).Ok? <==> FileSound(b, i) { FileReads(b, h, i); }
      forall i | 0 <= i < h.commandCount ensures ReadCommand(b, h, i).Ok? <==> CommandSound(b, i) {
        CommandReads(b, h, i);
      }
      forall i | 0 <= i < h.edgeCount ensures ReadEdge(b, h, i).Ok? <==> EdgeSound(b, i) { EdgeReads(b, h, i); }
      if Sound(b) {
        var idx := Index(seq(h.fileCount, i requires 0 <= i < h.fileCount => ReadFile(b, h, i).value),
                         seq(h.commandCount, i requires 0 <= i < h.commandCount => ReadCommand(b, h, i).value),
                         seq(h.edgeCount, i requires 0 <= i < h.edgeCount => ReadEdge(b, h, i).value));
        assert ReadsAs(b, h, idx);
        assert Loads(b, checksum, idx);
      }
    }
  }

  lemma SealedIsLong(b: seq<Byte>, checksum: Checksum)
    requires Sealed(b, checksum)
    ensures |b| >= 88
  {
  }

  lemma HeaderCounts(b: seq<Byte>)
    requires |b| >= 88
    ensures var h := DecodeHeader(b);
            h.fileCount == ReadU32(b, 8) && h.commandCount == ReadU32(b, 12) && h.edgeCount == ReadU32(b, 16)
  {
  }

  lemma FileReads(b: seq<Byte>, h: Header, i: nat)
    requires |b| >= 88 && h == DecodeHeader(b) && IsOpen(b, h) && i < h.fileCount
    ensures ReadFile(b, h, i).Ok? <==> FileSound(b, i)
  {
    hide ReadU32, TextLies, TextThere, SemanticString, TwoBytes, UnLE;
    var at := h.fileOffset + FILE_SIZE * i;
    TextIs(b, h, ReadU32(b, at + 8));
    OneByteIs(b, at + 12);
    TwoBytesAre(b, at + 13);
  }

  lemma EdgeReads(b: seq<Byte>, h: Header, i: nat)
    requires |b| >= 88 && h == DecodeHeader(b) && IsOpen(b, h) && i < h.edgeCount
    ensures ReadEdge(b, h, i).Ok? <==> EdgeSound(b, i)
  {
    hide ReadU32, UnLE;
    OneByteIs(b, h.edgeOffset + EDGE_SIZE * i + 8);
  }

  lemma CommandReads(b: seq<Byte>, h: Header, i: nat)
    requires |b| >= 88 && h == DecodeHeader(b) && IsOpen(b, h) && i < h.commandCount
    ensures ReadCommand(b, h, i).Ok? <==> CommandSound(b, i)
  {
    hide ReadU32, TextLies, TextThere, SemanticString, UnLE, OperandsSound, ReadOperands;
    TextIs(b, h, ReadU32(b, h.commandOffset + COMMAND_SIZE * i + 12));
    OperandsAreRead(b, h, i);
  }

  lemma OperandsAreRead(b: seq<Byte>, h: Header, i: nat)
    requires |b| >= 88 && h == DecodeHeader(b) && IsOpen(b, h) && i < h.commandCount
    ensures ReadOperands(b, h, i).Ok? <==> OperandsSound(b, i)
    ensures OperandsSound(b, i) ==> ReadOperands(b, h, i) == Ok(OperandsThere(b, i))
  {
    hide ReadU32, ReadWords, Grouping;
  }

  lemma OneByteIs(b: seq<Byte>, at: nat)
    requires at + 1 <= |b|
    ensures ReadLE(b, at, 1) == b[at]
  {
    var one := b[at..at + 1];
    assert one[1..] == [] && UnLE(one) == one[0] + 256 * UnLE(one[1..]);
  }

  // A record is read whole or not at all: exactly when it is sealed and every entry is sound.
  method ReadIndex(b: seq<Byte>, checksum: Checksum) returns (r: Result<Index, ReadError>)
    ensures r.Ok? ==> Loads(b, checksum, r.value)
    ensures r.Ok? <==> Sealed(b, checksum) && Sound(b)
  {
    hide ReadFile, ReadCommand, ReadEdge, Open, Sealed, Sound, LayoutFits;
    OpenIff(b, checksum);
    LoadsIff(b, checksum);
    var opened' := Open(b, checksum);
    if opened'.Err? { return Err(opened'.error); }
    var h := opened'.value;
    var files := ReadFiles(b, h);
    if files.Err? { return Err(files.error); }
    var commands := ReadCommands(b, h);
    if commands.Err? { return Err(commands.error); }
    var edges := ReadEdges(b, h);
    if edges.Err? { return Err(edges.error); }
    return Ok(Index(files.value, commands.value, edges.value));
  }
}

/** Serialising an index: strings and operands gathered in loops, then every section copied to its place. */
module IndexSerializer {
  import opened Bytes
  import opened Options
  import opened Sequences
  import opened StringTables
  import opened TokenLists
  import opened IndexFormat
  import opened IndexReader
  import opened IndexWriter

  datatype WriteError = BadString(error: TableError) | TooLarge

  // ---------------------------------------------------------------- strings

  lemma StoresGrows(a: seq<Byte>, b: seq<Byte>, offset: nat, text: seq<Byte>)
    requires Stores(a, offset, text) && a <= b
    ensures Stores(b, offset, text)
  {
    ReadGrown(a, b, offset);
  }

  lemma FileStoredGrows(r: RawFile, f: FileEntry, a: seq<Byte>, b: seq<Byte>)
    requires FileStored(r, f, a) && a <= b
    ensures FileStored(r, f, b)
  {
    StoresGrows(a, b, r.nameOffset, f.name);
  }

  lemma CommandStoredGrows(r: RawCommand, c: CommandEntry, a: seq<Byte>, b: seq<Byte>)
    requires CommandStored(r, c, a) && a <= b
    ensures CommandStored(r, c, b)
  {
    StoresGrows(a, b, r.cmdOffset, Projected(c.instruction));
    StoresGrows(a, b, r.displayOffset, Projected(c.display));
    StoresGrows(a, b, r.envOffset, c.env);
  }

  ghost predicate FilesStored(raws: seq<RawFile>, files: seq<FileEntry>, strings: seq<Byte>) {
    |raws| <= |files| && forall i :: 0 <= i < |raws| ==> FileStored(raws[i], files[i], strings)
  }

  ghost predicate CommandsStored(raws: seq<RawCommand>, commands: seq<CommandEntry>, strings: seq<Byte>) {
    |raws| <= |commands| && forall i :: 0 <= i < |raws| ==> CommandStored(raws[i], commands[i], strings)
  }

  lemma FilesStoredGrows(raws: seq<RawFile>, files: seq<FileEntry>, a: seq<Byte>, b: seq<Byte>)
    requires FilesStored(raws, files, a) && a <= b
    ensures FilesStored(raws, files, b)
  {
    forall i | 0 <= i < |raws| ensures FileStored(raws[i], files[i], b) {
      FileStoredGrows(raws[i], files[i], a, b);
    }
  }

  lemma CommandsStoredGrows(raws: seq<RawCommand>, commands: seq<CommandEntry>, a: seq<Byte>, b: seq<Byte>)
    requires CommandsStored(raws, commands, a) && a <= b
    ensures CommandsStored(raws, commands, b)
  {
    forall i | 0 <= i < |raws| ensures CommandStored(raws[i], commands[i], b) {
      CommandStoredGrows(raws[i], commands[i], a, b);
    }
  }

  // The strings of an index, one after the other.
  function FileTexts(files: seq<FileEntry>): seq<seq<Byte>> {
    if files == [] then [] else FileTexts(files[..|files| - 1]) + [files[|files| - 1].name]
  }

  function TextsOf(c: CommandEntry): seq<seq<Byte>> {
    [Projected(c.instruction), Projected(c.display), c.env]
  }

  function CommandTexts(commands: seq<CommandEntry>): seq<seq<Byte>> {
    if commands == [] then [] else CommandTexts(commands[..|commands| - 1]) + TextsOf(commands[|commands| - 1])
  }

  lemma {:induction false} FileTextsBegin(files: seq<FileEntry>, i: nat)
    requires i <= |files|
    ensures FileTexts(files[..i]) <= FileTexts(files)
    decreases |files|
  {
    if i == |files| {
      assert files[..i] == files;
    } else {
      var front := files[..|files| - 1];
      FileTextsBegin(front, i);
      assert front[..i] == files[..i];
    }
  }

  lemma {:induction false} CommandTextsBegin(commands: seq<CommandEntry>, i: nat)
    requires i <= |commands|
    ensures CommandTexts(commands[..i]) <= CommandTexts(commands)
    decreases |commands|
  {
    hide TextsOf;
    if i == |commands| {
      assert commands[..i] == commands;
    } else {
      var front := commands[..|commands| - 1];
      CommandTextsBegin(front, i);
      assert front[..i] == commands[..i];
    }
  }

  // What does not fit does not fit with more behind it.
  lemma TextsFitPrefix(a: seq<seq<Byte>>, b: seq<seq<Byte>>)
    requires a <= b && TextsFit(b)
    ensures TextsFit(a)
  {
    assert b == a + b[|a|..];
    TextsFitBefore(a, b[|a|..]);
  }

  method AddString(strings: StringTable, text: seq<Byte>) returns (r: Result<nat, WriteError>)
    requires strings.Holds()
    modifies strings
    ensures old(strings.data) <= strings.data
    ensures r.Ok? <==> TextsFit(old(strings.added) + [text])
    ensures r.Ok? ==> strings.Holds() && strings.added == old(strings.added) + [text]
    ensures r.Ok? ==> Stores(strings.data, r.value, text)
  {
    var offset := strings.Add(text);
    return if offset.Ok? then Ok(offset.value) else Err(BadString(offset.error));
  }

  method AddFiles(strings: StringTable, files: seq<FileEntry>) returns (r: Result<seq<RawFile>, WriteError>)
    requires strings.Holds()
    modifies strings
    ensures old(strings.data) <= strings.data
    ensures r.Ok? <==> TextsFit(old(strings.added) + FileTexts(files))
    ensures r.Ok? ==> strings.Holds() && strings.added == old(strings.added) + FileTexts(files)
    ensures r.Ok? ==> |r.value| == |files| && FilesStored(r.value, files, strings.data)
  {
    hide Stores, StringTable.Holds, TextsFit;
    ghost var before := strings.added;
    var raws: seq<RawFile> := [];
    assert files[..0] == [] && before + FileTexts([]) == before;
    for i := 0 to |files|
      invariant strings.Holds() && old(strings.data) <= strings.data
      invariant strings.added == before + FileTexts(files[..i])
      invariant |raws| == i && FilesStored(raws, files, strings.data)
    {
      var f := files[i];
      ghost var data := strings.data;
      FileTextsMore(files, i, before);
      var offset := AddString(strings, f.name);
      if offset.Err? {
        TextsFitUnless(before + FileTexts(files[..i + 1]), before + FileTexts(files));
        return Err(offset.error);
      }
      FilesStoredGrows(raws, files, data, strings.data);
      raws := raws + [RawFile(f.parentId, f.srcId, offset.value, f.fileType, f.flags, f.size, f.mtime, f.hash)];
    }
    assert files[..|files|] == files;
    HoldsFit(strings);
    return Ok(raws);
  }

  lemma Behind(before: seq<seq<Byte>>, now: seq<seq<Byte>>, more: seq<seq<Byte>>, all: seq<seq<Byte>>)
    requires now + more <= all
    ensures before + (now + more) == (before + now) + more && before + (now + more) <= before + all
  {
    assert before + all == (before + (now + more)) + all[|now + more|..];
  }

  lemma FileTextsMore(files: seq<FileEntry>, i: nat, before: seq<seq<Byte>>)
    requires i < |files|
    ensures before + FileTexts(files[..i + 1]) == (before + FileTexts(files[..i])) + [files[i].name]
    ensures before + FileTexts(files[..i + 1]) <= before + FileTexts(files)
  {
    assert files[..i + 1][..i] == files[..i];
    FileTextsBegin(files, i + 1);
    Behind(before, FileTexts(files[..i]), [files[i].name], FileTexts(files));
  }

  lemma TextsFitUnless(a: seq<seq<Byte>>, b: seq<seq<Byte>>)
    requires a <= b && !TextsFit(a)
    ensures !TextsFit(b)
  {
    if TextsFit(b) { TextsFitPrefix(a, b); }
  }

  lemma HoldsFit(strings: StringTable)
    requires strings.Holds()
    ensures strings.Valid() && TextsFit(strings.added) && |strings.data| == TableSize(strings.added)
  {
  }

  method AddCommand(strings: StringTable, c: CommandEntry) returns (r: Result<RawCommand, WriteError>)
    requires strings.Holds()
    modifies strings
    ensures old(strings.data) <= strings.data
    ensures r.Ok? <==> TextsFit(old(strings.added) + TextsOf(c))
    ensures r.Ok? ==> strings.Holds() && strings.added == old(strings.added) + TextsOf(c)
    ensures r.Ok? ==> CommandStored(r.value, c, strings.data)
  {
    hide Stores, StringTable.Holds, Projected, TextsFit;
    ghost var before, texts := strings.added, strings.added + TextsOf(c);
    assert texts[..|before| + 1] == before + [Projected(c.instruction)];
    assert texts[..|before| + 2] == (before + [Projected(c.instruction)]) + [Projected(c.display)];
    assert texts == ((before + [Projected(c.instruction)]) + [Projected(c.display)]) + [c.env];
    var instruction := AddString(strings, Projected(c.instruction));
    if instruction.Err? {
      TextsFitUnless(texts[..|before| + 1], texts);
      return Err(instruction.error);
    }
    ghost var first := strings.data;
    var display := AddString(strings, Projected(c.display));
    if display.Err? {
      TextsFitUnless(texts[..|before| + 2], texts);
      return Err(display.error);
    }
    ghost var second := strings.data;
    var env := AddString(strings, c.env);
    if env.Err? { return Err(env.error); }
    StoresGrows(first, strings.data, instruction.value, Projected(c.instruction));
    StoresGrows(second, strings.data, display.value, Projected(c.display));
    return Ok(RawCommand(c.dirId, instruction.value, display.value, env.value, if c.mustRerun then 1 else 0, c.key,
                         c.signature));
  }

  method AddCommands(strings: StringTable, commands: seq<CommandEntry>) returns (r: Result<seq<RawCommand>, WriteError>)
    requires strings.Holds()
    modifies strings
    ensures old(strings.data) <= strings.data
    ensures r.Ok? <==> TextsFit(old(strings.added) + CommandTexts(commands))
    ensures r.Ok? ==> strings.Holds() && strings.added == old(strings.added) + CommandTexts(commands)
    ensures r.Ok? ==> |r.value| == |commands| && CommandsStored(r.value, commands, strings.data)
  {
    hide CommandStored, StringTable.Holds, TextsFit;
    ghost var before := strings.added;
    var raws: seq<RawCommand> := [];
    assert commands[..0] == [] && before + CommandTexts([]) == before;
    for i := 0 to |commands|
      invariant strings.Holds() && old(strings.data) <= strings.data
      invariant strings.added == before + CommandTexts(commands[..i])
      invariant |raws| == i && CommandsStored(raws, commands, strings.data)
    {
      ghost var data := strings.data;
      CommandTextsMore(commands, i, before);
      var raw := AddCommand(strings, commands[i]);
      if raw.Err? {
        TextsFitUnless(before + CommandTexts(commands[..i + 1]), before + CommandTexts(commands));
        return Err(raw.error);
      }
      CommandsStoredGrows(raws, commands, data, strings.data);
      raws := raws + [raw.value];
    }
    assert commands[..|commands|] == commands;
    HoldsFit(strings);
    return Ok(raws);
  }

  lemma CommandTextsMore(commands: seq<CommandEntry>, i: nat, before: seq<seq<Byte>>)
    requires i < |commands|
    ensures before + CommandTexts(commands[..i + 1]) == (before + CommandTexts(commands[..i])) + TextsOf(commands[i])
    ensures before + CommandTexts(commands[..i + 1]) <= before + CommandTexts(commands)
  {
    hide TextsOf;
    assert commands[..i + 1][..i] == commands[..i];
    CommandTextsBegin(commands, i + 1);
    Behind(before, CommandTexts(commands[..i]), TextsOf(commands[i]), CommandTexts(commands));
  }

  // ---------------------------------------------------------------- operands

  ghost predicate Recorded(commands: seq<CommandEntry>, records: seq<seq<Byte>>, table: seq<nat>, data: seq<Byte>) {
    && |records| == |table| <= |commands| && data == Flat(records)
    && forall i :: 0 <= i < |records| ==>
         records[i] == Words(OperandWords(commands[i])) && table[i] == |Flat(records[..i])|
  }

  lemma RecordedMore(commands: seq<CommandEntry>, records: seq<seq<Byte>>, table: seq<nat>, data: seq<Byte>,
                     record: seq<Byte>)
    requires Recorded(commands, records, table, data) && |records| < |commands| &&
      record == Words(OperandWords(commands[|records|]))
    ensures Recorded(commands, records + [record], table + [|data|], data + record)
  {
    hide Flat, Words, OperandWords;
    var records' := records + [record];
    FlatPush(records, record);
    forall i | 0 <= i < |records'|
      ensures records'[i] == Words(OperandWords(commands[i])) && (table + [|data|])[i] == |Flat(records'[..i])| {
      if i < |records| {
        assert records'[..i] == records[..i];
      } else {
        assert records'[..i] == records;
      }
    }
  }

  ghost function OperandRecords(commands: seq<CommandEntry>): (r: seq<seq<Byte>>)
    ensures |r| == |commands| && forall i :: 0 <= i < |r| ==> r[i] == Words(OperandWords(commands[i]))
  {
    seq(|commands|, i requires 0 <= i < |commands| => Words(OperandWords(commands[i])))
  }

  method AddOperands(commands: seq<CommandEntry>)
    returns (table: seq<nat>, data: seq<Byte>, ghost records: seq<seq<Byte>>)
    ensures |records| == |commands| && Recorded(commands, records, table, data)
  {
    hide Words, OperandWords;
    table, data, records := [], [], [];
    for i := 0 to |commands|
      invariant |records| == i && Recorded(commands, records, table, data)
    {
      var record := Words(OperandWords(commands[i]));
      RecordedMore(commands, records, table, data, record);
      table := table + [|data|];
      data := data + record;
      records := records + [record];
    }
  }

  // ---------------------------------------------------------------- edges in order

  function InsertEdge(edges: seq<EdgeEntry>, e: EdgeEntry): (r: seq<EdgeEntry>)
    requires Sorted(edges)
    ensures Sorted(r) && multiset(r) == multiset(edges) + multiset{e}
  {
    if edges == [] then [e]
    else if Before(e, edges[0]) then
      assert multiset([e] + edges) == multiset{e} + multiset(edges);
      [e] + edges
    else
      var rest := InsertEdge(edges[1..], e);
      SortedCons(edges[0], edges[1..], e, rest);
      assert edges == [edges[0]] + edges[1..];
      [edges[0]] + rest
  }

  lemma SortedCons(first: EdgeEntry, old': seq<EdgeEntry>, e: EdgeEntry, rest: seq<EdgeEntry>)
    requires Sorted([first] + old') && !Before(e, first) && Sorted(rest) &&
      multiset(rest) == multiset(old') + multiset{e}
    ensures Sorted([first] + rest)
  {
    forall i | 0 <= i < |rest| ensures Before(first, rest[i]) {
      assert rest[i] in multiset(rest);
      if rest[i] != e {
        assert rest[i] in old';
        var k :| 0 <= k < |old'| && old'[k] == rest[i];
        assert ([first] + old')[k + 1] == rest[i] && ([first] + old')[0] == first;
      }
    }
  }

  function SortEdges(edges: seq<EdgeEntry>): (r: seq<EdgeEntry>)
    ensures Sorted(r) && multiset(r) == multiset(edges)
  {
    if edges == [] then []
    else
      assert edges == edges[..|edges| - 1] + [edges[|edges| - 1]];
      InsertEdge(SortEdges(edges[..|edges| - 1]), edges[|edges| - 1])
  }

  // ---------------------------------------------------------------- the file

  method CopyTo(output: array<Byte>, at: nat, part: seq<Byte>)
    requires at + |part| <= output.Length
    modifies output
    ensures output[..at + |part|] == old(output[..at]) + part
  {
    for k := 0 to |part|
      invariant output[..at] == old(output[..at])
      invariant forall j :: 0 <= j < k ==> output[at + j] == part[j]
    {
      output[at + k] := part[k];
    }
  }

  function HeaderFor(files: nat, commands: nat, edges: nat, dataSize: nat, stringSize: nat, saveTime: nat): Header {
    var commandOffset := HEADER_SIZE + FILE_SIZE * files;
    var edgeOffset := commandOffset + COMMAND_SIZE * commands;
    var tableOffset := edgeOffset + EDGE_SIZE * edges;
    var dataOffset := tableOffset + 4 * commands;
    Header(files, commands, edges, stringSize, HEADER_SIZE, commandOffset, edgeOffset, tableOffset, dataOffset,
           dataOffset + dataSize, saveTime)
  }

  // Every section at its offset, then the checksum of all of them.
  method Assemble(h: Header, files: seq<RawFile>, commands: seq<RawCommand>, edges: seq<EdgeEntry>, table: seq<nat>,
                  data: seq<Byte>, strings: seq<Byte>, checksum: Checksum, ghost l: Layout)
    returns (image: seq<Byte>)
    requires l == Layout(h, files, commands, edges, l.records, table, strings)
    requires LaidOut(l) && data == Flat(l.records) && |checksum(Content(l))| == FOOTER_SIZE
    ensures image == ImageOf(l, checksum)
  {
    hide Flat, Words, EncodeHeader, FileBytes, CommandBytes, EdgeBytes, Content;
    ContentLength(l);
    var footerOffset := h.stringOffset + h.stringTableSize;
    var output := new Byte[footerOffset + FOOTER_SIZE](_ => 0);
    var fileBytes, commandBytes, edgeBytes := Flat(FileBytes(files)), Flat(CommandBytes(commands)),
      Flat(EdgeBytes(edges));
    CopyEntries(output, h, fileBytes, commandBytes, edgeBytes);
    CopyTo(output, h.tableOffset, Words(table));
    CopyTo(output, h.dataOffset, data);
    CopyTo(output, h.stringOffset, strings);
    ContentFlat(l);
    CopyTo(output, footerOffset, checksum(output[..footerOffset]));
    image := output[..];
  }

  method CopyEntries(output: array<Byte>, h: Header, files: seq<Byte>, commands: seq<Byte>, edges: seq<Byte>)
    requires h.fileOffset == HEADER_SIZE && h.commandOffset == h.fileOffset + |files| &&
      h.edgeOffset == h.commandOffset + |commands|
    requires h.tableOffset == h.edgeOffset + |edges| <= output.Length
    modifies output
    ensures output[..h.tableOffset] == EncodeHeader(h) + files + commands + edges
  {
    hide EncodeHeader;
    CopyTo(output, 0, EncodeHeader(h));
    assert output[..0] + EncodeHeader(h) == EncodeHeader(h);
    CopyTo(output, h.fileOffset, files);
    CopyTo(output, h.commandOffset, commands);
    CopyTo(output, h.edgeOffset, edges);
  }

  lemma ContentFlat(l: Layout)
    ensures Content(l) == EncodeHeader(l.header) + Flat(FileBytes(l.files)) + Flat(CommandBytes(l.commands))
      + Flat(EdgeBytes(l.edges)) + Words(l.table) + Flat(l.records) + l.strings
  {
    hide Flat, Words, EncodeHeader, FileBytes, CommandBytes, EdgeBytes;
    var a, b, c, d := EncodeHeader(l.header), Flat(FileBytes(l.files)), Flat(CommandBytes(l.commands)),
      Flat(EdgeBytes(l.edges));
    var e, f, g := Words(l.table), Flat(l.records), l.strings;
    assert a + (b + (c + (d + (e + (f + g))))) == a + b + c + d + e + f + g;
  }

  lemma HeaderLaysOut(l: Layout, idx: Index, data: seq<Byte>, saveTime: nat)
    requires Typed(idx) && FilesStored(l.files, idx.files, l.strings) &&
      CommandsStored(l.commands, idx.commands, l.strings)
    requires |l.files| == |idx.files| && |l.commands| == |idx.commands| == |l.table| && data == Flat(l.records)
    requires l.header == HeaderFor(|l.files|, |l.commands|, |l.edges|, |data|, |l.strings|, saveTime) &&
      saveTime < Pow256(8)
    requires l.header.stringOffset + |l.strings| + FOOTER_SIZE <= MAX_U32
    ensures LaidOut(l)
  {
    hide Flat, Stores, Pow256;
    FilesWide(l, idx);
    CommandsWide(l, idx);
    FlatLength(FileBytes(l.files), FILE_SIZE);
    FlatLength(CommandBytes(l.commands), COMMAND_SIZE);
    FlatLength(EdgeBytes(l.edges), EDGE_SIZE);
  }

  lemma FilesWide(l: Layout, idx: Index)
    requires Typed(idx) && FilesStored(l.files, idx.files, l.strings)
    ensures forall k :: 0 <= k < |l.files| ==> |FileBytes(l.files)[k]| == FILE_SIZE
  {
    hide Stores;
    forall k | 0 <= k < |l.files| ensures |FileBytes(l.files)[k]| == FILE_SIZE {
      assert FileStored(l.files[k], idx.files[k], l.strings) && TypedFile(idx.files[k]);
    }
  }

  lemma CommandsWide(l: Layout, idx: Index)
    requires Typed(idx) && CommandsStored(l.commands, idx.commands, l.strings)
    ensures forall k :: 0 <= k < |l.commands| ==> |CommandBytes(l.commands)[k]| == COMMAND_SIZE
  {
    hide Stores;
    forall k | 0 <= k < |l.commands| ensures |CommandBytes(l.commands)[k]| == COMMAND_SIZE {
      assert CommandStored(l.commands[k], idx.commands[k], l.strings) && TypedCommand(idx.commands[k]);
    }
  }

  // The strings of an index, in the order they are stored.
  ghost function Texts(idx: Index): seq<seq<Byte>> {
    FileTexts(idx.files) + CommandTexts(idx.commands)
  }

  ghost function ImageSize(idx: Index): nat {
    HeaderFor(|idx.files|, |idx.commands|, |idx.edges|, |Flat(OperandRecords(idx.commands))|, 0, 0).stringOffset
    + TableSize(Texts(idx)) + FOOTER_SIZE
  }

  // The bytes of a layout that holds the index. It is refused exactly when one of its strings is longer
  // than a length field can say, or there is more of it than 32-bit offsets reach.
  method SerializeIndex(idx: Index, saveTime: nat, checksum: Checksum)
    returns (r: Result<seq<Byte>, WriteError>, ghost l: Layout)
    requires Typed(idx) && saveTime < Pow256(8) && forall b :: |checksum(b)| == FOOTER_SIZE
    ensures r.Ok? ==> Describes(l, idx) && r.value == ImageOf(l, checksum)
    ensures r.Ok? <==> (forall t :: t in Texts(idx) ==> |t| <= MAX_STRING_LENGTH) && ImageSize(idx) <= MAX_U32
  {
    hide Typed, Flat, StringTable.Holds, ImageOf, Content, Pow256, FilesStored, CommandsStored, LaidOut, TableSize,
      TextsFit, FileTexts, CommandTexts;
    l := Layout(HeaderFor(0, 0, 0, 0, 0, 0), [], [], [], [], [], []);
    var strings := new StringTable();
    SizeBounds(idx);
    assert [] + FileTexts(idx.files) == FileTexts(idx.files);
    var files := AddFiles(strings, idx.files);
    if files.Err? {
      TextsFitUnless(FileTexts(idx.files), Texts(idx));
      return Err(files.error), l;
    }
    ghost var before := strings.data;
    var commands := AddCommands(strings, idx.commands);
    if commands.Err? { return Err(commands.error), l; }
    HoldsFit(strings);
    FilesStoredGrows(files.value, idx.files, before, strings.data);
    var table, data, records := AddOperands(idx.commands);
    assert records == OperandRecords(idx.commands);
    var edges := SortEdges(idx.edges);
    assert |edges| == |multiset(edges)| == |multiset(idx.edges)| == |idx.edges|;
    var h := HeaderFor(|files.value|, |commands.value|, |edges|, |data|, |strings.data|, saveTime);
    if h.stringOffset + |strings.data| + FOOTER_SIZE > MAX_U32 { return Err(TooLarge), l; }
    l := Layout(h, files.value, commands.value, edges, records, table, strings.data);
    HeaderLaysOut(l, idx, data, saveTime);
    AllDescribed(l, idx, data);
    var image := Assemble(h, files.value, commands.value, edges, table, data, strings.data, checksum, l);
    return Ok(image), l;
  }

  lemma SizeBounds(idx: Index)
    ensures TextsFit(Texts(idx)) <==>
      (forall t :: t in Texts(idx) ==> |t| <= MAX_STRING_LENGTH) && TableSize(Texts(idx)) <= MAX_U32
    ensures TableSize(Texts(idx)) <= ImageSize(idx)
  {
  }

  lemma AllDescribed(l: Layout, idx: Index, data: seq<Byte>)
    requires FilesStored(l.files, idx.files, l.strings) && CommandsStored(l.commands, idx.commands, l.strings) &&
      LaidOut(l)
    requires |l.files| == |idx.files| && |l.commands| == |idx.commands| == |l.records| &&
      Recorded(idx.commands, l.records, l.table, data)
    requires Sorted(l.edges) && multiset(l.edges) == multiset(idx.edges)
    ensures Describes(l, idx)
  {
    hide Flat, Words, OperandWords, FileStored, CommandStored, LaidOut, Sorted;
  }
}

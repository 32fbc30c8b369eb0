/** From an index to the bytes of its record, and from there to an index with the paths of its files again. */
module IndexRoundTrip {
  import opened Bytes
  import opened Options
  import opened StringTables
  import opened IndexFormat
  import opened IndexReader
  import opened IndexWriter
  import opened IndexSerializer
  import IndexPaths

  // A node id keeps its kind in the top two of 32 bits; kind 1 is a command, and positions count from one.
  const KIND := 0x4000_0000

  function ParentOf(id: nat): Option<nat> {
    if id == 0 || id / KIND == 1 || id % KIND == 0 then None else Some(id % KIND - 1)
  }

  lemma ParentIsAt(kind: nat, place: nat)
    requires kind < 4 && place < KIND
    ensures ParentOf(kind * KIND + place) == if kind == 1 || place == 0 then None else Some(place - 1)
  {
  }

  function TextOf(bytes: seq<Byte>): string {
    seq(|bytes|, i requires 0 <= i < |bytes| => bytes[i] as char)
  }

  function NodesOf(files: seq<FileEntry>): (r: seq<IndexPaths.Node>)
    ensures |r| == |files|
    ensures forall i :: 0 <= i < |r| ==> r[i] == IndexPaths.Node(ParentOf(files[i].parentId), TextOf(files[i].name))
  {
    seq(|files|, i requires 0 <= i < |files| => IndexPaths.Node(ParentOf(files[i].parentId), TextOf(files[i].name)))
  }

  ghost predicate PathsOf(files: seq<FileEntry>, paths: seq<string>) {
    && |paths| == |files|
    && forall i: nat, d: nat :: i < |files| && IndexPaths.Grounded(NodesOf(files), i, d) ==>
         paths[i] == IndexPaths.PathAt(NodesOf(files), i, d)
  }

  datatype Loaded = Loaded(index: Index, paths: seq<string>)

  method Load(b: seq<Byte>, checksum: Checksum) returns (r: Result<Loaded, ReadError>)
    ensures r.Ok? ==> Loads(b, checksum, r.value.index) && PathsOf(r.value.index.files, r.value.paths)
    ensures r.Ok? <==> Sealed(b, checksum) && Sound(b)
  {
    hide Sealed, Sound, ReadsAs;
    var index := ReadIndex(b, checksum);
    if index.Err? { return Err(index.error); }
    var nodes := NodesOf(index.value.files);
    var paths := new string[|nodes|](_ => "");
    IndexPaths.ComputePaths(nodes, paths);
    return Ok(Loaded(index.value, paths[..]));
  }

  predicate TextsAreKept(idx: Index) {
    forall i :: 0 <= i < |idx.commands| ==>
      |idx.commands[i].instruction| <= MAX_STRING_LENGTH && |idx.commands[i].display| <= MAX_STRING_LENGTH
  }

  // An index is saved unless it is too large, and what is saved always loads: the same files with their
  // paths, the same edges in order and, exactly when none of their texts is too long, the same commands.
  method SaveAndLoad(idx: Index, saveTime: nat, checksum: Checksum) returns (r: Result<Loaded, WriteError>)
    requires Recordable(idx) && saveTime < Pow256(8) && forall b :: |checksum(b)| == FOOTER_SIZE
    ensures r.Ok? <==> (forall t :: t in Texts(idx) ==> |t| <= MAX_STRING_LENGTH) && ImageSize(idx) <= MAX_U32
    ensures r.Ok? ==> var back := r.value.index;
      && back.files == idx.files && PathsOf(idx.files, r.value.paths)
      && Sorted(back.edges) && multiset(back.edges) == multiset(idx.edges)
      && (back.commands == idx.commands <==> TextsAreKept(idx))
  {
    hide Texts, ImageSize, Pow256, Loads, Sealed, Sound, Describes, Content, ImageOf, PathsOf, Recordable, Sorted;
    RecordableTyped(idx);
    var image, l := SerializeIndex(idx, saveTime, checksum);
    if image.Err? { return Err(image.error); }
    var loaded := Load(image.value, checksum);
    WrittenOpens(l, idx, checksum);
    LoadsIff(image.value, checksum);
    WrittenReadsBack(l, idx, checksum, loaded.value.index);
    return Ok(loaded.value);
  }

  lemma WrittenOpens(l: Layout, idx: Index, checksum: Checksum)
    requires Describes(l, idx) && Recordable(idx) && |checksum(Content(l))| == FOOTER_SIZE
    ensures exists back :: Loads(ImageOf(l, checksum), checksum, back)
  {
    hide Describes, Content, Recordable, Open, ReadsAs, Sealed;
    WrittenReads(l, idx, checksum);
    OpenIff(ImageOf(l, checksum), checksum);
    var kept := seq(|idx.commands|, i requires 0 <= i < |idx.commands| => IndexWriter.Kept(idx.commands[i]));
    assert Loads(ImageOf(l, checksum), checksum, Index(idx.files, kept, l.edges));
  }
}

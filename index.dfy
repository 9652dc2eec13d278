/** The folder index of the dumper (Dumper.py `_dumpFolder`, `_loadFolder`):
    one `objid:meta` line per child, kept in the `.objects` file or, in metadata
    mode, after an `[Objects]` line in the folder's `.metadata` file; the reader
    that turns it back into a dictionary from id to meta type; and the round
    trips between the two. */
module IndexFiles {
  import opened Wrappers
  import opened Text
  import opened Dicts
  import opened SyncPolicy
  import opened PropertyCodec

  /** An entry of the list `_dumpObjects` returns: `(objid, meta, updated, objts)`. */
  datatype IndexEntry = IndexEntry(id: string, meta: string, updated: bool, ts: Timestamp)

  function EntryId(e: IndexEntry): string
  {
    e.id
  }

  function IndexLine(e: IndexEntry): string
  {
    e.id + ":" + e.meta + "\n"
  }

  function IndexLines(es: seq<IndexEntry>): (ls: seq<string>)
    ensures |ls| == |es|
    ensures forall k :: 0 <= k < |es| ==> ls[k] == IndexLine(es[k])
  {
    seq(|es|, k requires 0 <= k < |es| => IndexLine(es[k]))
  }

  /** The index text: the entries' lines, in the given order. */
  function IndexText(es: seq<IndexEntry>): string
  {
    Concat(IndexLines(es))
  }

  /** Writing one more entry appends its line to the index text. */
  lemma IndexTextStep(sorted: seq<IndexEntry>, i: nat)
    requires i < |sorted|
    ensures IndexText(sorted[..i + 1]) == IndexText(sorted[..i]) + IndexLine(sorted[i])
  {
    assert sorted[..i + 1][..i] == sorted[..i];
    assert IndexLines(sorted[..i + 1]) == IndexLines(sorted[..i]) + [IndexLine(sorted[i])];
    ConcatAppend(IndexLines(sorted[..i]), [IndexLine(sorted[i])]);
  }

  /** The name of the index file in properties mode. */
  function ObjectsPath(fspath: string): string
  {
    fspath + ".objects"
  }

  /** `objid, meta = line[:-1].split(':')`: a line that does not split into
      exactly two pieces raises `ValueError`. */
  function ParseIndexLine(line: string): Result<(string, string)>
  {
    var parts := Split(DropLast(line), ':');
    if |parts| == 2 then Ok((parts[0], parts[1]))
    else Err("ValueError: wrong number of values to unpack")
  }

  /** The reading loop, `objs[objid] = meta` line by line, from the dictionary
      built so far; the first malformed line ends it with its exception. */
  function ParseIndexFrom(lines: seq<string>, acc: Dict<string>): Result<Dict<string>>
    decreases |lines|
  {
    if lines == [] then Ok(acc)
    else
      match ParseIndexLine(lines[0])
      case Err(e) => Err(e)
      case Ok(pair) => ParseIndexFrom(lines[1..], Put(acc, pair.0, pair.1))
  }

  /** The reader builds a well-formed dictionary. */
  lemma {:induction false} ParseIndexValid(lines: seq<string>, acc: Dict<string>)
    requires Valid(acc)
    ensures ParseIndexFrom(lines, acc).Ok? ==> Valid(ParseIndexFrom(lines, acc).value)
    decreases |lines|
  {
    if lines != [] && ParseIndexLine(lines[0]).Ok? {
      var pair := ParseIndexLine(lines[0]).value;
      PutValid(acc, pair.0, pair.1);
      ParseIndexValid(lines[1..], Put(acc, pair.0, pair.1));
    }
  }

  /** Neither a separator nor a newline: a field that survives `id:meta` framing. */
  predicate SafeField(s: string)
  {
    ':' !in s && '\n' !in s
  }

  predicate SafeEntries(es: seq<IndexEntry>)
  {
    forall k :: 0 <= k < |es| ==> SafeField(es[k].id) && SafeField(es[k].meta)
  }

  /** A written index line is one line, and reads back as its id and meta type. */
  lemma IndexLineParses(e: IndexEntry)
    requires SafeField(e.id) && SafeField(e.meta)
    ensures IsLine(IndexLine(e))
    ensures ParseIndexLine(IndexLine(e)) == Ok((e.id, e.meta))
  {
    var body := e.id + ":" + e.meta;
    assert IndexLine(e) == body + "\n";
    LineEnd(body);
    assert DropLast(IndexLine(e)) == body;
    assert body == Join([e.id, e.meta], [':']);
    SplitJoin([e.id, e.meta], ':');
  }

  /** The `(id, meta)` pairs the reader stores for the entries, in order. */
  function Pairs(es: seq<IndexEntry>): (ps: seq<(string, string)>)
    ensures |ps| == |es|
    ensures forall k :: 0 <= k < |es| ==> ps[k] == (es[k].id, es[k].meta)
  {
    seq(|es|, k requires 0 <= k < |es| => (es[k].id, es[k].meta))
  }

  lemma {:induction false} ParseIndexLines(es: seq<IndexEntry>, acc: Dict<string>)
    requires SafeEntries(es)
    ensures ParseIndexFrom(IndexLines(es), acc) == Ok(PutAll(acc, Pairs(es)))
    decreases |es|
  {
    if es != [] {
      IndexLineParses(es[0]);
      assert IndexLines(es)[1..] == IndexLines(es[1..]);
      assert Pairs(es)[1..] == Pairs(es[1..]);
      ParseIndexLines(es[1..], Put(acc, es[0].id, es[0].meta));
    }
  }

  lemma IndexLinesAreLines(es: seq<IndexEntry>)
    requires SafeEntries(es)
    ensures forall k :: 0 <= k < |IndexLines(es)| ==> IsLine(IndexLines(es)[k])
  {
    forall k | 0 <= k < |es| ensures IsLine(IndexLines(es)[k]) {
      IndexLineParses(es[k]);
    }
  }

  /** The dictionary holds exactly the listed ids, each with its meta type, when
      no id is listed twice. */
  ghost predicate IndexOf(d: Dict<string>, es: seq<IndexEntry>)
  {
    && Valid(d)
    && (forall k :: k in d.values <==> exists j :: 0 <= j < |es| && es[j].id == k)
    && (forall j :: 0 <= j < |es| ==> es[j].id in d.values && d.values[es[j].id] == es[j].meta)
  }

  predicate UniqueIds(es: seq<IndexEntry>)
  {
    forall i, j :: 0 <= i < j < |es| ==> es[i].id != es[j].id
  }

  lemma PutAllIndex(es: seq<IndexEntry>)
    requires UniqueIds(es)
    ensures IndexOf(PutAll(Empty<string>(), Pairs(es)), es)
  {
    var ps := Pairs(es);
    var d := PutAll(Empty<string>(), ps);
    PutAllValid(Empty<string>(), ps);
    forall k ensures k in d.values <==> exists j :: 0 <= j < |es| && es[j].id == k {
      PutAllKeys(Empty<string>(), ps, k);
      if exists j :: 0 <= j < |ps| && ps[j].0 == k {
        var j :| 0 <= j < |ps| && ps[j].0 == k;
        assert es[j].id == k;
      }
    }
    forall j | 0 <= j < |es| ensures es[j].id in d.values && d.values[es[j].id] == es[j].meta {
      PutAllAgree(Empty<string>(), ps, j, es[j].id, es[j].meta);
    }
  }

  /** Round trip of the `.objects` file: reading back the index text gives the
      dictionary of the written entries, id to meta type. */
  lemma ObjectsRoundTrip(es: seq<IndexEntry>)
    requires SafeEntries(es) && UniqueIds(es)
    ensures ParseIndexFrom(Lines(IndexText(es)), Empty()).Ok?
    ensures IndexOf(ParseIndexFrom(Lines(IndexText(es)), Empty()).value, es)
  {
    IndexLinesAreLines(es);
    LinesConcat(IndexLines(es));
    ParseIndexLines(es, Empty());
    PutAllIndex(es);
  }

  // ---------------------------------------------------------------------
  // The folder's own metadata file
  // ---------------------------------------------------------------------

  const ObjectsHeader := "[Objects]\n"

  /** The exception of `metafile.next()`. */
  const NoNextLine := "AttributeError: '_io.TextIOWrapper' object has no attribute 'next'"

  /** What `_dumpFolder` writes to the folder's metadata file: the header, the
      folder's properties and, in metadata mode, a blank line, the `[Objects]`
      line and the index. */
  function FolderMetadataText(useMetadataFile: bool, sheet: PropertySheet, index: seq<IndexEntry>): string
  {
    MetadataHeader(useMetadataFile) + Concat(PropertyLines(sheet))
      + (if useMetadataFile then "\n" + ObjectsHeader + IndexText(index) else "")
  }

  /** The properties and the index of a metadata-mode folder file as the readers
      see them: `_openMetadataFile` skips the header, `_readProperties` reads up
      to the blank line, `next(metafile)` skips one line and the remaining lines
      are the index. When no line is left, the fallback `metafile.next()` of the
      bare `except` raises, Python 3 files having no such method. */
  function ReadFolderMetadata(text: string): Result<(Dict<RawProperty>, Dict<string>)>
  {
    var (props, rest) := ReadFrom(SkipHeader(Lines(text)), Empty());
    if rest == [] then Err(NoNextLine)
    else
      match ParseIndexFrom(rest[1..], Empty())
      case Err(e) => Err(e)
      case Ok(objs) => Ok((props, objs))
  }

  /** The lines of a metadata-mode folder file. */
  lemma FolderMetadataLines(sheet: PropertySheet, index: seq<IndexEntry>)
    requires Writable(sheet) && SafeEntries(index)
    ensures Lines(FolderMetadataText(true, sheet, index))
         == [MetadataHeader(true)] + (PropertyLines(sheet) + ["\n"] + ([ObjectsHeader] + IndexLines(index)))
  {
    WrittenLinesAreLines(sheet);
    IndexLinesAreLines(index);
    assert IsLine(ObjectsHeader) by { LineEnd("[Objects]"); }
    SectionLines(MetadataHeader(true), PropertyLines(sheet), ObjectsHeader, IndexLines(index));
  }

  /** A header line, a block of lines, a blank line, a second header line and
      a second block read back as those lines. */
  lemma SectionLines(h: string, ps: seq<string>, o: string, idx: seq<string>)
    requires IsLine(h) && IsLine(o)
    requires forall k :: 0 <= k < |ps| ==> IsLine(ps[k])
    requires forall k :: 0 <= k < |idx| ==> IsLine(idx[k])
    ensures Lines(h + Concat(ps) + ("\n" + o + Concat(idx))) == [h] + (ps + ["\n"] + ([o] + idx))
  {
    var all := [h] + (ps + ["\n"] + ([o] + idx));
    SectionsAreLines(h, ps, o, idx);
    LinesConcat(all);
    SectionConcat(h, ps, o, idx);
  }

  lemma SectionsAreLines(h: string, ps: seq<string>, o: string, idx: seq<string>)
    requires IsLine(h) && IsLine(o)
    requires forall k :: 0 <= k < |ps| ==> IsLine(ps[k])
    requires forall k :: 0 <= k < |idx| ==> IsLine(idx[k])
    ensures var all := [h] + (ps + ["\n"] + ([o] + idx));
      forall k :: 0 <= k < |all| ==> IsLine(all[k])
  {
    var all := [h] + (ps + ["\n"] + ([o] + idx));
    assert IsLine("\n") by { LineEnd(""); }
    forall k | 0 <= k < |all| ensures IsLine(all[k]) {
      if k >= 1 + |ps| + 2 {
        assert all[k] == idx[k - 1 - |ps| - 2];
      } else if k >= 1 && k < 1 + |ps| {
        assert all[k] == ps[k - 1];
      }
    }
  }

  lemma SectionConcat(h: string, ps: seq<string>, o: string, idx: seq<string>)
    ensures Concat([h] + (ps + ["\n"] + ([o] + idx))) == h + Concat(ps) + ("\n" + o + Concat(idx))
  {
    var a, b := Concat(ps), Concat(idx);
    ConcatAppend([h], ps + ["\n"] + ([o] + idx));
    ConcatAppend(ps + ["\n"], [o] + idx);
    ConcatAppend(ps, ["\n"]);
    ConcatAppend([o], idx);
    assert Concat([h]) == h;
    assert Concat(["\n"]) == "\n";
    assert Concat([o]) == o;
    assert h + ((a + "\n") + (o + b)) == h + a + ("\n" + o + b);
  }

  /** Round trip of a metadata-mode folder file: it reads back as the dictionary
      of the written properties and the dictionary of the written entries. */
  lemma FolderMetadataRoundTrip(sheet: PropertySheet, index: seq<IndexEntry>)
    requires Writable(sheet) && SafeEntries(index) && UniqueIds(index)
    ensures ReadFolderMetadata(FolderMetadataText(true, sheet, index)).Ok?
    ensures var (props, objs) := ReadFolderMetadata(FolderMetadataText(true, sheet, index)).value;
      props == ReadBackDict(sheet, [ObjectsHeader] + IndexLines(index)) && IndexOf(objs, index)
  {
    var tail := [ObjectsHeader] + IndexLines(index);
    FolderMetadataLines(sheet, index);
    WrittenLinesAreLines(sheet);
    ReadSection(PropertyLines(sheet), tail, Empty());
    assert PropertyLines(sheet) + ["\n"] + tail == SkipHeader(Lines(FolderMetadataText(true, sheet, index)));
    assert tail[1..] == IndexLines(index);
    ParseIndexLines(index, Empty());
    PutAllIndex(index);
  }

  /** In properties mode the folder file holds the header and the properties,
      and `_readProperties` reads it to the end. */
  lemma FolderPropertiesRoundTrip(sheet: PropertySheet)
    requires Writable(sheet)
    ensures ReadFrom(SkipHeader(Lines(FolderMetadataText(false, sheet, []))), Empty())
         == (PutAll(Empty(), ParseAll(PropertyLines(sheet))), [])
  {
    var ps := PropertyLines(sheet);
    WrittenLinesAreLines(sheet);
    assert FolderMetadataText(false, sheet, []) == MetadataHeader(false) + Concat(ps);
    LinesPrepend(MetadataHeader(false), Concat(ps));
    LinesConcat(ps);
    ReadToEnd(ps, Empty());
  }
}

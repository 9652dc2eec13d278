/** One level of the dump walk of the dumper (Dumper.py `_dumpFolder`,
    `_dumpObjects`, `_dumpObject`) as functions of the state before it: the file
    system, the `dumped` log and the `dump_conflicts` list. The type-specific
    dumpers — the nested `_dumpFolder` of a sub-folder among them — are opaque:
    `Dumpers` tells, for a target path, a child and the file system, what the
    dumper leaves behind and whether it raises. The folder specification uses
    the corrected pieces of the source's defects: `PreviousIndex` (the existence
    test of `.objects`), `DumpTarget` (the metadata extension stripped with
    `os.path.splitext`) and `RemoveEntry` (a `-` entry removed only as a
    sidecar); the as-written behaviour of each is modelled and exhibited beside
    it. */
module DumpEngine {
  import opened Wrappers
  import opened Text
  import opened Sorting
  import opened Dicts
  import opened PropertyCodec
  import opened Handlers
  import opened SyncPolicy
  import opened Files
  import opened IndexFiles

  /** A child as `folder.objectValues()` yields it: its id, its meta type and the
      timestamp `_getObjts` gives it. */
  datatype Child = Child(id: string, meta: string, ts: Timestamp)

  /** The folder being dumped: its properties and proxy roles, and its children
      in `objectValues()` order. */
  datatype Folder = Folder(sheet: PropertySheet, children: seq<Child>)

  /** What a type-specific dumper did: the file system it left and the exception
      it raised, if any. */
  datatype Outcome = Outcome(fs: Fs, raised: Option<Exc>)

  type Dumpers = (string, Child, Fs) -> Outcome

  /** The entries of `self.dumped`: a folder path, an object dumped this time, or
      the exception that stopped an object's dumper. */
  datatype DumpLog =
    | FolderDumped(path: string)
    | ObjectDumped(ts: Timestamp, meta: string, path: string)
    | DumpFailed(path: string, msg: string)

  /** An entry of `self.dump_conflicts`: the main file, the object's and the file's
      timestamps. */
  datatype DumpConflict = DumpConflict(path: string, objTs: Timestamp, fileTs: Timestamp)

  /** The dumper's settings during a dump. */
  datatype Config = Config(useMetadataFile: bool, dumpAll: bool, lastDump: Option<Timestamp>, lastLoad: Option<Timestamp>)

  datatype DumpState = DumpState(fs: Fs, log: seq<DumpLog>, conflicts: seq<DumpConflict>)

  // ---------------------------------------------------------------------
  // One object (_dumpObject)
  // ---------------------------------------------------------------------

  datatype ObjectResult = ObjectResult(st: DumpState, ok: bool, raised: Option<Exc>)

  /** `_dumpObject`: a `ConflictError` propagates, any other exception is logged
      and reported as failure. */
  function DumpObject(st: DumpState, target: string, c: Child, run: Dumpers): (r: ObjectResult)
    ensures r.st.fs == run(target, c, st.fs).fs && r.st.conflicts == st.conflicts
    ensures r.ok <==> run(target, c, st.fs).raised.None?
    ensures r.raised.Some? <==> run(target, c, st.fs).raised == Some(ConflictError)
    ensures r.raised.Some? ==> r.raised == Some(ConflictError)
    ensures !r.ok && r.raised.None? ==>
      r.st.log == st.log + [DumpFailed(target, run(target, c, st.fs).raised.value.msg)]
    ensures r.ok || r.raised.Some? ==> r.st.log == st.log
  {
    var out := run(target, c, st.fs);
    match out.raised
    case None => ObjectResult(st.(fs := out.fs), true, None)
    case Some(ConflictError) => ObjectResult(st.(fs := out.fs), false, Some(ConflictError))
    case Some(Error(m)) => ObjectResult(DumpState(out.fs, st.log + [DumpFailed(target, m)], st.conflicts), false, None)
  }

  // ---------------------------------------------------------------------
  // The children (_dumpObjects)
  // ---------------------------------------------------------------------

  /** What one child contributes: the new state, its entry for the index (none
      for an unsupported type or a dumper that raised), and the exception that
      propagates. */
  datatype Step = Step(st: DumpState, entry: Option<IndexEntry>, raised: Option<Exc>)

  /** The main path and the decision for a supported child. */
  function ChildPath(cfg: Config, fspath: string, c: Child): string
  {
    FSPathObj(fspath, c.id, Lookup(c.meta).ext, cfg.useMetadataFile)
  }

  function ChildAction(cfg: Config, fs: Fs, fspath: string, c: Child): Action
  {
    DumpAction(cfg.dumpAll, Lookup(c.meta).ext == ExtDir, MTime(fs, ChildPath(cfg, fspath, c)), c.ts,
               cfg.lastDump, cfg.lastLoad)
  }

  /** The body of the loop of `_dumpObjects` for one child. */
  function DumpChild(cfg: Config, st: DumpState, fspath: string, c: Child, run: Dumpers): Step
  {
    var h := Lookup(c.meta);
    if !h.hasDumper then Step(st, None, None)
    else
      var p := ChildPath(cfg, fspath, c);
      var kept := Some(IndexEntry(c.id, c.meta, false, c.ts));
      match ChildAction(cfg, st.fs, fspath, c)
      case Skip => Step(st, kept, None)
      case Conflict => Step(st.(conflicts := st.conflicts + [DumpConflict(p, c.ts, st.fs[p].mtime)]), kept, None)
      case Write =>
        var r := DumpObject(st, DumpTarget(fspath, c.id, h.ext, cfg.useMetadataFile), c, run);
        Step(r.st, if r.ok then Some(IndexEntry(c.id, c.meta, true, c.ts)) else None, r.raised)
  }

  /** What one child does: an unsupported child changes nothing; an index entry
      belongs to a supported child, and is marked updated exactly when its dumper
      ran and returned; a child that is not written leaves the file system as it
      was; a skipped child records nothing, a conflicting one records the two
      timestamps; a supported child is left out of the index only when its dumper
      raised. */
  lemma DumpChildEffects(cfg: Config, st: DumpState, fspath: string, c: Child, run: Dumpers)
    ensures var s := DumpChild(cfg, st, fspath, c, run);
      var h := Lookup(c.meta);
      var a := ChildAction(cfg, st.fs, fspath, c);
      var target := DumpTarget(fspath, c.id, h.ext, cfg.useMetadataFile);
      && (!h.hasDumper ==> s == Step(st, None, None))
      && (s.entry.Some? ==> h.hasDumper && s.entry.value.id == c.id && s.entry.value.meta == c.meta
                            && s.entry.value.ts == c.ts)
      && (h.hasDumper && a != Write ==> s.st.fs == st.fs && s.st.log == st.log && s.raised.None?
                                        && s.entry == Some(IndexEntry(c.id, c.meta, false, c.ts)))
      && (h.hasDumper && a == Skip ==> s.st == st)
      && (h.hasDumper && a == Conflict ==>
            s.st.conflicts == st.conflicts + [DumpConflict(ChildPath(cfg, fspath, c), c.ts, st.fs[ChildPath(cfg, fspath, c)].mtime)])
      && (h.hasDumper && a == Write ==> s.st.fs == run(target, c, st.fs).fs
                                        && (s.entry.Some? <==> run(target, c, st.fs).raised.None?)
                                        && (s.entry.Some? ==> s.entry.value.updated))
      && (s.raised.Some? ==> s.raised == Some(ConflictError))
  {
  }

  /** The state, the index entries and the exception after the loop has visited
      `children`; the loop stops at the first exception that propagates. */
  datatype Pass = Pass(st: DumpState, dumped: seq<IndexEntry>, raised: Option<Exc>)

  function DumpObjectsSpec(cfg: Config, st0: DumpState, fspath: string, children: seq<Child>, run: Dumpers): Pass
    decreases |children|
  {
    if children == [] then Pass(st0, [], None)
    else
      var p := DumpObjectsSpec(cfg, st0, fspath, children[..|children| - 1], run);
      if p.raised.Some? then p
      else
        var s := DumpChild(cfg, p.st, fspath, children[|children| - 1], run);
        Pass(s.st, p.dumped + (if s.entry.Some? then [s.entry.value] else []), s.raised)
  }

  /** One more child: it is visited unless an earlier one raised. */
  lemma DumpObjectsStep(cfg: Config, st0: DumpState, fspath: string, children: seq<Child>, run: Dumpers, i: nat)
    requires i < |children|
    ensures var p := DumpObjectsSpec(cfg, st0, fspath, children[..i], run);
      var s := DumpChild(cfg, p.st, fspath, children[i], run);
      DumpObjectsSpec(cfg, st0, fspath, children[..i + 1], run)
        == if p.raised.Some? then p else Pass(s.st, p.dumped + (if s.entry.Some? then [s.entry.value] else []), s.raised)
  {
    assert children[..i + 1][..i] == children[..i];
  }

  /** Once an exception propagates, the loop visits no further child. */
  lemma {:induction false} DumpObjectsStops(cfg: Config, st0: DumpState, fspath: string, children: seq<Child>,
                                            run: Dumpers, i: nat)
    requires i <= |children|
    requires DumpObjectsSpec(cfg, st0, fspath, children[..i], run).raised.Some?
    ensures DumpObjectsSpec(cfg, st0, fspath, children, run) == DumpObjectsSpec(cfg, st0, fspath, children[..i], run)
    decreases |children|
  {
    if i < |children| {
      var init := children[..|children| - 1];
      assert init[..i] == children[..i];
      DumpObjectsStops(cfg, st0, fspath, init, run, i);
    } else {
      assert children[..i] == children;
    }
  }

  /** Every index entry is that of a supported child, with its id, meta type and
      timestamp: unsupported children never reach the index. */
  lemma {:induction false} DumpedFromChildren(cfg: Config, st0: DumpState, fspath: string, children: seq<Child>,
                                              run: Dumpers, k: nat)
    requires k < |DumpObjectsSpec(cfg, st0, fspath, children, run).dumped|
    ensures var e := DumpObjectsSpec(cfg, st0, fspath, children, run).dumped[k];
      exists j :: 0 <= j < |children| && children[j].id == e.id && children[j].meta == e.meta
                  && children[j].ts == e.ts && Lookup(children[j].meta).hasDumper
    decreases |children|
  {
    var n := |children|;
    var init := children[..n - 1];
    var p := DumpObjectsSpec(cfg, st0, fspath, init, run);
    var e := DumpObjectsSpec(cfg, st0, fspath, children, run).dumped[k];
    if k < |p.dumped| {
      DumpedFromChildren(cfg, st0, fspath, init, run, k);
      var j :| 0 <= j < |init| && init[j].id == e.id && init[j].meta == e.meta
               && init[j].ts == e.ts && Lookup(init[j].meta).hasDumper;
      assert children[j] == init[j];
    } else {
      DumpChildEffects(cfg, p.st, fspath, children[n - 1], run);
    }
  }

  /** The supported children, in order. */
  function Supported(children: seq<Child>): (r: seq<Child>)
    ensures |r| <= |children|
  {
    if children == [] then []
    else
      var last := children[|children| - 1];
      Supported(children[..|children| - 1]) + (if Lookup(last.meta).hasDumper then [last] else [])
  }

  /** The index entries name the children one for one, in order. */
  predicate SameIds(es: seq<IndexEntry>, cs: seq<Child>)
  {
    |es| == |cs| && forall k :: 0 <= k < |es| ==> es[k].id == cs[k].id
  }

  /** When no dumper raises, the loop lists every supported child, in order, and
      nothing else: the index enumerates exactly the folder's supported
      children. */
  lemma {:induction false} AllSupportedListed(cfg: Config, st0: DumpState, fspath: string, children: seq<Child>,
                                              run: Dumpers)
    requires forall t, c, fs :: run(t, c, fs).raised.None?
    ensures DumpObjectsSpec(cfg, st0, fspath, children, run).raised.None?
    ensures SameIds(DumpObjectsSpec(cfg, st0, fspath, children, run).dumped, Supported(children))
    decreases |children|
  {
    if children != [] {
      var n := |children|;
      var init := children[..n - 1];
      var last := children[n - 1];
      AllSupportedListed(cfg, st0, fspath, init, run);
      var p := DumpObjectsSpec(cfg, st0, fspath, init, run);
      var s := DumpChild(cfg, p.st, fspath, last, run);
      ChildListed(cfg, p.st, fspath, last, run);
      ListedStep(p.dumped, Supported(init), s.entry, last, Lookup(last.meta).hasDumper);
    }
  }

  /** When no dumper raises, one child propagates nothing and is listed exactly
      when it is supported. */
  lemma ChildListed(cfg: Config, st: DumpState, fspath: string, c: Child, run: Dumpers)
    requires forall t, c, fs :: run(t, c, fs).raised.None?
    ensures var s := DumpChild(cfg, st, fspath, c, run);
      && s.raised.None?
      && (s.entry.Some? <==> Lookup(c.meta).hasDumper)
      && (s.entry.Some? ==> s.entry.value.id == c.id)
  {
    DumpChildEffects(cfg, st, fspath, c, run);
    var target := DumpTarget(fspath, c.id, Lookup(c.meta).ext, cfg.useMetadataFile);
    assert run(target, c, st.fs).raised.None?;
  }

  lemma ListedStep(es: seq<IndexEntry>, cs: seq<Child>, e: Option<IndexEntry>, last: Child, keep: bool)
    requires SameIds(es, cs)
    requires e.Some? == keep && (e.Some? ==> e.value.id == last.id)
    ensures SameIds(es + (if e.Some? then [e.value] else []), cs + (if keep then [last] else []))
  {
    if !keep {
      assert es + [] == es;
      assert cs + [] == cs;
    }
  }

  /** No child is rewritten when every supported child's decision, taken on the
      file system as it is, is to skip or to report a conflict — as when no
      object changed since the last dump: the file system is left as it was. */
  lemma {:induction false} NothingDueNothingWritten(cfg: Config, st0: DumpState, fspath: string, children: seq<Child>,
                                                    run: Dumpers)
    requires forall j :: 0 <= j < |children| && Lookup(children[j].meta).hasDumper ==>
      ChildAction(cfg, st0.fs, fspath, children[j]) != Write
    ensures DumpObjectsSpec(cfg, st0, fspath, children, run).st.fs == st0.fs
    ensures DumpObjectsSpec(cfg, st0, fspath, children, run).raised.None?
    ensures |DumpObjectsSpec(cfg, st0, fspath, children, run).dumped| == |Supported(children)|
    decreases |children|
  {
    if children != [] {
      var n := |children|;
      var init := children[..n - 1];
      forall j | 0 <= j < |init| && Lookup(init[j].meta).hasDumper
        ensures ChildAction(cfg, st0.fs, fspath, init[j]) != Write
      {
        assert init[j] == children[j];
      }
      NothingDueNothingWritten(cfg, st0, fspath, init, run);
      var p := DumpObjectsSpec(cfg, st0, fspath, init, run);
      DumpChildEffects(cfg, p.st, fspath, children[n - 1], run);
    }
  }

  /** No two children of a folder share an id. */
  predicate DistinctChildIds(children: seq<Child>)
  {
    forall i, j :: 0 <= i < j < |children| ==> children[i].id != children[j].id
  }

  /** The index entries of a folder whose children have distinct ids have
      distinct ids. */
  lemma {:induction false} DumpedUnique(cfg: Config, st0: DumpState, fspath: string, children: seq<Child>, run: Dumpers)
    requires DistinctChildIds(children)
    ensures UniqueIds(DumpObjectsSpec(cfg, st0, fspath, children, run).dumped)
    decreases |children|
  {
    if children != [] {
      var n := |children|;
      var init := children[..n - 1];
      DistinctInit(children);
      DumpedUnique(cfg, st0, fspath, init, run);
      var p := DumpObjectsSpec(cfg, st0, fspath, init, run);
      if p.raised.None? {
        var s := DumpChild(cfg, p.st, fspath, children[n - 1], run);
        DumpChildEffects(cfg, p.st, fspath, children[n - 1], run);
        forall i | 0 <= i < |p.dumped| ensures p.dumped[i].id != children[n - 1].id {
          DumpedFromChildren(cfg, st0, fspath, init, run, i);
          var m :| 0 <= m < |init| && init[m].id == p.dumped[i].id && init[m].meta == p.dumped[i].meta
                   && init[m].ts == p.dumped[i].ts && Lookup(init[m].meta).hasDumper;
          assert children[m] == init[m];
        }
        UniqueAppend(p.dumped, s.entry, children[n - 1].id);
      }
    }
  }

  /** Distinct ids stay distinct in a prefix. */
  lemma DistinctInit(children: seq<Child>)
    requires children != [] && DistinctChildIds(children)
    ensures DistinctChildIds(children[..|children| - 1])
  {
    var init := children[..|children| - 1];
    forall i, j | 0 <= i < j < |init| ensures init[i].id != init[j].id {
      assert init[i] == children[i] && init[j] == children[j];
    }
  }

  /** Appending an entry with a new id keeps the ids distinct. */
  lemma UniqueAppend(es: seq<IndexEntry>, e: Option<IndexEntry>, id: string)
    requires UniqueIds(es)
    requires forall i :: 0 <= i < |es| ==> es[i].id != id
    requires e.Some? ==> e.value.id == id
    ensures UniqueIds(es + (if e.Some? then [e.value] else []))
  {
    var d := es + (if e.Some? then [e.value] else []);
    forall i, j | 0 <= i < j < |d| ensures d[i].id != d[j].id {
      assert d[i] == es[i];
      if j < |es| {
        assert d[j] == es[j];
      }
    }
  }

  /** The index entries read as fields of an index line. */
  lemma DumpedSafe(cfg: Config, st0: DumpState, fspath: string, children: seq<Child>, run: Dumpers)
    requires forall j :: 0 <= j < |children| ==> SafeField(children[j].id) && SafeField(children[j].meta)
    ensures SafeEntries(DumpObjectsSpec(cfg, st0, fspath, children, run).dumped)
  {
    var d := DumpObjectsSpec(cfg, st0, fspath, children, run).dumped;
    forall k | 0 <= k < |d| ensures SafeField(d[k].id) && SafeField(d[k].meta) {
      DumpedFromChildren(cfg, st0, fspath, children, run, k);
    }
  }

  // ---------------------------------------------------------------------
  // Scanning: the previous index
  // ---------------------------------------------------------------------

  /** The index a previous dump left, as `_dumpFolder` reads it before dumping
      the children: in metadata mode from the folder's `.metadata` file, in
      properties mode from `.objects`; a missing file gives an empty index. */
  function PreviousIndex(cfg: Config, fs: Fs, fspath: string): (r: Result<Dict<string>>)
    ensures r.Ok? ==> Valid(r.value)
  {
    if cfg.useMetadataFile then
      var mp := MetadataPath(fspath, true);
      if mp !in fs then Ok(Empty())
      else
        match ReadText(fs, mp)
        case Err(e) => Err(e)
        case Ok(text) =>
          ReadFolderMetadataValid(text);
          match ReadFolderMetadata(text)
          case Err(e) => Err(e)
          case Ok(pair) => Ok(pair.1)
    else if ObjectsPath(fspath) !in fs then Ok(Empty())
    else
      match ReadText(fs, ObjectsPath(fspath))
      case Err(e) => Err(e)
      case Ok(text) =>
        ParseIndexValid(Lines(text), Empty());
        ParseIndexFrom(Lines(text), Empty())
  }

  lemma ReadFolderMetadataValid(text: string)
    ensures ReadFolderMetadata(text).Ok? ==> Valid(ReadFolderMetadata(text).value.1)
  {
    var (props, rest) := ReadFrom(SkipHeader(Lines(text)), Empty());
    if rest != [] {
      ParseIndexValid(rest[1..], Empty());
    }
  }

  /** The previous index as written: in properties mode the test is for a file
      called `objects`, the file opened is `.objects`. */
  function PreviousIndexAsWritten(cfg: Config, fs: Fs, fspath: string): Result<Dict<string>>
  {
    if cfg.useMetadataFile then PreviousIndex(cfg, fs, fspath)
    else if fspath + "objects" !in fs then Ok(Empty())
    else
      match ReadText(fs, ObjectsPath(fspath))
      case Err(e) => Err(e)
      case Ok(text) => ParseIndexFrom(Lines(text), Empty())
  }

  /** In properties mode the index a dump wrote is not seen by the next dump as
      written (unless a file called `objects` happens to exist), so no stale child
      is ever removed; the corrected test sees every entry. */
  lemma PreviousIndexIgnored(fs: Fs, fspath: string, index: seq<IndexEntry>, now: Timestamp)
    requires SafeEntries(index) && UniqueIds(index) && index != []
    requires fspath + "objects" !in fs
    ensures var cfg := Config(false, false, None, None);
      var fs' := fs[ObjectsPath(fspath) := File(IndexText(index), now)];
      && PreviousIndexAsWritten(cfg, fs', fspath) == Ok(Empty())
      && PreviousIndex(cfg, fs', fspath).Ok?
      && IndexOf(PreviousIndex(cfg, fs', fspath).value, index)
  {
    var fs' := fs[ObjectsPath(fspath) := File(IndexText(index), now)];
    assert fspath + "objects" != ObjectsPath(fspath) by {
      assert |fspath + "objects"| != |ObjectsPath(fspath)|;
    }
    ObjectsRoundTrip(index);
  }

  /** Scanning: an existing folder directory has its previous index read (and is
      logged when every object is dumped); a missing one is created, logged, and
      has an empty previous index. */
  datatype Scan = Scan(st: DumpState, objs: Dict<string>)

  function ScanFolder(cfg: Config, st: DumpState, fspath: string, now: Timestamp): (r: Result<Scan>)
    ensures r.Ok? ==> Valid(r.value.objs) && r.value.st.conflicts == st.conflicts
    ensures fspath in st.fs ==> (r.Ok? <==> PreviousIndex(cfg, st.fs, fspath).Ok?)
    ensures fspath in st.fs && r.Ok? ==>
      r.value.objs == PreviousIndex(cfg, st.fs, fspath).value && r.value.st.fs == st.fs
      && r.value.st.log == (if cfg.dumpAll then st.log + [FolderDumped(fspath)] else st.log)
    ensures fspath !in st.fs ==>
      r.Ok? && r.value.objs.keys == [] && r.value.objs.values == map[] && r.value.st.fs == st.fs[fspath := Directory(now)]
      && r.value.st.log == st.log + [FolderDumped(fspath)]
  {
    if fspath in st.fs then
      match PreviousIndex(cfg, st.fs, fspath)
      case Err(e) => Err(e)
      case Ok(objs) => Ok(Scan(if cfg.dumpAll then st.(log := st.log + [FolderDumped(fspath)]) else st, objs))
    else
      Ok(Scan(DumpState(st.fs[fspath := Directory(now)], st.log + [FolderDumped(fspath)], st.conflicts), Empty()))
  }

  // ---------------------------------------------------------------------
  // Writing the folder's metadata and index
  // ---------------------------------------------------------------------

  /** The file system after `_dumpFolder` has written the folder's metadata
      file and, in properties mode, its `.objects` file. */
  function WriteIndex(cfg: Config, fs: Fs, fspath: string, sheet: PropertySheet, sorted: seq<IndexEntry>,
                      now: Timestamp): Fs
  {
    var fs1 := fs[MetadataPath(fspath, cfg.useMetadataFile) := File(FolderMetadataText(cfg.useMetadataFile, sheet, sorted), now)];
    if cfg.useMetadataFile then fs1 else fs1[ObjectsPath(fspath) := File(IndexText(sorted), now)]
  }

  /** The log entries for the objects written this time, other than folders, in
      index order. */
  function UpdatedLog(fspath: string, sorted: seq<IndexEntry>): seq<DumpLog>
  {
    if sorted == [] then []
    else
      var e := sorted[|sorted| - 1];
      UpdatedLog(fspath, sorted[..|sorted| - 1])
        + (if e.updated && e.meta != "Folder" then [ObjectDumped(e.ts, e.meta, fspath + e.id)] else [])
  }

  /** The previous index with `del objs[objid]` done for each listed id that it
      holds. */
  function Stale(objs: Dict<string>, sorted: seq<IndexEntry>): (r: Dict<string>)
    requires Valid(objs)
    ensures Valid(r)
    decreases |sorted|
  {
    if sorted == [] then objs
    else
      var e := sorted[|sorted| - 1];
      var before := Stale(objs, sorted[..|sorted| - 1]);
      RemoveValid(before, e.id);
      Remove(before, e.id)
  }

  /** One more sorted entry: the log grows by that entry's line, if any. */
  lemma UpdatedLogStep(fspath: string, sorted: seq<IndexEntry>, i: nat)
    requires i < |sorted|
    ensures var e := sorted[i];
      UpdatedLog(fspath, sorted[..i + 1]) == UpdatedLog(fspath, sorted[..i])
        + (if e.updated && e.meta != "Folder" then [ObjectDumped(e.ts, e.meta, fspath + e.id)] else [])
  {
    assert sorted[..i + 1][..i] == sorted[..i];
  }

  /** One more sorted entry: its id is deleted from what is left, if there. */
  lemma StaleStep(objs: Dict<string>, sorted: seq<IndexEntry>, i: nat)
    requires Valid(objs) && i < |sorted|
    ensures var before := Stale(objs, sorted[..i]);
      Stale(objs, sorted[..i + 1]) == if sorted[i].id in before.values then Remove(before, sorted[i].id) else before
  {
    assert sorted[..i + 1][..i] == sorted[..i];
    var before := Stale(objs, sorted[..i]);
    if sorted[i].id !in before.values {
      RemoveAbsent(before, sorted[i].id);
    }
  }

  predicate Listed(sorted: seq<IndexEntry>, k: string)
  {
    exists j :: 0 <= j < |sorted| && sorted[j].id == k
  }

  /** What is left of the previous index after the deletions: exactly the ids it
      held that are no longer listed, each with its previous meta type. */
  lemma {:induction false} StaleEntries(objs: Dict<string>, sorted: seq<IndexEntry>, k: string)
    requires Valid(objs)
    ensures k in Stale(objs, sorted).values <==> k in objs.values && !Listed(sorted, k)
    ensures k in Stale(objs, sorted).values ==> Stale(objs, sorted).values[k] == objs.values[k]
    decreases |sorted|
  {
    if sorted != [] {
      var n := |sorted|;
      var init := sorted[..n - 1];
      StaleEntries(objs, init, k);
      RemoveValid(Stale(objs, init), sorted[n - 1].id);
      if Listed(init, k) {
        var j :| 0 <= j < |init| && init[j].id == k;
        assert sorted[j].id == k;
      }
      if Listed(sorted, k) {
        var j :| 0 <= j < n && sorted[j].id == k;
        if j < n - 1 { assert init[j].id == k; }
      }
    }
  }

  // ---------------------------------------------------------------------
  // Reconciliation: removing what was dumped before and is gone now
  // ---------------------------------------------------------------------

  datatype Removal = Removal(fs: Fs, raised: Option<Exc>)

  /** The paths the removal of a stale entry deletes: the whole tree for a
      directory type, otherwise the main file and, except for a metadata-only type,
      its metadata file. */
  predicate Removed(useMetadataFile: bool, fspath: string, id: string, meta: string, q: string)
  {
    var h := Lookup(meta);
    var p := FSPathObj(fspath, id, h.ext, useMetadataFile);
    if h.ext == ExtDir then HasPrefix(q, p)
    else q == p || (h.ext != ExtMeta && q == MetadataPath(p, useMetadataFile))
  }

  /** Removing one stale entry: `shutil.rmtree` for a directory type, otherwise
      `os.remove` of the main file and then of its metadata file, except that a
      metadata-only type has no second file (corrected). */
  function RemoveEntry(useMetadataFile: bool, fs: Fs, fspath: string, id: string, meta: string): (r: Removal)
    ensures r.raised.Some? ==> r.raised == Some(OsError)
  {
    var h := Lookup(meta);
    var p := FSPathObj(fspath, id, h.ext, useMetadataFile);
    if h.ext == ExtDir then
      match RmTree(fs, p)
      case Err(_) => Removal(fs, Some(OsError))
      case Ok(fs1) => Removal(fs1, None)
    else
      match RemoveFile(fs, p)
      case Err(_) => Removal(fs, Some(OsError))
      case Ok(fs1) =>
        if h.ext == ExtMeta then Removal(fs1, None)
        else
          match RemoveFile(fs1, MetadataPath(p, useMetadataFile))
          case Err(_) => Removal(fs1, Some(OsError))
          case Ok(fs2) => Removal(fs2, None)
  }

  /** Removing one stale entry only deletes, and only paths of that entry; when
      it completes, every path of the entry is gone. */
  lemma RemoveEntryEffects(useMetadataFile: bool, fs: Fs, fspath: string, id: string, meta: string)
    ensures var r := RemoveEntry(useMetadataFile, fs, fspath, id, meta);
      && (forall q :: q in r.fs ==> q in fs && r.fs[q] == fs[q])
      && (forall q :: q in fs && !Removed(useMetadataFile, fspath, id, meta, q) ==> q in r.fs)
      && (r.raised.None? ==> forall q :: Removed(useMetadataFile, fspath, id, meta, q) ==> q !in r.fs)
  {
    RemoveEntryOnlyDeletes(useMetadataFile, fs, fspath, id, meta);
    RemoveEntrySpares(useMetadataFile, fs, fspath, id, meta);
    RemoveEntryClears(useMetadataFile, fs, fspath, id, meta);
  }

  lemma RemoveEntryOnlyDeletes(useMetadataFile: bool, fs: Fs, fspath: string, id: string, meta: string)
    ensures var r := RemoveEntry(useMetadataFile, fs, fspath, id, meta);
      forall q :: q in r.fs ==> q in fs && r.fs[q] == fs[q]
  {
  }

  lemma RemoveEntrySpares(useMetadataFile: bool, fs: Fs, fspath: string, id: string, meta: string)
    ensures var r := RemoveEntry(useMetadataFile, fs, fspath, id, meta);
      forall q :: q in fs && !Removed(useMetadataFile, fspath, id, meta, q) ==> q in r.fs
  {
    var h := Lookup(meta);
    var p := FSPathObj(fspath, id, h.ext, useMetadataFile);
    if h.ext == ExtDir {
      assert forall q :: Removed(useMetadataFile, fspath, id, meta, q) <==> HasPrefix(q, p);
    } else if h.ext == ExtMeta {
      assert forall q :: Removed(useMetadataFile, fspath, id, meta, q) <==> q == p;
    } else {
      assert forall q :: Removed(useMetadataFile, fspath, id, meta, q) <==> q == p || q == MetadataPath(p, useMetadataFile);
    }
  }

  lemma RemoveEntryClears(useMetadataFile: bool, fs: Fs, fspath: string, id: string, meta: string)
    ensures var r := RemoveEntry(useMetadataFile, fs, fspath, id, meta);
      r.raised.None? ==> forall q :: Removed(useMetadataFile, fspath, id, meta, q) ==> q !in r.fs
  {
    var h := Lookup(meta);
    var p := FSPathObj(fspath, id, h.ext, useMetadataFile);
    if h.ext == ExtDir {
      assert forall q :: Removed(useMetadataFile, fspath, id, meta, q) <==> HasPrefix(q, p);
    } else if h.ext == ExtMeta {
      assert forall q :: Removed(useMetadataFile, fspath, id, meta, q) <==> q == p;
    } else {
      assert forall q :: Removed(useMetadataFile, fspath, id, meta, q) <==> q == p || q == MetadataPath(p, useMetadataFile);
    }
  }

  lemma RemoveEntryKeepsAbsent(useMetadataFile: bool, fs: Fs, fspath: string, id: string, meta: string, q: string)
    requires q !in fs
    ensures q !in RemoveEntry(useMetadataFile, fs, fspath, id, meta).fs
  {
    RemoveEntryEffects(useMetadataFile, fs, fspath, id, meta);
  }

  lemma RemoveEntryRemoves(useMetadataFile: bool, fs: Fs, fspath: string, id: string, meta: string, q: string)
    requires Removed(useMetadataFile, fspath, id, meta, q)
    requires RemoveEntry(useMetadataFile, fs, fspath, id, meta).raised.None?
    ensures q !in RemoveEntry(useMetadataFile, fs, fspath, id, meta).fs
  {
    RemoveEntryEffects(useMetadataFile, fs, fspath, id, meta);
  }

  /** Removing a stale entry as written: the metadata file of the main path is
      removed for every type that is not a directory. */
  function RemoveEntryAsWritten(useMetadataFile: bool, fs: Fs, fspath: string, id: string, meta: string): Removal
  {
    var h := Lookup(meta);
    var p := FSPathObj(fspath, id, h.ext, useMetadataFile);
    if h.ext == ExtDir then
      match RmTree(fs, p)
      case Err(_) => Removal(fs, Some(OsError))
      case Ok(fs1) => Removal(fs1, None)
    else
      match RemoveFile(fs, p)
      case Err(_) => Removal(fs, Some(OsError))
      case Ok(fs1) =>
        match RemoveFile(fs1, MetadataPath(p, useMetadataFile))
        case Err(_) => Removal(fs1, Some(OsError))
        case Ok(fs2) => Removal(fs2, None)
  }

  /** For a metadata-only type the main path is the metadata file itself, so the
      removal as written looks for `<id>.metadata.metadata`, which no dumper
      writes, and raises out of `_dumpFolder`; the corrected removal deletes the
      one file and succeeds. */
  lemma MetadataOnlyRemovalRaises(fspath: string, id: string)
    requires var p := MetadataPath(fspath + id, true); MetadataPath(p, true) !in map[p := File("", 0)]
    ensures var fs := map[MetadataPath(fspath + id, true) := File("", 0)];
      && RemoveEntryAsWritten(true, fs, fspath, id, "Zope Factory").raised == Some(OsError)
      && RemoveEntry(true, fs, fspath, id, "Zope Factory") == Removal(map[], None)
  {
    var p := MetadataPath(fspath + id, true);
    KnownHandlers();
    assert FSPathObj(fspath, id, Lookup("Zope Factory").ext, true) == p;
    var fs := map[p := File("", 0)];
    assert fs - {p} == map[];
  }

  /** The loop over the stale entries, in dictionary order; the first removal that
      raises ends it. */
  function ReconcileSpec(useMetadataFile: bool, fs: Fs, fspath: string, ids: seq<string>, metas: map<string, string>): Removal
    requires forall k :: 0 <= k < |ids| ==> ids[k] in metas
    decreases |ids|
  {
    if ids == [] then Removal(fs, None)
    else
      var r := ReconcileSpec(useMetadataFile, fs, fspath, ids[..|ids| - 1], metas);
      if r.raised.Some? then r
      else RemoveEntry(useMetadataFile, r.fs, fspath, ids[|ids| - 1], metas[ids[|ids| - 1]])
  }

  /** One more stale entry: it is removed unless an earlier removal raised. */
  lemma ReconcileStep(useMetadataFile: bool, fs: Fs, fspath: string, ids: seq<string>, metas: map<string, string>, i: nat)
    requires forall k :: 0 <= k < |ids| ==> ids[k] in metas
    requires i < |ids|
    ensures var r := ReconcileSpec(useMetadataFile, fs, fspath, ids[..i], metas);
      ReconcileSpec(useMetadataFile, fs, fspath, ids[..i + 1], metas)
        == if r.raised.Some? then r else RemoveEntry(useMetadataFile, r.fs, fspath, ids[i], metas[ids[i]])
  {
    assert ids[..i + 1][..i] == ids[..i];
  }

  /** The first removal that raises ends reconciliation. */
  lemma {:induction false} ReconcileStops(useMetadataFile: bool, fs: Fs, fspath: string, ids: seq<string>,
                                          metas: map<string, string>, i: nat)
    requires forall k :: 0 <= k < |ids| ==> ids[k] in metas
    requires i <= |ids|
    requires ReconcileSpec(useMetadataFile, fs, fspath, ids[..i], metas).raised.Some?
    ensures ReconcileSpec(useMetadataFile, fs, fspath, ids, metas) == ReconcileSpec(useMetadataFile, fs, fspath, ids[..i], metas)
    decreases |ids|
  {
    if i < |ids| {
      var init := ids[..|ids| - 1];
      assert init[..i] == ids[..i];
      ReconcileStops(useMetadataFile, fs, fspath, init, metas, i);
    } else {
      assert ids[..i] == ids;
    }
  }

  /** Reconciliation only deletes: what survives is unchanged, and every path that
      no stale entry covers survives. */
  lemma {:induction false} ReconcileKeeps(useMetadataFile: bool, fs: Fs, fspath: string, ids: seq<string>,
                                          metas: map<string, string>)
    requires forall k :: 0 <= k < |ids| ==> ids[k] in metas
    ensures var r := ReconcileSpec(useMetadataFile, fs, fspath, ids, metas);
      && (forall q :: q in r.fs ==> q in fs && r.fs[q] == fs[q])
      && (forall q :: q in fs && (forall k :: 0 <= k < |ids| ==> !Removed(useMetadataFile, fspath, ids[k], metas[ids[k]], q))
                      ==> q in r.fs)
    decreases |ids|
  {
    if ids != [] {
      var init := ids[..|ids| - 1];
      ReconcileKeeps(useMetadataFile, fs, fspath, init, metas);
      var r := ReconcileSpec(useMetadataFile, fs, fspath, init, metas);
      RemoveEntryEffects(useMetadataFile, r.fs, fspath, ids[|ids| - 1], metas[ids[|ids| - 1]]);
    }
  }

  /** A reconciliation that completed completed on all entries but the last, and
      then removed the last. */
  lemma ReconcileCompleted(useMetadataFile: bool, fs: Fs, fspath: string, ids: seq<string>, metas: map<string, string>)
    requires ids != [] && forall k :: 0 <= k < |ids| ==> ids[k] in metas
    requires ReconcileSpec(useMetadataFile, fs, fspath, ids, metas).raised.None?
    ensures var r := ReconcileSpec(useMetadataFile, fs, fspath, ids[..|ids| - 1], metas);
      && r.raised.None?
      && ReconcileSpec(useMetadataFile, fs, fspath, ids, metas)
         == RemoveEntry(useMetadataFile, r.fs, fspath, ids[|ids| - 1], metas[ids[|ids| - 1]])
  {
  }


  /** When reconciliation completes, every stale entry is gone from the file
      system: its whole tree for a directory type, otherwise its main file and its
      metadata file. */
  lemma {:induction false} ReconcileRemoves(useMetadataFile: bool, fs: Fs, fspath: string, ids: seq<string>,
                                            metas: map<string, string>, k: nat, q: string)
    requires forall k :: 0 <= k < |ids| ==> ids[k] in metas
    requires k < |ids| && Removed(useMetadataFile, fspath, ids[k], metas[ids[k]], q)
    requires ReconcileSpec(useMetadataFile, fs, fspath, ids, metas).raised.None?
    ensures q !in ReconcileSpec(useMetadataFile, fs, fspath, ids, metas).fs
    decreases |ids|
  {
    var n := |ids|;
    if k < n - 1 {
      ReconcileEarlier(useMetadataFile, fs, fspath, ids, metas, q);
      assert ids[..n - 1][k] == ids[k];
      ReconcileRemoves(useMetadataFile, fs, fspath, ids[..n - 1], metas, k, q);
    } else {
      ReconcileLast(useMetadataFile, fs, fspath, ids, metas, k, q);
    }
  }

  /** A path the last stale entry covers is gone once reconciliation completes. */
  lemma ReconcileLast(useMetadataFile: bool, fs: Fs, fspath: string, ids: seq<string>, metas: map<string, string>,
                      k: nat, q: string)
    requires forall k :: 0 <= k < |ids| ==> ids[k] in metas
    requires k == |ids| - 1 && Removed(useMetadataFile, fspath, ids[k], metas[ids[k]], q)
    requires ReconcileSpec(useMetadataFile, fs, fspath, ids, metas).raised.None?
    ensures q !in ReconcileSpec(useMetadataFile, fs, fspath, ids, metas).fs
  {
    ReconcileCompleted(useMetadataFile, fs, fspath, ids, metas);
    var r := ReconcileSpec(useMetadataFile, fs, fspath, ids[..|ids| - 1], metas);
    RemoveEntryRemoves(useMetadataFile, r.fs, fspath, ids[k], metas[ids[k]], q);
  }

  /** A completed reconciliation completed on all entries but the last, and a
      path absent after them stays absent. */
  lemma ReconcileEarlier(useMetadataFile: bool, fs: Fs, fspath: string, ids: seq<string>, metas: map<string, string>, q: string)
    requires ids != [] && forall k :: 0 <= k < |ids| ==> ids[k] in metas
    requires ReconcileSpec(useMetadataFile, fs, fspath, ids, metas).raised.None?
    ensures ReconcileSpec(useMetadataFile, fs, fspath, ids[..|ids| - 1], metas).raised.None?
    ensures q !in ReconcileSpec(useMetadataFile, fs, fspath, ids[..|ids| - 1], metas).fs
            ==> q !in ReconcileSpec(useMetadataFile, fs, fspath, ids, metas).fs
  {
    ReconcileCompleted(useMetadataFile, fs, fspath, ids, metas);
    var r := ReconcileSpec(useMetadataFile, fs, fspath, ids[..|ids| - 1], metas);
    if q !in r.fs {
      RemoveEntryKeepsAbsent(useMetadataFile, r.fs, fspath, ids[|ids| - 1], metas[ids[|ids| - 1]], q);
    }
  }

  // ---------------------------------------------------------------------
  // The folder (_dumpFolder)
  // ---------------------------------------------------------------------

  datatype FolderResult = FolderResult(st: DumpState, raised: Option<Exc>)

  /** `_dumpFolder`: scan, dump the children, write the folder's metadata and
      index in id order, log the objects written, and remove what the previous
      index lists and the children no longer have. */
  function DumpFolderSpec(cfg: Config, st0: DumpState, folder: Folder, fspath: string, run: Dumpers,
                          now: Timestamp): FolderResult
  {
    match ScanFolder(cfg, st0, fspath, now)
    case Err(e) => FolderResult(st0, Some(Error(e)))
    case Ok(scan) =>
      var pass := DumpObjectsSpec(cfg, scan.st, fspath, folder.children, run);
      if pass.raised.Some? then FolderResult(pass.st, pass.raised)
      else FinishFolder(cfg, pass.st, folder.sheet, fspath, scan.objs, pass.dumped, now)
  }

  /** The end of `_dumpFolder`, once the children are dumped: the metadata and
      index files, the log of the objects written, and reconciliation. */
  function FinishFolder(cfg: Config, st: DumpState, sheet: PropertySheet, fspath: string, objs: Dict<string>,
                        dumped: seq<IndexEntry>, now: Timestamp): FolderResult
    requires Valid(objs)
  {
    var sorted := SortBy(dumped, EntryId);
    var fs1 := WriteIndex(cfg, st.fs, fspath, sheet, sorted, now);
    var stale := Stale(objs, sorted);
    var rem := ReconcileSpec(cfg.useMetadataFile, fs1, fspath, stale.keys, stale.values);
    FolderResult(DumpState(rem.fs, st.log + UpdatedLog(fspath, sorted), st.conflicts), rem.raised)
  }

  /** The index `_dumpFolder` writes once the walk of the children completed:
      the entries sorted by id. */
  function FolderIndex(cfg: Config, st0: DumpState, folder: Folder, fspath: string, run: Dumpers,
                       now: Timestamp): seq<IndexEntry>
    requires ScanFolder(cfg, st0, fspath, now).Ok?
  {
    SortBy(DumpObjectsSpec(cfg, ScanFolder(cfg, st0, fspath, now).value.st, fspath, folder.children, run).dumped, EntryId)
  }

  /** An id that is not empty and does not start with a dot: no object file of
      such an id can be mistaken for the folder's own `.metadata`, `.properties`
      or `.objects` file. */
  predicate PlainId(id: string)
  {
    id != "" && id[0] != '.'
  }

  lemma IndexNotRemoved(useMetadataFile: bool, fspath: string, id: string, meta: string, name: string)
    requires PlainId(id) && name != "" && name[0] == '.'
    ensures !Removed(useMetadataFile, fspath, id, meta, fspath + name)
  {
    var p := FSPathObj(fspath, id, Lookup(meta).ext, useMetadataFile);
    var q := fspath + name;
    assert p[|fspath|] == (fspath + id)[|fspath|] == id[0];
    assert q[|fspath|] == '.';
    var m := MetadataPath(p, useMetadataFile);
    assert m[|fspath|] == p[|fspath|];
  }

  /** The sorted index holds the entries of the walk, with safe fields and
      distinct ids. */
  lemma FolderIndexWellFormed(cfg: Config, st: DumpState, folder: Folder, fspath: string, run: Dumpers)
    requires DistinctChildIds(folder.children)
    requires forall j :: 0 <= j < |folder.children| ==> SafeField(folder.children[j].id) && SafeField(folder.children[j].meta)
    ensures var d := DumpObjectsSpec(cfg, st, fspath, folder.children, run).dumped;
      SafeEntries(SortBy(d, EntryId)) && UniqueIds(SortBy(d, EntryId))
  {
    var d := DumpObjectsSpec(cfg, st, fspath, folder.children, run).dumped;
    DumpedSafe(cfg, st, fspath, folder.children, run);
    DumpedUnique(cfg, st, fspath, folder.children, run);
    SortByUnique(d, EntryId);
    var sorted := SortBy(d, EntryId);
    forall k | 0 <= k < |sorted| ensures SafeField(sorted[k].id) && SafeField(sorted[k].meta) {
      SortedEntry(d, EntryId, k);
    }
  }

  /** Reconciling entries with plain ids leaves the folder's own dot-files as
      they were. */
  lemma ReconcileKeepsIndex(useMetadataFile: bool, fs: Fs, fspath: string, ids: seq<string>,
                            metas: map<string, string>, name: string)
    requires forall k :: 0 <= k < |ids| ==> ids[k] in metas && PlainId(ids[k])
    requires name != "" && name[0] == '.' && fspath + name in fs
    ensures var r := ReconcileSpec(useMetadataFile, fs, fspath, ids, metas);
      fspath + name in r.fs && r.fs[fspath + name] == fs[fspath + name]
  {
    ReconcileKeeps(useMetadataFile, fs, fspath, ids, metas);
    forall k | 0 <= k < |ids| ensures !Removed(useMetadataFile, fspath, ids[k], metas[ids[k]], fspath + name) {
      IndexNotRemoved(useMetadataFile, fspath, ids[k], metas[ids[k]], name);
    }
  }

  /** The end of `_dumpFolder` leaves the folder's own dot-files as the index
      writing left them, when the previous index holds only plain ids. */
  lemma FinishKeepsFolderFiles(cfg: Config, st: DumpState, sheet: PropertySheet, fspath: string, objs: Dict<string>,
                               dumped: seq<IndexEntry>, now: Timestamp, name: string)
    requires Valid(objs) && forall k :: k in objs.values ==> PlainId(k)
    requires name != "" && name[0] == '.'
    requires fspath + name in WriteIndex(cfg, st.fs, fspath, sheet, SortBy(dumped, EntryId), now)
    ensures var fs1 := WriteIndex(cfg, st.fs, fspath, sheet, SortBy(dumped, EntryId), now);
      var fs2 := FinishFolder(cfg, st, sheet, fspath, objs, dumped, now).st.fs;
      fspath + name in fs2 && fs2[fspath + name] == fs1[fspath + name]
  {
    var sorted := SortBy(dumped, EntryId);
    var fs1 := WriteIndex(cfg, st.fs, fspath, sheet, sorted, now);
    var stale := Stale(objs, sorted);
    forall k | 0 <= k < |stale.keys| ensures stale.keys[k] in stale.values && PlainId(stale.keys[k]) {
      StaleEntries(objs, sorted, stale.keys[k]);
    }
    ReconcileKeepsIndex(cfg.useMetadataFile, fs1, fspath, stale.keys, stale.values, name);
  }

  /** The folder's metadata file is one of its dot-files. */
  lemma MetadataDotFile(fspath: string, useMetadataFile: bool)
    ensures MetadataPath(fspath, useMetadataFile) == fspath + ("." + MetadataExtension(useMetadataFile))
  {
  }

  /** A completed `_dumpFolder` is the end of the folder after a scan and a
      walk of the children that both completed. */
  lemma DumpFolderFinishes(cfg: Config, st0: DumpState, folder: Folder, fspath: string, run: Dumpers, now: Timestamp)
    requires ScanFolder(cfg, st0, fspath, now).Ok?
    requires DumpFolderSpec(cfg, st0, folder, fspath, run, now).raised.None?
    ensures var scan := ScanFolder(cfg, st0, fspath, now).value;
      var pass := DumpObjectsSpec(cfg, scan.st, fspath, folder.children, run);
      && pass.raised.None?
      && DumpFolderSpec(cfg, st0, folder, fspath, run, now)
         == FinishFolder(cfg, pass.st, folder.sheet, fspath, scan.objs, pass.dumped, now)
  {
  }

  /** A completed `_dumpFolder` leaves the folder's metadata file and, in
      properties mode, its `.objects` file. */
  lemma DumpFolderLeavesFiles(cfg: Config, st0: DumpState, folder: Folder, fspath: string, run: Dumpers,
                              now: Timestamp)
    requires ScanFolder(cfg, st0, fspath, now).Ok?
    requires forall k :: k in ScanFolder(cfg, st0, fspath, now).value.objs.values ==> PlainId(k)
    requires DumpFolderSpec(cfg, st0, folder, fspath, run, now).raised.None?
    ensures var fs := DumpFolderSpec(cfg, st0, folder, fspath, run, now).st.fs;
      && MetadataPath(fspath, cfg.useMetadataFile) in fs && fs[MetadataPath(fspath, cfg.useMetadataFile)].File?
      && (!cfg.useMetadataFile ==> ObjectsPath(fspath) in fs)
  {
    var scan := ScanFolder(cfg, st0, fspath, now).value;
    var pass := DumpObjectsSpec(cfg, scan.st, fspath, folder.children, run);
    DumpFolderFinishes(cfg, st0, folder, fspath, run, now);
    var name := "." + MetadataExtension(cfg.useMetadataFile);
    MetadataDotFile(fspath, cfg.useMetadataFile);
    FinishKeepsFolderFiles(cfg, pass.st, folder.sheet, fspath, scan.objs, pass.dumped, now, name);
    if !cfg.useMetadataFile {
      assert ObjectsPath(fspath) == fspath + ".objects";
      FinishKeepsFolderFiles(cfg, pass.st, folder.sheet, fspath, scan.objs, pass.dumped, now, ".objects");
    }
  }

  /** The next dump reads back what this one wrote: once `_dumpFolder` completes,
      the previous index of the folder holds exactly the listed entries, id to
      meta type — in either mode, whatever the children's dumpers wrote and
      whatever reconciliation removed. */
  lemma DumpFolderIndexRoundTrip(cfg: Config, st0: DumpState, folder: Folder, fspath: string, run: Dumpers,
                                 now: Timestamp)
    requires ScanFolder(cfg, st0, fspath, now).Ok?
    requires forall k :: k in ScanFolder(cfg, st0, fspath, now).value.objs.values ==> PlainId(k)
    requires DumpFolderSpec(cfg, st0, folder, fspath, run, now).raised.None?
    requires DistinctChildIds(folder.children)
    requires forall j :: 0 <= j < |folder.children| ==> SafeField(folder.children[j].id) && SafeField(folder.children[j].meta)
    requires cfg.useMetadataFile ==> Writable(folder.sheet)
    ensures var r := PreviousIndex(cfg, DumpFolderSpec(cfg, st0, folder, fspath, run, now).st.fs, fspath);
      r.Ok? && IndexOf(r.value, FolderIndex(cfg, st0, folder, fspath, run, now))
  {
    var scan := ScanFolder(cfg, st0, fspath, now).value;
    var pass := DumpObjectsSpec(cfg, scan.st, fspath, folder.children, run);
    DumpFolderFinishes(cfg, st0, folder, fspath, run, now);
    FolderIndexWellFormed(cfg, scan.st, folder, fspath, run);
    FinishIndexRoundTrip(cfg, pass.st, folder.sheet, fspath, scan.objs, pass.dumped, now);
  }

  /** The end of `_dumpFolder` leaves a previous index that reads back as the
      sorted entries it wrote. */
  lemma FinishIndexRoundTrip(cfg: Config, st: DumpState, sheet: PropertySheet, fspath: string, objs: Dict<string>,
                             dumped: seq<IndexEntry>, now: Timestamp)
    requires Valid(objs) && forall k :: k in objs.values ==> PlainId(k)
    requires SafeEntries(SortBy(dumped, EntryId)) && UniqueIds(SortBy(dumped, EntryId))
    requires cfg.useMetadataFile ==> Writable(sheet)
    ensures var r := PreviousIndex(cfg, FinishFolder(cfg, st, sheet, fspath, objs, dumped, now).st.fs, fspath);
      r.Ok? && IndexOf(r.value, SortBy(dumped, EntryId))
  {
    if cfg.useMetadataFile {
      FinishMetadataRoundTrip(cfg, st, sheet, fspath, objs, dumped, now);
    } else {
      FinishObjectsRoundTrip(cfg, st, sheet, fspath, objs, dumped, now);
    }
  }

  lemma FinishMetadataRoundTrip(cfg: Config, st: DumpState, sheet: PropertySheet, fspath: string, objs: Dict<string>,
                                dumped: seq<IndexEntry>, now: Timestamp)
    requires Valid(objs) && forall k :: k in objs.values ==> PlainId(k)
    requires SafeEntries(SortBy(dumped, EntryId)) && UniqueIds(SortBy(dumped, EntryId))
    requires cfg.useMetadataFile && Writable(sheet)
    ensures var r := PreviousIndex(cfg, FinishFolder(cfg, st, sheet, fspath, objs, dumped, now).st.fs, fspath);
      r.Ok? && IndexOf(r.value, SortBy(dumped, EntryId))
  {
    var sorted := SortBy(dumped, EntryId);
    var fs2 := FinishFolder(cfg, st, sheet, fspath, objs, dumped, now).st.fs;
    var text := FolderMetadataText(true, sheet, sorted);
    MetadataDotFile(fspath, true);
    FinishKeepsFolderFiles(cfg, st, sheet, fspath, objs, dumped, now, "." + MetadataExtension(true));
    assert fs2[MetadataPath(fspath, true)] == File(text, now);
    FolderMetadataRoundTrip(sheet, sorted);
    assert ReadText(fs2, MetadataPath(fspath, true)) == Ok(text);
  }

  lemma FinishObjectsRoundTrip(cfg: Config, st: DumpState, sheet: PropertySheet, fspath: string, objs: Dict<string>,
                               dumped: seq<IndexEntry>, now: Timestamp)
    requires Valid(objs) && forall k :: k in objs.values ==> PlainId(k)
    requires SafeEntries(SortBy(dumped, EntryId)) && UniqueIds(SortBy(dumped, EntryId))
    requires !cfg.useMetadataFile
    ensures var r := PreviousIndex(cfg, FinishFolder(cfg, st, sheet, fspath, objs, dumped, now).st.fs, fspath);
      r.Ok? && IndexOf(r.value, SortBy(dumped, EntryId))
  {
    var sorted := SortBy(dumped, EntryId);
    var fs2 := FinishFolder(cfg, st, sheet, fspath, objs, dumped, now).st.fs;
    FinishKeepsFolderFiles(cfg, st, sheet, fspath, objs, dumped, now, ".objects");
    assert fs2[ObjectsPath(fspath)] == File(IndexText(sorted), now);
    ObjectsRoundTrip(sorted);
    assert ReadText(fs2, ObjectsPath(fspath)) == Ok(IndexText(sorted));
  }

  /** Once `_dumpFolder` completes, nothing of a child the previous index lists
      and the new one does not is left: its directory tree, or its main file and
      its metadata file. */
  lemma DumpFolderRemovesStale(cfg: Config, st0: DumpState, folder: Folder, fspath: string, run: Dumpers,
                               now: Timestamp, k: string, q: string)
    requires ScanFolder(cfg, st0, fspath, now).Ok?
    requires DumpFolderSpec(cfg, st0, folder, fspath, run, now).raised.None?
    requires k in ScanFolder(cfg, st0, fspath, now).value.objs.values
    requires !Listed(FolderIndex(cfg, st0, folder, fspath, run, now), k)
    requires Removed(cfg.useMetadataFile, fspath, k, ScanFolder(cfg, st0, fspath, now).value.objs.values[k], q)
    ensures q !in DumpFolderSpec(cfg, st0, folder, fspath, run, now).st.fs
  {
    var scan := ScanFolder(cfg, st0, fspath, now).value;
    var pass := DumpObjectsSpec(cfg, scan.st, fspath, folder.children, run);
    var sorted := SortBy(pass.dumped, EntryId);
    var fs1 := WriteIndex(cfg, pass.st.fs, fspath, folder.sheet, sorted, now);
    var stale := Stale(scan.objs, sorted);
    StaleEntries(scan.objs, sorted, k);
    var i :| 0 <= i < |stale.keys| && stale.keys[i] == k;
    ReconcileRemoves(cfg.useMetadataFile, fs1, fspath, stale.keys, stale.values, i, q);
  }
}

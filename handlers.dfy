/** The dumper's handler table (Dumper.py): for each Zope meta type, the code
    that shapes the file name of its objects, and whether a dumper and a loader
    exist for it; and the rule that turns a folder path, an object id and that
    code into the path of the object's main file. */
module Handlers {
  import opened Wrappers
  import opened PropertyCodec

  /** The extension codes: the object's file is named like the object, the object
      has only a metadata file, the object is a directory. Any other code is a
      literal suffix. */
  const ExtSame := "="
  const ExtMeta := "-"
  const ExtDir := "/"

  /** One entry of `_handlers`: the extension code, and whether the dumper and the
      loader slots hold a function (rather than `None`). */
  datatype Handler = Handler(ext: string, hasDumper: bool, hasLoader: bool)

  /** What `_handlers.get(meta, ('', None, None))` answers for a type without an
      entry. */
  const NoHandler := Handler("", false, false)

  /** The table, in the order the source lists it: one row per meta type. */
  datatype Rows = NoRows | Row(meta: string, handler: Handler, rest: Rows)

  const Table: Rows :=
    Row("DTML Method", Handler(".dtml", true, true),
    Row("DTML Document", Handler(".dtml", true, true),
    Row("Folder", Handler(ExtDir, true, true),
    Row("BTreeFolder2", Handler(ExtDir, true, true),
    Row("External Method", Handler(".em", true, true),
    Row("Zope Factory", Handler(ExtMeta, true, false),
    Row("File", Handler(ExtSame, true, true),
    Row("Image", Handler(ExtSame, true, true),
    Row("Formulator Form", Handler(".form", true, false),
    Row("Python Method", Handler(".py", true, false),
    Row("Script (Python)", Handler(".py", true, true),
    Row("Controller Python Script", Handler(".cpy", true, false),
    Row("Controller Validator", Handler(".vpy", true, false),
    Row("Controller Page Template", Handler(".cpt", true, false),
    Row("Page Template", Handler(".pt", true, true),
    Row("Zope Permission", Handler(ExtMeta, true, false),
    Row("Z SQL Method", Handler(".zsql", true, true),
    Row("ZCatalog", Handler(".catalog", true, false),
    Row("Z Class", Handler(ExtDir, true, false),
    Row("Common Instance Property Sheet", Handler(ExtDir, true, false),
    Row("Wizard", Handler(ExtDir, true, false),
    Row("Wizard Page", Handler(".wizardpage", true, false),
    Row("ZWiki Page", Handler(".zwiki", true, false),
    NoRows)))))))))))))))))))))))

  /** The meta types that have a row. */
  function Types(t: Rows): set<string>
  {
    match t
    case NoRows => {}
    case Row(m, _, rest) => {m} + Types(rest)
  }

  /** The handler of the first row for `meta`, or `NoHandler`. */
  function Find(t: Rows, meta: string): Handler
  {
    match t
    case NoRows => NoHandler
    case Row(m, h, rest) => if m == meta then h else Find(rest, meta)
  }

  /** Every row gives a dumper, and no metadata-only type has a loader. */
  predicate WellFormedRows(t: Rows)
  {
    match t
    case NoRows => true
    case Row(_, h, rest) => h.hasDumper && (h.ext == ExtMeta ==> !h.hasLoader) && WellFormedRows(rest)
  }

  /** Every directory type with a loader is `Folder` or `BTreeFolder2`. */
  predicate DirectoryRowsLoadable(t: Rows)
  {
    match t
    case NoRows => true
    case Row(m, h, rest) =>
      (h.ext == ExtDir && h.hasLoader ==> m == "Folder" || m == "BTreeFolder2") && DirectoryRowsLoadable(rest)
  }

  /** The facts every row of the table gives, checked row by row, eight rows
      at a time. */
  lemma TableRows()
    ensures WellFormedRows(Table) && DirectoryRowsLoadable(Table)
  {
    TableWellFormed();
    TableDirectories();
  }

  lemma TableWellFormed()
    ensures WellFormedRows(Table)
  {
    var t8 := Table.rest.rest.rest.rest.rest.rest.rest.rest;
    var t16 := t8.rest.rest.rest.rest.rest.rest.rest.rest;
    assert WellFormedRows(t16);
    assert WellFormedRows(t8);
  }

  lemma TableDirectories()
    ensures DirectoryRowsLoadable(Table)
  {
    var t8 := Table.rest.rest.rest.rest.rest.rest.rest.rest;
    var t16 := t8.rest.rest.rest.rest.rest.rest.rest.rest;
    assert DirectoryRowsLoadable(t16);
    assert DirectoryRowsLoadable(t8);
  }

  /** A lookup in well-formed rows: a type with a row gets a handler with a
      dumper, a type without one gets `NoHandler`, and no metadata-only type
      gets a loader. */
  lemma {:induction false} FindWellFormed(t: Rows, meta: string)
    requires WellFormedRows(t)
    ensures var h := Find(t, meta);
      && (h.hasDumper <==> meta in Types(t))
      && (!h.hasDumper ==> h == NoHandler)
      && (h.ext == ExtMeta ==> !h.hasLoader)
  {
    match t
    case NoRows =>
    case Row(m, h, rest) =>
      if m != meta {
        FindWellFormed(rest, meta);
      }
  }

  lemma {:induction false} FindDirectory(t: Rows, meta: string)
    requires DirectoryRowsLoadable(t)
    ensures Find(t, meta).ext == ExtDir && Find(t, meta).hasLoader ==> meta == "Folder" || meta == "BTreeFolder2"
  {
    match t
    case NoRows =>
    case Row(m, h, rest) =>
      if m != meta {
        FindDirectory(rest, meta);
      }
  }

  /** The handlers of the three types the lemmas below use, read off their rows. */
  lemma KnownHandlers()
    ensures Find(Table, "Zope Factory") == Handler(ExtMeta, true, false)
    ensures Find(Table, "File") == Handler(ExtSame, true, true)
    ensures Find(Table, "Script (Python)") == Handler(".py", true, true)
  {
    var t5 := Table.rest.rest.rest.rest.rest;
    assert Find(Table, "Zope Factory") == Find(t5, "Zope Factory");
    assert Find(Table, "File") == Find(t5.rest, "File");
    assert Find(Table, "Script (Python)") == Find(t5.rest, "Script (Python)");
    assert Find(t5.rest, "Script (Python)") == Find(t5.rest.rest.rest.rest.rest, "Script (Python)");
  }

  /** `_handlers.get(meta, ('', None, None))`. Every listed type has a dumper, a
      type has a loader only when it also has a dumper, and the metadata-only types
      have no loader. */
  function Lookup(meta: string): (h: Handler)
    ensures h.hasDumper <==> meta in Types(Table)
    ensures !h.hasDumper ==> h == NoHandler
    ensures h.hasLoader ==> h.hasDumper
    ensures h.ext == ExtMeta ==> !h.hasLoader
  {
    TableRows();
    FindWellFormed(Table, meta);
    Find(Table, meta)
  }

  /** Only the two folder types are loaded as directories: the other directory
      types (`Z Class`, `Common Instance Property Sheet`, `Wizard`) are dumped but
      never loaded. */
  lemma DirectoryLoaders(meta: string)
    requires Lookup(meta).ext == ExtDir && Lookup(meta).hasLoader
    ensures meta == "Folder" || meta == "BTreeFolder2"
  {
    TableRows();
    FindDirectory(Table, meta);
  }

  /** `_getFSPathObj`: the path of the main file of object `objid` in the folder
      at `folderpath` (which ends with a separator). */
  function FSPathObj(folderpath: string, objid: string, ext: string, useMetadataFile: bool): (p: string)
    ensures |p| >= |folderpath| + |objid| && p[..|folderpath| + |objid|] == folderpath + objid
    ensures ext == ExtMeta ==> p == MetadataPath(folderpath + objid, useMetadataFile)
    ensures ext == ExtDir ==> p == folderpath + objid + "/"
  {
    var base := folderpath + objid;
    if ext == ExtSame then base
    else if ext == ExtDir then ExtendedPath(base, "/")
    else if ext == ExtMeta then MetadataPath(base, useMetadataFile)
    else ExtendedPath(base, ext)
  }

  /** A path with a suffix appended starts with that path. */
  function ExtendedPath(base: string, suffix: string): (p: string)
    ensures p == base + suffix && |p| >= |base| && p[..|base|] == base
  {
    assert (base + suffix)[..|base|] == base;
    base + suffix
  }

  /** For one extension code, distinct ids in a folder give distinct paths. */
  lemma FSPathObjInjective(folderpath: string, a: string, b: string, ext: string, useMetadataFile: bool)
    requires FSPathObj(folderpath, a, ext, useMetadataFile) == FSPathObj(folderpath, b, ext, useMetadataFile)
    ensures a == b
  {
    var pa := FSPathObj(folderpath, a, ext, useMetadataFile);
    var suffix :=
      if ext == ExtSame then ""
      else if ext == ExtDir then "/"
      else if ext == ExtMeta then (if useMetadataFile then ".metadata" else ".properties")
      else ext;
    assert pa == folderpath + a + suffix;
    assert pa == folderpath + b + suffix;
    assert |a| == |b|;
    assert a == pa[|folderpath|..|folderpath| + |a|];
    assert b == pa[|folderpath|..|folderpath| + |b|];
  }

  /** Across types the rule is not one-to-one: a `File` called `x.py` and a
      `Script (Python)` called `x` share the path `x.py`. */
  lemma FSPathObjCollision(folderpath: string)
    ensures FSPathObj(folderpath, "x.py", Lookup("File").ext, true)
         == FSPathObj(folderpath, "x", Lookup("Script (Python)").ext, true)
  {
    KnownHandlers();
    assert folderpath + "x.py" == folderpath + "x" + ".py";
  }

  /** The path `_dumpObject` hands to the type's dumper, corrected: for a
      metadata-only type, the main path without the metadata extension, so that
      `_createMetadataFile` recreates the very file whose timestamp was compared. */
  function DumpTarget(folderpath: string, objid: string, ext: string, useMetadataFile: bool): (p: string)
    ensures ext != ExtMeta ==> p == FSPathObj(folderpath, objid, ext, useMetadataFile)
    ensures ext == ExtMeta ==> MetadataPath(p, useMetadataFile) == FSPathObj(folderpath, objid, ext, useMetadataFile)
  {
    if ext == ExtMeta then folderpath + objid else FSPathObj(folderpath, objid, ext, useMetadataFile)
  }

  /** `_dumpObject` as written: for a metadata-only type it calls `os.splitext`,
      which the `os` module does not have, so the call raises before the `try`;
      otherwise it hands the main path to the dumper. */
  function DumpTargetAsWritten(fspathobj: string, ext: string): (r: Result<string>)
    ensures r.Err? <==> ext == ExtMeta
    ensures r.Ok? ==> r.value == fspathobj
  {
    if ext == ExtMeta then Err("AttributeError: module 'os' has no attribute 'splitext'") else Ok(fspathobj)
  }

  /** Every metadata-only type that is due for dumping makes `_dumpObject` as
      written raise: `Zope Factory` is one. */
  lemma MetadataOnlyDumpRaises(folderpath: string, objid: string, useMetadataFile: bool)
    ensures Lookup("Zope Factory").hasDumper
    ensures DumpTargetAsWritten(FSPathObj(folderpath, objid, Lookup("Zope Factory").ext, useMetadataFile),
                                Lookup("Zope Factory").ext).Err?
  {
    KnownHandlers();
  }
}

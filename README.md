# FSDump synchronisation engine, workflow guard text and role-map import — a Dafny model

This project models three pieces of Zope/CMF code and proves properties of them.

- **FSDump `Dumper`** (`src/Products/FSDump/Dumper.py`) mirrors a Zope folder tree onto the file system and back.
  - Dumping:
    - each supported child of a folder is written through the handler of its meta type;
    - the folder's properties and an index of `id:meta` lines go to `.metadata`, or to `.properties` plus `.objects`;
    - files of children that were listed in the previous index but are no longer dumped are deleted.
  - Loading:
    - reads the index back and loads each listed object whose file is newer than the object;
    - then deletes supported children that the index no longer lists.
  - Two timestamp watermarks (`tslastdump`, `tslastload`) and per-object timestamps decide what is written, skipped or recorded as a conflict.
  - The model covers:
    - the sidecar property codec (`_writeProperties` / `_readProperties` / `_loadProperties`, the `[security]` section, the metadata header);
    - the handler table and the path rule `_getFSPathObj`;
    - the dump and load decision policies;
    - one folder level of `_dumpFolder` / `_loadFolder`, with its reconciliation;
    - the `Dumper` object's logs and watermarks.
- **DCWorkflow `Guard`** (`DCWorkflow/Guard.py`). A transition guard made of:
  - permission, role and group lists and an optional expression;
  - `check`, `getSummary` and `changeFromProperties`;
  - the `get*Text` accessors and `formatNameUnion`.
- **CMFSetup role map** (`CMFSetup/rolemap.py`):
  - the SAX handler that imports roles and permission settings into a site;
  - the `listPermissions` export filter;
  - the `importRolemap` step.

Modules:
- `Wrappers`: `Option`, `Result` and the exception values.
- Generic modules:
  - `Text`: Python string operations;
  - `Sorting`: `list.sort` by a string key;
  - `Dicts`: a Python dict with its insertion order.
- `PropertyCodec`: the sidecar property codec.
- `Handlers`: the handler table and the path rule.
- `SyncPolicy`: the dump and load decisions.
- `Files`: the abstract file system and its `FileSystem` class.
- `IndexFiles`: `.objects` / `.metadata` indexes.
- `DumpEngine` and `LoadEngine`: value-level specifications of one folder pass.
- `FSDump`: the `Dumper` and `ZopeFolder` classes, whose methods are proved to leave exactly the state those specifications describe.
- `WorkflowGuard`: the guard.
- `Rolemap`: the role-map code.

Model decisions:
- The file system is a map from path to `File(text, mtime)` or `Directory(mtime)`.
- Timestamps are `nat`s; a missing watermark is `None`.
- A file's text is iterated line by line, each line keeping its `"\n"`. Only `"\n"` ends a line (no universal-newline translation of `"\r"`).
- The engine specifications (`DumpEngine`, `LoadEngine`) and the `Dumper` class model the program with the four `Dumper.py` corrections of "## Findings" applied: `PreviousIndex`, `DumpTarget`, `RemoveEntry` and `LoadProperties`. The as-written behaviour of each is a separate member. Rows marked "(corrected)" state properties of the corrected program.
- Type-specific dumpers and loaders are function parameters (oracles). Each returns the new file system or folder and the exception it raised, if any.
- The security manager, the user's roles and group monikers, and expression evaluation are parameters of `Guard.Check`.
- XML parsing is replaced by the sequence of start tags the SAX parser reports, with already-decoded attributes.

## Model

| member | source | states |
|---|---|---|
| PropertyCodec.MetadataPath | src/Products/FSDump/Dumper.py:440-441 | the sidecar name is the object path plus `.metadata` or `.properties` according to the mode, and extends the object path |
| PropertyCodec.MetadataHeader | src/Products/FSDump/Dumper.py:443-446 | the header is one line: `[default]` in metadata mode, `[Default]` otherwise |
| PropertyCodec.HeaderSkipped | src/Products/FSDump/Dumper.py:1062-1064 | skipping the first line of a sidecar that starts with the header leaves exactly the body's lines |
| PropertyCodec.WrittenValue | src/Products/FSDump/Dumper.py:471-475 | an int-valued boolean property is written as a Python bool; every other value is written unchanged |
| PropertyCodec.WrittenInIdOrder | src/Products/FSDump/Dumper.py:466-468 | the properties are written in ascending id order, and they are a permutation of the object's properties |
| PropertyCodec.WriteProperties | src/Products/FSDump/Dumper.py:463-476 | the loop writes exactly the concatenation of the property lines: the optional `proxy=` line, then one line per sorted property |
| PropertyCodec.WrittenLines | src/Products/FSDump/Dumper.py:464-476 | there is one line per property plus one `proxy=` line exactly when proxy roles exist; that line comes first and joins the roles with commas; line k after it is the k-th property in id order |
| PropertyCodec.WrittenLinesComplete | src/Products/FSDump/Dumper.py:468-476 | every property of the object is written, and every line after the proxy line is the line of some property |
| PropertyCodec.ParseTypedLine | src/Products/FSDump/Dumper.py:1091-1101 | `id:type=value` parses to id, value and type, with `ustring` normalised to `string` |
| PropertyCodec.ParseUntypedLine | src/Products/FSDump/Dumper.py:1096-1099 | a line without a type tag gets the type `string` |
| PropertyCodec.ReadProperties | src/Products/FSDump/Dumper.py:1083-1102 | the loop fills the dict and stops after the first blank line, leaving the later lines to the caller, as the fold over the lines does |
| PropertyCodec.ReadFromValid | src/Products/FSDump/Dumper.py:1088-1101 | the dict built from the lines is well formed (distinct keys, in insertion order) |
| PropertyCodec.ReadSection | src/Products/FSDump/Dumper.py:1089-1090 | a section followed by a blank line yields the entries of the section, later ids overwriting earlier ones, and leaves exactly the lines after the blank line |
| PropertyCodec.ReadToEnd | src/Products/FSDump/Dumper.py:1089-1101 | a section without a blank line is read to the end and leaves nothing |
| PropertyCodec.PropertyLineParses | src/Products/FSDump/Dumper.py:476 | a written property line is a single non-blank line that parses back to the property's id and its string value and type |
| PropertyCodec.ParseWritten | src/Products/FSDump/Dumper.py:463-476 | parsing every written line gives the entries the object's properties and proxy roles stand for |
| PropertyCodec.PropertiesRoundTrip | src/Products/FSDump/Dumper.py:463-476 | reading back the written section:<br>- leaves the lines after it untouched;<br>- maps every property id to its written value and type;<br>- holds `proxy` exactly when proxy roles exist, with the comma-joined roles;<br>- holds no other key |
| PropertyCodec.CheckedRoles | src/Products/FSDump/Dumper.py:487-490 | the checked roles are at most the valid roles |
| PropertyCodec.CheckedRolesMembers | src/Products/FSDump/Dumper.py:488-490 | a role is listed iff it is a valid role whose box is checked |
| PropertyCodec.DumpSecurityInfo | src/Products/FSDump/Dumper.py:481-496 | the loop with its header flag writes exactly the security section: the header once, then the lines of the emitting permissions in order |
| PropertyCodec.SecuritySectionPresent | src/Products/FSDump/Dumper.py:491-494 | the section is non-empty iff some permission has checked roles or does not acquire |
| PropertyCodec.SecurityLinesFromSettings | src/Products/FSDump/Dumper.py:495-496 | every emitted line is `name=acquire:roles` of some emitting permission |
| PropertyCodec.UpdateOrSet | src/Products/FSDump/Dumper.py:1118-1121 | an id the object lacks is added as a new property at the end |
| PropertyCodec.UpdateOrSetValue | src/Products/FSDump/Dumper.py:1118-1121 | after the update the object has the property with the read string value |
| PropertyCodec.UpdateOrSetOthers | src/Products/FSDump/Dumper.py:1118-1121 | properties with other ids are kept, and nothing else is introduced |
| PropertyCodec.LoadProperties | src/Products/FSDump/Dumper.py:1107-1121 | an empty dict changes nothing; a `proxy` entry sets the proxy roles to the comma split of its value; without one the proxy roles are unchanged |
| PropertyCodec.LoadPropertiesAsWritten | src/Products/FSDump/Dumper.py:1112-1115 | as written, a `proxy` entry always raises; otherwise the result is the corrected load |
| PropertyCodec.ApplyKeeps | src/Products/FSDump/Dumper.py:1116-1121 | properties whose ids are not loaded are kept |
| PropertyCodec.ApplyValues | src/Products/FSDump/Dumper.py:1116-1121 | every loaded id ends with the read value |
| PropertyCodec.ApplyNew | src/Products/FSDump/Dumper.py:1120-1121 | every loaded id the object lacked is added with the read type |
| PropertyCodec.LoadRoundTrip | src/Products/FSDump/Dumper.py:1107-1121 | loading what was written into an object without properties restores the proxy roles, gives back every property with its written value and type, and creates no other property |
| PropertyCodec.ProxyRolesNeverLoadAsWritten | src/Products/FSDump/Dumper.py:1113-1115 | as written, any object with proxy roles fails to load its own dump |
| Sorting.SortBySorted | src/Products/FSDump/Dumper.py:276 | the sort yields ascending keys |
| Sorting.SortByPermutation | src/Products/FSDump/Dumper.py:276 | the sort is a permutation of its input |
| Sorting.SortByUnique | src/Products/FSDump/Dumper.py:276 | sorting keeps ids distinct |
| Handlers.Lookup | src/Products/FSDump/Dumper.py:1319-1347 | a meta type has a dumper iff it is in the table; unknown types get `('', None, None)`; every loader has a dumper; metadata-only types have no loader |
| Handlers.DirectoryLoaders | src/Products/FSDump/Dumper.py:1322-1323 | the only loadable container types are `Folder` and `BTreeFolder2` |
| Handlers.FSPathObj | src/Products/FSDump/Dumper.py:378-396 | the path starts with folder path plus id; `-` gives the metadata sidecar path of the mode; `/` gives the id followed by a separator |
| Handlers.FSPathObjInjective | src/Products/FSDump/Dumper.py:386-396 | for a fixed extension code, distinct ids get distinct paths |
| Handlers.FSPathObjCollision | src/Products/FSDump/Dumper.py:386-396 | across extension codes the rule is not injective: a File `x.py` and a Script `x` share one path |
| Handlers.DumpTarget | src/Products/FSDump/Dumper.py:358-360 | the dumper gets the main path, or for `-` the path whose sidecar is the main path |
| Handlers.DumpTargetAsWritten | src/Products/FSDump/Dumper.py:358-360 | as written, the extension strip raises exactly for `-` handlers and passes other paths through |
| Handlers.MetadataOnlyDumpRaises | src/Products/FSDump/Dumper.py:1325 | the `Zope Factory` type has a dumper, and dumping it raises as written |
| SyncPolicy.DumpActionCases | src/Products/FSDump/Dumper.py:326-350 | the dump decision:<br>- skip iff not forced and the object is at or before a watermark;<br>- conflict iff not forced, not marked, and not newer than its file;<br>- write iff forced or strictly newer |
| SyncPolicy.DumpWritesOnlyNewer | src/Products/FSDump/Dumper.py:343-350 | an unforced write happens only for an object newer than its file and than both watermarks |
| SyncPolicy.UnchangedSinceDumpSkipped | src/Products/FSDump/Dumper.py:334-337 | an existing object not modified since the last dump is skipped |
| SyncPolicy.LoadMirrorsDump | src/Products/FSDump/Dumper.py:1014-1034 | the load decision is the dump decision with object and file roles and the two watermarks exchanged |
| SyncPolicy.LoadActionRaises | src/Products/FSDump/Dumper.py:1014-1021 | a missing object always loads; the decision raises iff an unforced non-directory entry has an object but no file |
| SyncPolicy.UnchangedSinceLoadSkipped | src/Products/FSDump/Dumper.py:1022-1024 | a file not modified since the last load is skipped |
| Files.MTime | src/Products/FSDump/Dumper.py:415-418 | a path has a timestamp iff it exists, and it is the entry's own |
| Files.ReadText | src/Products/FSDump/Dumper.py:259 | reading succeeds iff the path is a file, and yields its text |
| Files.RemoveFile | src/Products/FSDump/Dumper.py:301 | removal succeeds iff the path is a file, and removes exactly it |
| Files.RmTree | src/Products/FSDump/Dumper.py:299 | the tree removal succeeds iff the path is a directory, and removes exactly the paths under it, leaving the rest intact |
| Files.FileSystem.Write | src/Products/FSDump/Dumper.py:442 | the file's entry becomes the written text with the current time (never raises; `open` on a directory is not modelled) |
| Files.FileSystem.MakeDirs | src/Products/FSDump/Dumper.py:270 | the directory entry is created |
| Files.FileSystem.Remove | src/Products/FSDump/Dumper.py:458 | removes a file, or raises an `OSError` and changes nothing |
| Files.FileSystem.RemoveTree | src/Products/FSDump/Dumper.py:299 | removes a directory tree, or raises and changes nothing |
| IndexFiles.IndexLines | src/Products/FSDump/Dumper.py:286-287 | one `id:meta` line per entry, in entry order |
| IndexFiles.IndexLineParses | src/Products/FSDump/Dumper.py:265 | an index line parses back to its id and meta type |
| IndexFiles.ParseIndexLines | src/Products/FSDump/Dumper.py:263-266 | reading the written index lines adds exactly the written pairs to the dict |
| IndexFiles.ParseIndexValid | src/Products/FSDump/Dumper.py:263-266 | the index read is a well-formed dict |
| IndexFiles.ObjectsRoundTrip | src/Products/FSDump/Dumper.py:285-287 | a written `.objects` file reads back as exactly the written entries |
| IndexFiles.FolderMetadataLines | src/Products/FSDump/Dumper.py:279-287 | a `.metadata` file is the header, the property lines, a blank line, `[Objects]` and the index lines |
| IndexFiles.FolderMetadataRoundTrip | src/Products/FSDump/Dumper.py:246-266 | a written `.metadata` file reads back as the folder's properties and exactly the written index |
| IndexFiles.FolderPropertiesRoundTrip | src/Products/FSDump/Dumper.py:279-284 | a `.properties` file reads back as its property entries with nothing left |
| DumpEngine.DumpObject | src/Products/FSDump/Dumper.py:356-368 | a dumper's `ConflictError` propagates; any other exception is logged and returns failure; success logs nothing |
| DumpEngine.DumpChildEffects | src/Products/FSDump/Dumper.py:315-350 | per child:<br>- unsupported types do nothing;<br>- skipped or conflicting children are listed unchanged (a conflict is recorded with both timestamps);<br>- a write lists the child as updated only when its dumper succeeded |
| DumpEngine.DumpObjectsStops | src/Products/FSDump/Dumper.py:364-365 | once a `ConflictError` propagates, later children are not visited |
| DumpEngine.DumpedFromChildren | src/Products/FSDump/Dumper.py:314-351 | every listed entry is a supported child with its id, meta type and timestamp |
| DumpEngine.AllSupportedListed | src/Products/FSDump/Dumper.py:318-321 | when no dumper fails, the listed ids are exactly the supported children's ids in order |
| DumpEngine.NothingDueNothingWritten | src/Products/FSDump/Dumper.py:333-348 | when no child is due, the file system is untouched and every supported child is still listed |
| DumpEngine.DumpedUnique | src/Products/FSDump/Dumper.py:314-351 | distinct child ids give an index with distinct ids |
| DumpEngine.PreviousIndex | src/Products/FSDump/Dumper.py:243-267 | the previous index read (corrected to test `.objects`) is a well-formed dict |
| DumpEngine.PreviousIndexIgnored | src/Products/FSDump/Dumper.py:258-259 | in `.properties` mode an existing non-empty `.objects` file is ignored as written, but read back by the corrected test |
| DumpEngine.ScanFolder | src/Products/FSDump/Dumper.py:243-271 | (corrected) an existing folder directory yields exactly the previous index, failing iff reading it fails, and is logged only in dump-all mode; a missing one is created as a directory, logged, and has an empty index; no conflict is recorded |
| DumpEngine.Stale | src/Products/FSDump/Dumper.py:286-291 | the ids left over are a well-formed dict |
| DumpEngine.StaleEntries | src/Products/FSDump/Dumper.py:290-291 | an id is left over iff it was in the previous index and is not in the new one, with its old meta type |
| DumpEngine.RemoveEntry | src/Products/FSDump/Dumper.py:295-302 | the only failure of a removal is an `OSError` |
| DumpEngine.RemoveEntryEffects | src/Products/FSDump/Dumper.py:295-302 | removal only deletes, and only paths of that entry; on success all of them are gone |
| DumpEngine.MetadataOnlyRemovalRaises | src/Products/FSDump/Dumper.py:300-302 | as written, reconciling a stale `-` entry raises after deleting its only file; the corrected removal succeeds |
| DumpEngine.ReconcileStops | src/Products/FSDump/Dumper.py:294-302 | the first failing removal ends reconciliation |
| DumpEngine.ReconcileKeeps | src/Products/FSDump/Dumper.py:294-302 | reconciliation only deletes; every path belonging to no stale entry survives unchanged |
| DumpEngine.ReconcileRemoves | src/Products/FSDump/Dumper.py:294-302 | when reconciliation completes, every path of every stale entry is gone |
| DumpEngine.IndexNotRemoved | src/Products/FSDump/Dumper.py:295-302 | removing an entry never touches a dot-file of the folder itself |
| DumpEngine.ReconcileKeepsIndex | src/Products/FSDump/Dumper.py:279-302 | the freshly written index survives reconciliation |
| DumpEngine.FinishKeepsFolderFiles | src/Products/FSDump/Dumper.py:278-302 | finishing the folder keeps the index and sidecar just written |
| DumpEngine.DumpFolderFinishes | src/Products/FSDump/Dumper.py:274-302 | a completed folder dump is the scan, then the children pass, then the index write and reconciliation |
| DumpEngine.DumpFolderLeavesFiles | src/Products/FSDump/Dumper.py:278-292 | after a completed dump the folder's sidecar exists as a file, and in `.properties` mode so does `.objects` |
| DumpEngine.DumpFolderIndexRoundTrip | src/Products/FSDump/Dumper.py:243-302 | (corrected) the index the next dump reads back is exactly the one just written |
| DumpEngine.DumpFolderRemovesStale | src/Products/FSDump/Dumper.py:294-302 | (corrected) every path of an id listed before but not now is gone after a completed dump |
| LoadEngine.FindChild | src/Products/FSDump/Dumper.py:1009-1012 | finds a child with that id, or none exists |
| LoadEngine.DeleteChild | src/Products/FSDump/Dumper.py:1043-1044 | exactly the children with that id are removed |
| LoadEngine.LoadObject | src/Products/FSDump/Dumper.py:1039-1050 | the loader runs on the folder with the live object removed (unless it is a folder) and its result is the new folder; the path is logged, once and at the end, exactly when the loader returned; no conflict is recorded |
| LoadEngine.Replaced | src/Products/FSDump/Dumper.py:1042-1043 | the folder given to the loader keeps its properties and every child except, for a non-folder entry, those with the loaded id |
| LoadEngine.LoadObjectsStops | src/Products/FSDump/Dumper.py:1000-1034 | once an entry raises, later entries are not visited |
| LoadEngine.LoadEntryLogs | src/Products/FSDump/Dumper.py:1000-1034 | one entry adds at most its own path to the load log and to the conflicts, and only if its type has a loader |
| LoadEngine.LoadedAreListed | src/Products/FSDump/Dumper.py:997-1034 | the logs only grow, and every new load or conflict path belongs to a listed entry |
| LoadEngine.NothingNewerNothingLoaded | src/Products/FSDump/Dumper.py:1020-1027 | when every file is at or before the last dump, the pass changes nothing |
| LoadEngine.PruneMembers | src/Products/FSDump/Dumper.py:985-991 | a child survives iff no visited child with its id was doomed |
| LoadEngine.PruneKeeps | src/Products/FSDump/Dumper.py:985-991 | a child is deleted iff its type has a dumper and its id is absent from the index |
| LoadEngine.ListedObjects | src/Products/FSDump/Dumper.py:977-981 | the index read is a well-formed dict |
| LoadEngine.LoadIndexIsPreviousIndex | src/Products/FSDump/Dumper.py:961-981 | the load side reads the same index as the corrected dump side |
| LoadEngine.LoadIndexAfterDump | src/Products/FSDump/Dumper.py:961-981 | after a completed dump, loading reads back exactly the index written |
| FSDump.ZopeFolder.DelObject | src/Products/FSDump/Dumper.py:991 | deletes the children with that id and keeps the properties |
| FSDump.Dumper.constructor | src/Products/FSDump/Dumper.py:154-163 | a new dumper has no watermarks and empty logs |
| FSDump.Dumper.DumpToFS | src/Products/FSDump/Dumper.py:199-220 | (corrected) clears the logs and dumps the folder; the file system and logs are the folder specification's; the dump watermark moves to now only when nothing propagated |
| FSDump.Dumper.DumpFolder | src/Products/FSDump/Dumper.py:235-302 | (corrected) the scan, children pass, index write and reconciliation leave exactly the state of the folder specification |
| FSDump.Dumper.ScanFolder | src/Products/FSDump/Dumper.py:243-271 | reads the previous index or creates the directory, as the scan specification says |
| FSDump.Dumper.ReadPreviousIndex | src/Products/FSDump/Dumper.py:246-267 | returns the previous index |
| FSDump.Dumper.ReadIndex | src/Products/FSDump/Dumper.py:263-266 | the line loop builds the index dict the parse specification gives |
| FSDump.Dumper.DumpObjects | src/Products/FSDump/Dumper.py:308-351 | the loop leaves the file system, logs, conflicts and listed entries of the children pass |
| FSDump.Dumper.DumpChild | src/Products/FSDump/Dumper.py:315-350 | (corrected) one child: the dump decision of the policy, then its dumper, its conflict record or nothing, leaving the state and entry of the one-child specification |
| FSDump.Dumper.DumpObject | src/Products/FSDump/Dumper.py:356-368 | (corrected) one dumper call with its exception handling |
| FSDump.Dumper.WriteIndex | src/Products/FSDump/Dumper.py:286-291 | the loop writes the index text, logs updated non-folder entries and leaves the stale ids |
| FSDump.Dumper.FinishFolder | src/Products/FSDump/Dumper.py:278-302 | writes the sidecar and index, then reconciles, as specified |
| FSDump.Dumper.Reconcile | src/Products/FSDump/Dumper.py:294-302 | the removal loop leaves the state of the reconciliation specification |
| FSDump.Dumper.RemoveEntry | src/Products/FSDump/Dumper.py:295-302 | removes one stale entry as the corrected removal specifies |
| FSDump.Dumper.LoadFromFS | src/Products/FSDump/Dumper.py:903-921 | clears the load logs and loads the folder; the load watermark moves to now only when nothing propagated |
| FSDump.Dumper.LoadFolder | src/Products/FSDump/Dumper.py:961-991 | (corrected) loads properties, reads the index, loads the entries and prunes, as the folder load specification says |
| FSDump.Dumper.LoadObjects | src/Products/FSDump/Dumper.py:997-1034 | the loop leaves the folder, load log and conflicts of the load pass |
| FSDump.Dumper.LoadEntry | src/Products/FSDump/Dumper.py:1000-1034 | one index entry handled by the load decision |
| FSDump.Dumper.LoadObject | src/Products/FSDump/Dumper.py:1039-1050 | one loader call with its deletion and logging |
| FSDump.Dumper.Prune | src/Products/FSDump/Dumper.py:985-991 | the deletion loop leaves exactly the surviving children of the prune specification |
| WorkflowGuard.Escape | DCWorkflow/Guard.py:161 | escaped text has no `<` or `>`, and text without `&`, `<`, `>` is unchanged |
| WorkflowGuard.FormatNameUnion | DCWorkflow/Guard.py:160-166 | the list-rewriting code computes the union text |
| WorkflowGuard.UnionOfMany | DCWorkflow/Guard.py:164-166 | overwriting the last code with `' or '` in front and joining with `'; '` gives the union text |
| WorkflowGuard.UnionShape | DCWorkflow/Guard.py:160-166 | the text starts with the first name's code; from two names on it ends with `' or '` and the last name's code |
| WorkflowGuard.NamesWellFormed | DCWorkflow/Guard.py:115 | every name parsed from a field is stripped and free of `;` |
| WorkflowGuard.TextRoundTrip | DCWorkflow/Guard.py:134-149 | for non-empty, stripped, `;`-free names, the text is non-empty and parses back to the same names |
| WorkflowGuard.NamesTextEmpty | DCWorkflow/Guard.py:134-149 | the text is empty iff the list is empty or is the single empty name |
| WorkflowGuard.SeparatedBreaks | DCWorkflow/Guard.py:84-103 | sections joined by `<br/>` start with the first section's heading and hold one break fewer than sections |
| WorkflowGuard.SectionsWellFormed | DCWorkflow/Guard.py:85-102 | each present section is a heading plus its text, with no break inside |
| WorkflowGuard.SummaryShape | DCWorkflow/Guard.py:84-103 | the summary is empty iff the guard has no condition; it never starts with `<br/>`, and breaks appear only between sections |
| WorkflowGuard.Guard.constructor | DCWorkflow/Guard.py:33-36 | a new guard has no conditions |
| WorkflowGuard.Guard.Check | DCWorkflow/Guard.py:43-79 | allowed iff each non-empty condition is met: some permission granted, some role held, some `(Group) g` moniker held, and the expression true |
| WorkflowGuard.Guard.GetSummary | DCWorkflow/Guard.py:82-103 | the appending code builds the space-joined sections separated by `<br/>` |
| WorkflowGuard.Guard.ChangeFromProperties | DCWorkflow/Guard.py:105-131 | `None` changes nothing and returns 0; otherwise returns 1 iff some key is given and non-empty, and each given field becomes the stripped `;`-split names while the others keep their value |
| WorkflowGuard.Guard.PermissionsText | DCWorkflow/Guard.py:134-137 | empty iff no permissions or the single empty name |
| WorkflowGuard.Guard.RolesText | DCWorkflow/Guard.py:140-143 | empty iff no roles or the single empty name |
| WorkflowGuard.Guard.GroupsText | DCWorkflow/Guard.py:146-149 | empty iff no groups or the single empty name |
| WorkflowGuard.Guard.ExprText | DCWorkflow/Guard.py:152-155 | the expression's text, or empty without one |
| Rolemap.ParseGrant | CMFSetup/rolemap.py:35-41 | succeeds iff `name`, `roles` and `acquire` are all present; roles are the non-empty whitespace-split words; acquire iff the lowercased attribute is `1`, `true` or `yes` |
| Rolemap.ParseAccepts | CMFSetup/rolemap.py:30-44 | parsing succeeds iff every element is accepted; the roles are the `role` names and there is one permission per `permission` element |
| Rolemap.ParseFirstError | CMFSetup/rolemap.py:43-44 | the first rejected element decides the error |
| Rolemap.ParseStops | CMFSetup/rolemap.py:43-44 | an error ends the parse: later elements are not seen |
| Rolemap.MergeAdds | CMFSetup/rolemap.py:48-57 | the immediate roles are kept as a prefix; the roles added are exactly the parsed ones not already valid, without duplicates |
| Rolemap.ImportedRolesSorted | CMFSetup/rolemap.py:59-60 | the new `__ac_roles__` is sorted and is a permutation of the merged roles |
| Rolemap.ImportedRolesMembers | CMFSetup/rolemap.py:48-60 | a role is in the result iff it was immediate or is parsed and not yet valid; every parsed role becomes valid |
| Rolemap.ImportedRolesDistinct | CMFSetup/rolemap.py:53-57 | distinct immediate roles stay distinct |
| Rolemap.ApplyAllLast | CMFSetup/rolemap.py:62-67 | each permission ends with its last setting in the document, or is unchanged |
| Rolemap.KeepValid | CMFSetup/rolemap.py:121 | keeps exactly the valid roles |
| Rolemap.ExportedEntries | CMFSetup/rolemap.py:115-127 | a permission is exported iff its filtered roles are non-empty or it does not acquire, and only valid roles are exported |
| Rolemap.ImportThenExport | CMFSetup/rolemap.py:115-127 | a setting imported from a document is exported unchanged iff it has roles or does not acquire |
| Rolemap.Site.ManagePermission | CMFSetup/rolemap.py:64-67 | replaces the named permission's setting and leaves the roles alone |
| Rolemap.RolemapParser.constructor | CMFSetup/rolemap.py:23-28 | a new parser has no roles and no permissions |
| Rolemap.RolemapParser.StartElement | CMFSetup/rolemap.py:30-44 | accumulates as the element step specifies, or raises and leaves the parser unchanged |
| Rolemap.RolemapParser.EndDocument | CMFSetup/rolemap.py:46-67 | the site's roles become the imported roles and each parsed permission is applied in order |
| Rolemap.RolemapConfigurator.ListPermissions | CMFSetup/rolemap.py:95-129 | the nested loops return exactly the exported settings of the site's valid roles |
| Rolemap.RolemapConfigurator.ParseXml | CMFSetup/rolemap.py:139-148 | succeeds iff the document parses, and then imports it; on error the site is unchanged |
| Rolemap.ImportRolemap | CMFSetup/rolemap.py:185-193 | corrected step: without `rolemap.xml` nothing changes; with it, succeeds iff the document parses, then imports it and returns the message; on failure the error is the parser's first error and the site is unchanged |
| Rolemap.ImportRolemapAsWritten | CMFSetup/rolemap.py:186 | as written, the step always raises |
| Rolemap.ImportNeverRuns | CMFSetup/rolemap.py:186 | as written, even a valid role map is never imported |

## Left out

- Real file I/O (`open`, `os.makedirs`, `shutil.rmtree`, `os.remove`), clocks and `time.strftime` are replaced by the abstract file system, `nat` timestamps and a `now` parameter. File modes, permissions and encodings are not modelled.
- Type-specific dumpers and loaders (`_dumpDTMLMethod` … `_loadDTMLDocument`) are oracle parameters, not modelled bodies. This includes the recursive folder dumper/loader, so the model proves one folder level; recursion into subfolders happens inside the oracle.
- The branch of `_loadFolder` that creates a missing subfolder (`foldername != ''`, `manage_addFolder`) is not modelled; it is only reached through the folder loader oracle.
- The broken type-specific code is not modelled: `_dumpZCatalog`, `_dumpZClass`, `_loadSecurityInfo` and `testDump`.
- Zope management glue is left out: `edit`, `_checkInput`, REQUEST handling, `manage_addFSDump`, `initialize` and the security declarations.
- `_getObjts` and `_getFilets` are left out: object timestamps are a field of each child, and file timestamps are the entry's `mtime`. `Child.ts` stands for the timestamp string as `_getObjts` renders it, which under Zope 4 is `%Y-%m-%d %H:%M` (minute resolution), compared as a string with the `%Y-%m-%d %H:%M:%S` watermarks and file times. So an object edited in the same minute as, but after, a dump compares as not newer than the watermark, and the next dump skips it.
- Reading text has no universal-newline translation: only `"\n"` ends a line, as Python 2 reads a file; under Python 3's text mode a `"\r"` inside a value would also break the line. The codec and index round trips hold for that reading.
- PropertyCodec.UpdateOrSet: `_updateProperty` converts the read string to the type of the existing property; the model stores the read string unchanged and keeps the existing type.
- PropertyCodec.UpdateOrSetValue: states the stored value as the read string, without `_updateProperty`'s type conversion.
- PropertyCodec.ApplyValues: states each loaded id's value as the read string, without `_updateProperty`'s type conversion.
- LoadEngine.LoadObject: the bare `except` in `_loadObject` also swallows `ConflictError`; it is modelled as written, so a failing loader only means no log entry.
- Guard expression evaluation (`Expression`, `createExprContext`) and the security manager are oracle parameters of `Guard.Check`.
- WorkflowGuard.Escape models `cgi.escape` without quote escaping; its contract states only what the guard relies on.
- WorkflowGuard.Guard.ChangeFromProperties: props is a map of strings; non-string values and the Zope `REQUEST` object are not modelled.
- WorkflowGuard.FormatNameUnion: for more than two names the text has `"; "` followed by `" or "` (a double space) before the last name. This is modelled as written.
- XML parsing (`xml.sax.parseString`), the `.encode(self._encoding)` calls and the file-like `read` in `parseXML` are left out. The input is the decoded start tags.
- Rolemap.Site.ManagePermission: Zope's `ValueError` for an unknown permission name is not modelled; unknown names leave the settings unchanged.
- Rolemap.Site.ValidRoles: `valid_roles()` is a set (the immediate plus inherited roles); its order is not modelled.
- `RolemapConfigurator.listRoles` is `Site.ValidRoles`. The `Permission` object's list/tuple encoding of "acquire" is a boolean field of each grant.
- `generateXML` and `exportRolemap` render a page template and are left out. `exportRolemap` also uses an undefined `site`.

## Findings

| source | as written | input that shows it | evidently intended | confidence | as-written member | corrected member |
|---|---|---|---|---|---|---|
| src/Products/FSDump/Dumper.py:258 | the `.properties` mode tests for `fspath + 'objects'` but opens `fspath + '.objects'` | a folder dumped before in `.properties` mode, with `.objects` present and no `objects` file | test `.objects`, so stale children are removed | high (not executed) | DumpEngine.PreviousIndexIgnored | DumpEngine.PreviousIndex |
| src/Products/FSDump/Dumper.py:360 | `os.splitext` does not exist and is called outside the `try` | any `Zope Factory` or `Zope Permission` child that is due for dumping | strip the metadata extension with `os.path.splitext` | high (not executed) | Handlers.MetadataOnlyDumpRaises | Handlers.DumpTarget |
| src/Products/FSDump/Dumper.py:1113-1115 | `props.pop('proxy')` is a `(value, type)` pair, and `.split` on it raises | loading the dump of any object with proxy roles | split the value part | high (not executed) | PropertyCodec.ProxyRolesNeverLoadAsWritten | PropertyCodec.LoadRoundTrip |
| src/Products/FSDump/Dumper.py:300-302 | a stale `-` entry is removed by path and then again as a sidecar of that path, which does not exist | a `Zope Factory` child deleted since the last dump | remove only the sidecar for `-` entries | high (not executed) | DumpEngine.MetadataOnlyRemovalRaises | DumpEngine.RemoveEntry |
| CMFSetup/rolemap.py:186 | `FILENAME` is undefined (the constant is `_FILENAME`) | any call of `importRolemap` | read `_FILENAME` | high (not executed) | Rolemap.ImportNeverRuns | Rolemap.ImportRolemap |

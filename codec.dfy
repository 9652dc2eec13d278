/** The sidecar property files of the dumper (Dumper.py): the `[default]` /
    `[Default]` header, the `id:type=value` property lines with an optional
    `proxy=` line, the `[security]` section, the reader that turns a section back
    into a dictionary, and the loader that applies it to an object. */
module PropertyCodec {
  import opened Wrappers
  import opened Text
  import opened Sorting
  import opened Dicts

  // ---------------------------------------------------------------------
  // Property values and their text form
  // ---------------------------------------------------------------------

  /** The Python values a property holds, as far as `str()` tells them apart. */
  datatype PyValue = PyStr(s: string) | PyInt(i: int) | PyBool(b: bool)

  datatype Property = Property(id: string, ptype: string, value: PyValue)

  /** The properties of a Zope object together with its proxy roles. */
  datatype PropertySheet = PropertySheet(proxyRoles: seq<string>, props: seq<Property>)

  function Digit(d: nat): char
    requires d < 10
  {
    "0123456789"[d]
  }

  /** `str(n)` for a natural number: its decimal digits. */
  function NatText(n: nat): string
  {
    if n < 10 then [Digit(n)] else NatText(n / 10) + [Digit(n % 10)]
  }

  lemma {:induction false} NatTextDigits(n: nat)
    ensures |NatText(n)| >= 1
    ensures forall k :: 0 <= k < |NatText(n)| ==> '0' <= NatText(n)[k] <= '9'
  {
    if n >= 10 {
      NatTextDigits(n / 10);
      var t := NatText(n / 10);
      assert forall k :: 0 <= k < |t| ==> NatText(n)[k] == t[k];
    }
  }

  function IntText(i: int): string
  {
    if i < 0 then "-" + NatText(-i) else NatText(i)
  }

  /** `str(v)`. */
  function Render(v: PyValue): string
  {
    match v
    case PyStr(s) => s
    case PyInt(i) => IntText(i)
    case PyBool(b) => if b then "True" else "False"
  }

  /** The rendering of a number or a boolean is a single line. */
  lemma RenderNoNewline(v: PyValue)
    requires v.PyStr? ==> '\n' !in v.s
    ensures '\n' !in Render(v)
  {
    if v.PyInt? {
      NatTextDigits(if v.i < 0 then -v.i else v.i);
      var t := NatText(if v.i < 0 then -v.i else v.i);
      assert forall k :: 0 <= k < |t| ==> t[k] != '\n';
      assert Render(v) == t || Render(v) == "-" + t;
    }
  }

  // ---------------------------------------------------------------------
  // Header and file names
  // ---------------------------------------------------------------------

  function MetadataExtension(useMetadataFile: bool): string
  {
    if useMetadataFile then "metadata" else "properties"
  }

  /** The file name `_createMetadataFile`, `_openMetadataFile` and
      `_deleteMetadataFile` use for `fspath`. */
  function MetadataPath(fspath: string, useMetadataFile: bool): (p: string)
    ensures p == fspath + "." + MetadataExtension(useMetadataFile)
    ensures |p| > |fspath| && p[..|fspath|] == fspath
  {
    fspath + "." + MetadataExtension(useMetadataFile)
  }

  /** The section header `_createMetadataFile` writes first. */
  function MetadataHeader(useMetadataFile: bool): (h: string)
    ensures IsLine(h)
    ensures useMetadataFile ==> h == "[default]\n"
    ensures !useMetadataFile ==> h == "[Default]\n"
  {
    if useMetadataFile then "[default]\n" else "[Default]\n"
  }

  /** `_openMetadataFile` discards the first line of the file (when there is
      one); the lines after the header are what the reader sees. */
  function SkipHeader(lines: seq<string>): seq<string>
  {
    if lines == [] then [] else lines[1..]
  }

  lemma HeaderSkipped(useMetadataFile: bool, body: string)
    ensures SkipHeader(Lines(MetadataHeader(useMetadataFile) + body)) == Lines(body)
  {
    LinesPrepend(MetadataHeader(useMetadataFile), body);
  }

  // ---------------------------------------------------------------------
  // Writing properties (_writeProperties)
  // ---------------------------------------------------------------------

  /** The value written for a property: an integer under the `boolean` type is
      turned into a boolean first. */
  function WrittenValue(p: Property): (v: PyValue)
    ensures p.ptype == "boolean" && p.value.PyInt? ==> v == PyBool(p.value.i != 0)
    ensures !(p.ptype == "boolean" && p.value.PyInt?) ==> v == p.value
  {
    if p.ptype == "boolean" && p.value.PyInt? then PyBool(p.value.i != 0) else p.value
  }

  function PropertyLine(p: Property): string
  {
    p.id + ":" + p.ptype + "=" + Render(WrittenValue(p)) + "\n"
  }

  function ProxyLine(roles: seq<string>): string
  {
    "proxy=" + Join(roles, ",") + "\n"
  }

  function PropId(p: Property): string
  {
    p.id
  }

  /** The line of each property, in order. */
  function PropertyLinesOf(ps: seq<Property>): (ls: seq<string>)
    ensures |ls| == |ps|
  {
    if ps == [] then [] else PropertyLinesOf(ps[..|ps| - 1]) + [PropertyLine(ps[|ps| - 1])]
  }

  /** The properties in the order they are written: ascending id. */
  function SortedProperties(sheet: PropertySheet): (ps: seq<Property>)
    ensures |ps| == |sheet.props|
  {
    SortBy(sheet.props, PropId)
  }

  /** The properties are written in ascending id order, each exactly as often as
      the object has it. */
  lemma WrittenInIdOrder(sheet: PropertySheet)
    ensures SortedBy(SortedProperties(sheet), PropId)
    ensures multiset(SortedProperties(sheet)) == multiset(sheet.props)
  {
    SortBySorted(sheet.props, PropId);
    SortByPermutation(sheet.props, PropId);
  }

  /** 1 when the proxy line is written, 0 otherwise. */
  function ProxyCount(sheet: PropertySheet): nat
  {
    if sheet.proxyRoles == [] then 0 else 1
  }

  /** Everything `_writeProperties` writes for `sheet`, line by line. */
  function PropertyLines(sheet: PropertySheet): (ls: seq<string>)
    ensures |ls| == ProxyCount(sheet) + |sheet.props|
  {
    var body := PropertyLinesOf(SortedProperties(sheet));
    if sheet.proxyRoles == [] then body else [ProxyLine(sheet.proxyRoles)] + body
  }

  /** `_writeProperties`: the proxy line when there are proxy roles, then one line
      per property in ascending id order. */
  method WriteProperties(sheet: PropertySheet) returns (text: string)
    ensures text == Concat(PropertyLines(sheet))
  {
    var ps := SortedProperties(sheet);
    var body := WritePropertyLines(ps);
    if sheet.proxyRoles == [] {
      text := body;
    } else {
      text := ProxyLine(sheet.proxyRoles) + body;
      assert [ProxyLine(sheet.proxyRoles)] + PropertyLinesOf(ps) == PropertyLines(sheet);
    }
  }

  /** The loop of `_writeProperties` over the sorted property ids. */
  method WritePropertyLines(ps: seq<Property>) returns (body: string)
    ensures body == Concat(PropertyLinesOf(ps))
  {
    body := "";
    var i := 0;
    while i < |ps|
      invariant 0 <= i <= |ps|
      invariant body == Concat(PropertyLinesOf(ps[..i]))
    {
      assert ps[..i + 1][..i] == ps[..i];
      ConcatAppend(PropertyLinesOf(ps[..i]), [PropertyLine(ps[i])]);
      body := body + PropertyLine(ps[i]);
      i := i + 1;
    }
    assert ps[..i] == ps;
  }

  lemma {:induction false} PropertyLinesOfAt(ps: seq<Property>, k: nat)
    requires k < |ps|
    ensures PropertyLinesOf(ps)[k] == PropertyLine(ps[k])
  {
    if k < |ps| - 1 {
      PropertyLinesOfAt(ps[..|ps| - 1], k);
    }
  }

  /** Line `k` after the proxy line is the line of the `k`-th property in id order,
      which is one of the object's properties. */
  lemma WrittenLineAt(sheet: PropertySheet, k: nat)
    requires ProxyCount(sheet) <= k < |PropertyLines(sheet)|
    ensures PropertyLines(sheet)[k] == PropertyLine(SortedProperties(sheet)[k - ProxyCount(sheet)])
    ensures SortedProperties(sheet)[k - ProxyCount(sheet)] in sheet.props
  {
    var n := ProxyCount(sheet);
    var ps := SortedProperties(sheet);
    var body := PropertyLinesOf(ps);
    if n == 0 {
      assert PropertyLines(sheet) == body;
    } else {
      assert PropertyLines(sheet) == [ProxyLine(sheet.proxyRoles)] + body;
      assert PropertyLines(sheet)[k] == body[k - 1];
    }
    PropertyLinesOfAt(ps, k - n);
    SortedEntry(sheet.props, PropId, k - n);
  }

  /** The written lines: the proxy line first exactly when there are proxy roles,
      then one line per property, in ascending id order. */
  lemma WrittenLines(sheet: PropertySheet)
    ensures var ls := PropertyLines(sheet);
      && |ls| == ProxyCount(sheet) + |sheet.props|
      && (sheet.proxyRoles != [] ==> ls[0] == "proxy=" + Join(sheet.proxyRoles, ",") + "\n")
      && (forall k :: ProxyCount(sheet) <= k < |ls| ==>
            ls[k] == PropertyLine(SortedProperties(sheet)[k - ProxyCount(sheet)]))
  {
    forall k | ProxyCount(sheet) <= k < |PropertyLines(sheet)|
      ensures PropertyLines(sheet)[k] == PropertyLine(SortedProperties(sheet)[k - ProxyCount(sheet)])
    {
      WrittenLineAt(sheet, k);
    }
  }

  /** Every property of the object has its line among the written ones. */
  lemma PropertyWritten(sheet: PropertySheet, p: Property)
    requires p in sheet.props
    ensures PropertyLine(p) in PropertyLines(sheet)
  {
    var ps := SortedProperties(sheet);
    SortedKeeps(sheet.props, PropId, p);
    var m :| 0 <= m < |ps| && ps[m] == p;
    WrittenLineAt(sheet, m + ProxyCount(sheet));
  }

  /** `l` is the line of one of the object's properties. */
  predicate LineOfProperty(sheet: PropertySheet, l: string)
  {
    exists p :: p in sheet.props && l == PropertyLine(p)
  }

  /** Every property has its line, and every line after the proxy line is the line
      of one of the properties. */
  lemma WrittenLinesComplete(sheet: PropertySheet)
    ensures forall p :: p in sheet.props ==> PropertyLine(p) in PropertyLines(sheet)
    ensures forall k :: ProxyCount(sheet) <= k < |PropertyLines(sheet)| ==>
      LineOfProperty(sheet, PropertyLines(sheet)[k])
  {
    forall k | ProxyCount(sheet) <= k < |PropertyLines(sheet)|
      ensures LineOfProperty(sheet, PropertyLines(sheet)[k])
    {
      WrittenLineAt(sheet, k);
      var p := SortedProperties(sheet)[k - ProxyCount(sheet)];
      assert p in sheet.props && PropertyLines(sheet)[k] == PropertyLine(p);
    }
    forall p | p in sheet.props ensures PropertyLine(p) in PropertyLines(sheet) {
      PropertyWritten(sheet, p);
    }
  }

  // ---------------------------------------------------------------------
  // Reading properties (_readProperties)
  // ---------------------------------------------------------------------

  /** The `(value, type)` pair `_readProperties` stores per property id. */
  datatype RawProperty = RawProperty(value: string, ptype: string)

  /** Python's `s[:-1]`. */
  function DropLast(s: string): string
  {
    if |s| == 0 then s else s[..|s| - 1]
  }

  /** `'ustring'` is read as `'string'`. */
  function NormType(t: string): string
  {
    if t == "ustring" then "string" else t
  }

  /** One property line: the text before the first `=` (or, without an `=`, the
      line without its last character, as Python's `line[:-1]` gives) is the id
      and the optional type; the value runs from after the `=` to just before the
      last character. */
  function ParseLine(line: string): (string, RawProperty)
  {
    var eq := Find(line, '=');
    var prop := if eq >= 0 then line[..eq] else DropLast(line);
    var stop := if |line| == 0 then 0 else |line| - 1;
    var value := if eq + 1 <= stop then line[eq + 1..stop] else "";
    var tmp := Split(prop, ':');
    var otype := if |tmp| == 2 then tmp[1] else "string";
    (tmp[0], RawProperty(value, NormType(otype)))
  }

  /** `id:type=value` parses to `id` and `(value, type)`, with `ustring` read as
      `string`; the value may itself contain `=` and `:`. */
  lemma ParseTypedLine(id: string, t: string, value: string)
    requires ':' !in id && '=' !in id && ':' !in t && '=' !in t
    ensures ParseLine(id + ":" + t + "=" + value + "\n") == (id, RawProperty(value, NormType(t)))
  {
    var line := id + ":" + t + "=" + value + "\n";
    var prop := id + ":" + t;
    assert line == prop + ("=" + value + "\n");
    FindAfter(prop, "=" + value + "\n", '=');
    assert line[..|prop|] == prop;
    assert line[|prop| + 1..|line| - 1] == value;
    SplitJoin([id, t], ':');
    assert Join([id, t], [':']) == prop;
  }

  /** `id=value` without a type parses to type `string`. */
  lemma ParseUntypedLine(id: string, value: string)
    requires ':' !in id && '=' !in id
    ensures ParseLine(id + "=" + value + "\n") == (id, RawProperty(value, "string"))
  {
    var line := id + "=" + value + "\n";
    assert line == id + ("=" + value + "\n");
    FindAfter(id, "=" + value + "\n", '=');
    assert line[..|id|] == id;
    assert line[|id| + 1..|line| - 1] == value;
    FindFirst(id, ':');
  }

  /** The reader's loop, as a function of the remaining lines and the dictionary
      built so far: it stops after the first line equal to `"\n"`, and answers the
      dictionary together with the lines it did not consume. */
  function ReadFrom(lines: seq<string>, acc: Dict<RawProperty>): (Dict<RawProperty>, seq<string>)
  {
    if lines == [] then (acc, [])
    else if lines[0] == "\n" then (acc, lines[1..])
    else
      var e := ParseLine(lines[0]);
      ReadFrom(lines[1..], Put(acc, e.0, e.1))
  }

  /** The reader builds a well-formed dictionary. */
  lemma {:induction false} ReadFromValid(lines: seq<string>, acc: Dict<RawProperty>)
    requires Valid(acc)
    ensures Valid(ReadFrom(lines, acc).0)
  {
    if lines != [] && lines[0] != "\n" {
      var e := ParseLine(lines[0]);
      PutValid(acc, e.0, e.1);
      ReadFromValid(lines[1..], Put(acc, e.0, e.1));
    }
  }

  /** `_readProperties` over the lines still to be read from an open file:
      returns the dictionary and the lines left for the caller. */
  method ReadProperties(lines: seq<string>) returns (props: Dict<RawProperty>, rest: seq<string>)
    ensures (props, rest) == ReadFrom(lines, Empty())
  {
    props := Empty();
    var i := 0;
    while i < |lines|
      invariant 0 <= i <= |lines|
      invariant ReadFrom(lines[i..], props) == ReadFrom(lines, Empty())
    {
      if lines[i] == "\n" {
        assert lines[i..][1..] == lines[i + 1..];
        rest := lines[i + 1..];
        return;
      }
      var (id, raw) := ParseLine(lines[i]);
      assert lines[i..][1..] == lines[i + 1..];
      props := Put(props, id, raw);
      i := i + 1;
    }
    rest := [];
  }

  /** The pairs the reader stores for `lines`, in order. */
  function ParseAll(lines: seq<string>): (es: seq<(string, RawProperty)>)
    ensures |es| == |lines|
  {
    seq(|lines|, k requires 0 <= k < |lines| => ParseLine(lines[k]))
  }

  /** The reader consumes exactly the lines up to and including the first blank
      line, storing each of the lines before it in turn (so a repeated id keeps
      its last value), and leaves the rest to the caller. */
  lemma {:induction false} ReadSection(section: seq<string>, after: seq<string>, acc: Dict<RawProperty>)
    requires forall k :: 0 <= k < |section| ==> section[k] != "\n"
    ensures ReadFrom(section + ["\n"] + after, acc) == (PutAll(acc, ParseAll(section)), after)
    decreases |section|
  {
    var lines := section + ["\n"] + after;
    if section == [] {
      assert lines == ["\n"] + after;
    } else {
      var acc' := Put(acc, ParseLine(section[0]).0, ParseLine(section[0]).1);
      assert lines == [section[0]] + (section[1..] + ["\n"] + after);
      ReadSection(section[1..], after, acc');
      ParseAllTail(section);
    }
  }

  lemma ParseAllTail(lines: seq<string>)
    requires lines != []
    ensures ParseAll(lines) == [ParseLine(lines[0])] + ParseAll(lines[1..])
  {
  }

  /** A text the reader ends without a blank line is consumed completely. */
  lemma {:induction false} ReadToEnd(section: seq<string>, acc: Dict<RawProperty>)
    requires forall k :: 0 <= k < |section| ==> section[k] != "\n"
    ensures ReadFrom(section, acc) == (PutAll(acc, ParseAll(section)), [])
    decreases |section|
  {
    if section != [] {
      var acc' := Put(acc, ParseLine(section[0]).0, ParseLine(section[0]).1);
      ReadToEnd(section[1..], acc');
      ParseAllTail(section);
    }
  }

  // ---------------------------------------------------------------------
  // The round trip
  // ---------------------------------------------------------------------

  /** Neither `:`, `=` nor a newline: a name that survives `id:type=` framing. */
  predicate SafeName(s: string)
  {
    ':' !in s && '=' !in s && '\n' !in s
  }

  /** A property whose line reads back: safe id and type, not called `proxy`, and
      a string value without a newline. */
  predicate WritableProperty(p: Property)
  {
    SafeName(p.id) && SafeName(p.ptype) && p.id != "proxy" && (p.value.PyStr? ==> '\n' !in p.value.s)
  }

  /** The sheets whose written properties read back as they were: writable
      properties with unique ids, and proxy roles without a newline. */
  predicate Writable(sheet: PropertySheet)
  {
    && (forall p :: p in sheet.props ==> WritableProperty(p))
    && (forall i, j :: 0 <= i < j < |sheet.props| ==> sheet.props[i].id != sheet.props[j].id)
    && (forall k :: 0 <= k < |sheet.proxyRoles| ==> '\n' !in sheet.proxyRoles[k])
  }

  /** What the reader stores for a written property: its written value as text and
      its type. */
  function ReadBack(p: Property): RawProperty
  {
    RawProperty(Render(WrittenValue(p)), NormType(p.ptype))
  }

  /** A writable property's line is one line, and it parses back to the id and to
      the written value as text with the type. */
  lemma PropertyLineParses(p: Property)
    requires WritableProperty(p)
    ensures IsLine(PropertyLine(p)) && PropertyLine(p) != "\n"
    ensures ParseLine(PropertyLine(p)) == (p.id, ReadBack(p))
  {
    var w := WrittenValue(p);
    RenderNoNewline(w);
    var l := PropertyLine(p);
    assert l[..|l| - 1] == p.id + ":" + p.ptype + "=" + Render(w);
    assert l[|p.id|] == ':';
    ParseTypedLine(p.id, p.ptype, Render(w));
  }

  lemma ProxyLineIsLine(roles: seq<string>)
    requires forall k :: 0 <= k < |roles| ==> '\n' !in roles[k]
    ensures IsLine(ProxyLine(roles)) && ProxyLine(roles) != "\n"
  {
    var j := Join(roles, ",");
    JoinExcludes(roles, ",", '\n');
    LineEnd("proxy=" + j);
  }

  lemma ParseProxyLine(roles: seq<string>)
    ensures ParseLine(ProxyLine(roles)) == ("proxy", RawProperty(Join(roles, ","), "string"))
  {
    var j := Join(roles, ",");
    var id := "proxy";
    assert ':' !in id && '=' !in id;
    assert ProxyLine(roles) == id + "=" + j + "\n";
    ParseUntypedLine(id, j);
  }

  /** Every written line is a complete line, and none is the blank line that ends
      the section. */
  lemma WrittenLinesAreLines(sheet: PropertySheet)
    requires Writable(sheet)
    ensures forall k :: 0 <= k < |PropertyLines(sheet)| ==>
      IsLine(PropertyLines(sheet)[k]) && PropertyLines(sheet)[k] != "\n"
  {
    forall k | 0 <= k < |PropertyLines(sheet)|
      ensures IsLine(PropertyLines(sheet)[k]) && PropertyLines(sheet)[k] != "\n"
    {
      WrittenLineIsLine(sheet, k);
    }
  }

  lemma WrittenLineIsLine(sheet: PropertySheet, k: nat)
    requires Writable(sheet) && k < |PropertyLines(sheet)|
    ensures IsLine(PropertyLines(sheet)[k]) && PropertyLines(sheet)[k] != "\n"
  {
    var n := ProxyCount(sheet);
    if k < n {
      ProxyLineIsLine(sheet.proxyRoles);
    } else {
      WrittenLineAt(sheet, k);
      PropertyLineParses(SortedProperties(sheet)[k - n]);
    }
  }

  /** The pairs the reader stores for the written lines, in order. */
  function WrittenEntries(sheet: PropertySheet): (es: seq<(string, RawProperty)>)
    ensures |es| == ProxyCount(sheet) + |sheet.props|
  {
    var body := EntriesOf(SortedProperties(sheet));
    if sheet.proxyRoles == [] then body
    else [("proxy", RawProperty(Join(sheet.proxyRoles, ","), "string"))] + body
  }

  function EntriesOf(ps: seq<Property>): (es: seq<(string, RawProperty)>)
    ensures |es| == |ps|
  {
    if ps == [] then [] else [(ps[0].id, ReadBack(ps[0]))] + EntriesOf(ps[1..])
  }

  lemma {:induction false} EntriesOfAt(ps: seq<Property>, k: nat)
    requires k < |ps|
    ensures EntriesOf(ps)[k] == (ps[k].id, ReadBack(ps[k]))
  {
    if k > 0 {
      EntriesOfAt(ps[1..], k - 1);
    }
  }

  /** Entry `k` after the proxy entry belongs to one of the object's properties. */
  lemma WrittenEntryAt(sheet: PropertySheet, k: nat)
    requires ProxyCount(sheet) <= k < |WrittenEntries(sheet)|
    ensures var p := SortedProperties(sheet)[k - ProxyCount(sheet)];
      WrittenEntries(sheet)[k] == (p.id, ReadBack(p)) && p in sheet.props
  {
    var n := ProxyCount(sheet);
    EntriesOfAt(SortedProperties(sheet), k - n);
    SortedEntry(sheet.props, PropId, k - n);
  }

  /** The reader parses the written lines into the written entries. */
  lemma ParseWritten(sheet: PropertySheet)
    requires Writable(sheet)
    ensures ParseAll(PropertyLines(sheet)) == WrittenEntries(sheet)
  {
    var es := ParseAll(PropertyLines(sheet));
    forall k | 0 <= k < |es| ensures es[k] == WrittenEntries(sheet)[k] {
      ParseWrittenAt(sheet, k);
    }
  }

  lemma ParseWrittenAt(sheet: PropertySheet, k: nat)
    requires Writable(sheet) && k < |PropertyLines(sheet)|
    ensures ParseLine(PropertyLines(sheet)[k]) == WrittenEntries(sheet)[k]
  {
    var n := ProxyCount(sheet);
    if k < n {
      ParseProxyLine(sheet.proxyRoles);
    } else {
      WrittenLineAt(sheet, k);
      WrittenEntryAt(sheet, k);
      PropertyLineParses(SortedProperties(sheet)[k - n]);
    }
  }

  /** In a writable sheet the id determines the property. */
  lemma SameId(sheet: PropertySheet, p: Property, q: Property)
    requires Writable(sheet) && p in sheet.props && q in sheet.props && p.id == q.id
    ensures p == q
  {
    var a :| 0 <= a < |sheet.props| && sheet.props[a] == p;
    var b :| 0 <= b < |sheet.props| && sheet.props[b] == q;
  }

  /** The written entry of a property is the only entry for its id. */
  lemma OnlyEntry(sheet: PropertySheet, p: Property, j: nat)
    requires Writable(sheet) && p in sheet.props
    requires j < |WrittenEntries(sheet)| && WrittenEntries(sheet)[j].0 == p.id
    ensures WrittenEntries(sheet)[j].1 == ReadBack(p)
  {
    if j >= ProxyCount(sheet) {
      WrittenEntryAt(sheet, j);
      SameId(sheet, p, SortedProperties(sheet)[j - ProxyCount(sheet)]);
    }
  }

  lemma ReadBackProperty(sheet: PropertySheet, p: Property)
    requires Writable(sheet) && p in sheet.props
    ensures p.id in PutAll(Empty<RawProperty>(), WrittenEntries(sheet)).values
    ensures PutAll(Empty<RawProperty>(), WrittenEntries(sheet)).values[p.id] == ReadBack(p)
  {
    var es := WrittenEntries(sheet);
    var n := ProxyCount(sheet);
    SortedKeeps(sheet.props, PropId, p);
    var m :| 0 <= m < |SortedProperties(sheet)| && SortedProperties(sheet)[m] == p;
    WrittenEntryAt(sheet, m + n);
    forall j | 0 <= j < |es| && es[j].0 == p.id ensures es[j].1 == ReadBack(p) {
      OnlyEntry(sheet, p, j);
    }
    PutAllAgree(Empty<RawProperty>(), es, m + n, p.id, ReadBack(p));
  }

  lemma ReadBackProxy(sheet: PropertySheet)
    requires Writable(sheet)
    ensures "proxy" in PutAll(Empty<RawProperty>(), WrittenEntries(sheet)).values <==> sheet.proxyRoles != []
    ensures sheet.proxyRoles != [] ==>
      PutAll(Empty<RawProperty>(), WrittenEntries(sheet)).values["proxy"] == RawProperty(Join(sheet.proxyRoles, ","), "string")
  {
    var n := ProxyCount(sheet);
    var es := WrittenEntries(sheet);
    forall j | n <= j < |es| ensures es[j].0 != "proxy" {
      WrittenEntryAt(sheet, j);
    }
    PutAllKeys(Empty<RawProperty>(), es, "proxy");
    if n == 1 {
      PutAllAgree(Empty<RawProperty>(), es, 0, "proxy", RawProperty(Join(sheet.proxyRoles, ","), "string"));
    }
  }

  lemma ReadBackKeys(sheet: PropertySheet)
    requires Writable(sheet)
    ensures forall k :: k in PutAll(Empty<RawProperty>(), WrittenEntries(sheet)).values ==>
      k == "proxy" || exists p :: p in sheet.props && p.id == k
  {
    var n := ProxyCount(sheet);
    var es := WrittenEntries(sheet);
    forall k | k in PutAll(Empty<RawProperty>(), es).values
      ensures k == "proxy" || exists p :: p in sheet.props && p.id == k
    {
      PutAllKeys(Empty<RawProperty>(), es, k);
      var j :| 0 <= j < |es| && es[j].0 == k;
      if j >= n {
        WrittenEntryAt(sheet, j);
      }
    }
  }

  /** Round trip of `_writeProperties` and `_readProperties`: reading back the
      written section, up to the blank line that follows it, gives for each
      property id its written value as text and its type tag, gives `proxy` the
      joined proxy roles exactly when there are some, holds no other key, and
      leaves the lines after the blank line unread. */
  lemma PropertiesRoundTrip(sheet: PropertySheet, after: seq<string>)
    requires Writable(sheet)
    ensures var (props, rest) := ReadFrom(PropertyLines(sheet) + ["\n"] + after, Empty());
      && rest == after
      && (forall p :: p in sheet.props ==> p.id in props.values && props.values[p.id] == ReadBack(p))
      && ("proxy" in props.values <==> sheet.proxyRoles != [])
      && (sheet.proxyRoles != [] ==> props.values["proxy"] == RawProperty(Join(sheet.proxyRoles, ","), "string"))
      && (forall k :: k in props.values ==> k == "proxy" || exists p :: p in sheet.props && p.id == k)
  {
    WrittenLinesAreLines(sheet);
    ReadSection(PropertyLines(sheet), after, Empty());
    ParseWritten(sheet);
    forall p | p in sheet.props
      ensures p.id in PutAll(Empty<RawProperty>(), WrittenEntries(sheet)).values
      ensures PutAll(Empty<RawProperty>(), WrittenEntries(sheet)).values[p.id] == ReadBack(p)
    {
      ReadBackProperty(sheet, p);
    }
    ReadBackProxy(sheet);
    ReadBackKeys(sheet);
  }

  // ---------------------------------------------------------------------
  // The security section (_dumpSecurityInfo)
  // ---------------------------------------------------------------------

  /** One entry of `permission_settings()`: the permission name, whether it is
      acquired, and a `checked` flag per valid role. */
  datatype PermissionSetting = PermissionSetting(name: string, acquire: bool, checked: seq<bool>)

  /** The valid roles whose flag is set, in valid-roles order. */
  function CheckedRoles(validRoles: seq<string>, checked: seq<bool>): (r: seq<string>)
    requires |checked| >= |validRoles|
    ensures |r| <= |validRoles|
  {
    if validRoles == [] then []
    else (if checked[0] then [validRoles[0]] else []) + CheckedRoles(validRoles[1..], checked[1..])
  }

  lemma {:induction false} CheckedRolesMembers(validRoles: seq<string>, checked: seq<bool>, role: string)
    requires |checked| >= |validRoles|
    ensures role in CheckedRoles(validRoles, checked) <==>
      exists i :: 0 <= i < |validRoles| && validRoles[i] == role && checked[i]
  {
    if validRoles != [] {
      CheckedRolesMembers(validRoles[1..], checked[1..], role);
      if role in CheckedRoles(validRoles[1..], checked[1..]) {
        var i :| 0 <= i < |validRoles[1..]| && validRoles[1..][i] == role && checked[1..][i];
        assert validRoles[i + 1] == role && checked[i + 1];
      }
      if exists i :: 0 <= i < |validRoles| && validRoles[i] == role && checked[i] {
        var i :| 0 <= i < |validRoles| && validRoles[i] == role && checked[i];
        if i > 0 {
          assert validRoles[1..][i - 1] == role && checked[1..][i - 1];
        }
      }
    }
  }

  predicate RolesCover(validRoles: seq<string>, settings: seq<PermissionSetting>)
  {
    forall k :: 0 <= k < |settings| ==> |settings[k].checked| >= |validRoles|
  }

  /** A setting produces a line when some role is checked or it does not acquire. */
  predicate Emits(validRoles: seq<string>, s: PermissionSetting)
    requires |s.checked| >= |validRoles|
  {
    CheckedRoles(validRoles, s.checked) != [] || !s.acquire
  }

  /** `name=acquire:role1,role2`, with the acquire flag written as 1 or 0. */
  function SecurityLine(validRoles: seq<string>, s: PermissionSetting): string
    requires |s.checked| >= |validRoles|
  {
    s.name + "=" + (if s.acquire then "1" else "0") + ":" + Join(CheckedRoles(validRoles, s.checked), ",") + "\n"
  }

  function SecurityLines(validRoles: seq<string>, settings: seq<PermissionSetting>): seq<string>
    requires RolesCover(validRoles, settings)
  {
    if settings == [] then []
    else
      var last := settings[|settings| - 1];
      SecurityLines(validRoles, settings[..|settings| - 1])
        + (if Emits(validRoles, last) then [SecurityLine(validRoles, last)] else [])
  }

  const SecurityHeader := "\n[security]\n"

  /** The whole section: the header once, before the first line, and nothing at
      all when no setting produces a line. */
  function SecuritySection(validRoles: seq<string>, settings: seq<PermissionSetting>): string
    requires RolesCover(validRoles, settings)
  {
    var ls := SecurityLines(validRoles, settings);
    if ls == [] then "" else SecurityHeader + Concat(ls)
  }

  lemma SecurityLinesSnoc(validRoles: seq<string>, settings: seq<PermissionSetting>, i: nat)
    requires RolesCover(validRoles, settings) && i < |settings|
    ensures SecurityLines(validRoles, settings[..i + 1]) ==
      SecurityLines(validRoles, settings[..i])
        + (if Emits(validRoles, settings[i]) then [SecurityLine(validRoles, settings[i])] else [])
  {
    assert settings[..i + 1][..i] == settings[..i];
  }

  /** `_dumpSecurityInfo`: the text it appends to the metadata file. */
  method DumpSecurityInfo(validRoles: seq<string>, settings: seq<PermissionSetting>) returns (text: string)
    requires RolesCover(validRoles, settings)
    ensures text == SecuritySection(validRoles, settings)
  {
    var headerWritten := false;
    text := "";
    var i := 0;
    while i < |settings|
      invariant 0 <= i <= |settings|
      invariant headerWritten <==> SecurityLines(validRoles, settings[..i]) != []
      invariant text == SecuritySection(validRoles, settings[..i])
    {
      var s := settings[i];
      var before := SecurityLines(validRoles, settings[..i]);
      SecurityLinesSnoc(validRoles, settings, i);
      if Emits(validRoles, s) {
        var line := SecurityLine(validRoles, s);
        ConcatAppend(before, [line]);
        assert Concat([line]) == line + Concat([]);
        if !headerWritten {
          headerWritten := true;
          text := text + SecurityHeader;
          assert text == SecurityHeader + Concat(before);
        }
        text := text + line;
        assert text == SecurityHeader + (Concat(before) + line);
      } else {
        assert SecurityLines(validRoles, settings[..i + 1]) == before;
      }
      i := i + 1;
    }
    assert settings[..i] == settings;
  }

  /** The section is non-empty exactly when some setting has a checked role or
      does not acquire. */
  lemma {:induction false} SecuritySectionPresent(validRoles: seq<string>, settings: seq<PermissionSetting>)
    requires RolesCover(validRoles, settings)
    ensures SecuritySection(validRoles, settings) != "" <==>
      exists k :: 0 <= k < |settings| && Emits(validRoles, settings[k])
    decreases |settings|
  {
    if settings != [] {
      var init := settings[..|settings| - 1];
      SecuritySectionPresent(validRoles, init);
      var ls := SecurityLines(validRoles, settings);
      if ls != [] { assert (SecurityHeader + Concat(ls))[0] == '\n'; }
      if SecuritySection(validRoles, init) != "" {
        var k :| 0 <= k < |init| && Emits(validRoles, init[k]);
        assert settings[k] == init[k];
      }
      if exists k :: 0 <= k < |settings| && Emits(validRoles, settings[k]) {
        var k :| 0 <= k < |settings| && Emits(validRoles, settings[k]);
        if k < |init| { assert init[k] == settings[k]; }
      }
      var li := SecurityLines(validRoles, init);
      if li != [] { assert (SecurityHeader + Concat(li))[0] == '\n'; }
    }
  }

  /** Each line of the section belongs to a setting that produces one, and lists
      exactly its checked valid roles. */
  lemma {:induction false} SecurityLinesFromSettings(validRoles: seq<string>, settings: seq<PermissionSetting>)
    requires RolesCover(validRoles, settings)
    ensures forall l :: l in SecurityLines(validRoles, settings) ==>
      exists k :: 0 <= k < |settings| && Emits(validRoles, settings[k]) && l == SecurityLine(validRoles, settings[k])
    decreases |settings|
  {
    if settings != [] {
      var init := settings[..|settings| - 1];
      SecurityLinesFromSettings(validRoles, init);
      forall l | l in SecurityLines(validRoles, settings)
        ensures exists k :: 0 <= k < |settings| && Emits(validRoles, settings[k]) && l == SecurityLine(validRoles, settings[k])
      {
        if l in SecurityLines(validRoles, init) {
          var k :| 0 <= k < |init| && Emits(validRoles, init[k]) && l == SecurityLine(validRoles, init[k]);
          assert settings[k] == init[k];
        } else {
          assert l == SecurityLine(validRoles, settings[|settings| - 1]);
        }
      }
    }
  }

  // ---------------------------------------------------------------------
  // Loading properties (_loadProperties)
  // ---------------------------------------------------------------------

  predicate HasProperty(ps: seq<Property>, id: string)
  {
    exists k :: 0 <= k < |ps| && ps[k].id == id
  }

  /** The property `_setProperty(id, value, type)` creates from a stored pair. */
  function NewProperty(id: string, raw: RawProperty): Property
  {
    Property(id, raw.ptype, PyStr(raw.value))
  }

  /** `_updateProperty(id, value)` when the object has the property (its type is
      kept), `_setProperty(id, value, type)` when it does not. The value is
      stored as the string read; the conversion `_updateProperty` makes to the
      existing property's type is not modelled. */
  function UpdateOrSet(ps: seq<Property>, id: string, raw: RawProperty): (r: seq<Property>)
    ensures !HasProperty(ps, id) ==> r == ps + [NewProperty(id, raw)]
  {
    if ps == [] then [NewProperty(id, raw)]
    else if ps[0].id == id then [ps[0].(value := PyStr(raw.value))] + ps[1..]
    else
      assert HasProperty(ps[1..], id) ==> HasProperty(ps, id) by {
        if HasProperty(ps[1..], id) {
          var k :| 0 <= k < |ps[1..]| && ps[1..][k].id == id;
          assert ps[k + 1].id == id;
        }
      }
      [ps[0]] + UpdateOrSet(ps[1..], id, raw)
  }

  /** After the assignment the object has the property with the new value. */
  lemma {:induction false} UpdateOrSetValue(ps: seq<Property>, id: string, raw: RawProperty)
    ensures HasValue(UpdateOrSet(ps, id, raw), id, PyStr(raw.value))
  {
    var r := UpdateOrSet(ps, id, raw);
    if ps == [] || ps[0].id == id {
      assert r[0].id == id && r[0].value == PyStr(raw.value);
    } else {
      UpdateOrSetValue(ps[1..], id, raw);
      var t := UpdateOrSet(ps[1..], id, raw);
      var k :| 0 <= k < |t| && t[k].id == id && t[k].value == PyStr(raw.value);
      assert r[k + 1] == t[k];
    }
  }

  /** The assignment leaves the other properties alone and adds none but `id`. */
  lemma {:induction false} UpdateOrSetOthers(ps: seq<Property>, id: string, raw: RawProperty)
    ensures forall q :: q in ps && q.id != id ==> q in UpdateOrSet(ps, id, raw)
    ensures forall q :: q in UpdateOrSet(ps, id, raw) ==> q in ps || q.id == id
  {
    if ps != [] && ps[0].id != id {
      UpdateOrSetOthers(ps[1..], id, raw);
      assert forall q :: q in ps ==> q == ps[0] || q in ps[1..];
    } else if ps != [] {
      assert forall q :: q in ps ==> q == ps[0] || q in ps[1..];
    }
  }

  /** The property assignments for the given keys, in order. */
  function ApplyProperties(ps: seq<Property>, keys: seq<string>, values: map<string, RawProperty>): seq<Property>
    requires forall k :: 0 <= k < |keys| ==> keys[k] in values
    decreases |keys|
  {
    if keys == [] then ps
    else ApplyProperties(UpdateOrSet(ps, keys[0], values[keys[0]]), keys[1..], values)
  }

  /** Some property of `ps` has this id and this value. */
  predicate HasValue(ps: seq<Property>, id: string, value: PyValue)
  {
    exists k :: 0 <= k < |ps| && ps[k].id == id && ps[k].value == value
  }

  /** `_loadProperties` with the proxy roles split from the stored value. Nothing
      changes for an empty dictionary. */
  function LoadProperties(sheet: PropertySheet, props: Dict<RawProperty>): (r: PropertySheet)
    requires Valid(props)
    ensures props.values == map[] ==> r == sheet
    ensures "proxy" in props.values ==> r.proxyRoles == Split(props.values["proxy"].value, ',')
    ensures "proxy" !in props.values ==> r.proxyRoles == sheet.proxyRoles
  {
    if props.values == map[] then sheet
    else if "proxy" in props.values then
      var rest := Remove(props, "proxy");
      RemoveValid(props, "proxy");
      PropertySheet(Split(props.values["proxy"].value, ','), ApplyProperties(sheet.props, rest.keys, rest.values))
    else
      PropertySheet(sheet.proxyRoles, ApplyProperties(sheet.props, props.keys, props.values))
  }

  /** `_loadProperties` as written: `props.pop('proxy')` is the `(value, type)`
      pair, and calling `split` on it raises. */
  function LoadPropertiesAsWritten(sheet: PropertySheet, props: Dict<RawProperty>): (r: Result<PropertySheet>)
    requires Valid(props)
    ensures "proxy" in props.values ==> r.Err?
    ensures "proxy" !in props.values ==> r == Ok(LoadProperties(sheet, props))
  {
    if props.values == map[] then Ok(sheet)
    else if "proxy" in props.values then Err("AttributeError: 'tuple' object has no attribute 'split'")
    else Ok(PropertySheet(sheet.proxyRoles, ApplyProperties(sheet.props, props.keys, props.values)))
  }

  lemma DistinctTail(keys: seq<string>)
    requires keys != [] && Distinct(keys)
    ensures Distinct(keys[1..]) && keys[0] !in keys[1..]
  {
    var tail := keys[1..];
    forall i, j | 0 <= i < j < |tail| ensures tail[i] != tail[j] {
      assert tail[i] == keys[i + 1] && tail[j] == keys[j + 1];
    }
    forall m | 0 <= m < |tail| ensures tail[m] != keys[0] {
      assert tail[m] == keys[m + 1];
    }
  }

  /** A property whose id is not assigned is kept. */
  lemma {:induction false} ApplyKeeps(ps: seq<Property>, keys: seq<string>, values: map<string, RawProperty>)
    requires forall k :: 0 <= k < |keys| ==> keys[k] in values
    ensures forall q :: q in ps && q.id !in keys ==> q in ApplyProperties(ps, keys, values)
    decreases |keys|
  {
    if keys != [] {
      UpdateOrSetOthers(ps, keys[0], values[keys[0]]);
      ApplyKeeps(UpdateOrSet(ps, keys[0], values[keys[0]]), keys[1..], values);
    }
  }

  /** Every assigned key ends up present with the value stored for it. */
  lemma {:induction false} ApplyValues(ps: seq<Property>, keys: seq<string>, values: map<string, RawProperty>)
    requires forall k :: 0 <= k < |keys| ==> keys[k] in values
    requires Distinct(keys)
    ensures forall k :: 0 <= k < |keys| ==>
      HasValue(ApplyProperties(ps, keys, values), keys[k], PyStr(values[keys[k]].value))
    decreases |keys|
  {
    if keys != [] {
      var v0 := values[keys[0]];
      var ps' := UpdateOrSet(ps, keys[0], v0);
      DistinctTail(keys);
      ApplyValues(ps', keys[1..], values);
      ApplyKeeps(ps', keys[1..], values);
      UpdateOrSetValue(ps, keys[0], v0);
      var r := ApplyProperties(ps', keys[1..], values);
      var m0 :| 0 <= m0 < |ps'| && ps'[m0].id == keys[0] && ps'[m0].value == PyStr(v0.value);
      assert ps'[m0] in ps';
      var m :| 0 <= m < |r| && r[m] == ps'[m0];
      forall k | 0 < k < |keys|
        ensures HasValue(r, keys[k], PyStr(values[keys[k]].value))
      {
        assert keys[k] == keys[1..][k - 1];
      }
    }
  }

  /** A key the object did not have becomes a new property with the stored type
      and value. */
  lemma {:induction false} ApplyNew(ps: seq<Property>, keys: seq<string>, values: map<string, RawProperty>)
    requires forall k :: 0 <= k < |keys| ==> keys[k] in values
    requires Distinct(keys)
    ensures forall k :: 0 <= k < |keys| && !HasProperty(ps, keys[k]) ==>
      NewProperty(keys[k], values[keys[k]]) in ApplyProperties(ps, keys, values)
    decreases |keys|
  {
    if keys != [] {
      var v0 := values[keys[0]];
      var ps' := UpdateOrSet(ps, keys[0], v0);
      DistinctTail(keys);
      ApplyNew(ps', keys[1..], values);
      ApplyKeeps(ps', keys[1..], values);
      UpdateOrSetOthers(ps, keys[0], v0);
      forall k | 0 <= k < |keys| && !HasProperty(ps, keys[k])
        ensures NewProperty(keys[k], values[keys[k]]) in ApplyProperties(ps, keys, values)
      {
        if k > 0 {
          assert keys[k] == keys[1..][k - 1];
          assert !HasProperty(ps', keys[k]);
        } else {
          assert NewProperty(keys[0], v0) in ps';
        }
      }
    }
  }

  /** Every property is one of the sheet's written properties as it is read
      back and created by `_setProperty`. */
  predicate OnlyWritten(ps: seq<Property>, sheet: PropertySheet)
  {
    forall q :: q in ps ==> exists p :: p in sheet.props && q == NewProperty(p.id, ReadBack(p))
  }

  /** Every property is the one `_setProperty` creates from its stored pair. */
  predicate CreatedFrom(ps: seq<Property>, values: map<string, RawProperty>)
  {
    forall q :: q in ps ==> q.id in values && q == NewProperty(q.id, values[q.id])
  }

  /** Assigning a stored pair keeps every property created from the stored pairs. */
  lemma {:induction false} UpdateOrSetCreated(ps: seq<Property>, id: string, values: map<string, RawProperty>)
    requires id in values && CreatedFrom(ps, values)
    ensures CreatedFrom(UpdateOrSet(ps, id, values[id]), values)
    decreases |ps|
  {
    if ps != [] {
      assert ps[0] in ps;
      assert CreatedFrom(ps[1..], values) by {
        forall q | q in ps[1..] ensures q in ps {
        }
      }
      if ps[0].id != id {
        UpdateOrSetCreated(ps[1..], id, values);
      }
    }
  }

  /** Assigning stored pairs keeps every property created from them. */
  lemma {:induction false} ApplyCreated(ps: seq<Property>, keys: seq<string>, values: map<string, RawProperty>)
    requires forall k :: 0 <= k < |keys| ==> keys[k] in values
    requires CreatedFrom(ps, values)
    ensures CreatedFrom(ApplyProperties(ps, keys, values), values)
    decreases |keys|
  {
    if keys != [] {
      UpdateOrSetCreated(ps, keys[0], values);
      ApplyCreated(UpdateOrSet(ps, keys[0], values[keys[0]]), keys[1..], values);
    }
  }

  /** The dictionary read back from a written section, as a well-formed
      dictionary. */
  function ReadBackDict(sheet: PropertySheet, after: seq<string>): (d: Dict<RawProperty>)
    ensures Valid(d)
  {
    ReadFromValid(PropertyLines(sheet) + ["\n"] + after, Empty());
    ReadFrom(PropertyLines(sheet) + ["\n"] + after, Empty()).0
  }

  /** Loading the read-back dictionary restores the proxy roles (when none of them
      contains a comma). */
  lemma LoadRoundTripProxy(sheet: PropertySheet, after: seq<string>)
    requires Writable(sheet)
    requires forall k :: 0 <= k < |sheet.proxyRoles| ==> ',' !in sheet.proxyRoles[k]
    ensures LoadProperties(PropertySheet([], []), ReadBackDict(sheet, after)).proxyRoles == sheet.proxyRoles
  {
    PropertiesRoundTrip(sheet, after);
    if sheet.proxyRoles != [] {
      SplitJoin(sheet.proxyRoles, ',');
    }
  }

  /** Loading the read-back dictionary into an object without properties creates
      every written property with its type and its written value as text. */
  lemma LoadRoundTripProps(sheet: PropertySheet, after: seq<string>)
    requires Writable(sheet)
    ensures forall p :: p in sheet.props ==>
      NewProperty(p.id, ReadBack(p)) in LoadProperties(PropertySheet([], []), ReadBackDict(sheet, after)).props
  {
    var props := ReadBackDict(sheet, after);
    var rest := WithoutProxy(props);
    LoadedProps(props);
    forall p | p in sheet.props
      ensures NewProperty(p.id, ReadBack(p)) in ApplyProperties([], rest.keys, rest.values)
    {
      ReadBackEntry(sheet, after, p);
      AppliedNew(rest, p.id, ReadBack(p));
    }
  }

  /** Loading the read-back dictionary into an object without properties creates
      nothing but the written properties. */
  lemma LoadRoundTripOnly(sheet: PropertySheet, after: seq<string>)
    requires Writable(sheet)
    ensures OnlyWritten(LoadProperties(PropertySheet([], []), ReadBackDict(sheet, after)).props, sheet)
  {
    var rest := WithoutProxy(ReadBackDict(sheet, after));
    LoadedProps(ReadBackDict(sheet, after));
    ReadBackCreated(sheet, after);
    CreatedAreWritten(sheet, after, ApplyProperties([], rest.keys, rest.values));
  }

  /** Assigning the pairs read back, other than `proxy`, to an object without
      properties creates every property from its pair. */
  lemma ReadBackCreated(sheet: PropertySheet, after: seq<string>)
    requires Writable(sheet)
    ensures var rest := WithoutProxy(ReadBackDict(sheet, after));
      CreatedFrom(ApplyProperties([], rest.keys, rest.values), rest.values)
  {
    var rest := WithoutProxy(ReadBackDict(sheet, after));
    ApplyCreated([], rest.keys, rest.values);
  }

  /** Properties created from the pairs read back, other than `proxy`, are
      written properties as they are read back. */
  lemma CreatedAreWritten(sheet: PropertySheet, after: seq<string>, ps: seq<Property>)
    requires Writable(sheet)
    requires CreatedFrom(ps, WithoutProxy(ReadBackDict(sheet, after)).values)
    ensures OnlyWritten(ps, sheet)
  {
    forall q | q in ps
      ensures exists p :: p in sheet.props && q == NewProperty(p.id, ReadBack(p))
    {
      CreatedIsWritten(sheet, after, q);
    }
  }

  /** A property created from a pair read back, other than `proxy`, is a written
      property as it is read back. */
  lemma CreatedIsWritten(sheet: PropertySheet, after: seq<string>, q: Property)
    requires Writable(sheet)
    requires q.id in ReadBackDict(sheet, after).values && q.id != "proxy"
    requires q == NewProperty(q.id, ReadBackDict(sheet, after).values[q.id])
    ensures exists p :: p in sheet.props && q == NewProperty(p.id, ReadBack(p))
  {
    PropertiesRoundTrip(sheet, after);
    var p :| p in sheet.props && p.id == q.id;
    assert ReadBackDict(sheet, after).values[q.id] == ReadBack(p);
  }

  /** Assigning the stored pairs to an object without properties creates each
      of them. */
  lemma AppliedNew(d: Dict<RawProperty>, id: string, raw: RawProperty)
    requires Valid(d) && id in d.values && d.values[id] == raw
    ensures NewProperty(id, raw) in ApplyProperties([], d.keys, d.values)
  {
    ApplyNew([], d.keys, d.values);
    var k :| 0 <= k < |d.keys| && d.keys[k] == id;
    assert !HasProperty([], d.keys[k]);
  }

  /** The stored pairs other than `proxy`. */
  function WithoutProxy(props: Dict<RawProperty>): (r: Dict<RawProperty>)
    requires Valid(props)
    ensures Valid(r) && r.values == props.values - {"proxy"}
  {
    RemoveValid(props, "proxy");
    if "proxy" in props.values then Remove(props, "proxy") else props
  }

  /** Loading into an object without properties assigns the pairs other than
      `proxy`, in order. */
  lemma LoadedProps(props: Dict<RawProperty>)
    requires Valid(props)
    ensures LoadProperties(PropertySheet([], []), props).props
      == ApplyProperties([], WithoutProxy(props).keys, WithoutProxy(props).values)
  {
    if props.values == map[] {
      RemoveAbsent(props, "proxy");
    } else if "proxy" !in props.values {
      RemoveAbsent(props, "proxy");
    }
  }

  /** A written property is read back under its id, which is not `proxy`. */
  lemma ReadBackEntry(sheet: PropertySheet, after: seq<string>, p: Property)
    requires Writable(sheet) && p in sheet.props
    ensures p.id != "proxy"
    ensures p.id in ReadBackDict(sheet, after).values
    ensures ReadBackDict(sheet, after).values[p.id] == ReadBack(p)
  {
    PropertiesRoundTrip(sheet, after);
  }

  /** Round trip of writing, reading and loading into an object without
      properties: the proxy roles come back (when none contains a comma), every
      property comes back with its type and its written value as text, and no
      other property is created. */
  lemma LoadRoundTrip(sheet: PropertySheet, after: seq<string>)
    requires Writable(sheet)
    requires forall k :: 0 <= k < |sheet.proxyRoles| ==> ',' !in sheet.proxyRoles[k]
    ensures var loaded := LoadProperties(PropertySheet([], []), ReadBackDict(sheet, after));
      && loaded.proxyRoles == sheet.proxyRoles
      && (forall p :: p in sheet.props ==> NewProperty(p.id, ReadBack(p)) in loaded.props)
      && OnlyWritten(loaded.props, sheet)
  {
    LoadRoundTripProxy(sheet, after);
    LoadRoundTripProps(sheet, after);
    LoadRoundTripOnly(sheet, after);
  }

  /** The proxy roles of a dumped object make `_loadProperties` as written raise:
      no object whose properties were dumped with proxy roles can be loaded. */
  lemma ProxyRolesNeverLoadAsWritten(sheet: PropertySheet, target: PropertySheet, after: seq<string>)
    requires Writable(sheet) && sheet.proxyRoles != []
    ensures LoadPropertiesAsWritten(target, ReadBackDict(sheet, after)).Err?
  {
    PropertiesRoundTrip(sheet, after);
  }
}

/** The guard of a web-configurable workflow transition (DCWorkflow): the
    permissions, roles and groups of which the user must hold at least one, and
    an optional TALES expression that must hold. The guard is edited through a
    form whose fields hold the names joined with `"; "`, summarised as HTML, and
    checked against the security manager of the current request. */
module WorkflowGuard {
  import opened Wrappers
  import opened Text

  /** A TALES expression, known by its source text; what it evaluates to is
      the `holds` oracle of `Guard.Check`. */
  datatype Expression = Expression(text: string)

  const PermissionsKey := "guard_permissions"
  const RolesKey := "guard_roles"
  const GroupsKey := "guard_groups"
  const ExprKey := "guard_expr"

  /** The separator `getSummary` puts between two sections. */
  const Break := "<br/>"

  // ---------------------------------------------------------------------
  // HTML formatting
  // ---------------------------------------------------------------------

  function EscapeChar(c: char): string
  {
    if c == '&' then "&amp;" else if c == '<' then "&lt;" else if c == '>' then "&gt;" else [c]
  }

  /** `cgi.escape(s)`: the three HTML-special characters become entities, so no
      angle bracket survives, and a text without them is left as it is. */
  function Escape(s: string): (r: string)
    ensures '<' !in r && '>' !in r
    ensures ('&' !in s && '<' !in s && '>' !in s) ==> r == s
  {
    if s == [] then ""
    else
      assert s == [s[0]] + s[1..];
      EscapeChar(s[0]) + Escape(s[1..])
  }

  /** One name as `formatNameUnion` shows it. */
  function Code(name: string): string
  {
    "<code>" + Escape(name) + "</code>"
  }

  /** The wording `formatNameUnion` aims at: one name alone, two names joined
      by "or", and longer lists separated by semicolons with "or" before the
      last name (after the blank of the separator, so two blanks precede it). */
  function Union(names: seq<string>): string
  {
    if |names| == 0 then ""
    else if |names| == 1 then Code(names[0])
    else if |names| == 2 then Code(names[0]) + " or " + Code(names[1])
    else Join(Codes(names[..|names| - 1]), "; ") + "; " + " or " + Code(names[|names| - 1])
  }

  /** `['<code>' + escape(name) + '</code>' for name in names]`. */
  function Codes(names: seq<string>): (r: seq<string>)
    ensures |r| == |names|
  {
    seq(|names|, k requires 0 <= k < |names| => Code(names[k]))
  }

  /** `formatNameUnion(names)`: wraps every escaped name in a `code` element,
      then joins two of them with " or ", and more of them with "; ", after
      prefixing " or " to the last one. */
  method FormatNameUnion(names: seq<string>) returns (r: string)
    ensures r == Union(names)
  {
    var escaped := Codes(names);
    if |escaped| == 2 {
      assert escaped[1..] == [Code(names[1])];
      assert Join(escaped[1..], " or ") == Code(names[1]);
      assert Join(escaped, " or ") == Code(names[0]) + " or " + Join(escaped[1..], " or ");
      return Join(escaped, " or ");
    } else if |escaped| > 2 {
      var last := |escaped| - 1;
      escaped := escaped[last := " or " + escaped[last]];
      UnionOfMany(names, escaped);
    }
    return Join(escaped, "; ");
  }

  lemma UnionOfMany(names: seq<string>, escaped: seq<string>)
    requires |names| > 2
    requires escaped == Codes(names)[|names| - 1 := " or " + Code(names[|names| - 1])]
    ensures Join(escaped, "; ") == Union(names)
  {
    var init := names[..|names| - 1];
    var last := " or " + Code(names[|names| - 1]);
    assert escaped == Codes(init) + [last];
    JoinSnoc(Codes(init), last, "; ");
  }

  /** A list of names is shown starting with its first name; the last of two
      or more names is always introduced by "or". */
  lemma UnionShape(names: seq<string>)
    requires names != []
    ensures HasPrefix(Union(names), Code(names[0]))
    ensures |names| >= 2 ==> HasSuffix(Union(names), " or " + Code(names[|names| - 1]))
  {
    if |names| == 1 {
      assert Union(names)[..|Code(names[0])|] == Code(names[0]);
    } else if |names| == 2 {
      UnionOfTwo(names);
    } else {
      UnionOfMore(names);
    }
  }

  lemma UnionOfTwo(names: seq<string>)
    requires |names| == 2
    ensures HasPrefix(Union(names), Code(names[0]))
    ensures HasSuffix(Union(names), " or " + Code(names[1]))
  {
    Around(Code(names[0]), " or ", Code(names[1]));
  }

  lemma UnionOfMore(names: seq<string>)
    requires |names| > 2
    ensures HasPrefix(Union(names), Code(names[0]))
    ensures HasSuffix(Union(names), " or " + Code(names[|names| - 1]))
  {
    var codes := Codes(names[..|names| - 1]);
    var body := Join(codes, "; ");
    JoinPrefix(codes, "; ");
    assert codes[0] == Code(names[0]);
    PrefixTrans(body, Code(names[0]), "; ");
    PrefixTrans(body + "; ", Code(names[0]), " or ");
    PrefixTrans(body + "; " + " or ", Code(names[0]), Code(names[|names| - 1]));
    Around(body + "; ", " or ", Code(names[|names| - 1]));
  }

  /** `a + b + c` starts with `a` and ends with `b + c`. */
  lemma Around(a: string, b: string, c: string)
    ensures HasPrefix(a + b + c, a) && HasSuffix(a + b + c, b + c)
  {
    assert (a + b + c)[..|a|] == a;
    assert (a + b + c)[|a|..] == b + c;
  }

  lemma PrefixTrans(s: string, p: string, t: string)
    requires HasPrefix(s, p)
    ensures HasPrefix(s + t, p)
  {
    assert (s + t)[..|p|] == s[..|p|];
  }

  predicate HasPrefix(s: string, p: string)
  {
    |p| <= |s| && s[..|p|] == p
  }

  predicate HasSuffix(s: string, p: string)
  {
    |p| <= |s| && s[|s| - |p|..] == p
  }

  /** A join of pieces starts with its first piece. */
  lemma {:induction false} JoinPrefix(parts: seq<string>, sep: string)
    requires parts != []
    ensures HasPrefix(Join(parts, sep), parts[0])
  {
    if |parts| > 1 {
      assert Join(parts, sep) == parts[0] + (sep + Join(parts[1..], sep));
    }
  }

  // ---------------------------------------------------------------------
  // The form fields
  // ---------------------------------------------------------------------

  /** `map(strip, pieces)`. */
  function StripEach(pieces: seq<string>): (r: seq<string>)
    ensures |r| == |pieces|
  {
    if pieces == [] then [] else [Strip(pieces[0])] + StripEach(pieces[1..])
  }

  lemma {:induction false} StripEachAt(pieces: seq<string>, k: nat)
    requires k < |pieces|
    ensures StripEach(pieces)[k] == Strip(pieces[k])
  {
    if k > 0 {
      StripEachAt(pieces[1..], k - 1);
    }
  }

  /** `tuple(map(strip, split(s, ';')))`: the names a form field lists. */
  function Names(s: string): seq<string>
  {
    StripEach(Split(s, ';'))
  }

  /** `join(names, '; ')`, or `''` for no names: the text a form field shows. */
  function NamesText(names: seq<string>): string
  {
    if names == [] then "" else Join(names, "; ")
  }

  /** A name the form can hold: non-empty, without surrounding white space
      and without the separator. */
  predicate WellFormedName(n: string)
  {
    n != "" && Stripped(n) && ';' !in n
  }

  /** A field the properties set: present and not empty. */
  predicate Given(props: map<string, string>, key: string)
  {
    key in props && props[key] != ""
  }

  lemma StripEachCons(first: string, pieces: seq<string>)
    ensures StripEach([first] + pieces) == [Strip(first)] + StripEach(pieces)
  {
    assert ([first] + pieces)[1..] == pieces;
  }

  /** Every name a field yields is stripped and free of the separator. */
  lemma NamesWellFormed(s: string)
    ensures forall k :: 0 <= k < |Names(s)| ==> Stripped(Names(s)[k]) && ';' !in Names(s)[k]
  {
    var pieces := Split(s, ';');
    SplitExcludes(s, ';');
    forall k | 0 <= k < |pieces|
      ensures Stripped(Names(s)[k]) && ';' !in Names(s)[k]
    {
      StripEachAt(pieces, k);
      StripWithin(pieces[k]);
    }
  }

  /** The round trip through the edit form, with the optional blank that
      follows a separator in front. */
  lemma {:induction false} NamesOfText(names: seq<string>, blank: string)
    requires names != []
    requires blank == "" || blank == " "
    requires forall k :: 0 <= k < |names| ==> WellFormedName(names[k])
    ensures StripEach(Split(blank + Join(names, "; "), ';')) == names
  {
    if |names| == 1 {
      NameOfText(names[0], blank);
    } else {
      NamesOfText(names[1..], " ");
      NamesOfTextStep(names, blank);
    }
  }

  lemma NamesOfTextStep(names: seq<string>, blank: string)
    requires |names| > 1
    requires blank == "" || blank == " "
    requires WellFormedName(names[0])
    requires StripEach(Split(" " + Join(names[1..], "; "), ';')) == names[1..]
    ensures StripEach(Split(blank + Join(names, "; "), ';')) == names
  {
    var first := blank + names[0];
    var rest := Join(names[1..], "; ");
    var pieces := Split(" " + rest, ';');
    var whole := blank + Join(names, "; ");
    assert whole == first + [';'] + (" " + rest) by {
      assert Join(names, "; ") == names[0] + "; " + rest;
      Regroup(blank, names[0], rest);
    }
    assert Split(whole, ';') == [first] + pieces by {
      assert ';' !in first;
      SplitAt(first, ';', " " + rest);
    }
    Assemble(whole, blank, pieces, names);
  }

  lemma Assemble(whole: string, blank: string, pieces: seq<string>, names: seq<string>)
    requires names != []
    requires blank == "" || blank == " "
    requires Stripped(names[0])
    requires Split(whole, ';') == [blank + names[0]] + pieces
    requires StripEach(pieces) == names[1..]
    ensures StripEach(Split(whole, ';')) == names
  {
    StripEachCons(blank + names[0], pieces);
    StripBlank(names[0], blank);
    HeadTail(names);
  }

  lemma HeadTail(s: seq<string>)
    requires s != []
    ensures [s[0]] + s[1..] == s
  {
  }

  lemma Regroup(blank: string, name: string, rest: string)
    ensures blank + (name + "; " + rest) == (blank + name) + [';'] + (" " + rest)
  {
  }

  lemma StripBlank(name: string, blank: string)
    requires Stripped(name)
    requires blank == "" || blank == " "
    ensures Strip(blank + name) == name
  {
    StripStripped(name);
    assert "" + name == name;
  }

  lemma NameOfText(name: string, blank: string)
    requires WellFormedName(name)
    requires blank == "" || blank == " "
    ensures StripEach(Split(blank + Join([name], "; "), ';')) == [name]
  {
    var first := blank + name;
    assert ';' !in first;
    FindFirst(first, ';');
    assert Split(first, ';') == [first];
    StripBlank(name, blank);
  }

  /** What `get*Text` shows, `changeFromProperties` reads back: the text of a
      non-empty list of well-formed names is not empty, so it is taken, and it
      splits into the same names. */
  lemma TextRoundTrip(names: seq<string>)
    requires names != []
    requires forall k :: 0 <= k < |names| ==> WellFormedName(names[k])
    ensures NamesText(names) != ""
    ensures Names(NamesText(names)) == names
  {
    JoinPrefix(names, "; ");
    NamesOfText(names, "");
    assert "" + Join(names, "; ") == Join(names, "; ");
  }

  // ---------------------------------------------------------------------
  // The summary
  // ---------------------------------------------------------------------

  /** The sections of the summary, in order: one per condition the guard has,
      each a heading and the names or the expression. */
  function Sections(permissions: seq<string>, roles: seq<string>, groups: seq<string>,
                    expr: Option<Expression>): seq<seq<string>>
  {
    Part(permissions != [], "Requires permission:", Union(permissions))
    + Part(roles != [], "Requires role:", Union(roles))
    + Part(groups != [], "Requires group:", Union(groups))
    + Part(expr.Some?, "Requires expr:", ExprCode(expr))
  }

  /** The section for one condition, if the guard sets it. */
  function Part(present: bool, heading: string, text: string): seq<seq<string>>
  {
    if present then [[heading, text]] else []
  }

  /** The expression's source as the summary shows it. */
  function ExprCode(expr: Option<Expression>): string
  {
    if expr.Some? then "<code>" + Escape(expr.value.text) + "</code>" else ""
  }

  /** The sections with a break between each two of them. */
  function Separated(sections: seq<seq<string>>): seq<string>
  {
    if sections == [] then []
    else if |sections| == 1 then sections[0]
    else Separated(sections[..|sections| - 1]) + [Break] + sections[|sections| - 1]
  }

  function Count(s: seq<string>, x: string): nat
  {
    if s == [] then 0 else (if s[0] == x then 1 else 0) + Count(s[1..], x)
  }

  lemma {:induction false} CountAppend(a: seq<string>, b: seq<string>, x: string)
    ensures Count(a + b, x) == Count(a, x) + Count(b, x)
  {
    if a == [] {
      assert a + b == b;
    } else {
      assert (a + b)[0] == a[0];
      assert (a + b)[1..] == a[1..] + b;
      CountAppend(a[1..], b, x);
    }
  }

  /** The breaks fall only between sections: the list starts with the first
      section, and there is one break fewer than there are sections. */
  lemma {:induction false} SeparatedBreaks(sections: seq<seq<string>>)
    requires forall i :: 0 <= i < |sections| ==> SectionOk(sections[i])
    ensures sections != [] ==> SectionOk(sections[0]) && Separated(sections) != [] && Separated(sections)[0] == sections[0][0]
    ensures Count(Separated(sections), Break) == if sections == [] then 0 else |sections| - 1
  {
    if |sections| == 1 {
      SectionNoBreak(sections[0]);
    } else if |sections| > 1 {
      var init := sections[..|sections| - 1];
      SeparatedBreaks(init);
      SectionNoBreak(sections[|sections| - 1]);
      assert [Break][1..] == [];
      CountAppend(Separated(init) + [Break], sections[|sections| - 1], Break);
      CountAppend(Separated(init), [Break], Break);
    }
  }

  /** Every section of the summary is a heading and a text, neither of which
      is the break. */
  lemma SectionsWellFormed(permissions: seq<string>, roles: seq<string>, groups: seq<string>, expr: Option<Expression>)
    ensures forall sec :: sec in Sections(permissions, roles, groups, expr) ==> SectionOk(sec)
  {
    var p1 := Part(permissions != [], "Requires permission:", Union(permissions));
    var p2 := Part(roles != [], "Requires role:", Union(roles));
    var p3 := Part(groups != [], "Requires group:", Union(groups));
    var p4 := Part(expr.Some?, "Requires expr:", ExprCode(expr));
    assert forall sec :: sec in p1 ==> SectionOk(sec) by {
      if permissions != [] {
        UnionSection("Requires permission:", permissions);
      }
    }
    assert forall sec :: sec in p2 ==> SectionOk(sec) by {
      if roles != [] {
        UnionSection("Requires role:", roles);
      }
    }
    assert forall sec :: sec in p3 ==> SectionOk(sec) by {
      if groups != [] {
        UnionSection("Requires group:", groups);
      }
    }
    assert forall sec :: sec in p4 ==> SectionOk(sec) by {
      if expr.Some? {
        assert ExprCode(expr)[1] == 'c';
      }
    }
    assert Sections(permissions, roles, groups, expr) == p1 + p2 + p3 + p4;
  }

  lemma UnionSection(heading: string, names: seq<string>)
    requires heading != Break
    requires names != []
    ensures SectionOk([heading, Union(names)])
  {
    UnionShape(names);
    assert Union(names)[1] == 'c';
  }

  lemma SectionNoBreak(sec: seq<string>)
    requires SectionOk(sec)
    ensures Count(sec, Break) == 0
  {
    assert sec[1..][1..] == [];
    assert Count(sec[1..][1..], Break) == 0;
    assert Count(sec[1..], Break) == 0;
  }

  /** Adding a section adds a break only when one came before. */
  lemma SeparatedSnoc(sections: seq<seq<string>>, sec: seq<string>)
    ensures Separated(sections + [sec]) == if sections == [] then sec else Separated(sections) + [Break] + sec
  {
    assert (sections + [sec])[..|sections|] == sections;
  }

  /** One step of `getSummary`: a break first when the list is not empty, then
      the section. */
  lemma AddSection(res: seq<string>, sections: seq<seq<string>>, sec: seq<string>)
    requires res == Separated(sections)
    requires res == [] <==> sections == []
    requires sec != []
    ensures (if res == [] then sec else res + [Break] + sec) == Separated(sections + [sec])
    ensures Separated(sections + [sec]) != []
  {
    SeparatedSnoc(sections, sec);
  }

  /** A section: a heading and a text, neither of which is the break. */
  predicate SectionOk(sec: seq<string>)
  {
    |sec| == 2 && sec[0] != Break && sec[1] != Break
  }

  /** The summary is empty exactly when the guard sets no condition, and
      otherwise starts with the heading of its first section rather than with a
      break; it holds one break fewer than it has sections. */
  lemma SummaryShape(permissions: seq<string>, roles: seq<string>, groups: seq<string>, expr: Option<Expression>)
    ensures var secs := Sections(permissions, roles, groups, expr);
      && (Separated(secs) == [] <==> permissions == [] && roles == [] && groups == [] && expr.None?)
      && (secs != [] ==> Separated(secs)[0] != Break)
      && Count(Separated(secs), Break) == if secs == [] then 0 else |secs| - 1
  {
    var secs := Sections(permissions, roles, groups, expr);
    SectionsWellFormed(permissions, roles, groups, expr);
    assert forall i :: 0 <= i < |secs| ==> SectionOk(secs[i]) by {
      forall i | 0 <= i < |secs|
        ensures SectionOk(secs[i])
      {
        assert secs[i] in secs;
      }
    }
    SeparatedBreaks(secs);
  }

  /** The user's group monikers: those `getContextualGroupMonikers` gives, or
      none for a user object without that method. */
  function Monikers(groupMonikers: Option<seq<string>>): seq<string>
  {
    if groupMonikers.Some? then groupMonikers.value else []
  }

  function GroupMoniker(group: string): string
  {
    "(Group) " + group
  }

  // ---------------------------------------------------------------------
  // The guard
  // ---------------------------------------------------------------------

  /** One `if` block of `getSummary`: a break when something precedes, then
      the heading and its text. */
  method AppendSection(res: seq<string>, ghost secs: seq<seq<string>>, heading: string, text: string)
    returns (res': seq<string>)
    requires res == Separated(secs) && (res == [] <==> secs == [])
    ensures res' == Separated(secs + [[heading, text]]) && res' != []
  {
    AddSection(res, secs, [heading, text]);
    res' := res;
    if res' != [] {
      res' := res' + [Break];
    }
    res' := res' + [heading, text];
  }

  class Guard {
    var permissions: seq<string>
    var roles: seq<string>
    var groups: seq<string>
    var expr: Option<Expression>

    /** A guard with no condition. */
    constructor ()
      ensures permissions == [] && roles == [] && groups == [] && expr.None?
    {
      permissions := [];
      roles := [];
      groups := [];
      expr := None;
    }

    /** `check(sm, wf_def, ob)`. The security manager and the object become
        oracles: `granted` answers `sm.checkPermission(p, ob)`, `userRoles`
        is the user's `getRolesInContext(ob)`, `groupMonikers` what
        `getContextualGroupMonikers(ob)` gives when the user has it, and
        `holds` whether the expression's value is true. The guard passes when
        each condition it sets is met by at least one of its names. */
    method Check(granted: string -> bool, userRoles: seq<string>, groupMonikers: Option<seq<string>>,
                 holds: Expression -> bool) returns (allowed: bool)
      ensures allowed <==>
        (permissions == [] || exists k :: 0 <= k < |permissions| && granted(permissions[k]))
        && (roles == [] || exists k :: 0 <= k < |roles| && roles[k] in userRoles)
        && (groups == [] || exists k :: 0 <= k < |groups| && GroupMoniker(groups[k]) in Monikers(groupMonikers))
        && (expr.None? || holds(expr.value))
    {
      if permissions != [] {
        var i := 0;
        while i < |permissions| && !granted(permissions[i])
          invariant 0 <= i <= |permissions|
          invariant forall k :: 0 <= k < i ==> !granted(permissions[k])
        {
          i := i + 1;
        }
        if i == |permissions| {
          return false;
        }
      }
      if roles != [] {
        var i := 0;
        while i < |roles| && roles[i] !in userRoles
          invariant 0 <= i <= |roles|
          invariant forall k :: 0 <= k < i ==> roles[k] !in userRoles
        {
          i := i + 1;
        }
        if i == |roles| {
          return false;
        }
      }
      if groups != [] {
        var uGroups := if groupMonikers.Some? then groupMonikers.value else [];
        var i := 0;
        while i < |groups| && GroupMoniker(groups[i]) !in uGroups
          invariant 0 <= i <= |groups|
          invariant forall k :: 0 <= k < i ==> GroupMoniker(groups[k]) !in uGroups
        {
          i := i + 1;
        }
        if i == |groups| {
          return false;
        }
      }
      if expr.Some? && !holds(expr.value) {
        return false;
      }
      return true;
    }

    /** `getSummary()`: the sections for the conditions the guard sets, with a
        break between each two, joined by blanks. */
    method GetSummary() returns (summary: string)
      ensures summary == Join(Separated(Sections(permissions, roles, groups, expr)), " ")
    {
      var res: seq<string> := [];
      ghost var secs: seq<seq<string>> := [];
      if permissions != [] {
        var names := FormatNameUnion(permissions);
        res := AppendSection(res, secs, "Requires permission:", names);
        secs := secs + [["Requires permission:", names]];
      }
      assert secs == Part(permissions != [], "Requires permission:", Union(permissions));
      ghost var done := secs;
      if roles != [] {
        var names := FormatNameUnion(roles);
        res := AppendSection(res, secs, "Requires role:", names);
        secs := secs + [["Requires role:", names]];
      }
      assert secs == done + Part(roles != [], "Requires role:", Union(roles));
      done := secs;
      if groups != [] {
        var names := FormatNameUnion(groups);
        res := AppendSection(res, secs, "Requires group:", names);
        secs := secs + [["Requires group:", names]];
      }
      assert secs == done + Part(groups != [], "Requires group:", Union(groups));
      done := secs;
      if expr.Some? {
        var text := "<code>" + Escape(expr.value.text) + "</code>";
        res := AppendSection(res, secs, "Requires expr:", text);
        secs := secs + [["Requires expr:", text]];
      }
      assert secs == done + Part(expr.Some?, "Requires expr:", ExprCode(expr));
      return Join(res, " ");
    }

    /** `changeFromProperties(props)`: each of the four fields the
        properties give (present and not empty) replaces the guard's value;
        the answer says whether any did. `None` changes nothing. */
    method ChangeFromProperties(props: Option<map<string, string>>) returns (changed: bool)
      modifies this
      ensures props.None? ==> !changed && unchanged(this)
      ensures props.Some? ==>
        (changed <==> Given(props.value, PermissionsKey) || Given(props.value, RolesKey)
                      || Given(props.value, GroupsKey) || Given(props.value, ExprKey))
      ensures permissions == if props.Some? && Given(props.value, PermissionsKey)
                             then Names(props.value[PermissionsKey]) else old(permissions)
      ensures roles == if props.Some? && Given(props.value, RolesKey)
                       then Names(props.value[RolesKey]) else old(roles)
      ensures groups == if props.Some? && Given(props.value, GroupsKey)
                        then Names(props.value[GroupsKey]) else old(groups)
      ensures expr == if props.Some? && Given(props.value, ExprKey)
                      then Some(Expression(props.value[ExprKey])) else old(expr)
    {
      if props.None? {
        return false;
      }
      var p := props.value;
      changed := false;
      if PermissionsKey in p && p[PermissionsKey] != "" {
        changed := true;
        permissions := Names(p[PermissionsKey]);
      }
      if RolesKey in p && p[RolesKey] != "" {
        changed := true;
        roles := Names(p[RolesKey]);
      }
      if GroupsKey in p && p[GroupsKey] != "" {
        changed := true;
        groups := Names(p[GroupsKey]);
      }
      if ExprKey in p && p[ExprKey] != "" {
        changed := true;
        expr := Some(Expression(p[ExprKey]));
      }
    }

    /** `getPermissionsText()`. */
    function PermissionsText(): (t: string)
      reads this
      ensures t == "" <==> permissions == [] || permissions == [""]
    {
      NamesTextEmpty(permissions);
      NamesText(permissions)
    }

    /** `getRolesText()`. */
    function RolesText(): (t: string)
      reads this
      ensures t == "" <==> roles == [] || roles == [""]
    {
      NamesTextEmpty(roles);
      NamesText(roles)
    }

    /** `getGroupsText()`. */
    function GroupsText(): (t: string)
      reads this
      ensures t == "" <==> groups == [] || groups == [""]
    {
      NamesTextEmpty(groups);
      NamesText(groups)
    }

    /** `getExprText()`: the expression's source, or `''` without one. */
    function ExprText(): (t: string)
      reads this
      ensures expr.Some? ==> t == expr.value.text
      ensures expr.None? ==> t == ""
    {
      if expr.None? then "" else expr.value.text
    }
  }

  /** The text of a list of names is empty only for no names or a single
      empty name. */
  lemma NamesTextEmpty(names: seq<string>)
    ensures NamesText(names) == "" <==> names == [] || names == [""]
  {
    if |names| > 1 {
      assert Join(names, "; ") == names[0] + "; " + Join(names[1..], "; ");
      assert |Join(names, "; ")| >= 2;
    }
  }
}

/** The role-map step of the site setup tool (CMFSetup): importing a
    `rolemap.xml` document adds the roles it lists to the site and sets, for
    each permission it lists, the roles that hold it and whether more roles are
    acquired from the parent; exporting lists the permissions whose setting
    differs from plain acquisition. The XML text itself is not modelled: a
    document is the sequence of its start-tag events, with the attribute values
    already decoded. */
module Rolemap {
  import opened Wrappers
  import opened Text
  import opened Sorting
  import opened Dicts

  /** The setting of one permission: the roles that hold it and whether the
      roles of the parent are acquired as well (Zope keeps the roles in a list
      when acquiring and in a tuple when not). */
  datatype Grant = Grant(name: string, roles: seq<string>, acquire: bool)

  /** A start tag with its attributes. */
  datatype Element = Element(name: string, attrs: map<string, string>)

  /** What the parser has gathered: the `role` names and the `permission`
      settings, in document order. */
  datatype Parsed = Parsed(roles: seq<string>, permissions: seq<Grant>)

  const FileName := "rolemap.xml"
  const Imported := "Role / permission map imported."

  /** The container elements, which carry nothing of their own. */
  const Containers: set<string> := {"rolemap", "permissions", "roles"}

  /** The acquire flag's spellings of true, compared after lower-casing. */
  const TrueWords: set<string> := {"1", "true", "yes"}

  function KeyError(key: string): string
  {
    "KeyError: '" + key + "'"
  }

  function UnknownElement(name: string): string
  {
    "ValueError: Unknown element: " + name
  }

  function Identity(s: string): string
  {
    s
  }

  // ---------------------------------------------------------------------
  // Parsing
  // ---------------------------------------------------------------------

  /** The setting a `permission` element gives: its name, the white-space
      separated words of `roles`, and whether `acquire` reads as true; the
      first attribute missing raises. */
  function ParseGrant(attrs: map<string, string>): (r: Result<Grant>)
    ensures r.Ok? <==> "name" in attrs && "roles" in attrs && "acquire" in attrs
    ensures r.Ok? ==> r.value.name == attrs["name"]
    ensures r.Ok? ==> forall k :: 0 <= k < |r.value.roles| ==> r.value.roles[k] != ""
    ensures r.Ok? ==> (r.value.acquire <==> Lower(attrs["acquire"]) in TrueWords)
  {
    if "name" !in attrs then Err(KeyError("name"))
    else if "roles" !in attrs then Err(KeyError("roles"))
    else if "acquire" !in attrs then Err(KeyError("acquire"))
    else Ok(Grant(attrs["name"], Words(attrs["roles"]), Lower(attrs["acquire"]) in TrueWords))
  }

  /** `startElement`: what one start tag adds to the parsed document. */
  function Start(p: Parsed, e: Element): Result<Parsed>
  {
    if e.name == "role" then
      if "name" in e.attrs then Ok(p.(roles := p.roles + [e.attrs["name"]])) else Err(KeyError("name"))
    else if e.name == "permission" then
      match ParseGrant(e.attrs)
      case Err(msg) => Err(msg)
      case Ok(g) => Ok(p.(permissions := p.permissions + [g]))
    else if e.name in Containers then Ok(p)
    else Err(UnknownElement(e.name))
  }

  /** The start tags of a document in order; the first exception ends the
      parse. */
  function Parse(events: seq<Element>): Result<Parsed>
  {
    if events == [] then Ok(Parsed([], []))
    else
      match Parse(events[..|events| - 1])
      case Err(msg) => Err(msg)
      case Ok(p) => Start(p, events[|events| - 1])
  }

  /** A start tag the parser accepts: a known element with the attributes it
      reads. */
  predicate Accepted(e: Element)
  {
    if e.name == "role" then "name" in e.attrs
    else if e.name == "permission" then "name" in e.attrs && "roles" in e.attrs && "acquire" in e.attrs
    else e.name in Containers
  }

  /** The `name` of every `role` element, in document order. */
  function RoleNames(events: seq<Element>): seq<string>
  {
    if events == [] then []
    else
      var e := events[|events| - 1];
      RoleNames(events[..|events| - 1]) + (if e.name == "role" && "name" in e.attrs then [e.attrs["name"]] else [])
  }

  /** The number of `permission` elements. */
  function PermissionCount(events: seq<Element>): nat
  {
    if events == [] then 0
    else PermissionCount(events[..|events| - 1]) + (if events[|events| - 1].name == "permission" then 1 else 0)
  }

  /** A document parses exactly when every start tag is accepted, and then the
      roles are the names of its `role` elements in document order and there is
      one permission setting per `permission` element. */
  lemma {:induction false} ParseAccepts(events: seq<Element>)
    ensures Parse(events).Ok? <==> forall k :: 0 <= k < |events| ==> Accepted(events[k])
    ensures Parse(events).Ok? ==> Parse(events).value.roles == RoleNames(events)
    ensures Parse(events).Ok? ==> |Parse(events).value.permissions| == PermissionCount(events)
  {
    if events != [] {
      var init := events[..|events| - 1];
      ParseAccepts(init);
      assert forall k :: 0 <= k < |init| ==> init[k] == events[k];
    }
  }

  /** The first rejected start tag decides the exception. */
  lemma {:induction false} ParseFirstError(events: seq<Element>, i: nat)
    requires i < |events|
    requires forall k :: 0 <= k < i ==> Accepted(events[k])
    requires !Accepted(events[i])
    ensures Parse(events[..i]).Ok?
    ensures Parse(events) == Start(Parse(events[..i]).value, events[i])
    ensures Parse(events).Err?
  {
    ParseAccepts(events[..i]);
    assert forall k :: 0 <= k < i ==> events[..i][k] == events[k];
    assert events[..i + 1][..i] == events[..i];
    assert Parse(events[..i + 1]) == Start(Parse(events[..i]).value, events[i]);
    if i + 1 < |events| {
      ParseStops(events, i + 1);
    } else {
      assert events[..i + 1] == events;
    }
  }

  lemma {:induction false} ParseStops(events: seq<Element>, i: nat)
    requires i <= |events|
    requires Parse(events[..i]).Err?
    ensures Parse(events) == Parse(events[..i])
  {
    if i < |events| {
      var init := events[..|events| - 1];
      assert init[..i] == events[..i];
      ParseStops(init, i);
    } else {
      assert events[..i] == events;
    }
  }

  // ---------------------------------------------------------------------
  // The site's roles
  // ---------------------------------------------------------------------

  /** `valid_roles()`: the roles the site defines and those it acquires. */
  function SiteRoles(acRoles: seq<string>, inherited: seq<string>): set<string>
  {
    (set r | r in acRoles) + (set r | r in inherited)
  }

  /** The loop of `endDocument` over the parsed roles: a role neither valid
      nor already added goes to the end of the immediate roles. */
  function Merge(immediate: seq<string>, already: set<string>, roles: seq<string>): (seq<string>, set<string>)
  {
    if roles == [] then (immediate, already)
    else
      var (imm, al) := Merge(immediate, already, roles[..|roles| - 1]);
      var r := roles[|roles| - 1];
      if r in al then (imm, al) else (imm + [r], al + {r})
  }

  /** The merge keeps the immediate roles in front, then adds exactly the
      parsed roles that were not valid yet, each once. */
  lemma {:induction false} MergeAdds(immediate: seq<string>, already: set<string>, roles: seq<string>)
    ensures var (imm, al) := Merge(immediate, already, roles);
      Merged(immediate, already, roles, imm, al)
  {
    if roles != [] {
      var init := roles[..|roles| - 1];
      MergeAdds(immediate, already, init);
      var (imm, al) := Merge(immediate, already, init);
      var r := roles[|roles| - 1];
      assert roles == init + [r];
      MergeStep(immediate, already, init, imm, al, r);
    }
  }

  /** What the merge has done after the roles `roles`: the immediate roles
      are kept in front, the roles added are exactly the parsed ones not
      valid before, each once, and `al` holds every role seen. */
  ghost predicate Merged(immediate: seq<string>, already: set<string>, roles: seq<string>,
                   imm: seq<string>, al: set<string>)
  {
    && |immediate| <= |imm| && imm[..|immediate|] == immediate
    && (forall r :: r in imm[|immediate|..] <==> r in roles && r !in already)
    && Distinct(imm[|immediate|..])
    && al == already + (set r | r in roles)
  }

  lemma MergeStep(immediate: seq<string>, already: set<string>, init: seq<string>,
                  imm: seq<string>, al: set<string>, r: string)
    requires Merged(immediate, already, init, imm, al)
    ensures r in al ==> Merged(immediate, already, init + [r], imm, al)
    ensures r !in al ==> Merged(immediate, already, init + [r], imm + [r], al + {r})
  {
    assert (set x | x in init + [r]) == (set x | x in init) + {r};
    if r !in al {
      var added := imm[|immediate|..];
      assert r !in added;
      assert (imm + [r])[|immediate|..] == added + [r];
      assert (imm + [r])[..|immediate|] == imm[..|immediate|];
      DistinctSnoc(added, r);
    }
  }

  lemma DistinctSnoc(s: seq<string>, x: string)
    requires Distinct(s) && x !in s
    ensures Distinct(s + [x])
  {
  }

  /** The roles `__ac_roles__` holds after an import. */
  function ImportedRoles(acRoles: seq<string>, inherited: seq<string>, roles: seq<string>): seq<string>
  {
    SortBy(Merge(acRoles, SiteRoles(acRoles, inherited), roles).0, Identity)
  }

  /** After the import the site's roles are sorted and are a permutation of
      the roles the merge collected. */
  lemma ImportedRolesSorted(acRoles: seq<string>, inherited: seq<string>, roles: seq<string>)
    ensures SortedBy(ImportedRoles(acRoles, inherited, roles), Identity)
    ensures multiset(ImportedRoles(acRoles, inherited, roles))
         == multiset(Merge(acRoles, SiteRoles(acRoles, inherited), roles).0)
  {
    var imm := Merge(acRoles, SiteRoles(acRoles, inherited), roles).0;
    SortBySorted(imm, Identity);
    SortByPermutation(imm, Identity);
  }

  /** The site keeps its roles and gains exactly the parsed roles that were
      not valid yet; afterwards every parsed role is valid. */
  lemma ImportedRolesMembers(acRoles: seq<string>, inherited: seq<string>, roles: seq<string>)
    ensures forall r :: r in ImportedRoles(acRoles, inherited, roles)
                        <==> r in acRoles || (r in roles && r !in SiteRoles(acRoles, inherited))
    ensures forall r :: r in roles ==> r in SiteRoles(ImportedRoles(acRoles, inherited, roles), inherited)
  {
    var valid := SiteRoles(acRoles, inherited);
    var imm := Merge(acRoles, valid, roles).0;
    var after := ImportedRoles(acRoles, inherited, roles);
    MergeAdds(acRoles, valid, roles);
    ImportedRolesSorted(acRoles, inherited, roles);
    assert imm == acRoles + imm[|acRoles|..];
    forall r
      ensures r in after <==> r in imm
    {
      assert r in after <==> r in multiset(after);
      assert r in imm <==> r in multiset(imm);
    }
  }

  /** A site whose roles hold no duplicate still holds none after the import. */
  lemma ImportedRolesDistinct(acRoles: seq<string>, inherited: seq<string>, roles: seq<string>)
    requires Distinct(acRoles)
    ensures Distinct(ImportedRoles(acRoles, inherited, roles))
  {
    var valid := SiteRoles(acRoles, inherited);
    var imm := Merge(acRoles, valid, roles).0;
    MergeAdds(acRoles, valid, roles);
    var added := imm[|acRoles|..];
    assert imm == acRoles + added;
    forall i, j | 0 <= i < j < |imm|
      ensures Identity(imm[i]) != Identity(imm[j])
    {
      if j < |acRoles| {
        assert imm[i] == acRoles[i] && imm[j] == acRoles[j];
      } else if i < |acRoles| {
        assert imm[j] == added[j - |acRoles|];
        assert imm[j] in added && imm[j] !in valid;
        assert imm[i] == acRoles[i] && imm[i] in valid;
      } else {
        assert imm[i] == added[i - |acRoles|] && imm[j] == added[j - |acRoles|];
      }
    }
    SortByUnique(imm, Identity);
  }

  // ---------------------------------------------------------------------
  // The permission settings
  // ---------------------------------------------------------------------

  /** `manage_permission(g.name, g.roles, g.acquire)`: the permission named
      `g.name` takes the new setting. */
  function SetGrant(grants: seq<Grant>, g: Grant): (r: seq<Grant>)
    ensures |r| == |grants|
  {
    seq(|grants|, k requires 0 <= k < |grants| => if grants[k].name == g.name then g else grants[k])
  }

  /** The `manage_permission` calls of `endDocument`, in parse order. */
  function ApplyAll(grants: seq<Grant>, settings: seq<Grant>): (r: seq<Grant>)
    ensures |r| == |grants|
  {
    if settings == [] then grants
    else SetGrant(ApplyAll(grants, settings[..|settings| - 1]), settings[|settings| - 1])
  }

  /** The last of `settings` for the permission `name`, if any. */
  function LastFor(settings: seq<Grant>, name: string): Option<Grant>
  {
    if settings == [] then None
    else if settings[|settings| - 1].name == name then Some(settings[|settings| - 1])
    else LastFor(settings[..|settings| - 1], name)
  }

  /** Each permission ends with the last setting the document gives it, and a
      permission the document does not mention keeps its setting. */
  lemma {:induction false} ApplyAllLast(grants: seq<Grant>, settings: seq<Grant>, k: nat)
    requires k < |grants|
    ensures ApplyAll(grants, settings)[k]
         == if LastFor(settings, grants[k].name).Some? then LastFor(settings, grants[k].name).value else grants[k]
    ensures ApplyAll(grants, settings)[k].name == grants[k].name
  {
    if settings != [] {
      ApplyAllLast(grants, settings[..|settings| - 1], k);
    }
  }

  // ---------------------------------------------------------------------
  // Export
  // ---------------------------------------------------------------------

  /** `[r for r in roles if r in valid_roles]`. */
  function KeepValid(roles: seq<string>, valid: set<string>): (r: seq<string>)
    ensures forall x :: x in r <==> x in roles && x in valid
  {
    if roles == [] then []
    else KeepValid(roles[..|roles| - 1], valid) + (if roles[|roles| - 1] in valid then [roles[|roles| - 1]] else [])
  }

  /** The entry `listPermissions` gives for a setting, if it lists it: the
      valid roles, and only when there are any or when the setting does not
      acquire. */
  function ExportOf(g: Grant, valid: set<string>): Option<Grant>
  {
    var roles := KeepValid(g.roles, valid);
    if roles != [] || !g.acquire then Some(Grant(g.name, roles, g.acquire)) else None
  }

  /** `listPermissions()` over the site's settings in order. */
  function Exported(grants: seq<Grant>, valid: set<string>): seq<Grant>
  {
    if grants == [] then []
    else
      var e := ExportOf(grants[|grants| - 1], valid);
      Exported(grants[..|grants| - 1], valid) + (if e.Some? then [e.value] else [])
  }

  /** The export of the `k`-th setting. */
  predicate ExportedFrom(grants: seq<Grant>, valid: set<string>, e: Grant)
  {
    exists k :: 0 <= k < |grants| && ExportOf(grants[k], valid) == Some(e)
  }

  /** An entry is exported exactly when it is the export of a setting; its
      roles are all valid, and a setting that acquires is left out exactly
      when none of its roles is valid. */
  lemma ExportedEntries(grants: seq<Grant>, valid: set<string>)
    ensures forall e :: e in Exported(grants, valid) <==> ExportedFrom(grants, valid, e)
    ensures forall e :: e in Exported(grants, valid) ==> forall r :: r in e.roles ==> r in valid
  {
    ExportedMembers(grants, valid);
    forall e | e in Exported(grants, valid)
      ensures forall r :: r in e.roles ==> r in valid
    {
      var k :| 0 <= k < |grants| && ExportOf(grants[k], valid) == Some(e);
      assert e.roles == KeepValid(grants[k].roles, valid);
    }
  }

  lemma {:induction false} ExportedMembers(grants: seq<Grant>, valid: set<string>)
    ensures forall e :: e in Exported(grants, valid) <==> ExportedFrom(grants, valid, e)
  {
    if grants != [] {
      var init := grants[..|grants| - 1];
      var x := ExportOf(grants[|grants| - 1], valid);
      ExportedMembers(init, valid);
      assert Exported(grants, valid) == Exported(init, valid) + (if x.Some? then [x.value] else []);
      forall e
        ensures e in Exported(grants, valid) <==> ExportedFrom(grants, valid, e)
      {
        if ExportedFrom(grants, valid, e) {
          var k :| 0 <= k < |grants| && ExportOf(grants[k], valid) == Some(e);
          if k < |init| {
            assert init[k] == grants[k];
            assert ExportedFrom(init, valid, e);
          } else {
            assert x == Some(e);
          }
        }
        if ExportedFrom(init, valid, e) {
          var k :| 0 <= k < |init| && ExportOf(init[k], valid) == Some(e);
          assert grants[k] == init[k];
        }
        if x == Some(e) {
          assert ExportOf(grants[|grants| - 1], valid) == Some(e);
        }
      }
    }
  }

  /** The comprehension of `listPermissions` that keeps a setting's valid
      roles, as a loop. */
  method FilterRoles(roles: seq<string>, valid: set<string>) returns (kept: seq<string>)
    ensures kept == KeepValid(roles, valid)
  {
    kept := [];
    for j := 0 to |roles|
      invariant kept == KeepValid(roles[..j], valid)
    {
      assert roles[..j + 1][..j] == roles[..j];
      if roles[j] in valid {
        kept := kept + [roles[j]];
      }
    }
    assert roles[..|roles|] == roles;
  }

  /** Importing and then exporting gives back a setting: after an import whose
      document sets permission `grants[k]` last to `g`, with every role of `g`
      valid or defined by the document, the export lists the permission with
      exactly the roles and the flag of `g` unless `g` acquires and has no
      role. */
  lemma ImportThenExport(acRoles: seq<string>, inherited: seq<string>, grants: seq<Grant>,
                         doc: Parsed, k: nat, g: Grant)
    requires k < |grants|
    requires forall i, j :: 0 <= i < j < |grants| ==> grants[i].name != grants[j].name
    requires LastFor(doc.permissions, grants[k].name) == Some(g)
    requires forall r :: r in g.roles ==> r in SiteRoles(acRoles, inherited) || r in doc.roles
    ensures var valid := SiteRoles(ImportedRoles(acRoles, inherited, doc.roles), inherited);
      Grant(g.name, g.roles, g.acquire) in Exported(ApplyAll(grants, doc.permissions), valid)
      <==> g.roles != [] || !g.acquire
  {
    var after := ImportedRoles(acRoles, inherited, doc.roles);
    var valid := SiteRoles(after, inherited);
    var now := ApplyAll(grants, doc.permissions);
    ImportedRolesMembers(acRoles, inherited, doc.roles);
    ApplyAllLast(grants, doc.permissions, k);
    LastForName(doc.permissions, grants[k].name);
    assert now[k] == g;
    forall r | r in g.roles
      ensures r in valid
    {
      if r !in SiteRoles(acRoles, inherited) {
        assert r in doc.roles;
      } else if r in acRoles {
        assert r in after;
      }
    }
    KeepAllValid(g.roles, valid);
    ExportedEntries(now, valid);
    var e := Grant(g.name, g.roles, g.acquire);
    if g.roles != [] || !g.acquire {
      assert ExportOf(now[k], valid) == Some(e);
      assert ExportedFrom(now, valid, e);
    }
    if e in Exported(now, valid) {
      var j :| 0 <= j < |now| && ExportOf(now[j], valid) == Some(e);
      ApplyAllLast(grants, doc.permissions, j);
      assert j == k;
    }
  }

  lemma {:induction false} LastForName(settings: seq<Grant>, name: string)
    ensures LastFor(settings, name).Some? ==> LastFor(settings, name).value.name == name
  {
    if settings != [] {
      LastForName(settings[..|settings| - 1], name);
    }
  }

  /** Filtering keeps a list of valid roles as it is. */
  lemma {:induction false} KeepAllValid(roles: seq<string>, valid: set<string>)
    requires forall r :: r in roles ==> r in valid
    ensures KeepValid(roles, valid) == roles
  {
    if roles != [] {
      KeepAllValid(roles[..|roles| - 1], valid);
      assert roles == roles[..|roles| - 1] + [roles[|roles| - 1]];
    }
  }

  // ---------------------------------------------------------------------
  // The objects
  // ---------------------------------------------------------------------

  /** The site: the roles it defines (`__ac_roles__`), those it acquires from
      its parents, and the setting of every permission it knows
      (`ac_inherited_permissions(1)` with each one's `getRoles()`). */
  class Site {
    var acRoles: seq<string>
    const inherited: seq<string>
    var grants: seq<Grant>

    constructor (acRoles: seq<string>, inherited: seq<string>, grants: seq<Grant>)
      ensures this.acRoles == acRoles && this.inherited == inherited && this.grants == grants
    {
      this.acRoles := acRoles;
      this.inherited := inherited;
      this.grants := grants;
    }

    /** `valid_roles()`. */
    function ValidRoles(): set<string>
      reads this
    {
      SiteRoles(acRoles, inherited)
    }

    /** `manage_permission(name, roles, acquire)`. */
    method ManagePermission(name: string, roles: seq<string>, acquire: bool)
      modifies this
      ensures acRoles == old(acRoles)
      ensures grants == SetGrant(old(grants), Grant(name, roles, acquire))
    {
      grants := SetGrant(grants, Grant(name, roles, acquire));
    }
  }

  /** `_RolemapParser`: the SAX handler of an import. */
  class RolemapParser {
    const site: Site
    var roles: seq<string>
    var permissions: seq<Grant>

    constructor (site: Site)
      ensures this.site == site && roles == [] && permissions == []
    {
      this.site := site;
      roles := [];
      permissions := [];
    }

    /** `startElement(name, attrs)`: a `role` adds its name, a `permission`
        its setting, the containers nothing; anything else raises, and so does
        a missing attribute, before anything is added. */
    method StartElement(name: string, attrs: map<string, string>) returns (raised: Option<string>)
      modifies this
      ensures var r := Start(Parsed(old(roles), old(permissions)), Element(name, attrs));
        && (raised.None? <==> r.Ok?)
        && (r.Ok? ==> Parsed(roles, permissions) == r.value)
        && (r.Err? ==> raised == Some(r.error) && roles == old(roles) && permissions == old(permissions))
    {
      raised := None;
      if name == "role" {
        if "name" !in attrs {
          return Some(KeyError("name"));
        }
        roles := roles + [attrs["name"]];
      } else if name == "permission" {
        var g := ParseGrant(attrs);
        if g.Err? {
          return Some(g.error);
        }
        permissions := permissions + [g.value];
      } else if name !in Containers {
        return Some(UnknownElement(name));
      }
    }

    /** `endDocument()`: adds the parsed roles that are not valid yet to the
        site's roles, sorts them, then applies every parsed permission setting
        in order. */
    method EndDocument()
      modifies site
      ensures site.acRoles == ImportedRoles(old(site.acRoles), site.inherited, roles)
      ensures site.grants == ApplyAll(old(site.grants), permissions)
    {
      var immediate := site.acRoles;
      var already := site.ValidRoles();
      ghost var start := (immediate, already);
      for i := 0 to |roles|
        invariant (immediate, already) == Merge(start.0, start.1, roles[..i])
      {
        assert roles[..i + 1][..i] == roles[..i];
        var role := roles[i];
        if role !in already {
          immediate := immediate + [role];
          already := already + {role};
        }
      }
      assert roles[..|roles|] == roles;
      site.acRoles := SortBy(immediate, Identity);
      ghost var before := site.grants;
      for i := 0 to |permissions|
        invariant site.acRoles == SortBy(immediate, Identity)
        invariant site.grants == ApplyAll(before, permissions[..i])
      {
        assert permissions[..i + 1][..i] == permissions[..i];
        site.ManagePermission(permissions[i].name, permissions[i].roles, permissions[i].acquire);
      }
      assert permissions[..|permissions|] == permissions;
    }
  }

  /** `RolemapConfigurator`: import and export for one site. */
  class RolemapConfigurator {
    const site: Site

    constructor (site: Site)
      ensures this.site == site
    {
      this.site := site;
    }

    /** `listPermissions()`: every setting of the site whose valid roles are
        not empty or which does not acquire, with its valid roles. */
    method ListPermissions() returns (permissions: seq<Grant>)
      ensures permissions == Exported(site.grants, site.ValidRoles())
    {
      permissions := [];
      var validRoles := site.ValidRoles();
      var all := site.grants;
      for i := 0 to |all|
        invariant permissions == Exported(all[..i], validRoles)
      {
        assert all[..i + 1][..i] == all[..i];
        var perm := all[i];
        var roles := FilterRoles(perm.roles, validRoles);
        if roles != [] || !perm.acquire {
          permissions := permissions + [Grant(perm.name, roles, perm.acquire)];
        }
      }
      assert all[..|all|] == all;
    }

    /** `parseXML(text)` for a document with the start tags `events`: the
        parser sees every start tag in order and, when none raised, the end
        of the document. */
    method ParseXml(events: seq<Element>) returns (raised: Option<string>)
      modifies site
      ensures raised.None? <==> Parse(events).Ok?
      ensures raised.Some? ==> raised == Some(Parse(events).error) && unchanged(site)
      ensures raised.None? ==> site.acRoles == ImportedRoles(old(site.acRoles), site.inherited, Parse(events).value.roles)
      ensures raised.None? ==> site.grants == ApplyAll(old(site.grants), Parse(events).value.permissions)
    {
      var parser := new RolemapParser(site);
      for i := 0 to |events|
        invariant Parse(events[..i]) == Ok(Parsed(parser.roles, parser.permissions))
        invariant parser.site == site && unchanged(site)
      {
        assert events[..i + 1][..i] == events[..i];
        raised := parser.StartElement(events[i].name, events[i].attrs);
        if raised.Some? {
          ParseStops(events, i + 1);
          return;
        }
      }
      assert events[..|events|] == events;
      parser.EndDocument();
      raised := None;
    }
  }

  /** `importRolemap(context)` as it was meant to be: read `rolemap.xml` from
      the import context (`files`, with `parse` giving its start tags) and,
      when there is one, import it into the site. */
  method ImportRolemap(site: Site, files: map<string, string>, parse: string -> seq<Element>)
    returns (message: Result<string>)
    modifies site
    ensures FileName !in files ==> message == Ok(Imported) && unchanged(site)
    ensures FileName in files ==> (message.Ok? <==> Parse(parse(files[FileName])).Ok?)
    ensures message.Ok? ==> message.value == Imported
    ensures message.Err? ==>
      FileName in files && message.error == Parse(parse(files[FileName])).error && unchanged(site)
    ensures FileName in files && message.Ok? ==>
      var doc := Parse(parse(files[FileName])).value;
      site.acRoles == ImportedRoles(old(site.acRoles), site.inherited, doc.roles)
      && site.grants == ApplyAll(old(site.grants), doc.permissions)
  {
    if FileName in files {
      var rc := new RolemapConfigurator(site);
      var raised := rc.ParseXml(parse(files[FileName]));
      if raised.Some? {
        return Err(raised.value);
      }
    }
    return Ok(Imported);
  }

  /** The exception `importRolemap` raises: it passes `FILENAME` to the import
      context, a name the module never defines (the constant is `_FILENAME`). */
  const UndefinedName := "NameError: global name 'FILENAME' is not defined"

  /** `importRolemap(context)` as written: after `context.getSite()`,
      evaluating the argument of `readDatafile` raises before the file is
      read. */
  function ImportRolemapAsWritten(files: map<string, string>, parse: string -> seq<Element>): (r: Result<string>)
    ensures r.Err?
  {
    Err(UndefinedName)
  }

  /** As written, no role map is ever imported: even a document that the
      corrected import accepts makes the step raise. */
  lemma ImportNeverRuns(files: map<string, string>, parse: string -> seq<Element>)
    requires FileName in files && Parse(parse(files[FileName])).Ok?
    ensures ImportRolemapAsWritten(files, parse) != Ok(Imported)
  {
  }
}

/**
 What a role may do with the rows of the relation a statement names: table privileges and
 row security as PostgreSQL 15 defines them (manual sections 5.7 and 5.8), and the copy of
 both from one relation to another.
 */
module RowSecurity {
  import opened Options

  datatype Row = Row(id: nat, kb: string, payload: string)

  datatype Privilege = Select | Insert | Update | Delete | Truncate | References | Trigger
  {
    /** Row security speaks about these four. */
    predicate OnRows() { Select? || Insert? || Update? || Delete? }
  }

  const ALL_PRIVILEGES := {Select, Insert, Update, Delete, Truncate, References, Trigger}

  datatype Grantee = Public | Named(role: string)

  type Grants = map<Grantee, set<Privilege>>

  /** A relation nobody granted anything on has no list; its owner then holds everything. */
  datatype Acl = Default | Explicit(grants: Grants)

  datatype Scope = EveryCommand | Only(command: Privilege)

  /** `correlated`: a sub-select of its expressions names a column of the policy's own table. */
  datatype Policy =
    Policy(permissive: bool, scope: Scope, roles: set<Grantee>, qual: Option<string>, withCheck: Option<string>,
           correlated: bool)

  type Policies = map<string, Policy>

  /** `columns` holds what was granted on single columns. */
  datatype Settings =
    Settings(owner: string, rls: bool, force: bool, acl: Acl, columns: map<string, Grants>, policies: Policies)

  /** The roles whose rights a session has, and its two attributes. */
  datatype Subject = Subject(roles: set<string>, superuser: bool, bypass: bool)

  /** Which policy expressions are true of which rows, for one subject at one moment. */
  type Meaning = iset<(string, Row)>

  // ---- access -------------------------------------------------------------------------

  function Held(s: Settings): Grants {
    if s.acl.Default? then map[Named(s.owner) := ALL_PRIVILEGES] else s.acl.grants
  }

  function Granted(grants: Grants, who: Grantee): set<Privilege> {
    if who in grants then grants[who] else {}
  }

  predicate Speaks(subject: Subject, who: Grantee) {
    who.Public? || who.role in subject.roles
  }

  function OnColumn(s: Settings, column: string): Grants {
    if column in s.columns then s.columns[column] else map[]
  }

  /** The privilege is held on the whole relation or on this column. */
  ghost predicate MayRun(subject: Subject, s: Settings, c: Privilege, column: string) {
    || subject.superuser
    || (exists who :: Speaks(subject, who) && c in Granted(Held(s), who))
    || (exists who :: Speaks(subject, who) && c in Granted(OnColumn(s, column), who))
  }

  predicate Restrained(subject: Subject, s: Settings) {
    s.rls && !subject.superuser && !subject.bypass && (s.owner in subject.roles ==> s.force)
  }

  predicate Applies(p: Policy, subject: Subject, c: Privilege) {
    (p.scope == EveryCommand || p.scope == Only(c)) && exists who :: who in p.roles && Speaks(subject, who)
  }

  /** A new row is tested by WITH CHECK, and by USING where there is none. */
  function Tested(p: Policy, writing: bool): Option<string> {
    if writing && p.withCheck.Some? then p.withCheck else p.qual
  }

  ghost predicate Holds(p: Policy, writing: bool, row: Row, meaning: Meaning) {
    Tested(p, writing).Some? && (Tested(p, writing).value, row) in meaning
  }

  /** A restrictive policy that applies and tests something. */
  predicate Binds(p: Policy, subject: Subject, c: Privilege, writing: bool) {
    !p.permissive && Applies(p, subject, c) && Tested(p, writing).Some?
  }

  /** Some permissive policy holds, and no restrictive one that tests anything fails. */
  ghost predicate PoliciesPass(policies: Policies, subject: Subject, c: Privilege,
                               writing: bool, row: Row, meaning: Meaning) {
    && (exists n :: n in policies && policies[n].permissive && Applies(policies[n], subject, c)
                    && Holds(policies[n], writing, row, meaning))
    && (forall n ::
          n in policies && Binds(policies[n], subject, c, writing) ==> Holds(policies[n], writing, row, meaning))
  }

  /** `writing` tells a row about to be stored from one that is there. */
  ghost predicate Allows(subject: Subject, s: Settings, c: Privilege, column: string,
                         writing: bool, row: Row, meaning: Meaning) {
    && MayRun(subject, s, c, column)
    && (c.OnRows() && Restrained(subject, s) ==> PoliciesPass(s.policies, subject, c, writing, row, meaning))
  }

  ghost predicate SameAccess(s: Settings, t: Settings) {
    forall subject: Subject, c, column, writing, row, meaning :: subject.roles != {} ==>
      (Allows(subject, s, c, column, writing, row, meaning) <==> Allows(subject, t, c, column, writing, row, meaning))
  }

  // ---- what the manual says of it -----------------------------------------------------

  /** Section 5.8: a role that row security speaks about, on a relation that has it enabled. */
  predicate UnderRowSecurity(subject: Subject, s: Settings, c: Privilege) {
    && c in {Select, Insert, Update, Delete} && s.rls && !subject.superuser && !subject.bypass
    && (s.owner !in subject.roles || s.force)
  }

  /** A GRANT on the table or on the column, to PUBLIC or a role. */
  predicate IsGranted(s: Settings, who: Grantee, c: Privilege, column: string) {
    || (s.acl.Explicit? && who in s.acl.grants && c in s.acl.grants[who])
    || (column in s.columns && who in s.columns[column] && c in s.columns[column][who])
  }

  lemma GrantsListed(s: Settings, who: Grantee, c: Privilege, column: string)
    requires s.acl.Explicit?
    ensures IsGranted(s, who, c, column) <==> c in Granted(Held(s), who) || c in Granted(OnColumn(s, column), who)
  {
    if column !in s.columns { assert Granted(OnColumn(s, column), who) == {}; }
  }

  /** Section 5.8: superusers, BYPASSRLS roles and the owner, unless forced, see every row their privileges reach. */
  lemma PrivilegesAlone(subject: Subject, s: Settings, c: Privilege, column: string,
                        writing: bool, row: Row, meaning: Meaning)
    requires !UnderRowSecurity(subject, s, c)
    ensures subject.superuser ==> Allows(subject, s, c, column, writing, row, meaning)
    ensures !subject.superuser && s.acl.Default? && s.columns == map[] ==>
      (Allows(subject, s, c, column, writing, row, meaning) <==> s.owner in subject.roles)
    ensures !subject.superuser && s.acl.Explicit? ==>
      (Allows(subject, s, c, column, writing, row, meaning) <==>
         exists who :: (who == Public || who.role in subject.roles) && IsGranted(s, who, c, column))
  {
    PrivilegeListed(c);
    if !subject.superuser && s.acl.Default? && s.columns == map[] {
      assert s.owner in subject.roles ==> Speaks(subject, Named(s.owner)) && c in Granted(Held(s), Named(s.owner));
    }
    if !subject.superuser && s.acl.Explicit? {
      if MayRun(subject, s, c, column) {
        var who :| Speaks(subject, who) && (c in Granted(Held(s), who) || c in Granted(OnColumn(s, column), who));
        GrantsListed(s, who, c, column);
      }
      if who :| (who == Public || who.role in subject.roles) && IsGranted(s, who, c, column) {
        GrantsListed(s, who, c, column);
        assert Speaks(subject, who);
      }
    }
  }

  /** The policy speaks about the command and about one of the subject's roles, or about everybody. */
  predicate Concerns(p: Policy, subject: Subject, c: Privilege) {
    && (p.scope == EveryCommand || p.scope == Only(c))
    && (Public in p.roles || exists role :: role in subject.roles && Named(role) in p.roles)
  }

  lemma ConcernsApplies(p: Policy, subject: Subject, c: Privilege)
    ensures Concerns(p, subject, c) <==> Applies(p, subject, c)
  {
    if Public in p.roles { assert Speaks(subject, Public); }
    if role :| role in subject.roles && Named(role) in p.roles { assert Speaks(subject, Named(role)); }
    if who :| who in p.roles && Speaks(subject, who) {
      assert who == Public || (who.role in subject.roles && Named(who.role) in p.roles);
    }
  }

  /** The expression that decides: USING for rows that are there, WITH CHECK for new ones, USING where there is none. */
  predicate Passes(p: Policy, writing: bool, row: Row, meaning: Meaning) {
    if writing && p.withCheck.Some? then (p.withCheck.value, row) in meaning
    else p.qual.Some? && (p.qual.value, row) in meaning
  }

  /** One restrictive policy that concerns the subject and fails hides the row, whatever the others say. */
  lemma RestrictiveHides(n: string, subject: Subject, s: Settings, c: Privilege, column: string,
                         writing: bool, row: Row, meaning: Meaning)
    requires UnderRowSecurity(subject, s, c) && n in s.policies
    requires !s.policies[n].permissive && Concerns(s.policies[n], subject, c)
    requires s.policies[n].qual.Some? && !Passes(s.policies[n], writing, row, meaning)
    ensures !Allows(subject, s, c, column, writing, row, meaning)
  {
    ConcernsApplies(s.policies[n], subject, c);
    assert Binds(s.policies[n], subject, c, writing);
  }

  /** Without a permissive policy that concerns the subject and passes, the row is hidden. */
  lemma PermissiveNeeded(subject: Subject, s: Settings, c: Privilege, column: string,
                         writing: bool, row: Row, meaning: Meaning)
    requires UnderRowSecurity(subject, s, c)
    requires forall n :: n in s.policies && s.policies[n].permissive && Concerns(s.policies[n], subject, c) ==>
      !Passes(s.policies[n], writing, row, meaning)
    ensures !Allows(subject, s, c, column, writing, row, meaning)
  {
    forall n | n in s.policies { ConcernsApplies(s.policies[n], subject, c); }
  }

  /** One permissive policy that passes, and no restrictive one that fails, let the row through. */
  lemma PoliciesLetThrough(n: string, subject: Subject, s: Settings, c: Privilege, column: string,
                           writing: bool, row: Row, meaning: Meaning)
    requires UnderRowSecurity(subject, s, c) && MayRun(subject, s, c, column) && n in s.policies
    requires s.policies[n].permissive && Concerns(s.policies[n], subject, c)
    requires Passes(s.policies[n], writing, row, meaning)
    requires forall m :: m in s.policies && !s.policies[m].permissive && Concerns(s.policies[m], subject, c) ==>
      Passes(s.policies[m], writing, row, meaning)
    ensures Allows(subject, s, c, column, writing, row, meaning)
  {
    forall m | m in s.policies { ConcernsApplies(s.policies[m], subject, c); }
  }

  // ---- statements on settings ---------------------------------------------------------

  function Merge(grants: Grants, who: Grantee, commands: set<Privilege>): Grants {
    grants[who := Granted(grants, who) + commands]
  }

  /** CREATE TABLE by `creator`, whose default privileges for new tables are `defaults`. */
  function Created(creator: string, defaults: Grants): Settings {
    var acl := if defaults == map[] then Default else Explicit(Merge(defaults, Named(creator), ALL_PRIVILEGES));
    Settings(creator, false, false, acl, map[], map[])
  }

  /** ALTER TABLE OWNER TO: what the old owner held passes to the new one. */
  function OwnedBy(s: Settings, owner: string): Settings {
    if s.acl.Default? || owner == s.owner then s.(owner := owner)
    else
      var passed := Granted(s.acl.grants, Named(s.owner));
      s.(owner := owner, acl := Explicit(Merge(s.acl.grants - {Named(s.owner)}, Named(owner), passed)))
  }

  function Grant(s: Settings, who: Grantee, commands: set<Privilege>): Settings {
    s.(acl := Explicit(Merge(Held(s), who, commands)))
  }

  /** The grantees `aclexplode` lists, PUBLIC left out. */
  function NamedGrantees(s: Settings): set<Grantee> {
    if s.acl.Default? then {} else set who | who in s.acl.grants && who.Named? && s.acl.grants[who] != {}
  }

  function GrantedTo(s: Settings, to: set<Grantee>, who: Grantee): set<Privilege> {
    if who in to then Granted(Held(s), who) else {}
  }

  /** A list of grants with those of `source` to some of the grantees on top. */
  function WithGrants(source: Settings, base: Grants, to: set<Grantee>): Grants {
    map who | who in base.Keys + to :: Granted(base, who) + GrantedTo(source, to, who)
  }

  lemma NoGrantsOnTop(source: Settings, base: Grants)
    ensures WithGrants(source, base, {}) == base
  {
    var same := WithGrants(source, base, {});
    assert same.Keys == base.Keys;
    forall w | w in base ensures same[w] == base[w] {
      assert GrantedTo(source, {}, w) == {};
    }
  }

  lemma OneGrantOnTop(source: Settings, base: Grants, to: set<Grantee>, who: Grantee)
    requires who in Held(source) && who !in to
    ensures Merge(WithGrants(source, base, to), who, Held(source)[who]) == WithGrants(source, base, to + {who})
  {
    var after := Merge(WithGrants(source, base, to), who, Held(source)[who]);
    var expected := WithGrants(source, base, to + {who});
    assert after.Keys == expected.Keys;
    forall w | w in expected ensures after[w] == expected[w] {
      assert w != who ==> GrantedTo(source, to + {who}, w) == GrantedTo(source, to, w);
    }
  }

  /** Owner and RLS flag of `source` on top of what `target` has, and its grants to some of the grantees. */
  function MirroredTo(source: Settings, target: Settings, to: set<Grantee>): Settings {
    var owned := OwnedBy(target, source.owner);
    owned.(rls := target.rls || source.rls,
           acl := if to == {} then owned.acl else Explicit(WithGrants(source, Held(owned), to)))
  }

  lemma OneMoreGrant(source: Settings, target: Settings, to: set<Grantee>, who: Grantee)
    requires source.acl.Explicit? && who in source.acl.grants && who !in to
    ensures Grant(MirroredTo(source, target, to), who, source.acl.grants[who]) == MirroredTo(source, target, to + {who})
  {
    var base := Held(OwnedBy(target, source.owner));
    NoGrantsOnTop(source, base);
    OneGrantOnTop(source, base, to, who);
    assert Held(MirroredTo(source, target, to)) == WithGrants(source, base, to);
  }

  /** `_mirror_settings`. */
  function Mirrored(source: Settings, target: Settings): Settings {
    MirroredTo(source, target, NamedGrantees(source))
  }

  /** `_copy_policies`: a name the target already has is left alone. */
  function WithPoliciesOf(source: Settings, target: Settings): Settings {
    target.(policies := source.policies + target.policies)
  }

  /**
   `pg_get_expr` prints a column that a sub-select takes from outside with the name of the
   policy's table, which the renamed source no longer shares with the target.
   */
  predicate Copyable(source: Settings, target: Settings) {
    forall name :: name in source.policies && name !in target.policies ==> !source.policies[name].correlated
  }

  function ParentSettings(source: Settings, creator: string, defaults: Grants): Settings {
    WithPoliciesOf(source, Mirrored(source, Created(creator, defaults)))
  }

  // ---- what the copy keeps ------------------------------------------------------------

  /** What was granted on a single column was granted on the whole relation too. */
  predicate ColumnsCovered(source: Settings) {
    forall column, who :: column in source.columns && who in source.columns[column] ==>
      source.columns[column][who] <= Granted(Held(source), who) + Granted(Held(source), Public)
  }

  /**
   The owner does not stand under row security by FORCE and holds every privilege, PUBLIC
   holds what new tables give it, no role gets from a new table what it did not hold, and
   grants on columns add nothing.
   */
  predicate Faithful(source: Settings, creator: string, defaults: Grants) {
    var held := Held(source);
    && !(source.rls && source.force)
    && Granted(held, Public) == Granted(defaults, Public)
    && Granted(held, Named(source.owner)) + Granted(held, Public) == ALL_PRIVILEGES
    && (forall who :: who in defaults && who != Named(creator) ==>
          defaults[who] <= Granted(held, who) + Granted(held, Public))
    && ColumnsCovered(source)
  }

  lemma HeldWhenCreated(creator: string, defaults: Grants, owner: string, who: Grantee)
    ensures
      Granted(Held(OwnedBy(Created(creator, defaults), owner)), who) ==
      if who == Named(owner) then ALL_PRIVILEGES else if who == Named(creator) then {} else Granted(defaults, who)
  {
    PrivilegesListed(Granted(defaults, Named(owner)));
    PrivilegesListed(Granted(defaults, Named(creator)));
  }

  lemma HeldWhenMirrored(source: Settings, target: Settings, who: Grantee)
    ensures
      Granted(Held(Mirrored(source, target)), who) ==
      Granted(Held(OwnedBy(target, source.owner)), who) +
      (if who.Named? && source.acl.Explicit? then Granted(Held(source), who) else {})
  {
    var named := NamedGrantees(source);
    assert GrantedTo(source, named, who) ==
           if who.Named? && source.acl.Explicit? then Granted(Held(source), who) else {};
  }

  lemma HeldByParent(source: Settings, creator: string, defaults: Grants, who: Grantee)
    ensures
      Granted(Held(ParentSettings(source, creator, defaults)), who) ==
      if who == Public then Granted(defaults, Public)
      else if who == Named(source.owner) then ALL_PRIVILEGES
      else Granted(Held(source), who) + (if who == Named(creator) then {} else Granted(defaults, who))
  {
    PrivilegesListed(Granted(Held(source), who));
    HeldWhenCreated(creator, defaults, source.owner, who);
    HeldWhenMirrored(source, Created(creator, defaults), who);
  }

  lemma PrivilegesListed(privileges: set<Privilege>)
    ensures privileges <= ALL_PRIVILEGES
  {
    forall c | c in privileges ensures c in ALL_PRIVILEGES { PrivilegeListed(c); }
  }

  lemma PrivilegeListed(c: Privilege)
    ensures c in ALL_PRIVILEGES
  {
    match c
    case Select =>
    case Insert =>
    case Update =>
    case Delete =>
    case Truncate =>
    case References =>
    case Trigger =>
  }

  lemma HeldIsMirrored(source: Settings, creator: string, defaults: Grants,
                       subject: Subject, c: Privilege, who: Grantee)
    requires Faithful(source, creator, defaults) && Speaks(subject, who)
    requires c in Granted(Held(source), who)
    ensures exists w :: Speaks(subject, w) && c in Granted(Held(ParentSettings(source, creator, defaults)), w)
  {
    PrivilegeListed(c);
    HeldByParent(source, creator, defaults, who);
    assert c in Granted(Held(ParentSettings(source, creator, defaults)), who);
  }

  lemma HeldWasThere(source: Settings, creator: string, defaults: Grants, subject: Subject, c: Privilege, who: Grantee)
    requires Faithful(source, creator, defaults) && Speaks(subject, who)
    requires c in Granted(Held(ParentSettings(source, creator, defaults)), who)
    ensures exists w :: Speaks(subject, w) && c in Granted(Held(source), w)
  {
    PrivilegeListed(c);
    HeldByParent(source, creator, defaults, who);
    assert c in Granted(Held(source), who) || c in Granted(Held(source), Public);
    assert Speaks(subject, Public);
  }

  lemma ColumnIsHeld(source: Settings, subject: Subject, c: Privilege, column: string, who: Grantee)
    requires ColumnsCovered(source) && Speaks(subject, who) && c in Granted(OnColumn(source, column), who)
    ensures exists w :: Speaks(subject, w) && c in Granted(Held(source), w)
  {
    assert source.columns[column][who] <= Granted(Held(source), who) + Granted(Held(source), Public);
    assert Speaks(subject, Public);
    assert c in Granted(Held(source), who) || c in Granted(Held(source), Public);
  }

  lemma StillMayRun(source: Settings, creator: string, defaults: Grants, subject: Subject, c: Privilege, column: string)
    requires Faithful(source, creator, defaults) && MayRun(subject, source, c, column)
    ensures MayRun(subject, ParentSettings(source, creator, defaults), c, column)
  {
    if who :| Speaks(subject, who) && c in Granted(OnColumn(source, column), who) {
      ColumnIsHeld(source, subject, c, column, who);
    }
    if who :| Speaks(subject, who) && c in Granted(Held(source), who) {
      HeldIsMirrored(source, creator, defaults, subject, c, who);
    }
  }

  lemma CouldRun(source: Settings, creator: string, defaults: Grants, subject: Subject, c: Privilege, column: string)
    requires Faithful(source, creator, defaults)
    requires MayRun(subject, ParentSettings(source, creator, defaults), c, column)
    ensures MayRun(subject, source, c, column)
  {
    var parent := ParentSettings(source, creator, defaults);
    assert OnColumn(parent, column) == map[];
    if who :| Speaks(subject, who) && c in Granted(Held(parent), who) {
      HeldWasThere(source, creator, defaults, subject, c, who);
    }
  }

  lemma MayRunKept(source: Settings, creator: string, defaults: Grants, subject: Subject, c: Privilege, column: string)
    requires Faithful(source, creator, defaults)
    ensures MayRun(subject, source, c, column) <==>
            MayRun(subject, ParentSettings(source, creator, defaults), c, column)
  {
    if MayRun(subject, source, c, column) { StillMayRun(source, creator, defaults, subject, c, column); }
    if MayRun(subject, ParentSettings(source, creator, defaults), c, column) {
      CouldRun(source, creator, defaults, subject, c, column);
    }
  }

  lemma FaithfulKeepsAccess(source: Settings, creator: string, defaults: Grants)
    requires Faithful(source, creator, defaults)
    ensures SameAccess(source, ParentSettings(source, creator, defaults))
  {
    var parent := ParentSettings(source, creator, defaults);
    assert parent.policies == source.policies;
    forall subject: Subject, c, column, writing, row, meaning | subject.roles != {}
      ensures Allows(subject, source, c, column, writing, row, meaning) <==>
              Allows(subject, parent, c, column, writing, row, meaning)
    {
      MayRunKept(source, creator, defaults, subject, c, column);
    }
  }

  lemma OneRole(s: Settings, role: string, c: Privilege, column: string)
    ensures MayRun(Subject({role}, false, true), s, c, column) <==>
            || c in Granted(Held(s), Named(role)) || c in Granted(Held(s), Public)
            || c in Granted(OnColumn(s, column), Named(role)) || c in Granted(OnColumn(s, column), Public)
  {
    var subject := Subject({role}, false, true);
    assert Speaks(subject, Named(role)) && Speaks(subject, Public);
    if who :| Speaks(subject, who) && c in Granted(Held(s), who) {
      assert who == Public || who == Named(role);
    }
    if who :| Speaks(subject, who) && c in Granted(OnColumn(s, column), who) {
      assert who == Public || who == Named(role);
    }
  }

  /** A role that bypasses row security shows what its privileges are. */
  lemma SameOnColumn(s: Settings, t: Settings, role: string, c: Privilege, column: string)
    requires SameAccess(s, t)
    ensures MayRun(Subject({role}, false, true), s, c, column) <==> MayRun(Subject({role}, false, true), t, c, column)
  {
    var subject, row := Subject({role}, false, true), Row(0, "", "");
    assert Allows(subject, s, c, column, false, row, iset{}) <==> Allows(subject, t, c, column, false, row, iset{});
  }

  lemma SameRights(s: Settings, t: Settings, role: string, c: Privilege)
    requires SameAccess(s, t)
    ensures c in Granted(Held(s), Named(role)) || c in Granted(Held(s), Public) <==>
            c in Granted(Held(t), Named(role)) || c in Granted(Held(t), Public)
  {
    var column := UnnamedColumn(s, t);
    SameOnColumn(s, t, role, c, column);
    OneRole(s, role, c, column);
    OneRole(t, role, c, column);
  }

  lemma UnnamedColumn(s: Settings, t: Settings) returns (column: string)
    ensures column !in s.columns && column !in t.columns
  {
    var n := LongerThanAll(s.columns.Keys + t.columns.Keys);
    column := seq(n, i => 'c');
  }

  lemma LongerThanAll(names: set<string>) returns (n: nat)
    ensures forall s :: s in names ==> |s| < n
  {
    n := 0;
    if s :| s in names {
      n := LongerThanAll(names - {s});
      if n <= |s| { n := |s| + 1; }
    }
  }

  function RolesIn(grants: Grants): set<string> {
    set who | who in grants && who.Named? :: who.role
  }

  /** A role that appears in none of the lists, nor in a third one. */
  lemma UnnamedRole(s: Settings, t: Settings, grants: Grants) returns (role: string)
    ensures Named(role) !in Held(s) && Named(role) !in Held(t) && Named(role) !in grants
  {
    var n := LongerThanAll(RolesIn(Held(s)) + RolesIn(Held(t)) + RolesIn(grants));
    role := seq(n, i => 'r');
    assert Named(role) in Held(s) ==> role in RolesIn(Held(s));
    assert Named(role) in Held(t) ==> role in RolesIn(Held(t));
    assert Named(role) in grants ==> role in RolesIn(grants);
  }

  lemma SamePublic(s: Settings, t: Settings)
    requires SameAccess(s, t)
    ensures Granted(Held(s), Public) == Granted(Held(t), Public)
  {
    var role := UnnamedRole(s, t, map[]);
    forall c ensures c in Granted(Held(s), Public) <==> c in Granted(Held(t), Public) {
      SameRights(s, t, role, c);
    }
  }

  /** A grant on a column shows through a role that has it, and through a role nobody names if it is to PUBLIC. */
  lemma ColumnGrantCovered(s: Settings, t: Settings, column: string, who: Grantee, c: Privilege)
    requires SameAccess(s, t) && t.columns == map[]
    requires c in Granted(OnColumn(s, column), who)
    ensures c in Granted(Held(s), who) + Granted(Held(s), Public)
  {
    var unnamed := UnnamedRole(s, t, OnColumn(s, column));
    var role := if who.Named? then who.role else unnamed;
    SameOnColumn(s, t, role, c, column);
    OneRole(s, role, c, column);
    OneRole(t, role, c, column);
    SameRights(s, t, role, c);
  }

  lemma ForcedOwnerDiffers(s: Settings, t: Settings)
    requires s.rls && s.force && t.owner == s.owner && !t.force
    requires Granted(Held(t), Named(s.owner)) == ALL_PRIVILEGES
    ensures !SameAccess(s, t)
  {
    var subject, row := Subject({s.owner}, false, false), Row(0, "", "");
    assert Speaks(subject, Named(s.owner)) && Select in Granted(Held(t), Named(s.owner));
    assert Allows(subject, t, Select, "", false, row, iset{});
    assert !Allows(subject, s, Select, "", false, row, iset{});
  }

  lemma DefaultsCovered(source: Settings, creator: string, defaults: Grants, who: Grantee)
    requires SameAccess(source, ParentSettings(source, creator, defaults))
    requires who in defaults && who != Named(creator)
    ensures defaults[who] <= Granted(Held(source), who) + Granted(Held(source), Public)
  {
    var parent := ParentSettings(source, creator, defaults);
    PrivilegesListed(defaults[who]);
    HeldByParent(source, creator, defaults, who);
    SamePublic(source, parent);
    forall c | c in defaults[who] ensures c in Granted(Held(source), who) + Granted(Held(source), Public) {
      if who.Named? { SameRights(source, parent, who.role, c); }
    }
  }

  lemma OwnerHeldAll(source: Settings, creator: string, defaults: Grants)
    requires SameAccess(source, ParentSettings(source, creator, defaults))
    ensures Granted(Held(source), Named(source.owner)) + Granted(Held(source), Public) == ALL_PRIVILEGES
  {
    HeldByParent(source, creator, defaults, Named(source.owner));
    forall c: Privilege
      ensures c in Granted(Held(source), Named(source.owner)) + Granted(Held(source), Public) <==> c in ALL_PRIVILEGES
    {
      PrivilegeListed(c);
      SameRights(source, ParentSettings(source, creator, defaults), source.owner, c);
    }
  }

  lemma SameAccessIsFaithful(source: Settings, creator: string, defaults: Grants)
    requires SameAccess(source, ParentSettings(source, creator, defaults))
    ensures Faithful(source, creator, defaults)
  {
    var parent := ParentSettings(source, creator, defaults);
    HeldByParent(source, creator, defaults, Named(source.owner));
    HeldByParent(source, creator, defaults, Public);
    if source.rls && source.force { ForcedOwnerDiffers(source, parent); }
    SamePublic(source, parent);
    OwnerHeldAll(source, creator, defaults);
    forall who | who in defaults && who != Named(creator)
      ensures defaults[who] <= Granted(Held(source), who) + Granted(Held(source), Public)
    {
      DefaultsCovered(source, creator, defaults, who);
    }
    forall column, who | column in source.columns && who in source.columns[column]
      ensures source.columns[column][who] <= Granted(Held(source), who) + Granted(Held(source), Public)
    {
      forall c | c in source.columns[column][who]
        ensures c in Granted(Held(source), who) + Granted(Held(source), Public)
      {
        ColumnGrantCovered(source, parent, column, who, c);
      }
    }
  }

  /**
   Every subject reads and writes through the parent exactly the rows it could before, whatever
   the policies mean, if and only if the settings are faithful.
   */
  lemma AccessKeptExactly(source: Settings, creator: string, defaults: Grants)
    ensures SameAccess(source, ParentSettings(source, creator, defaults)) <==> Faithful(source, creator, defaults)
  {
    if Faithful(source, creator, defaults) { FaithfulKeepsAccess(source, creator, defaults); }
    if SameAccess(source, ParentSettings(source, creator, defaults)) {
      SameAccessIsFaithful(source, creator, defaults);
    }
  }

  /** The row security half needs no condition but FORCE: the policies decide as before for whoever they bind. */
  lemma PoliciesDecideAsBefore(source: Settings, creator: string, defaults: Grants, subject: Subject,
                               c: Privilege, column: string, writing: bool, row: Row, meaning: Meaning)
    requires c.OnRows() && Restrained(subject, ParentSettings(source, creator, defaults))
    requires MayRun(subject, source, c, column) && MayRun(subject, ParentSettings(source, creator, defaults), c, column)
    ensures Allows(subject, source, c, column, writing, row, meaning) <==>
            Allows(subject, ParentSettings(source, creator, defaults), c, column, writing, row, meaning)
  {
    assert ParentSettings(source, creator, defaults).policies == source.policies;
  }

  /** Without the copy of the policies, whoever row security binds reads and writes nothing. */
  lemma NoPoliciesNoRows(source: Settings, creator: string, defaults: Grants,
                         subject: Subject, c: Privilege, column: string, writing: bool, row: Row, meaning: Meaning)
    requires source.rls && !subject.superuser && !subject.bypass && source.owner !in subject.roles && c.OnRows()
    ensures !Allows(subject, Mirrored(source, Created(creator, defaults)), c, column, writing, row, meaning)
  {
    assert Mirrored(source, Created(creator, defaults)).policies == map[];
  }

  /** With no default privileges, what is lost is what the copy does not name. */
  lemma FaithfulWithoutDefaults(source: Settings, creator: string)
    ensures Faithful(source, creator, map[]) <==>
      && !(source.rls && source.force)
      && (source.acl.Explicit? ==>
            && Granted(source.acl.grants, Public) == {}
            && Granted(source.acl.grants, Named(source.owner)) == ALL_PRIVILEGES)
      && ColumnsCovered(source)
  {
    assert Granted(map[], Public) == {};
  }
}

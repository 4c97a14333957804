/** Permissions that members hold through roles in groups: the check of one object,
    the prefetch for many objects, and the filter of a list of objects. */
module Permissions {
  import opened Rows
  import opened Groups

  type Member = nat
  type Role = nat
  type Object = nat

  /** The roles of a member in one group. */
  datatype Membership = Membership(group: GroupId, member: Member, roles: seq<Role>)

  /** The group that an object belongs to. */
  datatype ObjectRow = ObjectRow(obj: Object, group: GroupId)

  /** The tables. A role that is not in `codenames` has no permission. */
  datatype Store = Store(forest: seq<Group>, memberships: seq<Membership>, codenames: map<Role, seq<string>>,
                         rows: seq<ObjectRow>)

  /** A user, and the organization chosen in the profile. */
  datatype User = User(member: Member, organization: Option<GroupId>)

  function CodenamesOf(s: Store, r: Role): seq<string> { if r in s.codenames then s.codenames[r] else [] }

  ghost predicate Linked(s: Store) {
    && Proper(s.forest)
    && (forall m :: m in s.memberships ==> m.group in Members(s.forest))
    && (forall r :: r in s.rows ==> r.group in Members(s.forest))
  }

  /******* Holding a permission *******/

  /** Membership `m` gives `member` codename `c` in one of the groups `gs`. */
  predicate Gives(s: Store, member: Member, gs: seq<GroupId>, m: Membership, c: string) {
    m.member == member && m.group in gs && exists r :: r in m.roles && c in CodenamesOf(s, r)
  }

  /** The member holds codename `c` in group `g`: a role in `g` or above it has it. */
  ghost predicate Holds(s: Store, member: Member, g: GroupId, c: string) {
    exists m :: m in s.memberships && Gives(s, member, Ancestors(s.forest, g), m, c)
  }

  /** What is held in a group is held in every group under it. */
  lemma {:induction false} HoldsBelow(s: Store, member: Member, g: GroupId, d: GroupId, c: string)
    requires Linked(s) && d in Descendants(s.forest, g) && Holds(s, member, g, c)
    ensures Holds(s, member, d, c)
  {
    var m :| m in s.memberships && Gives(s, member, Ancestors(s.forest, g), m, c);
    Duality(s.forest, g, d);
    AncestorsTransitive(s.forest, m.group, g, d);
    assert Gives(s, member, Ancestors(s.forest, d), m, c);
  }

  /******* The check of one object *******/

  /** The roles of a member in the groups `gs`. */
  function MemberRoles(s: Store, member: Member, gs: seq<GroupId>): set<Role> {
    set m, r | m in s.memberships && m.member == member && m.group in gs && r in m.roles :: r
  }

  function UserRoles(s: Store, u: User, start: Option<GroupId>): set<Role> {
    if u.organization.None? then {}
    else MemberRoles(s, u.member, Ancestors(s.forest, if start.Some? then start.value else u.organization.value))
  }

  function RoleCodenames(s: Store, roles: set<Role>): set<string> {
    set r, c | r in roles && c in CodenamesOf(s, r) :: c
  }

  datatype Lookup<T> = Found(value: T) | MultipleObjects | BadName

  function RowsOf(rows: seq<ObjectRow>, o: Object): seq<ObjectRow> {
    if rows == [] then []
    else RowsOf(rows[..|rows| - 1], o) + if rows[|rows| - 1].obj == o then [rows[|rows| - 1]] else []
  }

  /** The codenames a user has on an object: none without a group, an error with several. */
  function AllPermissions(s: Store, u: User, o: Object): Lookup<set<string>> {
    var rows := RowsOf(s.rows, o);
    if |rows| > 1 then MultipleObjects
    else if |rows| == 0 then Found({})
    else if u.organization.None? then Found({})
    else Found(RoleCodenames(s, UserRoles(s, u, Some(rows[0].group))))
  }

  /** The parts of a name between its dots. */
  function Split(p: string): (parts: seq<string>)
    ensures parts != []
  {
    if p == [] then [[]]
    else
      var rest := Split(p[1..]);
      if p[0] == '.' then [[]] + rest else [[p[0]] + rest[0]] + rest[1..]
  }

  /** The check unpacks the name into exactly two parts if it has a dot. */
  function HasPerm(s: Store, u: User, p: string, o: Object): Lookup<bool> {
    if '.' in p && |Split(p)| != 2 then BadName
    else
      var codename := if '.' in p then Split(p)[1] else p;
      match AllPermissions(s, u, o)
      case Found(cs) => Found(codename in cs)
      case MultipleObjects => MultipleObjects
      case BadName => BadName
  }

  lemma {:induction false} RolesHold(s: Store, member: Member, g: GroupId, c: string)
    ensures c in RoleCodenames(s, MemberRoles(s, member, Ancestors(s.forest, g))) <==> Holds(s, member, g, c)
  {
    var gs := Ancestors(s.forest, g);
    var roles := MemberRoles(s, member, gs);
    if Holds(s, member, g, c) {
      var m :| m in s.memberships && Gives(s, member, gs, m, c);
      var r :| r in m.roles && c in CodenamesOf(s, r);
      assert r in roles;
    }
    if c in RoleCodenames(s, roles) {
      var r :| r in roles && c in CodenamesOf(s, r);
      var m :| m in s.memberships && m.member == member && m.group in gs && r in m.roles;
      assert Gives(s, member, gs, m, c);
    }
  }

  /******* The groups of a user *******/

  /** Group `g` is, or lies under, the group of a membership of the member. */
  predicate Under(s: Store, member: Member, m: Membership, g: GroupId) {
    m.member == member && g in Descendants(s.forest, m.group)
  }

  ghost predicate InGroups(s: Store, member: Member, groups: set<GroupId>) {
    forall g :: g in groups <==> exists m :: m in s.memberships && Under(s, member, m, g)
  }

  /** The groups the user is a member of and all groups under them. Each group is
      its own least level, so the filter on levels keeps every membership. */
  method GetUserGroups(s: Store, u: User) returns (groups: set<GroupId>)
    ensures InGroups(s, u.member, groups)
    ensures forall g :: g in groups
              <==> exists m :: m in s.memberships && m.member == u.member && g in Descendants(s.forest, m.group)
  {
    groups := {};
    for i := 0 to |s.memberships|
      invariant forall g :: g in groups <==> exists m :: m in s.memberships[..i] && Under(s, u.member, m, g)
    {
      var m := s.memberships[i];
      assert forall n :: n in s.memberships[..i + 1] <==> n in s.memberships[..i] || n == m;
      assert forall g :: Under(s, u.member, m, g) <==> m.member == u.member && g in Descendants(s.forest, m.group);
      if m.member == u.member {
        var below := Descendants(s.forest, m.group);
        groups := groups + set g | g in below;
      }
    }
    assert s.memberships[..|s.memberships|] == s.memberships;
  }

  /** Outside the groups of a user nothing is held. */
  lemma {:induction false} NothingOutside(s: Store, u: User, g: GroupId, c: string)
    requires Linked(s) && Holds(s, u.member, g, c)
    ensures exists m :: m in s.memberships && Under(s, u.member, m, g)
  {
    var m :| m in s.memberships && Gives(s, u.member, Ancestors(s.forest, g), m, c);
    Duality(s.forest, m.group, g);
    assert Under(s, u.member, m, g);
  }

  /******* The prefetch *******/

  function Codenames(s: Store, roles: seq<Role>): seq<string> {
    if roles == [] then [] else Codenames(s, roles[..|roles| - 1]) + CodenamesOf(s, roles[|roles| - 1])
  }

  /** What the memberships `ms` of the member in group `g` give, in order. */
  function Given(s: Store, member: Member, g: GroupId, ms: seq<Membership>): seq<string> {
    if ms == [] then []
    else
      var m := ms[|ms| - 1];
      Given(s, member, g, ms[..|ms| - 1]) + if m.group == g && m.member == member then Codenames(s, m.roles) else []
  }

  /** What the member is given in the groups `gs`, in order. */
  function Granted(s: Store, member: Member, gs: seq<GroupId>): seq<string> {
    if gs == [] then []
    else Granted(s, member, gs[..|gs| - 1]) + Given(s, member, gs[|gs| - 1], s.memberships)
  }

  /** What the rows add to the cache entry of an object. */
  function Added(s: Store, member: Member, groups: set<GroupId>, rows: seq<ObjectRow>, o: Object): seq<string> {
    if rows == [] then []
    else
      var r := rows[|rows| - 1];
      Added(s, member, groups, rows[..|rows| - 1], o)
      + if r.obj == o && r.group in groups then Granted(s, member, Ancestors(s.forest, r.group)) else []
  }

  lemma {:induction false} CodenamesIff(s: Store, roles: seq<Role>, c: string)
    ensures c in Codenames(s, roles) <==> exists r :: r in roles && c in CodenamesOf(s, r)
  {
    if roles != [] {
      var n := |roles| - 1;
      CodenamesIff(s, roles[..n], c);
      assert roles == roles[..n] + [roles[n]];
    }
  }

  lemma {:induction false} GivenFrom(s: Store, member: Member, g: GroupId, ms: seq<Membership>, c: string)
    returns (m: Membership)
    requires c in Given(s, member, g, ms)
    ensures m in ms && m.member == member && m.group == g && c in Codenames(s, m.roles)
  {
    var n := |ms| - 1;
    if c in Given(s, member, g, ms[..n]) {
      m := GivenFrom(s, member, g, ms[..n], c);
    } else {
      m := ms[n];
    }
  }

  lemma {:induction false} GivenTo(s: Store, g: GroupId, ms: seq<Membership>, k: nat, c: string)
    requires k < |ms| && ms[k].group == g && c in Codenames(s, ms[k].roles)
    ensures c in Given(s, ms[k].member, g, ms)
  {
    var n := |ms| - 1;
    if k < n {
      assert ms[..n][k] == ms[k];
      GivenTo(s, g, ms[..n], k, c);
    }
  }

  lemma {:induction false} GrantedFrom(s: Store, member: Member, gs: seq<GroupId>, c: string) returns (m: Membership)
    requires c in Granted(s, member, gs)
    ensures m in s.memberships && m.member == member && m.group in gs && c in Codenames(s, m.roles)
  {
    var n := |gs| - 1;
    if c in Granted(s, member, gs[..n]) {
      m := GrantedFrom(s, member, gs[..n], c);
    } else {
      m := GivenFrom(s, member, gs[n], s.memberships, c);
    }
  }

  lemma {:induction false} GrantedTo(s: Store, member: Member, gs: seq<GroupId>, k: nat, c: string)
    requires k < |gs| && c in Given(s, member, gs[k], s.memberships)
    ensures c in Granted(s, member, gs)
  {
    var n := |gs| - 1;
    if k < n {
      GrantedTo(s, member, gs[..n], k, c);
    }
  }

  /** In the ancestors of a group a member is granted exactly what it holds in the group. */
  lemma {:induction false} GrantedHolds(s: Store, member: Member, g: GroupId, c: string)
    ensures c in Granted(s, member, Ancestors(s.forest, g)) <==> Holds(s, member, g, c)
  {
    var gs := Ancestors(s.forest, g);
    if c in Granted(s, member, gs) {
      var m := GrantedFrom(s, member, gs, c);
      CodenamesIff(s, m.roles, c);
      assert Gives(s, member, gs, m, c);
    }
    if Holds(s, member, g, c) {
      var m :| m in s.memberships && Gives(s, member, gs, m, c);
      CodenamesIff(s, m.roles, c);
      var k :| 0 <= k < |gs| && gs[k] == m.group;
      var i :| 0 <= i < |s.memberships| && s.memberships[i] == m;
      GivenTo(s, gs[k], s.memberships, i, c);
      GrantedTo(s, member, gs, k, c);
    }
  }

  /** Row `r` gives the member codename `c` on its object. */
  predicate RowGives(s: Store, member: Member, groups: set<GroupId>, r: ObjectRow, o: Object, c: string) {
    r.obj == o && r.group in groups && c in Granted(s, member, Ancestors(s.forest, r.group))
  }

  lemma {:induction false} AddedFrom(s: Store, member: Member, groups: set<GroupId>, rows: seq<ObjectRow>,
                                     o: Object, c: string) returns (r: ObjectRow)
    requires c in Added(s, member, groups, rows, o)
    ensures r in rows && RowGives(s, member, groups, r, o, c)
  {
    var n := |rows| - 1;
    if c in Added(s, member, groups, rows[..n], o) {
      r := AddedFrom(s, member, groups, rows[..n], o, c);
    } else {
      r := rows[n];
    }
  }

  lemma {:induction false} AddedKeeps(s: Store, member: Member, groups: set<GroupId>, rows: seq<ObjectRow>, k: nat, o: Object)
    requires k <= |rows|
    ensures Added(s, member, groups, rows[..k], o) <= Added(s, member, groups, rows, o)
  {
    if k == |rows| {
      assert rows[..k] == rows;
    } else {
      assert rows[..|rows| - 1][..k] == rows[..k];
      AddedKeeps(s, member, groups, rows[..|rows| - 1], k, o);
    }
  }

  lemma {:induction false} AddedNow(s: Store, member: Member, groups: set<GroupId>, rows: seq<ObjectRow>, k: nat, c: string)
    requires k < |rows| && RowGives(s, member, groups, rows[k], rows[k].obj, c)
    ensures c in Added(s, member, groups, rows[..k + 1], rows[k].obj)
  {
  }

  lemma {:induction false} InPrefix(xs: seq<string>, ys: seq<string>, c: string)
    requires c in xs && xs <= ys
    ensures c in ys
  {
    var k :| 0 <= k < |xs| && xs[k] == c;
    assert ys[k] == c;
  }

  lemma {:induction false} AddedTo(s: Store, member: Member, groups: set<GroupId>, rows: seq<ObjectRow>,
                                   r: ObjectRow, c: string)
    requires r in rows && RowGives(s, member, groups, r, r.obj, c)
    ensures c in Added(s, member, groups, rows, r.obj)
  {
    var k :| 0 <= k < |rows| && rows[k] == r;
    AddedNow(s, member, groups, rows, k, c);
    AddedKeeps(s, member, groups, rows, k + 1, r.obj);
    InPrefix(Added(s, member, groups, rows[..k + 1], r.obj), Added(s, member, groups, rows, r.obj), c);
  }

  type Cache = map<Object, seq<string>>

  function Append(c: Cache, o: Object, xs: seq<string>): Cache
    requires o in c
  {
    c[o := c[o] + xs]
  }

  lemma {:induction false} AppendNothing(c: Cache, o: Object)
    requires o in c
    ensures Append(c, o, []) == c
  {
    assert c[o] + [] == c[o];
  }

  lemma {:induction false} AppendTwice(c: Cache, o: Object, xs: seq<string>, ys: seq<string>)
    requires o in c
    ensures Append(Append(c, o, xs), o, ys) == Append(c, o, xs + ys)
  {
    assert c[o] + xs + ys == c[o] + (xs + ys);
  }

  /** What the rows add to entry `o`, if it is one of `objects`. */
  function Extra(s: Store, member: Member, groups: set<GroupId>, rows: seq<ObjectRow>, objects: seq<Object>,
                 o: Object): seq<string> {
    if o in objects then Added(s, member, groups, rows, o) else []
  }

  /** Cache `c1` is cache `c0` with what the rows add to the entries of `objects`. */
  ghost predicate Filled(s: Store, member: Member, groups: set<GroupId>, rows: seq<ObjectRow>, objects: seq<Object>,
                         c0: Cache, c1: Cache) {
    c1.Keys == c0.Keys && forall o :: o in c0 ==> c1[o] == c0[o] + Extra(s, member, groups, rows, objects, o)
  }

  lemma {:induction false} ExtraNext(s: Store, member: Member, groups: set<GroupId>, i: nat, objects: seq<Object>,
                                     o: Object)
    requires i < |s.rows|
    ensures var r := s.rows[i];
            Extra(s, member, groups, s.rows[..i + 1], objects, o)
            == Extra(s, member, groups, s.rows[..i], objects, o)
               + if r.obj == o && o in objects && r.group in groups
                 then Granted(s, member, Ancestors(s.forest, r.group)) else []
  {
    assert s.rows[..i + 1][..i] == s.rows[..i];
  }

  lemma {:induction false} EntryNext(s: Store, member: Member, groups: set<GroupId>, i: nat, objects: seq<Object>,
                                     o: Object, x0: seq<string>, x1: seq<string>, x2: seq<string>)
    requires i < |s.rows| && x1 == x0 + Extra(s, member, groups, s.rows[..i], objects, o)
    requires var r := s.rows[i];
             x2 == if r.obj == o && o in objects && r.group in groups
                   then x1 + Granted(s, member, Ancestors(s.forest, r.group)) else x1
    ensures x2 == x0 + Extra(s, member, groups, s.rows[..i + 1], objects, o)
  {
    ExtraNext(s, member, groups, i, objects, o);
  }

  lemma {:induction false} FilledNext(s: Store, member: Member, groups: set<GroupId>, i: nat, objects: seq<Object>,
                                      c0: Cache, c1: Cache, c2: Cache)
    requires i < |s.rows| && Filled(s, member, groups, s.rows[..i], objects, c0, c1)
    requires forall o :: o in objects ==> o in c0
    requires var r := s.rows[i];
             c2 == if r.obj in objects && r.group in groups
                   then Append(c1, r.obj, Granted(s, member, Ancestors(s.forest, r.group))) else c1
    ensures Filled(s, member, groups, s.rows[..i + 1], objects, c0, c2)
  {
    forall o | o in c0 ensures c2[o] == c0[o] + Extra(s, member, groups, s.rows[..i + 1], objects, o) {
      EntryNext(s, member, groups, i, objects, o, c0[o], c1[o], c2[o]);
    }
  }

  /** The permission cache of one user: a list of codenames per object. */
  class Checker {
    const s: Store
    const u: User
    var cache: map<Object, seq<string>>

    constructor (s: Store, u: User)
      ensures this.s == s && this.u == u && cache == map[]
    {
      this.s, this.u, this.cache := s, u, map[];
    }

    /** Appends the codenames of one role to the entry of `o`. */
    method GrantRole(r: Role, o: Object)
      requires o in cache
      modifies this
      ensures cache == Append(old(cache), o, CodenamesOf(s, r))
    {
      var cs := CodenamesOf(s, r);
      AppendNothing(cache, o);
      for k := 0 to |cs|
        invariant o in cache && cache == Append(old(cache), o, cs[..k])
      {
        AppendTwice(old(cache), o, cs[..k], [cs[k]]);
        assert cs[..k + 1] == cs[..k] + [cs[k]];
        cache := cache[o := cache[o] + [cs[k]]];
      }
      assert cs[..|cs|] == cs;
    }

    /** Appends the codenames of the roles of one membership to the entry of `o`. */
    method GrantMembership(m: Membership, o: Object)
      requires o in cache
      modifies this
      ensures cache == Append(old(cache), o, Codenames(s, m.roles))
    {
      AppendNothing(cache, o);
      for j := 0 to |m.roles|
        invariant o in cache && cache == Append(old(cache), o, Codenames(s, m.roles[..j]))
      {
        assert m.roles[..j + 1][..j] == m.roles[..j];
        AppendTwice(old(cache), o, Codenames(s, m.roles[..j]), CodenamesOf(s, m.roles[j]));
        GrantRole(m.roles[j], o);
      }
      assert m.roles[..|m.roles|] == m.roles;
    }

    /** Appends to the entry of `o` what the user is given in group `g`. */
    method Grant(g: GroupId, o: Object)
      requires o in cache
      modifies this
      ensures cache == Append(old(cache), o, Given(s, u.member, g, s.memberships))
    {
      AppendNothing(cache, o);
      for i := 0 to |s.memberships|
        invariant o in cache && cache == Append(old(cache), o, Given(s, u.member, g, s.memberships[..i]))
      {
        var m := s.memberships[i];
        assert s.memberships[..i + 1][..i] == s.memberships[..i];
        if m.group == g && m.member == u.member {
          AppendTwice(old(cache), o, Given(s, u.member, g, s.memberships[..i]), Codenames(s, m.roles));
          GrantMembership(m, o);
        } else {
          assert Given(s, u.member, g, s.memberships[..i]) + [] == Given(s, u.member, g, s.memberships[..i]);
        }
      }
      assert s.memberships[..|s.memberships|] == s.memberships;
    }

    /** Appends to the entry of `o` what the user is given in the groups `gs`. */
    method GrantAll(gs: seq<GroupId>, o: Object)
      requires o in cache
      modifies this
      ensures cache == Append(old(cache), o, Granted(s, u.member, gs))
    {
      AppendNothing(cache, o);
      for k := 0 to |gs|
        invariant o in cache && cache == Append(old(cache), o, Granted(s, u.member, gs[..k]))
      {
        assert gs[..k + 1][..k] == gs[..k];
        AppendTwice(old(cache), o, Granted(s, u.member, gs[..k]), Given(s, u.member, gs[k], s.memberships));
        Grant(gs[k], o);
      }
      assert gs[..|gs|] == gs;
    }

    /** Appends what a row gives its object: in the groups above its group, then in that. */
    method GrantRow(r: ObjectRow)
      requires r.group in Members(s.forest) && r.obj in cache
      modifies this
      ensures cache == Append(old(cache), r.obj, Granted(s, u.member, Ancestors(s.forest, r.group)))
    {
      var gs := Ancestors(s.forest, r.group);
      AncestorsKnown(s.forest, r.group);
      AncestorsEnd(s.forest, r.group);
      var above := gs[..|gs| - 1];
      AppendTwice(cache, r.obj, Granted(s, u.member, above), Given(s, u.member, r.group, s.memberships));
      GrantAll(above, r.obj);
      Grant(r.group, r.obj);
    }

    /** Makes an empty entry for every object that has none. */
    method Prepare(objects: seq<Object>)
      modifies this
      ensures cache.Keys == old(cache.Keys) + set o | o in objects
      ensures forall o :: o in cache ==> cache[o] == if o in old(cache) then old(cache)[o] else []
    {
      for i := 0 to |objects|
        invariant cache.Keys == old(cache.Keys) + set o | o in objects[..i]
        invariant forall o :: o in cache ==> cache[o] == if o in old(cache) then old(cache)[o] else []
      {
        assert objects[..i + 1] == objects[..i] + [objects[i]];
        if objects[i] !in cache { cache := cache[objects[i] := []]; }
      }
      assert objects[..|objects|] == objects;
    }

    /** Fills the cache for `objects`: each keeps what it had and gets what the user is
        given, in its groups and above, through its rows in the groups of the user. */
    method PrefetchPerms(objects: seq<Object>) returns (ghost groups: set<GroupId>)
      requires Linked(s)
      modifies this
      ensures InGroups(s, u.member, groups)
      ensures cache.Keys == old(cache.Keys) + set o | o in objects
      ensures forall o :: o in cache ==>
                cache[o] == (if o in old(cache) then old(cache)[o] else [])
                            + Extra(s, u.member, groups, s.rows, objects, o)
      ensures forall o, c :: o in cache ==>
                (c in cache[o] <==> (o in old(cache) && c in old(cache)[o]) || (o in objects && GivenThrough(s, u, o, c)))
    {
      var mine := GetUserGroups(s, u);
      groups := mine;
      Prepare(objects);
      AddRows(objects, mine);
      forall o, c ensures c in Extra(s, u.member, groups, s.rows, objects, o) <==> o in objects && GivenThrough(s, u, o, c) {
        PrefetchedIff(s, u, groups, objects, o, c);
      }
    }

    method AddRows(objects: seq<Object>, groups: set<GroupId>)
      requires Linked(s) && forall o :: o in objects ==> o in cache
      modifies this
      ensures Filled(s, u.member, groups, s.rows, objects, old(cache), cache)
    {
      for i := 0 to |s.rows|
        invariant Filled(s, u.member, groups, s.rows[..i], objects, old(cache), cache)
      {
        var r := s.rows[i];
        ghost var before := cache;
        if r.obj in objects && r.group in groups { GrantRow(r); }
        FilledNext(s, u.member, groups, i, objects, old(cache), before, cache);
      }
      assert s.rows[..|s.rows|] == s.rows;
    }
  }

  lemma {:induction false} RowsOfIff(rows: seq<ObjectRow>, o: Object, r: ObjectRow)
    ensures r in RowsOf(rows, o) <==> r in rows && r.obj == o
  {
    if rows != [] {
      var n := |rows| - 1;
      RowsOfIff(rows[..n], o, r);
      assert rows == rows[..n] + [rows[n]];
    }
  }

  /** The prefetch adds a codename for an object exactly when the member holds it in
      the group of one of its rows: rows outside the groups of the user add nothing. */
  lemma {:induction false} AddedHolds(s: Store, u: User, groups: set<GroupId>, o: Object, c: string)
    requires Linked(s) && InGroups(s, u.member, groups)
    ensures c in Added(s, u.member, groups, s.rows, o)
            <==> exists r :: r in RowsOf(s.rows, o) && Holds(s, u.member, r.group, c)
  {
    if c in Added(s, u.member, groups, s.rows, o) {
      var r := AddedFrom(s, u.member, groups, s.rows, o, c);
      RowsOfIff(s.rows, o, r);
      GrantedHolds(s, u.member, r.group, c);
    }
    if r :| r in RowsOf(s.rows, o) && Holds(s, u.member, r.group, c) {
      RowsOfIff(s.rows, o, r);
      GrantedHolds(s, u.member, r.group, c);
      NothingOutside(s, u, r.group, c);
      AddedTo(s, u.member, groups, s.rows, r, c);
    }
  }

  /** All that the prefetch adds for an object with one row is what is held there. */
  lemma {:induction false} AddedOne(s: Store, u: User, groups: set<GroupId>, o: Object, g: GroupId, c: string)
    requires Linked(s) && InGroups(s, u.member, groups) && RowsOf(s.rows, o) == [ObjectRow(o, g)]
    ensures c in Added(s, u.member, groups, s.rows, o) <==> Holds(s, u.member, g, c)
  {
    AddedHolds(s, u, groups, o, c);
    assert RowsOf(s.rows, o)[0].group == g;
  }

  /** The prefetch agrees with the check of one object exactly when the object has at
      most one group and, for a user without a current organization, the member
      holds nothing there. */
  lemma {:induction false} PrefetchAgrees(s: Store, u: User, groups: set<GroupId>, o: Object)
    requires Linked(s) && InGroups(s, u.member, groups)
    ensures var rows := RowsOf(s.rows, o);
            AllPermissions(s, u, o) == Found(set c | c in Added(s, u.member, groups, s.rows, o))
            <==> |rows| == 0
                 || (|rows| == 1 && (u.organization.Some? || forall c :: !Holds(s, u.member, rows[0].group, c)))
  {
    var rows := RowsOf(s.rows, o);
    var added := set c | c in Added(s, u.member, groups, s.rows, o);
    if |rows| == 0 {
      forall c ensures c !in added { AddedHolds(s, u, groups, o, c); }
      assert added == {};
    } else if |rows| == 1 {
      var g := rows[0].group;
      RowsOfIff(s.rows, o, rows[0]);
      assert rows == [ObjectRow(o, g)];
      forall c ensures c in added <==> Holds(s, u.member, g, c) { AddedOne(s, u, groups, o, g, c); }
      if u.organization.Some? {
        forall c ensures c in added <==> c in AllPermissions(s, u, o).value { RolesHold(s, u.member, g, c); }
        assert added == AllPermissions(s, u, o).value;
      } else {
        assert (forall c :: c !in added) <==> added == {};
      }
    }
  }

  /******* The filter of a list *******/

  function AfterDot(p: string): string {
    if p == [] then [] else if p[0] == '.' then p[1..] else AfterDot(p[1..])
  }

  /** What follows the first dot, or the whole name if it has none. */
  function Codename(p: string): string { if '.' in p then AfterDot(p) else p }

  lemma {:induction false} SplitParts(p: string)
    ensures '.' in p <==> |Split(p)| > 1
    ensures |Split(p)| == 1 ==> Split(p)[0] == p
    ensures |Split(p)| == 2 ==> Split(p)[1] == AfterDot(p)
  {
    if p != [] {
      SplitParts(p[1..]);
      assert p == [p[0]] + p[1..];
    }
  }

  /** Where the list is filtered: in the organization of the profile, in a given
      group, or wherever the user is a member. */
  datatype Scope = Profile | Within(group: GroupId) | Anywhere

  /** The row's group is in scope and, within an organization, gives all `perms`. */
  ghost predicate Admitted(s: Store, u: User, scope: Scope, perms: seq<string>, g: GroupId) {
    if scope.Anywhere? then exists m :: m in s.memberships && Under(s, u.member, m, g)
    else
      var org := if scope.Within? then Some(scope.group) else u.organization;
      && org.Some? && g in Descendants(s.forest, org.value)
      && forall p :: p in perms ==> Holds(s, u.member, g, Codename(p))
  }

  ghost predicate Selected(s: Store, u: User, scope: Scope, perms: seq<string>, o: Object) {
    exists r :: r in RowsOf(s.rows, o) && Admitted(s, u, scope, perms, r.group)
  }

  /** The groups under `org` in which the member holds all `needed` codenames. */
  method OrganizationGroups(s: Store, u: User, org: GroupId, needed: set<string>) returns (orgs: seq<GroupId>)
    ensures forall g :: g in orgs
              <==> g in Descendants(s.forest, org) && forall c :: c in needed ==> Holds(s, u.member, g, c)
  {
    orgs := [];
    var ds := Descendants(s.forest, org);
    for i := 0 to |ds|
      invariant forall g :: g in orgs <==> g in ds[..i] && forall c :: c in needed ==> Holds(s, u.member, g, c)
    {
      var held := RoleCodenames(s, MemberRoles(s, u.member, Ancestors(s.forest, ds[i])));
      forall c ensures c in held <==> Holds(s, u.member, ds[i], c) { RolesHold(s, u.member, ds[i], c); }
      if needed <= held { orgs := orgs + [ds[i]]; }
      assert forall g :: g in ds[..i + 1] <==> g in ds[..i] || g == ds[i];
    }
    assert ds[..|ds|] == ds;
  }

  /** The objects that the organization part of the list filter selects. */
  method GetObjectsForUser(s: Store, u: User, perms: seq<string>, scope: Scope) returns (selected: set<Object>)
    ensures forall o :: o in selected <==> Selected(s, u, scope, perms, o)
  {
    var needed: set<string> := {};
    for i := 0 to |perms|
      invariant needed == set p | p in perms[..i] :: Codename(p)
    {
      assert perms[..i + 1] == perms[..i] + [perms[i]];
      needed := needed + {Codename(perms[i])};
    }
    assert perms[..|perms|] == perms;
    var orgs: set<GroupId> := {};
    if scope.Anywhere? {
      orgs := GetUserGroups(s, u);
    } else {
      var org := if scope.Within? then Some(scope.group) else u.organization;
      if org.Some? {
        var gs := OrganizationGroups(s, u, org.value, needed);
        orgs := set g | g in gs;
      }
    }
    assert forall g :: g in orgs <==> Admitted(s, u, scope, perms, g);
    selected := set r | r in s.rows && r.group in orgs :: r.obj;
    forall o ensures o in selected <==> Selected(s, u, scope, perms, o) {
      forall r { RowsOfIff(s.rows, o, r); }
    }
  }

  /** For an object with one group, at or under the current organization: every
      listed permission checks out on it exactly when the filter selects it and no
      listed name has two dots. */
  lemma {:induction false} FilterAgrees(s: Store, u: User, perms: seq<string>, o: Object, g: GroupId)
    requires RowsOf(s.rows, o) == [ObjectRow(o, g)]
    requires u.organization.Some? && g in Descendants(s.forest, u.organization.value)
    ensures (forall p :: p in perms ==> HasPerm(s, u, p, o) == Found(true))
            <==> Selected(s, u, Profile, perms, o) && forall p :: p in perms ==> |Split(p)| <= 2
  {
    forall p ensures HasPerm(s, u, p, o) == Found(true) <==> Holds(s, u.member, g, Codename(p)) && |Split(p)| <= 2 {
      SplitParts(p);
      RolesHold(s, u.member, g, Codename(p));
    }
    assert Selected(s, u, Profile, perms, o) <==> Admitted(s, u, Profile, perms, g) by {
      assert forall r :: r in RowsOf(s.rows, o) <==> r == ObjectRow(o, g);
      assert ObjectRow(o, g).group == g;
    }
  }

  /** In rows: wherever the user is a member, the filter asks for a group at or under one of the
      memberships; in an organization, for a group there in which each codename is given by a
      role of the user at or above it. */
  lemma {:induction false} SelectedIff(s: Store, u: User, scope: Scope, perms: seq<string>, o: Object)
    ensures Selected(s, u, scope, perms, o) <==>
            exists r :: r in s.rows && r.obj == o &&
              match scope
              case Anywhere => exists m :: m in s.memberships && m.member == u.member && r.group in Descendants(s.forest, m.group)
              case Within(org) => r.group in Descendants(s.forest, org) && AllGiven(s, u, perms, r.group)
              case Profile => u.organization.Some? && r.group in Descendants(s.forest, u.organization.value)
                              && AllGiven(s, u, perms, r.group)
  {
    forall r ensures r in RowsOf(s.rows, o) <==> r in s.rows && r.obj == o { RowsOfIff(s.rows, o, r); }
    forall g, p | p in perms ensures Holds(s, u.member, g, Codename(p)) <==> GivenAt(s, u, g, Codename(p)) {
      HoldsIff(s, u, g, Codename(p));
    }
    forall m, g ensures Under(s, u.member, m, g) <==> m.member == u.member && g in Descendants(s.forest, m.group) { }
  }

  /** A role of the user at or above the group has the codename. */
  ghost predicate GivenAt(s: Store, u: User, g: GroupId, c: string) {
    exists m, r :: m in s.memberships && m.member == u.member && m.group in Ancestors(s.forest, g) && r in m.roles
                   && r in s.codenames && c in s.codenames[r]
  }

  ghost predicate AllGiven(s: Store, u: User, perms: seq<string>, g: GroupId) {
    forall p :: p in perms ==> GivenAt(s, u, g, Codename(p))
  }

  lemma {:induction false} HoldsIff(s: Store, u: User, g: GroupId, c: string)
    ensures Holds(s, u.member, g, c) <==> GivenAt(s, u, g, c)
  {
    if m :| m in s.memberships && Gives(s, u.member, Ancestors(s.forest, g), m, c) {
      var r :| r in m.roles && c in CodenamesOf(s, r);
      assert r in s.codenames && c in s.codenames[r];
    }
    if GivenAt(s, u, g, c) {
      var m, r :| m in s.memberships && m.member == u.member && m.group in Ancestors(s.forest, g) && r in m.roles
                  && r in s.codenames && c in s.codenames[r];
      assert c in CodenamesOf(s, r) && Gives(s, u.member, Ancestors(s.forest, g), m, c);
    }
  }

  /** What the prefetch adds, in rows. */
  lemma {:induction false} PrefetchedIff(s: Store, u: User, groups: set<GroupId>, objects: seq<Object>, o: Object, c: string)
    requires Linked(s) && InGroups(s, u.member, groups)
    ensures c in Extra(s, u.member, groups, s.rows, objects, o) <==> o in objects && GivenThrough(s, u, o, c)
  {
    AddedHolds(s, u, groups, o, c);
    forall r ensures r in RowsOf(s.rows, o) <==> r in s.rows && r.obj == o { RowsOfIff(s.rows, o, r); }
    forall g ensures Holds(s, u.member, g, c) <==> GivenAt(s, u, g, c) { HoldsIff(s, u, g, c); }
  }

  /** The object is in a group where the user is given the codename. */
  ghost predicate GivenThrough(s: Store, u: User, o: Object, c: string) {
    exists r :: r in s.rows && r.obj == o && GivenAt(s, u, r.group, c)
  }

  predicate TwoRows(rows: seq<ObjectRow>, o: Object) {
    exists i, j :: 0 <= i < j < |rows| && rows[i].obj == o && rows[j].obj == o
  }

  predicate TwoDots(p: string) { exists i, j :: 0 <= i < j < |p| && p[i] == '.' && p[j] == '.' }

  lemma {:induction false} RowsOfCount(rows: seq<ObjectRow>, o: Object)
    ensures |RowsOf(rows, o)| > 0 <==> exists i :: 0 <= i < |rows| && rows[i].obj == o
    ensures |RowsOf(rows, o)| > 1 <==> TwoRows(rows, o)
  {
    if rows != [] {
      var n := |rows| - 1;
      RowsOfCount(rows[..n], o);
      if i :| 0 <= i < n && rows[i].obj == o { assert rows[..n][i].obj == o; }
      if i, j :| 0 <= i < j < n && rows[i].obj == o && rows[j].obj == o {
        assert rows[..n][i].obj == o && rows[..n][j].obj == o;
      }
    }
  }

  lemma {:induction false} SplitDots(p: string)
    ensures |Split(p)| > 2 <==> TwoDots(p)
  {
    if p != [] {
      var q := p[1..];
      SplitDots(q);
      SplitParts(q);
      if i, j :| 0 <= i < j < |q| && q[i] == '.' && q[j] == '.' { assert p[i + 1] == '.' && p[j + 1] == '.'; }
      if i, j :| 0 <= i < j < |p| && p[i] == '.' && p[j] == '.' {
        assert q[j - 1] == '.';
        if i > 0 { assert q[i - 1] == '.'; }
      }
      if p[0] == '.' && '.' in q {
        var j :| 0 <= j < |q| && q[j] == '.';
        assert p[j + 1] == '.';
      }
    }
  }

  /** The check of one object, in rows: a name with two dots raises, so does an object with two
      groups; otherwise the user needs a current organization, and the part after the dot from
      a role at or above the group of the object. */
  lemma {:induction false} HasPermIff(s: Store, u: User, p: string, o: Object)
    ensures HasPerm(s, u, p, o).BadName? <==> TwoDots(p)
    ensures HasPerm(s, u, p, o).MultipleObjects? <==> !TwoDots(p) && TwoRows(s.rows, o)
    ensures HasPerm(s, u, p, o) == Found(true)
            <==> !TwoDots(p) && !TwoRows(s.rows, o) && u.organization.Some? && GivenThrough(s, u, o, Codename(p))
  {
    SplitParts(p);
    SplitDots(p);
    RowsOfCount(s.rows, o);
    var rows := RowsOf(s.rows, o);
    forall r ensures r in rows <==> r in s.rows && r.obj == o { RowsOfIff(s.rows, o, r); }
    if |rows| == 1 {
      assert forall r :: r in rows <==> r == rows[0];
      RolesHold(s, u.member, rows[0].group, Codename(p));
      HoldsIff(s, u, rows[0].group, Codename(p));
    }
  }

  lemma {:induction false} AfterFirstDot(a: string, b: string)
    requires '.' !in a
    ensures Codename(a + "." + b) == b && Codename(a) == a
  {
    var p := a + "." + b;
    assert p[|a|] == '.';
    if a == [] {
      assert p[1..] == b;
    } else {
      AfterFirstDot(a[1..], b);
      assert p[1..] == a[1..] + "." + b;
    }
  }

  lemma {:induction false} DottedParts()
    ensures Codename("a.b.c") == "b.c" && '.' in "a.b.c" && |Split("a.b.c")| == 3
  {
    assert "a.b.c"[1..] == ".b.c" && ".b.c"[1..] == "b.c" && "b.c"[1..] == ".c" && ".c"[1..] == "c" && "c"[1..] == "";
    assert ['c'] + "" == "c" && ['b'] + "" == "b";
    assert Split("") == [""] && Split("c") == ["c"];
    assert Split(".c") == ["", "c"];
    assert Split("b.c") == ["b", "c"];
    assert Split(".b.c") == ["", "b", "c"];
  }

  /** One group with one member, whose role has a codename with a dot in it. */
  const DOTTED := Store([Group(0, [])], [Membership(0, 0, [0])], map[0 := ["b.c"]], [ObjectRow(0, 0)])

  lemma {:induction false} DottedHeld()
    ensures Holds(DOTTED, 0, 0, "b.c")
  {
    var m := DOTTED.memberships[0];
    assert 0 in m.roles && "b.c" in CodenamesOf(DOTTED, 0);
    assert m in DOTTED.memberships && Gives(DOTTED, 0, Ancestors(DOTTED.forest, 0), m, "b.c");
  }

  lemma {:induction false} DottedRow()
    ensures RowsOf(DOTTED.rows, 0) == [ObjectRow(0, 0)]
  {
    assert DOTTED.rows[..0] == [];
  }

  /** A name with two dots: the filter takes all after the first as the codename,
      the check fails to unpack it. */
  lemma {:induction false} DottedName()
    ensures RowsOf(DOTTED.rows, 0) == [ObjectRow(0, 0)] && 0 in Descendants(DOTTED.forest, 0)
    ensures Selected(DOTTED, User(0, Some(0)), Profile, ["a.b.c"], 0)
    ensures HasPerm(DOTTED, User(0, Some(0)), "a.b.c", 0) == BadName
  {
    DottedHeld();
    DottedRow();
    DottedParts();
    assert RowsOf(DOTTED.rows, 0)[0].group == 0 && Admitted(DOTTED, User(0, Some(0)), Profile, ["a.b.c"], 0);
  }
}

/** The `roles` table and `Role.insert_roles`, the idempotent
    upsert-by-name that seeds the User, Moderator and Administrator roles.
    The registry is the table as a sequence in the store's row order. */
module Roles {
  import opened Base
  import Permission

  /** A row of `roles`: `permissions` is the mask every holder of the role
      gets, `isDefault` marks the role new users fall back to. */
  datatype Role = Role(id: int, name: string, isDefault: bool, permissions: nat)

  /** One entry of the table `insert_roles` writes: name, mask, default flag. */
  datatype Seed = Seed(name: string, permissions: nat, isDefault: bool)

  /** The seed table, in the order the source's dict literal lists it. */
  const Seeds: seq<Seed> := [
    Seed("User", Permission.UserMask, true),
    Seed("Moderator", Permission.ModeratorMask, false),
    Seed("Administrator", Permission.AdministratorMask, false)
  ]

  function NameIs(n: string): Role -> bool {
    (r: Role) => r.name == n
  }

  function IdIs(id: int): Role -> bool {
    (r: Role) => r.id == id
  }

  /** `Role.query.filter_by(name=n).first()` as a position in the registry. */
  function IndexOfName(roles: seq<Role>, n: string): Option<nat> {
    Find(roles, NameIs(n))
  }

  /** The role a foreign key `role_id` points at. */
  function RoleWithId(roles: seq<Role>, id: int): Option<Role> {
    match Find(roles, IdIs(id))
    case Some(k) => Some(roles[k])
    case None => None
  }

  function NamesOf(seeds: seq<Seed>): set<string> {
    set s | s in seeds :: s.name
  }

  /** The unique constraint on `Role.name`. */
  ghost predicate NamesUnique(roles: seq<Role>) {
    forall i, j :: 0 <= i < j < |roles| ==> roles[i].name != roles[j].name
  }

  /** The primary key of `roles`. */
  ghost predicate IdsUnique(roles: seq<Role>) {
    forall i, j :: 0 <= i < j < |roles| ==> roles[i].id != roles[j].id
  }

  ghost predicate SeedNamesDistinct(seeds: seq<Seed>) {
    forall i, j :: 0 <= i < j < |seeds| ==> seeds[i].name != seeds[j].name
  }

  /** The role `filter_by(name=s.name).first()` finds carries the seed's mask
      and default flag. */
  ghost predicate Seeded(roles: seq<Role>, s: Seed) {
    match IndexOfName(roles, s.name)
    case Some(k) => roles[k].permissions == s.permissions && roles[k].isDefault == s.isDefault
    case None => false
  }

  /** The id the store gives a newly inserted row: the larger of 1 and one
      more than the largest id in the table. */
  function FreshId(roles: seq<Role>): (id: int)
    ensures forall i :: 0 <= i < |roles| ==> roles[i].id < id
  {
    if |roles| == 0 then 1
    else
      var rest := FreshId(roles[1..]);
      assert forall i :: 1 <= i < |roles| ==> roles[i] == roles[1..][i - 1];
      if roles[0].id < rest then rest else roles[0].id + 1
  }

  /** One iteration of the loop in `insert_roles`: find the role by name or
      create it, then overwrite its mask and default flag. */
  function Upsert(roles: seq<Role>, s: Seed): (out: seq<Role>)
    ensures Seeded(out, s)
    ensures Seeded(roles, s) ==> out == roles
    ensures |out| == if IndexOfName(roles, s.name).Some? then |roles| else |roles| + 1
    ensures forall i :: 0 <= i < |roles| ==> out[i].id == roles[i].id && out[i].name == roles[i].name
    ensures forall i :: 0 <= i < |roles| && roles[i].name != s.name ==> out[i] == roles[i]
    ensures forall i :: |roles| <= i < |out| ==> out[i].name == s.name
  {
    match IndexOfName(roles, s.name)
    case Some(k) =>
      var out := roles[k := roles[k].(permissions := s.permissions, isDefault := s.isDefault)];
      FindSamePattern(roles, out, NameIs(s.name));
      out
    case None =>
      var out := roles + [Role(FreshId(roles), s.name, s.isDefault, s.permissions)];
      FindAppend(roles, out[|roles|], NameIs(s.name));
      out
  }

  /** Upserting one seed leaves the lookup of every other name as it was. */
  lemma UpsertKeepsOtherSeeds(roles: seq<Role>, s: Seed, t: Seed)
    requires s.name != t.name
    ensures Seeded(Upsert(roles, s), t) == Seeded(roles, t)
  {
  }

  /** Upserting keeps the name and id constraints of the table. */
  lemma UpsertKeepsKeys(roles: seq<Role>, s: Seed)
    ensures NamesUnique(roles) ==> NamesUnique(Upsert(roles, s))
    ensures IdsUnique(roles) ==> IdsUnique(Upsert(roles, s))
  {
  }

  /** The whole loop of `insert_roles`: one upsert per seed, in order. */
  function UpsertAll(roles: seq<Role>, seeds: seq<Seed>): (out: seq<Role>)
    ensures |roles| <= |out|
    ensures forall i :: 0 <= i < |roles| ==> out[i].id == roles[i].id && out[i].name == roles[i].name
    ensures forall i :: 0 <= i < |roles| && roles[i].name !in NamesOf(seeds) ==> out[i] == roles[i]
    ensures forall i :: |roles| <= i < |out| ==> out[i].name in NamesOf(seeds)
    decreases |seeds|
  {
    if |seeds| == 0 then roles
    else
      assert NamesOf(seeds) == {seeds[0].name} + NamesOf(seeds[1..]);
      UpsertAll(Upsert(roles, seeds[0]), seeds[1..])
  }

  /** `Role.insert_roles()` applied to the registry: afterwards every seed
      is in place, the rows that were there keep their ids and names, and
      the table's name and id constraints still hold. */
  function InsertRoles(roles: seq<Role>): (out: seq<Role>)
    ensures forall s :: s in Seeds ==> Seeded(out, s)
    ensures |roles| <= |out|
    ensures forall i :: 0 <= i < |roles| ==> out[i].id == roles[i].id && out[i].name == roles[i].name
    ensures NamesUnique(roles) ==> NamesUnique(out)
    ensures IdsUnique(roles) ==> IdsUnique(out)
  {
    SeedsFacts();
    UpsertAllSeedsEach(roles, Seeds);
    UpsertAllKeepsKeys(roles, Seeds);
    UpsertAll(roles, Seeds)
  }

  /** Later upserts of other names keep an earlier seed in place. */
  lemma UpsertAllKeepsOtherSeeds(roles: seq<Role>, seeds: seq<Seed>, t: Seed)
    requires t.name !in NamesOf(seeds)
    ensures Seeded(UpsertAll(roles, seeds), t) == Seeded(roles, t)
  {
  }

  /** After the loop every seed is in place. */
  lemma {:induction false} UpsertAllSeedsEach(roles: seq<Role>, seeds: seq<Seed>)
    requires SeedNamesDistinct(seeds)
    ensures forall s :: s in seeds ==> Seeded(UpsertAll(roles, seeds), s)
    decreases |seeds|
  {
    if |seeds| > 0 {
      var next := Upsert(roles, seeds[0]);
      assert seeds[0].name !in NamesOf(seeds[1..]) by {
        forall s | s in seeds[1..] ensures s.name != seeds[0].name {
          var j :| 0 <= j < |seeds[1..]| && seeds[1..][j] == s;
          assert seeds[j + 1] == s;
        }
      }
      UpsertAllKeepsOtherSeeds(next, seeds[1..], seeds[0]);
      UpsertAllSeedsEach(next, seeds[1..]);
      forall s | s in seeds ensures Seeded(UpsertAll(roles, seeds), s) {
        if s != seeds[0] {
          assert s in seeds[1..];
        }
      }
    }
  }

  /** On a registry where every seed is already in place the loop changes
      nothing. */
  lemma {:induction false} UpsertAllNoop(roles: seq<Role>, seeds: seq<Seed>)
    requires forall s :: s in seeds ==> Seeded(roles, s)
    ensures UpsertAll(roles, seeds) == roles
    decreases |seeds|
  {
    if |seeds| > 0 {
      assert seeds[0] in seeds;
      assert Upsert(roles, seeds[0]) == roles;
      forall s | s in seeds[1..] ensures Seeded(roles, s) {
        assert s in seeds;
      }
      UpsertAllNoop(roles, seeds[1..]);
    }
  }

  /** The loop keeps the unique constraints of the table. */
  lemma {:induction false} UpsertAllKeepsKeys(roles: seq<Role>, seeds: seq<Seed>)
    ensures NamesUnique(roles) ==> NamesUnique(UpsertAll(roles, seeds))
    ensures IdsUnique(roles) ==> IdsUnique(UpsertAll(roles, seeds))
    decreases |seeds|
  {
    if |seeds| > 0 {
      UpsertKeepsKeys(roles, seeds[0]);
      UpsertAllKeepsKeys(Upsert(roles, seeds[0]), seeds[1..]);
    }
  }

  lemma SeedsFacts()
    ensures SeedNamesDistinct(Seeds)
    ensures NamesOf(Seeds) == {"User", "Moderator", "Administrator"}
  {
  }

  /** Running `insert_roles` twice leaves the registry as running it once. */
  lemma InsertRolesIdempotent(roles: seq<Role>)
    ensures InsertRoles(InsertRoles(roles)) == InsertRoles(roles)
  {
    SeedsFacts();
    UpsertAllSeedsEach(roles, Seeds);
    UpsertAllNoop(InsertRoles(roles), Seeds);
  }

  /** The registry holds exactly one role named `n`, with this mask and
      default flag. */
  ghost predicate HoldsOnce(roles: seq<Role>, n: string, mask: nat, isDefault: bool) {
    exists k :: 0 <= k < |roles| && roles[k].name == n && roles[k].permissions == mask
      && roles[k].isDefault == isDefault
      && forall j :: 0 <= j < |roles| && roles[j].name == n ==> j == k
  }

  /** In a registry with unique names, a seeded name is held exactly once. */
  lemma SeededHoldsOnce(roles: seq<Role>, s: Seed)
    requires NamesUnique(roles)
    requires Seeded(roles, s)
    ensures HoldsOnce(roles, s.name, s.permissions, s.isDefault)
  {
  }

  /** What `insert_roles` leaves behind, starting from any registry that
      respects the unique name constraint: User (0x07, default), Moderator
      (0x0f) and Administrator (0xff) exactly once each; every other role
      untouched and in place; every added row one of the three; and the
      name and id constraints kept. */
  lemma InsertRolesResult(roles: seq<Role>)
    requires NamesUnique(roles)
    ensures HoldsOnce(InsertRoles(roles), "User", 0x07, true)
    ensures HoldsOnce(InsertRoles(roles), "Moderator", 0x0f, false)
    ensures HoldsOnce(InsertRoles(roles), "Administrator", 0xff, false)
    ensures forall i :: 0 <= i < |roles| && roles[i].name !in {"User", "Moderator", "Administrator"}
              ==> InsertRoles(roles)[i] == roles[i]
    ensures forall i :: |roles| <= i < |InsertRoles(roles)|
              ==> InsertRoles(roles)[i].name in {"User", "Moderator", "Administrator"}
    ensures NamesUnique(InsertRoles(roles))
    ensures IdsUnique(roles) ==> IdsUnique(InsertRoles(roles))
  {
    var out := InsertRoles(roles);
    SeedsFacts();
    Permission.SeedMaskValues();
    UpsertAllSeedsEach(roles, Seeds);
    UpsertAllKeepsKeys(roles, Seeds);
    assert Seeds[0] in Seeds && Seeds[1] in Seeds && Seeds[2] in Seeds;
    SeededHoldsOnce(out, Seeds[0]);
    SeededHoldsOnce(out, Seeds[1]);
    SeededHoldsOnce(out, Seeds[2]);
  }

  /** The registry `insert_roles` builds on a fresh database. */
  const FreshRegistry: seq<Role> := [Role(1, "User", true, 0x07), Role(2, "Moderator", false, 0x0f),
                                     Role(3, "Administrator", false, 0xff)]

  /** The first two upserts on an empty table create User and Moderator. */
  lemma FirstTwoSeeds()
    ensures Upsert(Upsert([], Seeds[0]), Seeds[1]) == [Role(1, "User", true, 0x07), Role(2, "Moderator", false, 0x0f)]
  {
    Permission.SeedMaskValues();
    var r0 := Upsert([], Seeds[0]);
    assert r0 == [Role(1, "User", true, 0x07)];
    assert IndexOfName(r0, "Moderator").None? by {
      assert !NameIs("Moderator")(r0[0]);
    }
    assert FreshId(r0) == 2 by {
      assert r0[1..] == [];
    }
  }

  /** On a fresh database, `insert_roles` creates exactly the three seed
      rows, with ids 1, 2 and 3. */
  lemma InsertRolesOnEmpty()
    ensures InsertRoles([]) == FreshRegistry
  {
    Permission.SeedMaskValues();
    FirstTwoSeeds();
    var r1 := Upsert(Upsert([], Seeds[0]), Seeds[1]);
    assert IndexOfName(r1, "Administrator").None? by {
      assert !NameIs("Administrator")(r1[0]) && !NameIs("Administrator")(r1[1]);
    }
    assert FreshId(r1) == 3 by {
      assert r1[1..][1..] == [];
    }
    var r2 := Upsert(r1, Seeds[2]);
    assert r2 == FreshRegistry;
    calc {
      InsertRoles([]);
      UpsertAll(Upsert([], Seeds[0]), Seeds[1..]);
      UpsertAll(r1, Seeds[1..][1..]);
      UpsertAll(r2, Seeds[1..][1..][1..]);
      { assert Seeds[1..][1..][1..] == []; }
      r2;
    }
  }
}

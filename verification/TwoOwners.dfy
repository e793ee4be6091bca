/** A small deployment for concrete runs: an organisation with one project, and two owners on it. */
module TwoOwners {
  import opened Prelude
  import opened Roles
  import opened Access
  import opened ProjectAccess
  import opened Protection

  const CAPABILITIES: set<string> := {
    "org.manage", "project.read", "project.accounts.create", "project.accounts.update", "project.accounts.delete",
    "project.protection.approve", "project.protection.override"}

  function OwnerProfile(): Profile {
    Profile(OWNER, 100, Caps(CAPABILITIES), None)
  }

  function OwnersDb(meta: Meta, protection: seq<string>): Db {
    Db([SeedRole(OWNER, meta, 100, true, CAPABILITIES, None)], map[], [Member(1, 1, OWNER, false), Member(1, 2, OWNER, false)], [],
       map[1 := Project(1, 1, false, false, protection)], [], [], [])
  }

  lemma FindInTwo<T>(s: seq<T>)
    requires |s| == 2
    ensures forall p: T -> bool :: Find(s, p) == if p(s[0]) then Some(s[0]) else if p(s[1]) then Some(s[1]) else None
  {
    forall p: T -> bool
      ensures Find(s, p) == if p(s[0]) then Some(s[0]) else if p(s[1]) then Some(s[1]) else None
    {
      assert s[1..] == [s[1]] && [s[1]][1..] == [];
      assert Find(s[1..], p) == if p(s[1]) then Some(s[1]) else None;
    }
  }

  lemma OwnersAreMembers(meta: Meta, protection: seq<string>, user: Id)
    requires user == 1 || user == 2
    ensures Membership(OwnersDb(meta, protection), 1, user) == ActiveMembership(OwnersDb(meta, protection), 1, user) ==
              Some(Member(1, user, OWNER, false))
    ensures ProfileOf(OwnersDb(meta, protection), OWNER) == OwnerProfile()
  {
    var db := OwnersDb(meta, protection);
    FindInTwo(db.members);
    assert SeedFor(db.release, OWNER) == Some(db.release[0]);
  }

  /** An owner may do everything that matters here, without any scope. */
  lemma OwnerMay(meta: Meta, protection: seq<string>, user: Id, capability: string)
    requires (user == 1 || user == 2) && capability in CAPABILITIES
    ensures var db := OwnersDb(meta, protection);
            && Check(db, user, 1, capability, 0) == Some(Ok(ProjectAuth(OWNER, false, OwnerProfile(), None)))
            && CanOverride(db, 1, user)
            && forall environments, grant ::
                 ResolveResourceAccess(db, user, 1, 1, environments, "project.accounts.update", grant) == Write
  {
    OwnersAreMembers(meta, protection, user);
    hide Membership, ActiveMembership, ProfileOf;
  }
}

/** Role profiles and the capability registry: panel edits, the merging seed, and profile resolution. */
module Roles {
  import opened Prelude

  const OWNER := "owner"
  const MIN_CUSTOM_LEVEL := 1
  const MAX_CUSTOM_LEVEL := 99
  const SYSTEM_SLUGS: set<string> := {"owner", "project_manager", "team_lead", "developer"}
  const LEGACY_SLUGS: set<string> := {"admin", "member"}
  const VALID_ENVIRONMENTS: set<string> := {"development", "staging", "production"}

  type Capabilities = map<string, bool>

  datatype Meta = Meta(displayName: string, description: string, color: string)

  datatype Profile = Profile(slug: string, level: int, capabilities: Capabilities, environments: Option<seq<string>>)

  predicate Grants(capabilities: Capabilities, key: string) {
    key in capabilities && capabilities[key]
  }

  predicate Has(p: Profile, key: string) {
    Grants(p.capabilities, key)
  }

  function Caps(keys: set<string>): Capabilities {
    map k | k in keys :: true
  }

  /** An explicit member list wins over the role default; roles that are not scopeable ignore both. */
  function EffectiveEnvironments(p: Profile, member: Option<seq<string>>): Option<seq<string>> {
    if !Has(p, "access.env_scoped") then None
    else if member.Some? then member
    else p.environments
  }

  function NormalizeRole(role: string): string {
    if role == "admin" then OWNER
    else if role == "member" || role == "" then "developer"
    else role
  }

  // ----- what a deployed version of the code defines

  datatype SeedRole = SeedRole(
    slug: string, meta: Meta, level: int, isSystem: bool, granted: set<string>, environments: Option<seq<string>>)

  /** The code's role table, in seeding order. */
  type Release = seq<SeedRole>

  function SeedFor(release: Release, slug: string): Option<SeedRole> {
    if release == [] then None
    else if release[0].slug == slug then Some(release[0])
    else SeedFor(release[1..], slug)
  }

  ghost predicate SoundSeed(s: SeedRole, catalog: set<string>) {
    && s.granted <= catalog
    && (s.isSystem <==> s.slug in SYSTEM_SLUGS)
    && s.slug !in LEGACY_SLUGS && s.slug != ""
    && (if s.slug == OWNER then s.level == 100 else s.level < 100)
  }

  ghost predicate SoundRelease(release: Release, catalog: set<string>) {
    && (forall s <- release :: SoundSeed(s, catalog))
    && (forall i, j :: 0 <= i < j < |release| ==> release[i].slug != release[j].slug)
    && SeedFor(release, OWNER).Some?
  }

  // ----- the registry

  datatype Row = Row(
    slug: string, meta: Meta, level: int, isSystem: bool, isActive: bool,
    capabilities: Capabilities, environments: Option<seq<string>>)

  /** Rows by slug: no edit changes a slug and both kinds of insert look it up first. */
  type Registry = map<string, Row>

  datatype Refusal =
    | BadSlug | ReservedSlug | BadLevel | SlugTaken | UnknownCapability | BadEnvironments | NotFound
    | SystemIdentity | OwnerLocked | SystemManage | SystemActive | RoleInUse

  datatype MetaEdit = MetaEdit(meta: Option<Meta>, level: Option<int>, environments: Option<Option<seq<string>>>)

  datatype Event =
    | Create(slug: string, meta: Meta, level: int, capabilities: Capabilities, environments: Option<seq<string>>)
    | EditMeta(slug: string, edit: MetaEdit)
    | Toggle(slug: string, key: string, granted: bool)
    | Activate(slug: string, isActive: bool, holders: nat)
    | Seed(release: Release)

  predicate SlugMatches(slug: string) {
    && 2 <= |slug| <= 31 && 'a' <= slug[0] <= 'z'
    && forall i :: 0 <= i < |slug| ==> 'a' <= slug[i] <= 'z' || '0' <= slug[i] <= '9' || slug[i] == '_'
  }

  predicate LevelAllowed(level: int) {
    MIN_CUSTOM_LEVEL <= level <= MAX_CUSTOM_LEVEL
  }

  predicate EnvironmentsAllowed(environments: seq<string>) {
    && environments != []
    && (forall i, j :: 0 <= i < j < |environments| ==> environments[i] != environments[j])
    && forall e <- environments :: e in VALID_ENVIRONMENTS
  }

  function Merged(catalog: set<string>, defaults: Capabilities, stored: Capabilities): Capabilities {
    defaults + map k | k in stored && k in catalog :: stored[k]
  }

  /** Code defaults fill the keys the stored row has never seen; keys no longer in the catalog go. */
  method MergeCapabilities(catalog: set<string>, defaults: Capabilities, stored: Capabilities) returns (merged: Capabilities)
    ensures merged == Merged(catalog, defaults, stored)
  {
    merged := defaults;
    var entries := stored.Keys;
    while entries != {}
      invariant entries <= stored.Keys
      invariant MergedExcept(catalog, defaults, stored, entries, merged)
      decreases |entries|
    {
      var key :| key in entries;
      MergeStep(catalog, defaults, stored, entries, merged, key);
      entries := entries - {key};
      if key in catalog {
        merged := merged[key := stored[key]];
      }
    }
    MergeDone(catalog, defaults, stored, merged);
  }

  /** `merged` holds the outcome for every key outside `left`, and the default for those in it. */
  ghost predicate MergedExcept(catalog: set<string>, defaults: Capabilities, stored: Capabilities, left: set<string>, merged: Capabilities) {
    forall k :: Outcome(catalog, defaults, stored, left, k) == Value(merged, k)
  }

  function Value(capabilities: Capabilities, key: string): Option<bool> {
    if key in capabilities then Some(capabilities[key]) else None
  }

  function Outcome(catalog: set<string>, defaults: Capabilities, stored: Capabilities, left: set<string>, key: string): Option<bool> {
    if key in stored && key in catalog && key !in left then Some(stored[key]) else Value(defaults, key)
  }

  lemma MergeStep(catalog: set<string>, defaults: Capabilities, stored: Capabilities, left: set<string>, merged: Capabilities, key: string)
    requires key in left && left <= stored.Keys && MergedExcept(catalog, defaults, stored, left, merged)
    ensures MergedExcept(catalog, defaults, stored, left - {key}, if key in catalog then merged[key := stored[key]] else merged)
  {
    var next := if key in catalog then merged[key := stored[key]] else merged;
    forall k
      ensures Outcome(catalog, defaults, stored, left - {key}, k) == Value(next, k)
    {
      assert Outcome(catalog, defaults, stored, left, k) == Value(merged, k);
    }
  }

  lemma MergeDone(catalog: set<string>, defaults: Capabilities, stored: Capabilities, merged: Capabilities)
    requires MergedExcept(catalog, defaults, stored, {}, merged)
    ensures merged == Merged(catalog, defaults, stored)
  {
    var expected := Merged(catalog, defaults, stored);
    assert forall k :: Value(expected, k) == Outcome(catalog, defaults, stored, {}, k);
    assert forall k :: Value(expected, k) == Value(merged, k);
    assert forall k :: k in merged <==> Value(merged, k).Some?;
    assert forall k :: k in expected <==> Value(expected, k).Some?;
  }

  function SeededRow(catalog: set<string>, s: SeedRole, existing: Option<Row>): Row {
    match existing
    case None => Row(s.slug, s.meta, s.level, s.isSystem, true, Caps(s.granted), s.environments)
    case Some(row) =>
      if s.isSystem then
        row.(meta := s.meta, level := s.level, isSystem := true,
             capabilities := if s.slug == OWNER then Caps(s.granted) else Merged(catalog, Caps(s.granted), row.capabilities))
      else
        row.(capabilities := Merged(catalog, Caps(s.granted), row.capabilities))
  }

  function Lookup(rows: Registry, slug: string): Option<Row> {
    if slug in rows then Some(rows[slug]) else None
  }

  function SeedAll(catalog: set<string>, rows: Registry, seeds: seq<SeedRole>): Registry
    decreases |seeds|
  {
    if seeds == [] then rows
    else
      var s := seeds[0];
      SeedAll(catalog, rows[s.slug := SeededRow(catalog, s, Lookup(rows, s.slug))], seeds[1..])
  }

  function Apply(catalog: set<string>, rows: Registry, ev: Event): Result<Registry, Refusal> {
    match ev
    case Create(slug, meta, level, capabilities, environments) =>
      if !SlugMatches(slug) then Err(BadSlug)
      else if slug in SYSTEM_SLUGS + LEGACY_SLUGS then Err(ReservedSlug)
      else if !LevelAllowed(level) then Err(BadLevel)
      else if slug in rows then Err(SlugTaken)
      else if !(capabilities.Keys <= catalog) then Err(UnknownCapability)
      else if environments.Some? && !EnvironmentsAllowed(environments.value) then Err(BadEnvironments)
      else Ok(rows[slug := Row(slug, meta, level, false, true, capabilities, environments)])
    case EditMeta(slug, edit) =>
      if slug !in rows then Err(NotFound)
      else if rows[slug].isSystem && (edit.meta.Some? || edit.level.Some?) then Err(SystemIdentity)
      else if edit.level.Some? && !LevelAllowed(edit.level.value) then Err(BadLevel)
      else if edit.environments.Some? && edit.environments.value.Some? && !EnvironmentsAllowed(edit.environments.value.value) then
        Err(BadEnvironments)
      else
        var row := rows[slug];
        Ok(rows[slug := row.(
             meta := if edit.meta.Some? then edit.meta.value else row.meta,
             level := if edit.level.Some? then edit.level.value else row.level,
             environments := if edit.environments.Some? then edit.environments.value else row.environments)])
    case Toggle(slug, key, granted) =>
      if slug !in rows then Err(NotFound)
      else if slug == OWNER then Err(OwnerLocked)
      else if key == "org.manage" && granted && rows[slug].isSystem then Err(SystemManage)
      else if key !in catalog then Err(UnknownCapability)
      else Ok(rows[slug := rows[slug].(capabilities := rows[slug].capabilities[key := granted])])
    case Activate(slug, isActive, holders) =>
      if slug !in rows then Err(NotFound)
      else if rows[slug].isSystem then Err(SystemActive)
      else if !isActive && holders > 0 then Err(RoleInUse)
      else Ok(rows[slug := rows[slug].(isActive := isActive)])
    case Seed(release) => Ok(SeedAll(catalog, rows, release))
  }

  // ----- the admin mutations and the seed, on the stored table

  class RoleRegistry {
    const catalog: set<string>
    var rows: Registry

    constructor (catalog: set<string>)
      ensures this.catalog == catalog && rows == map[]
    {
      this.catalog := catalog;
      rows := map[];
    }

    method CreateRole(slug: string, meta: Meta, level: int, capabilities: Capabilities, environments: Option<seq<string>>)
      returns (refusal: Option<Refusal>)
      modifies this
      ensures match Apply(catalog, old(rows), Create(slug, meta, level, capabilities, environments))
              case Ok(after) => refusal == None && rows == after
              case Err(e) => refusal == Some(e) && rows == old(rows)
    {
      if !SlugMatches(slug) {
        return Some(BadSlug);
      }
      if slug in SYSTEM_SLUGS || slug in LEGACY_SLUGS {
        return Some(ReservedSlug);
      }
      if level < MIN_CUSTOM_LEVEL || level > MAX_CUSTOM_LEVEL {
        return Some(BadLevel);
      }
      if slug in rows {
        return Some(SlugTaken);
      }
      if exists k <- capabilities.Keys :: k !in catalog {
        return Some(UnknownCapability);
      }
      if environments.Some? && !EnvironmentsAllowed(environments.value) {
        return Some(BadEnvironments);
      }
      rows := rows[slug := Row(slug, meta, level, false, true, capabilities, environments)];
      refusal := None;
    }

    method UpdateRoleMeta(slug: string, edit: MetaEdit) returns (refusal: Option<Refusal>)
      modifies this
      ensures match Apply(catalog, old(rows), EditMeta(slug, edit))
              case Ok(after) => refusal == None && rows == after
              case Err(e) => refusal == Some(e) && rows == old(rows)
    {
      if slug !in rows {
        return Some(NotFound);
      }
      var row := rows[slug];
      if row.isSystem && (edit.meta.Some? || edit.level.Some?) {
        return Some(SystemIdentity);
      }
      if edit.level.Some? && (edit.level.value < MIN_CUSTOM_LEVEL || edit.level.value > MAX_CUSTOM_LEVEL) {
        return Some(BadLevel);
      }
      if edit.environments.Some? && edit.environments.value.Some? && !EnvironmentsAllowed(edit.environments.value.value) {
        return Some(BadEnvironments);
      }
      if edit.meta.Some? {
        row := row.(meta := edit.meta.value);
      }
      if edit.level.Some? {
        row := row.(level := edit.level.value);
      }
      if edit.environments.Some? {
        row := row.(environments := edit.environments.value);
      }
      rows := rows[slug := row];
      refusal := None;
    }

    method UpdateRoleCapabilities(slug: string, key: string, granted: bool) returns (refusal: Option<Refusal>)
      modifies this
      ensures match Apply(catalog, old(rows), Toggle(slug, key, granted))
              case Ok(after) => refusal == None && rows == after
              case Err(e) => refusal == Some(e) && rows == old(rows)
    {
      if slug !in rows {
        return Some(NotFound);
      }
      var row := rows[slug];
      if slug == OWNER {
        return Some(OwnerLocked);
      }
      if key == "org.manage" && granted && row.isSystem {
        return Some(SystemManage);
      }
      if key !in catalog {
        return Some(UnknownCapability);
      }
      rows := rows[slug := row.(capabilities := row.capabilities[key := granted])];
      refusal := None;
    }

    /** `holders` counts the members and pending invitations that still name the role. */
    method SetRoleActive(slug: string, isActive: bool, holders: nat) returns (refusal: Option<Refusal>)
      modifies this
      ensures match Apply(catalog, old(rows), Activate(slug, isActive, holders))
              case Ok(after) => refusal == None && rows == after
              case Err(e) => refusal == Some(e) && rows == old(rows)
    {
      if slug !in rows {
        return Some(NotFound);
      }
      if rows[slug].isSystem {
        return Some(SystemActive);
      }
      if !isActive && holders > 0 {
        return Some(RoleInUse);
      }
      rows := rows[slug := rows[slug].(isActive := isActive)];
      refusal := None;
    }

    method SeedRoles(release: Release) returns (created: nat, updated: nat, skipped: nat)
      modifies this
      ensures Apply(catalog, old(rows), Seed(release)) == Ok(rows)
      ensures created + updated + skipped == |release|
      ensures created == updated == 0 ==> rows == old(rows)
    {
      created, updated, skipped := 0, 0, 0;
      for i := 0 to |release|
        invariant SeedAll(catalog, rows, release[i..]) == SeedAll(catalog, old(rows), release)
        invariant created + updated + skipped == i
        invariant created == updated == 0 ==> rows == old(rows)
      {
        var s := release[i];
        assert release[i..][0] == s && release[i..][1..] == release[i + 1..];
        ghost var before := rows;
        if s.slug in rows {
          var existing := rows[s.slug];
          var row := existing;
          if s.isSystem {
            var capabilities := Caps(s.granted);
            if s.slug != OWNER {
              capabilities := MergeCapabilities(catalog, Caps(s.granted), existing.capabilities);
            }
            row := row.(meta := s.meta, level := s.level, isSystem := true, capabilities := capabilities);
          } else {
            var capabilities := MergeCapabilities(catalog, Caps(s.granted), existing.capabilities);
            row := row.(capabilities := capabilities);
          }
          if row != existing {
            rows := rows[s.slug := row];
            updated := updated + 1;
          } else {
            skipped := skipped + 1;
          }
        } else {
          rows := rows[s.slug := Row(s.slug, s.meta, s.level, s.isSystem, true, Caps(s.granted), s.environments)];
          created := created + 1;
        }
        assert rows == before[s.slug := SeededRow(catalog, s, Lookup(before, s.slug))];
      }
      assert release[|release|..] == [];
    }
  }

  // ----- whole runs

  function Prior(evs: seq<Event>): seq<Event>
    requires evs != []
  {
    evs[..|evs| - 1]
  }

  function Last(evs: seq<Event>): Event
    requires evs != []
  {
    evs[|evs| - 1]
  }

  /** The registry after `evs`, a refused event changing nothing. */
  function Run(catalog: set<string>, evs: seq<Event>): Registry {
    if evs == [] then map[]
    else
      var rows := Run(catalog, Prior(evs));
      match Apply(catalog, rows, Last(evs))
      case Ok(after) => after
      case Err(_) => rows
  }

  ghost predicate SoundRun(catalog: set<string>, evs: seq<Event>) {
    forall ev <- evs :: ev.Seed? ==> SoundRelease(ev.release, catalog)
  }

  /** What an accepted panel edit says outright about one capability of one role. */
  function Said(catalog: set<string>, rows: Registry, ev: Event, slug: string, key: string): Option<bool> {
    if Apply(catalog, rows, ev).Err? then None
    else match ev
      case Create(named, _, _, capabilities, _) =>
        if named == slug && key in capabilities then Some(capabilities[key]) else None
      case Toggle(named, toggled, granted) => if named == slug && toggled == key then Some(granted) else None
      case _ => None
  }

  /** The last explicit panel choice of the run, if any. */
  function Chosen(catalog: set<string>, evs: seq<Event>, slug: string, key: string): Option<bool> {
    if evs == [] then None
    else
      var said := Said(catalog, Run(catalog, Prior(evs)), Last(evs), slug, key);
      if said.Some? then said else Chosen(catalog, Prior(evs), slug, key)
  }

  predicate SeedGrants(ev: Event, slug: string, key: string) {
    ev.Seed? && SeedFor(ev.release, slug).Some? && key in SeedFor(ev.release, slug).value.granted
  }

  /** Some seed of the run granted the capability to the role by default. */
  ghost predicate EverSeeded(evs: seq<Event>, slug: string, key: string) {
    exists ev <- evs :: SeedGrants(ev, slug, key)
  }

  lemma EverSeededSnoc(evs: seq<Event>, slug: string, key: string)
    requires evs != []
    ensures EverSeeded(evs, slug, key) <==> EverSeeded(Prior(evs), slug, key) || SeedGrants(Last(evs), slug, key)
  {
    assert evs == Prior(evs) + [Last(evs)];
    assert forall ev :: ev in evs <==> ev in Prior(evs) || ev == Last(evs);
  }

  lemma {:induction false} SeedAllAt(catalog: set<string>, rows: Registry, seeds: seq<SeedRole>, slug: string)
    requires forall i, j :: 0 <= i < j < |seeds| ==> seeds[i].slug != seeds[j].slug
    ensures Lookup(SeedAll(catalog, rows, seeds), slug) ==
              match SeedFor(seeds, slug)
              case None => Lookup(rows, slug)
              case Some(s) => Some(SeededRow(catalog, s, Lookup(rows, slug)))
    decreases |seeds|
  {
    if seeds != [] {
      var s := seeds[0];
      var after := rows[s.slug := SeededRow(catalog, s, Lookup(rows, s.slug))];
      SeedAllAt(catalog, after, seeds[1..], slug);
      NotSeeded(seeds[1..], s.slug);
    }
  }

  lemma {:induction false} NotSeeded(seeds: seq<SeedRole>, slug: string)
    requires forall i :: 0 <= i < |seeds| ==> seeds[i].slug != slug
    ensures SeedFor(seeds, slug) == None
  {
    if seeds != [] {
      NotSeeded(seeds[1..], slug);
    }
  }

  lemma {:induction false} SeedForNames(seeds: seq<SeedRole>, slug: string)
    ensures SeedFor(seeds, slug).Some? ==> SeedFor(seeds, slug).value in seeds && SeedFor(seeds, slug).value.slug == slug
  {
    if seeds != [] {
      SeedForNames(seeds[1..], slug);
    }
  }

  // ----- what the capability matrix remembers

  /** A stored matrix agrees with the run: a key is stored once it was chosen or seeded, a choice winning. */
  ghost predicate Remembers(catalog: set<string>, evs: seq<Event>, slug: string, key: string) {
    var chosen := Chosen(catalog, evs, slug, key);
    match Lookup(Run(catalog, evs), slug)
    case None => chosen == None && !EverSeeded(evs, slug, key)
    case Some(row) =>
      && row.slug == slug && row.capabilities.Keys <= catalog
      && (slug != OWNER ==>
            && (key in row.capabilities <==> chosen.Some? || EverSeeded(evs, slug, key))
            && (key in row.capabilities ==> row.capabilities[key] == (chosen.Some? ==> chosen.value)))
  }

  lemma SeedRemembers(catalog: set<string>, evs: seq<Event>, slug: string, key: string)
    requires evs != [] && Last(evs).Seed? && SoundRelease(Last(evs).release, catalog)
    requires Remembers(catalog, Prior(evs), slug, key)
    ensures Remembers(catalog, evs, slug, key)
  {
    EverSeededSnoc(evs, slug, key);
    SeedAllAt(catalog, Run(catalog, Prior(evs)), Last(evs).release, slug);
    SeedForNames(Last(evs).release, slug);
    hide SeedAll, EverSeeded;
  }

  lemma PanelRemembers(catalog: set<string>, evs: seq<Event>, slug: string, key: string)
    requires evs != [] && !Last(evs).Seed?
    requires Remembers(catalog, Prior(evs), slug, key)
    ensures Remembers(catalog, evs, slug, key)
  {
    EverSeededSnoc(evs, slug, key);
    hide EverSeeded, SeedAll, SlugMatches, EnvironmentsAllowed;
  }

  lemma {:induction false} RunRemembers(catalog: set<string>, evs: seq<Event>, slug: string, key: string)
    requires SoundRun(catalog, evs)
    ensures Remembers(catalog, evs, slug, key)
    decreases |evs|
  {
    if evs != [] {
      assert Last(evs) in evs && forall e <- Prior(evs) :: e in evs;
      RunRemembers(catalog, Prior(evs), slug, key);
      if Last(evs).Seed? {
        SeedRemembers(catalog, evs, slug, key);
      } else {
        PanelRemembers(catalog, evs, slug, key);
      }
    }
  }

  /**
    A capability of a stored role, other than the owner, is what the panel last said about it; where
    the panel never spoke, it is granted exactly when some seed granted it.
  */
  lemma CapabilityHistory(catalog: set<string>, evs: seq<Event>, slug: string, key: string)
    requires SoundRun(catalog, evs) && slug in Run(catalog, evs) && slug != OWNER
    ensures Grants(Run(catalog, evs)[slug].capabilities, key) <==>
              match Chosen(catalog, evs, slug, key)
              case Some(granted) => granted
              case None => EverSeeded(evs, slug, key)
  {
    RunRemembers(catalog, evs, slug, key);
  }

  // ----- who outranks whom

  /** The owner's capabilities always come from the running code; an inactive or unknown role has none. */
  function GetRoleProfile(release: Release, rows: Registry, role: string): Profile {
    var slug := NormalizeRole(role);
    var unknown := Profile("__unknown__", 0, map[], None);
    match Lookup(rows, slug)
    case Some(row) =>
      if !row.isActive then unknown
      else
        Profile(row.slug, row.level,
                if row.slug == OWNER && SeedFor(release, OWNER).Some? then Caps(SeedFor(release, OWNER).value.granted)
                else row.capabilities,
                row.environments)
    case None =>
      match SeedFor(release, slug)
      case Some(s) => Profile(s.slug, s.level, Caps(s.granted), s.environments)
      case None => unknown
  }

  ghost predicate Ranked(row: Row, slug: string) {
    && row.slug == slug
    && (slug == OWNER ==> row.isSystem && row.isActive && row.level == 100)
    && (slug != OWNER ==> row.level < 100)
    && (slug in SYSTEM_SLUGS ==> row.isSystem && row.isActive)
  }

  lemma {:induction false} RunRanks(catalog: set<string>, evs: seq<Event>, slug: string)
    requires SoundRun(catalog, evs) && slug in Run(catalog, evs)
    ensures Ranked(Run(catalog, evs)[slug], slug)
    decreases |evs|
  {
    var (prior, ev) := (Prior(evs), Last(evs));
    assert ev in evs && forall e <- prior :: e in evs;
    var rows := Run(catalog, prior);
    if slug in rows {
      RunRanks(catalog, prior, slug);
    }
    if ev.Seed? {
      SeedAllAt(catalog, rows, ev.release, slug);
      SeedForNames(ev.release, slug);
    }
  }

  /** Whatever was edited or seeded, the owner keeps level 100 and the code's own capability set. */
  lemma OwnerIsCodeDefined(catalog: set<string>, evs: seq<Event>, release: Release, role: string)
    requires SoundRun(catalog, evs) && SoundRelease(release, catalog) && NormalizeRole(role) == OWNER
    ensures var owner := GetRoleProfile(release, Run(catalog, evs), role);
            owner.level == 100 && owner.capabilities == Caps(SeedFor(release, OWNER).value.granted)
  {
    SeedForNames(release, OWNER);
    if OWNER in Run(catalog, evs) {
      RunRanks(catalog, evs, OWNER);
    }
  }

  lemma OwnerOutranksEveryone(catalog: set<string>, evs: seq<Event>, release: Release, role: string)
    requires SoundRun(catalog, evs) && SoundRelease(release, catalog) && NormalizeRole(role) != OWNER
    ensures GetRoleProfile(release, Run(catalog, evs), role).level
          < GetRoleProfile(release, Run(catalog, evs), OWNER).level
  {
    OwnerIsCodeDefined(catalog, evs, release, OWNER);
    SeedForNames(release, NormalizeRole(role));
    if NormalizeRole(role) in Run(catalog, evs) {
      RunRanks(catalog, evs, NormalizeRole(role));
    }
  }

  /** No panel action turns a system role into an owner-class one. */
  lemma {:induction false} SystemNeverOwnerClass(catalog: set<string>, evs: seq<Event>, slug: string)
    requires SoundRun(catalog, evs) && slug in SYSTEM_SLUGS && slug != OWNER
    ensures Chosen(catalog, evs, slug, "org.manage") != Some(true)
    decreases |evs|
  {
    if evs != [] {
      var (prior, ev) := (Prior(evs), Last(evs));
      assert ev in evs && forall e <- prior :: e in evs;
      SystemNeverOwnerClass(catalog, prior, slug);
      if slug in Run(catalog, prior) {
        RunRanks(catalog, prior, slug);
      }
    }
  }

  /** The role table of the code as it stands, for any assignment of labels and capabilities. */
  function CurrentRelease(meta: string -> Meta, granted: string -> set<string>): Release {
    [SeedRole("owner", meta("owner"), 100, true, granted("owner"), None),
     SeedRole("project_manager", meta("project_manager"), 80, true, granted("project_manager"), None),
     SeedRole("team_lead", meta("team_lead"), 60, true, granted("team_lead"), None),
     SeedRole("editor", meta("editor"), 50, false, granted("editor"), Some(["development", "staging"])),
     SeedRole("developer", meta("developer"), 40, true, granted("developer"), Some(["development"])),
     SeedRole("viewer", meta("viewer"), 20, false, granted("viewer"), None)]
  }

  lemma CurrentSlugsDiffer(meta: string -> Meta, granted: string -> set<string>, i: nat, j: nat)
    requires i < j < |CurrentRelease(meta, granted)|
    ensures CurrentRelease(meta, granted)[i].slug != CurrentRelease(meta, granted)[j].slug
  {
    var initials := ['o', 'p', 't', 'e', 'd', 'v'];
    assert CurrentRelease(meta, granted)[i].slug[0] == initials[i];
    assert CurrentRelease(meta, granted)[j].slug[0] == initials[j];
  }

  lemma CurrentReleaseIsSound(catalog: set<string>, meta: string -> Meta, granted: string -> set<string>)
    requires forall slug :: granted(slug) <= catalog
    ensures SoundRelease(CurrentRelease(meta, granted), catalog)
  {
    var release := CurrentRelease(meta, granted);
    assert forall s <- release :: SoundSeed(s, catalog);
    assert SeedFor(release, OWNER).Some?;
    hide SoundSeed, SeedFor, CurrentRelease;
    forall i, j | 0 <= i < j < |release|
      ensures release[i].slug != release[j].slug
    {
      CurrentSlugsDiffer(meta, granted, i, j);
    }
  }

  // ----- a seed repeated is no seed

  lemma SeedTwiceAt(catalog: set<string>, rows: Registry, release: Release, slug: string)
    requires SoundRelease(release, catalog)
    ensures var once := SeedAll(catalog, rows, release);
            Lookup(SeedAll(catalog, once, release), slug) == Lookup(once, slug)
  {
    var once := SeedAll(catalog, rows, release);
    SeedAllAt(catalog, rows, release, slug);
    SeedAllAt(catalog, once, release, slug);
    SeedForNames(release, slug);
    match SeedFor(release, slug)
    case None =>
    case Some(s) =>
      var stored := once[slug].capabilities;
      assert Merged(catalog, Caps(s.granted), stored) == stored || s.slug == OWNER;
  }

  lemma SeedIsIdempotent(catalog: set<string>, rows: Registry, release: Release)
    requires SoundRelease(release, catalog)
    ensures var once := SeedAll(catalog, rows, release); SeedAll(catalog, once, release) == once
  {
    var once := SeedAll(catalog, rows, release);
    var twice := SeedAll(catalog, once, release);
    forall slug
      ensures Lookup(twice, slug) == Lookup(once, slug)
    {
      SeedTwiceAt(catalog, rows, release, slug);
    }
    assert forall slug :: slug in twice <==> Lookup(twice, slug).Some?;
    assert forall slug :: slug in once <==> Lookup(once, slug).Some?;
    assert forall slug :: slug in once ==> twice[slug] == Lookup(twice, slug).value && once[slug] == Lookup(once, slug).value;
  }
}

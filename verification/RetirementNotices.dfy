/**
  Telling people that their MCP keys stop working: a paged job that builds one notice per person, and a
  job that mails them, rescheduling itself until none is left.
*/
module RetirementNotices {
  import opened Prelude
  import opened Roles
  import opened Access
  import opened AccountListing

  const MEMBER_SCAN: nat := 500
  const EMAILS_PER_BATCH: nat := 50
  const EMAIL_SPACING_MS: nat := 600
  const MAX_KEYS_PER_NOTICE: nat := 20

  datatype ApiKey = ApiKey(name: string, org: Id, createdBy: Id, revokedAt: Option<int>, expiresAt: Option<int>,
                           surfaces: Option<seq<string>>)

  datatype Notice = Notice(user: Id, keys: seq<string>, emailedAt: Option<int>)

  /** What both jobs read: access tables, organisation names and addresses. */
  datatype World = World(db: Db, orgNames: map<Id, string>, emails: map<Id, string>)

  predicate Live(key: ApiKey, now: int) {
    key.revokedAt == None && (key.expiresAt == None || key.expiresAt.value > now)
  }

  predicate ReachesMcp(key: ApiKey) {
    key.surfaces == None || "mcp_server" in key.surfaces.value
  }

  function OrgName(w: World, org: Id): string {
    if org in w.orgNames then w.orgNames[org] else ""
  }

  /** A live key that MCP accepted, of an organisation with a name. */
  predicate Counts(w: World, key: ApiKey, now: int) {
    Live(key, now) && ReachesMcp(key) && OrgName(w, key.org) != ""
  }

  function KeyText(w: World, key: ApiKey): string {
    key.name + " \U{00B7} " + OrgName(w, key.org)
  }

  predicate ManagesKeys(db: Db, m: Member) {
    !m.suspended && Has(ProfileOf(db, m.role), "org.api_keys")
  }

  function InOrg(org: Id): Member -> bool {
    (m: Member) => m.org == org
  }

  function Managers(db: Db, org: Id): seq<Id> {
    ManagersOf(db, Take(Filter(db.members, InOrg(org)), MEMBER_SCAN))
  }

  function ManagersOf(db: Db, members: seq<Member>): seq<Id>
    decreases |members|
  {
    if members == [] then []
    else (if ManagesKeys(db, members[0]) then [members[0].user] else []) + ManagersOf(db, members[1..])
  }

  /** The creator while an active member, otherwise whoever manages keys. */
  function Recipients(w: World, key: ApiKey): seq<Id> {
    if ActiveMembership(w.db, key.org, key.createdBy).Some? then [key.createdBy] else Managers(w.db, key.org)
  }

  // ----- one row per person

  function RowOf(notices: seq<Notice>, user: Id): Option<nat> {
    if notices == [] then None
    else if notices[|notices| - 1].user == user && RowOf(notices[..|notices| - 1], user) == None then Some(|notices| - 1)
    else RowOf(notices[..|notices| - 1], user)
  }

  lemma {:induction false} RowOfUser(notices: seq<Notice>, user: Id)
    ensures match RowOf(notices, user)
            case Some(i) => i < |notices| && notices[i].user == user && forall j :: 0 <= j < i ==> notices[j].user != user
            case None => forall j :: 0 <= j < |notices| ==> notices[j].user != user
  {
    if notices != [] {
      RowOfUser(notices[..|notices| - 1], user);
    }
  }

  /** Inserts or extends a person's row; a full row, or one with the text already, stays as it is. */
  function ToldRow(notices: seq<Notice>, user: Id, text: string, row: Option<nat>): seq<Notice>
    requires row.Some? ==> row.value < |notices|
  {
    match row
    case None => notices + [Notice(user, [text], None)]
    case Some(i) =>
      if |notices[i].keys| < MAX_KEYS_PER_NOTICE && text !in notices[i].keys then
        notices[i := notices[i].(keys := notices[i].keys + [text])]
      else notices
  }

  function Told(notices: seq<Notice>, user: Id, text: string): seq<Notice> {
    RowOfUser(notices, user);
    ToldRow(notices, user, text, RowOf(notices, user))
  }

  function ToldEach(notices: seq<Notice>, users: seq<Id>, text: string): seq<Notice>
    decreases |users|
  {
    if users == [] then notices else ToldEach(Told(notices, users[0], text), users[1..], text)
  }

  function AfterKey(w: World, now: int, notices: seq<Notice>, key: ApiKey): seq<Notice> {
    if Counts(w, key, now) then ToldEach(notices, Recipients(w, key), KeyText(w, key)) else notices
  }

  function Built(w: World, now: int, notices: seq<Notice>, keys: seq<ApiKey>): seq<Notice>
    decreases |keys|
  {
    if keys == [] then notices else Built(w, now, AfterKey(w, now, notices, keys[0]), keys[1..])
  }

  /** The job's table. */
  class Builder {
    const world: World
    const keys: seq<ApiKey>
    var notices: seq<Notice>

    constructor (world: World, keys: seq<ApiKey>)
      ensures this.world == world && this.keys == keys && notices == []
    {
      this.world, this.keys, notices := world, keys, [];
    }

    method RecipientsFor(key: ApiKey, cache: map<Id, seq<Id>>) returns (users: seq<Id>, managersByOrg: map<Id, seq<Id>>)
      requires forall org <- cache :: cache[org] == Managers(world.db, org)
      ensures users == Recipients(world, key)
      ensures forall org <- managersByOrg :: managersByOrg[org] == Managers(world.db, org)
    {
      managersByOrg := cache;
      var creator := Membership(world.db, key.org, key.createdBy);
      if creator.Some? && !creator.value.suspended {
        return [key.createdBy], managersByOrg;
      }
      if key.org in cache {
        return cache[key.org], managersByOrg;
      }
      hide ManagesKeys, Filter, Membership;
      var members := Take(Filter(world.db.members, InOrg(key.org)), MEMBER_SCAN);
      users := [];
      for i := 0 to |members|
        invariant users + ManagersOf(world.db, members[i..]) == ManagersOf(world.db, members)
      {
        var m := members[i];
        assert members[i..][0] == m && members[i..][1..] == members[i + 1..];
        ghost var before := users;
        if ManagesKeys(world.db, m) {
          users := users + [m.user];
        }
        ConcatAssociative(before, if ManagesKeys(world.db, m) then [m.user] else [], ManagersOf(world.db, members[i + 1..]));
        assert before + [] == before;
      }
      assert members[|members|..] == [];
      managersByOrg := managersByOrg[key.org := users];
    }

    method Tell(user: Id, text: string)
      modifies this
      ensures notices == Told(old(notices), user, text)
    {
      RowOfUser(notices, user);
      var row := RowOf(notices, user);
      if row == None {
        notices := notices + [Notice(user, [text], None)];
      } else {
        var notice := notices[row.value];
        if |notice.keys| < MAX_KEYS_PER_NOTICE && text !in notice.keys {
          notices := notices[row.value := notice.(keys := notice.keys + [text])];
        }
      }
    }

    /** One page of the key table, from `start` to `end`. */
    method BuildPage(start: nat, end: nat, now: int)
      requires start <= end <= |keys|
      modifies this
      ensures notices == Built(world, now, old(notices), keys[start..end])
    {
      var orgNames: map<Id, string> := map[];
      var managersByOrg: map<Id, seq<Id>> := map[];
      ghost var page := keys[start..end];
      assert page[0..] == page;
      hide Recipients, Managers, Told, KeyText;
      for i := start to end
        invariant forall org <- orgNames :: orgNames[org] == OrgName(world, org)
        invariant forall org <- managersByOrg :: managersByOrg[org] == Managers(world.db, org)
        invariant Built(world, now, notices, page[i - start..]) == Built(world, now, old(notices), page)
      {
        var key := keys[i];
        assert page[i - start..][0] == key && page[i - start..][1..] == page[i + 1 - start..];
        var live := key.revokedAt == None && (key.expiresAt == None || key.expiresAt.value > now);
        if !live || !(key.surfaces == None || "mcp_server" in key.surfaces.value) {
          continue;
        }
        if key.org !in orgNames {
          orgNames := orgNames[key.org := OrgName(world, key.org)];
        }
        if orgNames[key.org] == "" {
          continue;
        }
        var text := KeyText(world, key);
        var users, cache := RecipientsFor(key, managersByOrg);
        managersByOrg := cache;
        TellEach(users, text);
      }
      assert page[end - start..] == [];
    }

    method TellEach(users: seq<Id>, text: string)
      modifies this
      ensures notices == ToldEach(old(notices), users, text)
    {
      hide Told;
      for i := 0 to |users|
        invariant ToldEach(notices, users[i..], text) == ToldEach(old(notices), users, text)
      {
        assert users[i..][0] == users[i] && users[i..][1..] == users[i + 1..];
        Tell(users[i], text);
      }
      assert users[|users|..] == [];
    }

    /** The whole chain of pages: neither their size nor when the last one is noticed matters. */
    method BuildNotices(size: nat, eager: bool, now: int) returns (pages: nat)
      requires size >= 1
      modifies this
      ensures notices == Built(world, now, old(notices), keys)
    {
      var cursor, isDone := 0, false;
      pages := 0;
      assert keys[0..] == keys;
      hide Built;
      while !isDone
        invariant 0 <= cursor <= |keys|
        invariant Built(world, now, notices, keys[cursor..]) == Built(world, now, old(notices), keys)
        invariant isDone ==> cursor == |keys|
        decreases !isDone, |keys| - cursor
      {
        var end := if cursor + size <= |keys| then cursor + size else |keys|;
        ghost var before := notices;
        BuildPage(cursor, end, now);
        PageSplit(world, now, before, keys, cursor, end);
        isDone := cursor + size > |keys| || (end == |keys| && eager);
        cursor, pages := end, pages + 1;
      }
      assert keys[|keys|..] == [];
      NothingBuilt(world, now, notices);
    }
  }

  lemma NothingBuilt(w: World, now: int, notices: seq<Notice>)
    ensures Built(w, now, notices, []) == notices
  {
  }

  lemma PageSplit(w: World, now: int, notices: seq<Notice>, keys: seq<ApiKey>, i: nat, j: nat)
    requires i <= j <= |keys|
    ensures Built(w, now, notices, keys[i..]) == Built(w, now, Built(w, now, notices, keys[i..j]), keys[j..])
  {
    BuiltSplit(w, now, notices, keys[i..j], keys[j..]);
    assert keys[i..j] + keys[j..] == keys[i..];
  }

  lemma {:induction false} BuiltSplit(w: World, now: int, notices: seq<Notice>, a: seq<ApiKey>, b: seq<ApiKey>)
    ensures Built(w, now, notices, a + b) == Built(w, now, Built(w, now, notices, a), b)
    decreases |a|
  {
    if a == [] {
      assert a + b == b;
    } else {
      BuiltSplit(w, now, AfterKey(w, now, notices, a[0]), a[1..], b);
      assert (a + b)[1..] == a[1..] + b;
    }
  }

  // ----- what the notices say

  /** One row per person, none over the limit, no text twice. */
  ghost predicate Tidy(notices: seq<Notice>) {
    && (forall i, j :: 0 <= i < j < |notices| ==> notices[i].user != notices[j].user)
    && (forall i :: 0 <= i < |notices| ==> |notices[i].keys| <= MAX_KEYS_PER_NOTICE && Distinct(notices[i].keys))
  }

  /** The person has a row that holds the text, or is full. */
  ghost predicate Heard(notices: seq<Notice>, user: Id, text: string) {
    exists i :: 0 <= i < |notices| && notices[i].user == user && (text in notices[i].keys || |notices[i].keys| >= MAX_KEYS_PER_NOTICE)
  }

  ghost predicate Says(notices: seq<Notice>, user: Id, text: string) {
    exists i :: 0 <= i < |notices| && notices[i].user == user && text in notices[i].keys
  }

  /** A counting key of `keys` carries the text and has the person among its recipients. */
  ghost predicate Backed(w: World, now: int, keys: seq<ApiKey>, user: Id, text: string) {
    exists key <- keys :: Counts(w, key, now) && KeyText(w, key) == text && user in Recipients(w, key)
  }

  lemma ToldFacts(notices: seq<Notice>, user: Id, text: string)
    requires Tidy(notices)
    ensures Tidy(Told(notices, user, text)) && Heard(Told(notices, user, text), user, text)
    ensures forall u, t :: Heard(notices, u, t) ==> Heard(Told(notices, user, text), u, t)
    ensures forall u, t :: Says(Told(notices, user, text), u, t) ==> Says(notices, u, t) || (u == user && t == text)
  {
    RowOfUser(notices, user);
    var after := Told(notices, user, text);
    ToldRows(notices, user, text);
    match RowOf(notices, user)
    case None => assert after[|notices|].user == user && text in after[|notices|].keys;
    case Some(r) => assert after[r].user == user && (text in after[r].keys || |after[r].keys| >= MAX_KEYS_PER_NOTICE);
    hide Told, RowOf;
    forall u, t | Heard(notices, u, t)
      ensures Heard(after, u, t)
    {
      var i :| 0 <= i < |notices| && notices[i].user == u && (t in notices[i].keys || |notices[i].keys| >= MAX_KEYS_PER_NOTICE);
      assert notices[i].user == after[i].user && notices[i].keys <= after[i].keys;
    }
    forall u, t | Says(after, u, t) && !(u == user && t == text)
      ensures Says(notices, u, t)
    {
      var i :| 0 <= i < |after| && after[i].user == u && t in after[i].keys;
      assert i < |notices| && notices[i].user == u && t in notices[i].keys;
    }
  }

  lemma NewRowTidy(notices: seq<Notice>, user: Id, text: string)
    requires Tidy(notices) && forall j :: 0 <= j < |notices| ==> notices[j].user != user
    ensures Tidy(ToldRow(notices, user, text, None))
  {
  }

  lemma LongerRowTidy(notices: seq<Notice>, user: Id, text: string, i: nat)
    requires Tidy(notices) && i < |notices|
    ensures Tidy(ToldRow(notices, user, text, Some(i)))
  {
    var after := ToldRow(notices, user, text, Some(i));
    assert forall k :: 0 <= k < |notices| ==> after[k].user == notices[k].user;
    assert Distinct(notices[i].keys) && Distinct(after[i].keys);
    hide Distinct;
  }

  lemma RowsGain(notices: seq<Notice>, user: Id, text: string, row: Option<nat>)
    requires row.Some? ==> row.value < |notices| && notices[row.value].user == user
    ensures var after := ToldRow(notices, user, text, row);
            && |notices| <= |after|
            && (forall i :: 0 <= i < |notices| ==>
                  && after[i].user == notices[i].user && notices[i].keys <= after[i].keys
                  && (forall t :: t in after[i].keys ==> t in notices[i].keys || (after[i].user == user && t == text)))
            && (forall i :: |notices| <= i < |after| ==> after[i].user == user && after[i].keys == [text])
  {
  }

  /** Rows keep their person and only ever gain the text. */
  lemma ToldRows(notices: seq<Notice>, user: Id, text: string)
    requires Tidy(notices)
    ensures var after := Told(notices, user, text);
            && Tidy(after) && |notices| <= |after|
            && (forall i :: 0 <= i < |notices| ==>
                  && after[i].user == notices[i].user && notices[i].keys <= after[i].keys
                  && (forall t :: t in after[i].keys ==> t in notices[i].keys || (after[i].user == user && t == text)))
            && (forall i :: |notices| <= i < |after| ==> after[i].user == user && after[i].keys == [text])
  {
    RowOfUser(notices, user);
    var row := RowOf(notices, user);
    RowsGain(notices, user, text, row);
    match row {
      case None => NewRowTidy(notices, user, text);
      case Some(i) => LongerRowTidy(notices, user, text, i);
    }
    hide ToldRow, RowOf, Tidy;
  }

  lemma {:induction false} ToldEachFacts(notices: seq<Notice>, users: seq<Id>, text: string)
    requires Tidy(notices)
    ensures var after := ToldEach(notices, users, text);
            && Tidy(after)
            && (forall u <- users :: Heard(after, u, text))
            && (forall u, t :: Heard(notices, u, t) ==> Heard(after, u, t))
            && (forall u, t :: Says(after, u, t) ==> Says(notices, u, t) || (u in users && t == text))
    decreases |users|
  {
    if users != [] {
      ToldFacts(notices, users[0], text);
      var next := Told(notices, users[0], text);
      hide Told, Tidy, Heard, Says;
      ToldEachFacts(next, users[1..], text);
      assert forall u :: u in users <==> u == users[0] || u in users[1..];
    }
  }

  lemma {:induction false} BuiltFacts(w: World, now: int, notices: seq<Notice>, keys: seq<ApiKey>)
    requires Tidy(notices)
    ensures var after := Built(w, now, notices, keys);
            && Tidy(after)
            && (forall u, t :: Heard(notices, u, t) || Backed(w, now, keys, u, t) ==> Heard(after, u, t))
            && (forall u, t :: Says(after, u, t) ==> Says(notices, u, t) || Backed(w, now, keys, u, t))
    decreases |keys|
  {
    if keys != [] {
      var key := keys[0];
      var next := AfterKey(w, now, notices, key);
      if Counts(w, key, now) {
        ToldEachFacts(notices, Recipients(w, key), KeyText(w, key));
      }
      BuiltFacts(w, now, next, keys[1..]);
      hide Counts, Recipients, KeyText, ToldEach, Tidy, Heard, Says;
      assert forall k :: k in keys <==> k == key || k in keys[1..];
      forall u, t
        ensures Backed(w, now, keys, u, t) <==>
                  Backed(w, now, keys[1..], u, t) || (Counts(w, key, now) && KeyText(w, key) == t && u in Recipients(w, key))
      {
      }
    }
  }

  /**
    The notices built from an empty table: one row per person, at most twenty different texts in each; a
    person whose row is not full has exactly the texts of the counting keys they are a recipient of, and
    nobody else has a row.
  */
  lemma NoticesAreComplete(w: World, now: int, keys: seq<ApiKey>, user: Id, text: string)
    ensures var notices := Built(w, now, [], keys);
            && Tidy(notices)
            && (Backed(w, now, keys, user, text) ==> Heard(notices, user, text))
            && (Says(notices, user, text) ==> Backed(w, now, keys, user, text))
  {
    BuiltFacts(w, now, [], keys);
  }

  // ----- mailing

  /** A send of the notice in row `row`, scheduled for `at`. */
  datatype Send = Send(at: int, row: nat)

  function Unsent(notices: seq<Notice>): seq<nat> {
    if notices == [] then []
    else Unsent(notices[..|notices| - 1]) + (if notices[|notices| - 1].emailedAt == None then [|notices| - 1] else [])
  }

  lemma {:induction false} UnsentRows(notices: seq<Notice>)
    ensures forall k: nat :: k in Unsent(notices) <==> k < |notices| && notices[k].emailedAt == None
    ensures Distinct(Unsent(notices))
  {
    if notices != [] {
      var init := notices[..|notices| - 1];
      UnsentRows(init);
      assert forall i :: 0 <= i < |Unsent(init)| ==> Unsent(init)[i] in Unsent(init);
    }
  }

  /** The first batch of waiting rows. */
  function Batch(notices: seq<Notice>): seq<nat> {
    Take(Unsent(notices), EMAILS_PER_BATCH)
  }

  lemma BatchRows(notices: seq<Notice>)
    ensures Distinct(Batch(notices))
    ensures forall i :: 0 <= i < |Batch(notices)| ==> Batch(notices)[i] < |notices| && notices[Batch(notices)[i]].emailedAt == None
    ensures |Batch(notices)| == if Waiting(notices) <= EMAILS_PER_BATCH then Waiting(notices) else EMAILS_PER_BATCH
  {
    UnsentRows(notices);
    assert forall i :: 0 <= i < |Batch(notices)| ==> Batch(notices)[i] in Unsent(notices);
  }

  predicate HasEmail(w: World, user: Id) {
    user in w.emails && w.emails[user] != ""
  }

  /** How many rows still wait. */
  function Waiting(notices: seq<Notice>): nat {
    |Unsent(notices)|
  }

  lemma {:induction false} MarkOne(notices: seq<Notice>, row: nat, now: int)
    requires row < |notices| && notices[row].emailedAt == None
    ensures Waiting(notices[row := notices[row].(emailedAt := Some(now))]) == Waiting(notices) - 1
    decreases |notices|
  {
    var after := notices[row := notices[row].(emailedAt := Some(now))];
    var (init, last) := (notices[..|notices| - 1], |notices| - 1);
    if row == last {
      assert after[..last] == init;
    } else {
      MarkOne(init, row, now);
      assert after[..last] == init[row := init[row].(emailedAt := Some(now))];
    }
  }

  /** Sends lie in order, at least the spacing apart, all of them by `until`. */
  ghost predicate Paced(sends: seq<Send>, until: int) {
    && (forall i, j :: 0 <= i < |sends| && j == i + 1 < |sends| ==> sends[j].at >= sends[i].at + EMAIL_SPACING_MS)
    && (sends != [] ==> sends[|sends| - 1].at <= until)
  }

  /** A row is marked exactly when its turn came, and mailed once if its person has an address. */
  ghost predicate Accounted(w: World, notices: seq<Notice>, sends: seq<Send>) {
    && (forall i, j :: 0 <= i < j < |sends| ==> sends[i].row != sends[j].row)
    && (forall i :: 0 <= i < |sends| ==> sends[i].row < |notices|)
    && (forall k :: 0 <= k < |notices| ==>
          (Mailed(sends, k) <==> notices[k].emailedAt.Some? && HasEmail(w, notices[k].user)))
  }

  ghost predicate Mailed(sends: seq<Send>, row: nat) {
    exists i :: 0 <= i < |sends| && sends[i].row == row
  }

  lemma OneAccounted(w: World, notices: seq<Notice>, sends: seq<Send>, row: nat, now: int, at: int)
    requires row < |notices| && notices[row].emailedAt == None && Accounted(w, notices, sends)
    ensures Accounted(w, notices[row := notices[row].(emailedAt := Some(now))],
                      if HasEmail(w, notices[row].user) then sends + [Send(at, row)] else sends)
  {
    var after := notices[row := notices[row].(emailedAt := Some(now))];
    assert !Mailed(sends, row);
    forall i | 0 <= i < |sends|
      ensures sends[i].row != row
    {
      assert Mailed(sends, sends[i].row);
    }
    MailedMore(sends, row, at);
    hide Mailed, HasEmail;
    assert forall k :: 0 <= k < |after| && k != row ==> after[k] == notices[k];
  }

  lemma MailedMore(sends: seq<Send>, row: nat, at: int)
    ensures forall k: nat :: Mailed(sends + [Send(at, row)], k) <==> Mailed(sends, k) || k == row
  {
    var more := sends + [Send(at, row)];
    assert more[|sends|].row == row;
    forall k: nat | Mailed(sends, k)
      ensures Mailed(more, k)
    {
      var i :| 0 <= i < |sends| && sends[i].row == k;
      assert more[i].row == k;
    }
  }

  class Mailer {
    const world: World
    var notices: seq<Notice>
    var sends: seq<Send>

    constructor (world: World, notices: seq<Notice>)
      ensures this.world == world && this.notices == notices && sends == []
    {
      this.world, this.notices, sends := world, notices, [];
    }

    ghost predicate SameNotices(before: seq<Notice>)
      reads this
    {
      |notices| == |before| && forall k :: 0 <= k < |before| ==> notices[k].user == before[k].user && notices[k].keys == before[k].keys
    }

    /** One batch: marks each row before scheduling its mail; a full batch schedules the next one. */
    method SendEmails(now: int) returns (next: Option<int>)
      requires Accounted(world, notices, sends) && Paced(sends, now - EMAIL_SPACING_MS)
      modifies this
      ensures Accounted(world, notices, sends) && SameNotices(old(notices)) && old(sends) <= sends
      ensures Waiting(notices) == Waiting(old(notices)) - |Batch(old(notices))|
      ensures Paced(sends, now + (|Batch(old(notices))| - 1) * EMAIL_SPACING_MS)
      ensures next == if |Batch(old(notices))| == EMAILS_PER_BATCH then Some(now + EMAILS_PER_BATCH * EMAIL_SPACING_MS) else None
    {
      var pending := Batch(notices);
      BatchRows(notices);
      hide Batch, Accounted, Paced, Waiting, Mailed;
      ghost var was := notices;
      for index := 0 to |pending|
        invariant SameNotices(was) && old(sends) <= sends
        invariant forall i :: index <= i < |pending| ==> pending[i] < |notices| && notices[pending[i]].emailedAt == None
        invariant Accounted(world, notices, sends)
        invariant Paced(sends, now + (index - 1) * EMAIL_SPACING_MS)
        invariant Waiting(notices) == Waiting(was) - index
      {
        MarkOne(notices, pending[index], now);
        SendOne(pending[index], now, now + index * EMAIL_SPACING_MS);
      }
      if |pending| == EMAILS_PER_BATCH {
        return Some(now + EMAILS_PER_BATCH * EMAIL_SPACING_MS);
      }
      return None;
    }

    method SendOne(row: nat, now: int, at: int)
      requires row < |notices| && notices[row].emailedAt == None
      requires Accounted(world, notices, sends) && Paced(sends, at - EMAIL_SPACING_MS)
      modifies this
      ensures notices == old(notices)[row := old(notices)[row].(emailedAt := Some(now))]
      ensures old(sends) <= sends && Accounted(world, notices, sends) && Paced(sends, at)
    {
      OneAccounted(world, notices, sends, row, now, at);
      hide Accounted, Mailed;
      notices := notices[row := notices[row].(emailedAt := Some(now))];
      if HasEmail(world, notices[row].user) {
        sends := sends + [Send(at, row)];
      }
    }

    /**
      The whole chain, each batch starting up to `late` milliseconds after it was due: it ends with every
      row marked, each person with an address mailed once, and the sends spaced across batches.
    */
    method SendAll(start: int, late: nat -> nat) returns (batches: nat)
      requires sends == [] && forall k :: 0 <= k < |notices| ==> notices[k].emailedAt == None
      modifies this
      ensures SameNotices(old(notices))
      ensures forall k :: 0 <= k < |notices| ==> notices[k].emailedAt.Some?
      ensures forall i, j :: 0 <= i < |sends| && j == i + 1 < |sends| ==> sends[j].at >= sends[i].at + EMAIL_SPACING_MS
      ensures forall i, j :: 0 <= i < j < |sends| ==> sends[i].row != sends[j].row
      ensures forall k :: 0 <= k < |notices| ==> (Mailed(sends, k) <==> HasEmail(world, notices[k].user))
      ensures batches == |old(notices)| / EMAILS_PER_BATCH + 1
    {
      var due := Some(start);
      batches := 0;
      AllWaiting(notices);
      ghost var until := start - EMAIL_SPACING_MS;
      hide Batch, Accounted, Waiting, Mailed, Paced, Unsent, HasEmail;
      assert Paced(sends, until) by { NothingPaced(until); }
      assert Accounted(world, notices, sends) by { NothingSent(world, notices); }
      while due.Some?
        invariant Accounted(world, notices, sends) && SameNotices(old(notices)) && Paced(sends, until)
        invariant due.Some? ==> until == due.value - EMAIL_SPACING_MS && Waiting(notices) + batches * EMAILS_PER_BATCH == |notices|
        invariant due == None ==> Waiting(notices) == 0 && (batches - 1) * EMAILS_PER_BATCH <= |notices| < batches * EMAILS_PER_BATCH
        decreases due.Some?, Waiting(notices)
      {
        var now := due.value + late(batches);
        BatchRows(notices);
        until := now + (|Batch(notices)| - 1) * EMAIL_SPACING_MS;
        due := SendEmails(now);
        batches := batches + 1;
      }
      AllMarked(world, notices, sends, until);
      BatchCount(|notices|, batches);
    }
  }

  lemma BatchCount(n: nat, batches: int)
    requires (batches - 1) * EMAILS_PER_BATCH <= n < batches * EMAILS_PER_BATCH
    ensures batches == n / EMAILS_PER_BATCH + 1
  {
  }

  lemma NothingPaced(until: int)
    ensures Paced([], until)
  {
  }

  lemma NothingSent(w: World, notices: seq<Notice>)
    requires forall k :: 0 <= k < |notices| ==> notices[k].emailedAt == None
    ensures Accounted(w, notices, [])
  {
  }

  lemma AllMarked(w: World, notices: seq<Notice>, sends: seq<Send>, until: int)
    requires Accounted(w, notices, sends) && Waiting(notices) == 0 && Paced(sends, until)
    ensures forall i, j :: 0 <= i < |sends| && j == i + 1 < |sends| ==> sends[j].at >= sends[i].at + EMAIL_SPACING_MS
    ensures forall k :: 0 <= k < |notices| ==> notices[k].emailedAt.Some? && (Mailed(sends, k) <==> HasEmail(w, notices[k].user))
    ensures forall i, j :: 0 <= i < j < |sends| ==> sends[i].row != sends[j].row
  {
    UnsentRows(notices);
    hide Mailed, Unsent;
    forall k | 0 <= k < |notices|
      ensures notices[k].emailedAt.Some?
    {
      assert k !in Unsent(notices);
    }
  }

  lemma {:induction false} AllWaiting(notices: seq<Notice>)
    requires forall k :: 0 <= k < |notices| ==> notices[k].emailedAt == None
    ensures Waiting(notices) == |notices|
  {
    if notices != [] {
      AllWaiting(notices[..|notices| - 1]);
    }
  }
}

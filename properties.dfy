/**
 What the restore pipeline does to each table, stated without the folds of
 `Pipeline`: which keys exist afterwards, which record's values a row holds,
 which pairs the link and role tables gain. From these follow the pipeline's
 guarantees: `created_at` survives a conflict, nothing is removed, and a
 second run with the same files changes nothing.
 */
module Properties {
  import opened Wrappers
  import opened Json
  import opened Schema
  import opened Pipeline

  // ---------------------------------------------------------------- waifus

  function WaifuIds(recs: seq<WaifuRecord>): set<Val>
  {
    set i | 0 <= i < |recs| :: recs[i].waifuId
  }

  /** The position of the last record with id `k`: the upsert that wins. */
  function LastWaifu(recs: seq<WaifuRecord>, k: Val): (i: nat)
    requires k in WaifuIds(recs)
    ensures i < |recs| && recs[i].waifuId == k
    ensures forall j :: i < j < |recs| ==> recs[j].waifuId != k
  {
    var n := |recs| - 1;
    if recs[n].waifuId == k then n
    else
      assert k in WaifuIds(recs[..n]) by {
        var i :| 0 <= i < |recs| && recs[i].waifuId == k;
        assert recs[..n][i] == recs[i];
      }
      LastWaifu(recs[..n], k)
  }

  /** The position of the first record with id `k`: the upsert that inserts. */
  function FirstWaifu(recs: seq<WaifuRecord>, k: Val): (i: nat)
    requires k in WaifuIds(recs)
    ensures i < |recs| && recs[i].waifuId == k
    ensures forall j :: 0 <= j < i ==> recs[j].waifuId != k
  {
    if recs[0].waifuId == k then 0
    else
      assert k in WaifuIds(recs[1..]) by {
        var i :| 0 <= i < |recs| && recs[i].waifuId == k;
        assert recs[1..][i - 1] == recs[i];
      }
      1 + FirstWaifu(recs[1..], k)
  }

  /** The ids of a list with one more record. */
  lemma WaifuIdsSnoc(recs: seq<WaifuRecord>)
    requires recs != []
    ensures WaifuIds(recs) == WaifuIds(recs[..|recs| - 1]) + {recs[|recs| - 1].waifuId}
  {
    var n := |recs| - 1;
    forall i | 0 <= i < n ensures recs[..n][i] == recs[i] { }
  }

  /** A record appended after an id's first and last occurrence moves neither. */
  lemma WaifuPositionsSnoc(recs: seq<WaifuRecord>, k: Val)
    requires recs != [] && k in WaifuIds(recs[..|recs| - 1])
    ensures k in WaifuIds(recs)
    ensures FirstWaifu(recs, k) == FirstWaifu(recs[..|recs| - 1], k)
    ensures recs[|recs| - 1].waifuId != k ==> LastWaifu(recs, k) == LastWaifu(recs[..|recs| - 1], k)
  {
    var n := |recs| - 1;
    var front := recs[..n];
    WaifuIdsSnoc(recs);
    var g := FirstWaifu(front, k);
    assert recs[g] == front[g];
    if recs[n].waifuId != k {
      var m := LastWaifu(front, k);
      assert recs[m] == front[m];
    }
  }

  /** The waifu loop leaves exactly the old keys and the input ids. */
  lemma {:induction false} WaifuStageKeys(waifus: map<Val, WaifuRow>, recs: seq<WaifuRecord>)
    ensures WaifuStage(waifus, recs).Keys == waifus.Keys + WaifuIds(recs)
  {
    if recs != [] {
      WaifuStageKeys(waifus, recs[..|recs| - 1]);
      WaifuIdsSnoc(recs);
    }
  }

  /** A stored row that no record carries is untouched by the waifu loop. */
  lemma {:induction false} WaifuStageUntouched(waifus: map<Val, WaifuRow>, recs: seq<WaifuRecord>, k: Val)
    requires k in waifus && k !in WaifuIds(recs)
    ensures k in WaifuStage(waifus, recs) && WaifuStage(waifus, recs)[k] == waifus[k]
  {
    if recs != [] {
      WaifuIdsSnoc(recs);
      WaifuStageUntouched(waifus, recs[..|recs| - 1], k);
    }
  }

  /** The seven updatable columns of a row that some record carries hold the last such record's values. */
  lemma {:induction false} WaifuStageCarries(waifus: map<Val, WaifuRow>, recs: seq<WaifuRecord>, k: Val)
    requires k in WaifuIds(recs)
    ensures k in WaifuStage(waifus, recs)
    ensures Carries(WaifuStage(waifus, recs)[k], recs[LastWaifu(recs, k)])
  {
    var n := |recs| - 1;
    WaifuIdsSnoc(recs);
    WaifuStageKeys(waifus, recs);
    if recs[n].waifuId != k {
      WaifuPositionsSnoc(recs, k);
      WaifuStageCarries(waifus, recs[..n], k);
    }
  }

  /** An id that first appears in the appended record is first found there. */
  lemma FirstWaifuAtEnd(recs: seq<WaifuRecord>, k: Val)
    requires recs != [] && k !in WaifuIds(recs[..|recs| - 1]) && recs[|recs| - 1].waifuId == k
    ensures k in WaifuIds(recs) && FirstWaifu(recs, k) == |recs| - 1
  {
    WaifuIdsSnoc(recs);
  }

  /**
   The `created_at` of a row that some record carries is the stored one when
   the key existed before the loop, and otherwise the first such record's.
   */
  lemma {:induction false} WaifuStageCreatedAt(waifus: map<Val, WaifuRow>, recs: seq<WaifuRecord>, k: Val)
    requires k in WaifuIds(recs)
    ensures k in WaifuStage(waifus, recs)
    ensures WaifuStage(waifus, recs)[k].createdAt ==
      if k in waifus then waifus[k].createdAt else recs[FirstWaifu(recs, k)].createdAt
  {
    var n := |recs| - 1;
    var front, w := recs[..n], recs[n];
    var mid := WaifuStage(waifus, front);
    assert WaifuStage(waifus, recs) == UpsertWaifuRow(mid, w);
    WaifuIdsSnoc(recs);
    WaifuStageKeys(waifus, front);
    if k in WaifuIds(front) {
      WaifuPositionsSnoc(recs, k);
      WaifuStageCreatedAt(waifus, front, k);
    } else {
      FirstWaifuAtEnd(recs, k);
      if k in waifus {
        WaifuStageUntouched(waifus, front, k);
      }
    }
  }

  /**
   After the waifu loop, a key exists iff it existed before or some record
   carries it. A key that some record carries holds the values of the last
   such record, except `created_at`, which is the stored one when the key
   existed before and otherwise the first such record's. Other rows are
   untouched.
   */
  lemma WaifuStageAt(waifus: map<Val, WaifuRow>, recs: seq<WaifuRecord>, k: Val)
    ensures k in WaifuStage(waifus, recs) <==> k in waifus || k in WaifuIds(recs)
    ensures k in WaifuIds(recs) ==>
      && Carries(WaifuStage(waifus, recs)[k], recs[LastWaifu(recs, k)])
      && WaifuStage(waifus, recs)[k].createdAt ==
           if k in waifus then waifus[k].createdAt else recs[FirstWaifu(recs, k)].createdAt
    ensures k in waifus && k !in WaifuIds(recs) ==> WaifuStage(waifus, recs)[k] == waifus[k]
  {
    WaifuStageKeys(waifus, recs);
    if k in WaifuIds(recs) {
      WaifuStageCarries(waifus, recs, k);
      WaifuStageCreatedAt(waifus, recs, k);
    } else if k in waifus {
      WaifuStageUntouched(waifus, recs, k);
    }
  }

  /** Running the waifu loop a second time over the same records changes nothing. */
  lemma WaifuStageIdempotent(waifus: map<Val, WaifuRow>, recs: seq<WaifuRecord>)
    ensures WaifuStage(WaifuStage(waifus, recs), recs) == WaifuStage(waifus, recs)
  {
    var once := WaifuStage(waifus, recs);
    var twice := WaifuStage(once, recs);
    forall k | k in once.Keys + twice.Keys ensures k in once && k in twice && twice[k] == once[k] {
      WaifuStageAt(waifus, recs, k);
      WaifuStageAt(once, recs, k);
    }
    assert twice.Keys == once.Keys;
  }

  // ----------------------------------------------------------------- users

  function UserIds(users: seq<UserRecord>): set<Val>
  {
    set i | 0 <= i < |users| :: users[i].userId
  }

  /** The position of the last record with id `k`: the upsert that wins. */
  function LastUser(users: seq<UserRecord>, k: Val): (i: nat)
    requires k in UserIds(users)
    ensures i < |users| && users[i].userId == k
    ensures forall j :: i < j < |users| ==> users[j].userId != k
  {
    var n := |users| - 1;
    if users[n].userId == k then n
    else
      assert k in UserIds(users[..n]) by {
        var i :| 0 <= i < |users| && users[i].userId == k;
        assert users[..n][i] == users[i];
      }
      LastUser(users[..n], k)
  }

  /** The (user_id, x) pairs for each `x` of `xs`. */
  function PairsOf(key: Val, xs: seq<Val>): set<(Val, Val)>
  {
    set x | x in xs :: (key, x)
  }

  /** Every harem link the user document lists. */
  function HaremLinks(users: seq<UserRecord>): set<(Val, Val)>
  {
    set i, x | 0 <= i < |users| && x in Entries(users[i].harem) :: (users[i].userId, x)
  }

  /** Every role the user document lists. */
  function UserRoles(users: seq<UserRecord>): set<(Val, Val)>
  {
    set i, x | 0 <= i < |users| && x in Entries(users[i].roles) :: (users[i].userId, x)
  }

  /** A run of `ON CONFLICT DO NOTHING` inserts adds exactly its pairs, once each, and removes none. */
  lemma {:induction false} InsertPairsUnion(s: set<(Val, Val)>, key: Val, xs: seq<Val>)
    ensures InsertPairs(s, key, xs) == s + PairsOf(key, xs)
  {
    if xs != [] {
      var n := |xs| - 1;
      InsertPairsUnion(s, key, xs[..n]);
      assert xs == xs[..n] + [xs[n]];
      assert PairsOf(key, xs) == PairsOf(key, xs[..n]) + {(key, xs[n])};
    }
  }

  /** One more user record adds its own links to the links of the records before it. */
  lemma UserLinksSnoc(users: seq<UserRecord>)
    requires users != []
    ensures var n := |users| - 1;
      && HaremLinks(users) == HaremLinks(users[..n]) + PairsOf(users[n].userId, Entries(users[n].harem))
      && UserRoles(users) == UserRoles(users[..n]) + PairsOf(users[n].userId, Entries(users[n].roles))
  {
    var n := |users| - 1;
    var front := users[..n];
    forall i | 0 <= i < n ensures front[i] == users[i] { }
  }

  /** The user loop leaves `waifus` alone and keeps exactly the old user keys and the input ids. */
  lemma {:induction false} UserStageKeys(t: Tables, users: seq<UserRecord>)
    ensures UserStage(t, users).waifus == t.waifus
    ensures UserStage(t, users).users.Keys == t.users.Keys + UserIds(users)
  {
    if users != [] {
      var n := |users| - 1;
      var front, u := users[..n], users[n];
      UserStageKeys(t, front);
      UserIdsSnoc(users);
    }
  }

  /** The user loop adds to `harem` and `roles` exactly the pairs the user document lists. */
  lemma {:induction false} UserStagePairs(t: Tables, users: seq<UserRecord>)
    ensures UserStage(t, users).harem == t.harem + HaremLinks(users)
    ensures UserStage(t, users).roles == t.roles + UserRoles(users)
  {
    if users != [] {
      var n := |users| - 1;
      var front, u := users[..n], users[n];
      UserStagePairs(t, front);
      UserLinksSnoc(users);
      var mid := UserStage(t, front);
      InsertPairsUnion(mid.harem, u.userId, Entries(u.harem));
      InsertPairsUnion(mid.roles, u.userId, Entries(u.roles));
    }
  }

  /** The ids of a list with one more record. */
  lemma UserIdsSnoc(users: seq<UserRecord>)
    requires users != []
    ensures UserIds(users) == UserIds(users[..|users| - 1]) + {users[|users| - 1].userId}
  {
    var n := |users| - 1;
    forall i | 0 <= i < n ensures users[..n][i] == users[i] { }
  }

  /** A record with another id appended after an id's last occurrence does not move it. */
  lemma LastUserSnoc(users: seq<UserRecord>, k: Val)
    requires users != [] && k in UserIds(users[..|users| - 1]) && users[|users| - 1].userId != k
    ensures k in UserIds(users)
    ensures LastUser(users, k) == LastUser(users[..|users| - 1], k)
  {
    var n := |users| - 1;
    UserIdsSnoc(users);
    var m := LastUser(users[..n], k);
    assert users[m] == users[..n][m];
  }

  /**
   After the user loop a user id that some record carries holds the row of
   the last such record, with `gems` and `crimson` defaulted to 0; any other
   stored user is untouched.
   */
  lemma {:induction false} UserStageAt(t: Tables, users: seq<UserRecord>, k: Val)
    ensures k in UserIds(users) ==>
      k in UserStage(t, users).users &&
      UserStage(t, users).users[k] == UserRowOf(users[LastUser(users, k)])
    ensures k in t.users && k !in UserIds(users) ==>
      k in UserStage(t, users).users && UserStage(t, users).users[k] == t.users[k]
  {
    if users != [] {
      var n := |users| - 1;
      UserStageAt(t, users[..n], k);
      UserStageKeys(t, users[..n]);
      UserIdsSnoc(users);
      if k in UserIds(users[..n]) && k != users[n].userId {
        LastUserSnoc(users, k);
      }
    }
  }

  /**
   Running the user loop again over the same records, on tables whose `users`
   the loop already produced, leaves `users` as it is.
   */
  lemma UserStageUsersStable(t: Tables, s: Tables, users: seq<UserRecord>)
    requires s.users == UserStage(t, users).users
    ensures UserStage(s, users).users == s.users
  {
    var again := UserStage(s, users).users;
    UserStageKeys(t, users);
    UserStageKeys(s, users);
    forall k | k in s.users ensures again[k] == s.users[k] {
      UserStageAt(t, users, k);
      UserStageAt(s, users, k);
    }
  }

  // ---------------------------------------------------------- admin roles

  /** The roles one administrative list grants: an entry counts only when admitted. */
  function GrantsOf(ids: seq<Val>, tag: string, checked: bool): set<(Val, Val)>
  {
    set x | x in ids && Admitted(x, checked) :: (x, Str(tag))
  }

  /** Every role the bot document grants; none without a `roles` object. */
  function AdminGrants(admin: Option<AdminRoles>): set<(Val, Val)>
  {
    match admin
    case None => {}
    case Some(a) =>
      GrantsOf(Entries(a.developers), "dev", false)
      + GrantsOf(Entries(a.sudos), "sudo", true)
      + GrantsOf(Entries(a.uploaders), "uploader", true)
  }

  lemma {:induction false} GrantRolesUnion(roles: set<(Val, Val)>, ids: seq<Val>, tag: string, checked: bool)
    ensures GrantRoles(roles, ids, tag, checked) == roles + GrantsOf(ids, tag, checked)
  {
    if ids != [] {
      var n := |ids| - 1;
      GrantRolesUnion(roles, ids[..n], tag, checked);
      assert ids == ids[..n] + [ids[n]];
      if Admitted(ids[n], checked) {
        assert GrantsOf(ids, tag, checked) == GrantsOf(ids[..n], tag, checked) + {(ids[n], Str(tag))};
      } else {
        assert GrantsOf(ids, tag, checked) == GrantsOf(ids[..n], tag, checked);
      }
    }
  }

  /** The backfill adds exactly the roles the bot document grants. */
  lemma BackfillUnion(roles: set<(Val, Val)>, admin: Option<AdminRoles>)
    ensures Backfill(roles, admin) == roles + AdminGrants(admin)
  {
    if admin.Some? {
      var a := admin.value;
      GrantRolesUnion(roles, Entries(a.developers), "dev", false);
      var afterDevs := GrantRoles(roles, Entries(a.developers), "dev", false);
      GrantRolesUnion(afterDevs, Entries(a.sudos), "sudo", true);
      var afterSudos := GrantRoles(afterDevs, Entries(a.sudos), "sudo", true);
      GrantRolesUnion(afterSudos, Entries(a.uploaders), "uploader", true);
    }
  }

  /**
   A sudo or uploader entry whose user_id is falsy grants nothing, while a
   developer entry grants `dev` whatever its user_id.
   */
  lemma BackfillChecks(roles: set<(Val, Val)>, admin: Option<AdminRoles>, id: Val)
    ensures !Truthy(id) ==>
      ((id, Str("sudo")) in Backfill(roles, admin) <==> (id, Str("sudo")) in roles)
    ensures !Truthy(id) ==>
      ((id, Str("uploader")) in Backfill(roles, admin) <==> (id, Str("uploader")) in roles)
    ensures admin.Some? && id in Entries(admin.value.developers) ==>
      (id, Str("dev")) in Backfill(roles, admin)
  {
    BackfillUnion(roles, admin);
  }

  // ------------------------------------------------------- whole pipeline

  /** No key of `waifus` or `users`, and no pair of `harem` or `roles`, is ever removed. */
  ghost predicate Grows(before: Tables, after: Tables)
  {
    && before.waifus.Keys <= after.waifus.Keys
    && before.users.Keys <= after.users.Keys
    && before.harem <= after.harem
    && before.roles <= after.roles
  }

  /** What one run leaves in each table, when all three files exist. */
  lemma RestoreTables(t: Tables, f: Files)
    requires AllPresent(f)
    ensures RestoreSpec(t, f).waifus == WaifuStage(t.waifus, f.waifus.value)
    ensures RestoreSpec(t, f).waifus.Keys == t.waifus.Keys + WaifuIds(f.waifus.value)
    ensures RestoreSpec(t, f).users.Keys == t.users.Keys + UserIds(f.users.value)
    ensures RestoreSpec(t, f).harem == t.harem + HaremLinks(f.users.value)
    ensures RestoreSpec(t, f).roles ==
      t.roles + UserRoles(f.users.value) + AdminGrants(f.bot.value.roles)
  {
    var afterWaifus := t.(waifus := WaifuStage(t.waifus, f.waifus.value));
    UserStageKeys(afterWaifus, f.users.value);
    UserStagePairs(afterWaifus, f.users.value);
    WaifuStageKeys(t.waifus, f.waifus.value);
    BackfillUnion(UserStage(afterWaifus, f.users.value).roles, f.bot.value.roles);
  }

  /** A run removes nothing, and a run with a missing file changes nothing. */
  lemma RestoreGrows(t: Tables, f: Files)
    ensures Grows(t, RestoreSpec(t, f))
    ensures !AllPresent(f) ==> RestoreSpec(t, f) == t
  {
    if AllPresent(f) {
      RestoreTables(t, f);
    }
  }

  /** A waifu that was already stored keeps its `created_at` through a run. */
  lemma RestoreKeepsCreatedAt(t: Tables, f: Files, k: Val)
    requires k in t.waifus
    ensures k in RestoreSpec(t, f).waifus
    ensures RestoreSpec(t, f).waifus[k].createdAt == t.waifus[k].createdAt
  {
    if AllPresent(f) {
      RestoreTables(t, f);
      WaifuStageAt(t.waifus, f.waifus.value, k);
    }
  }

  /**
   After a run, a user listed in the user document holds the row of its last
   record there, with a falsy `gems` or `crimson` stored as 0.
   */
  lemma RestoreUserRow(t: Tables, f: Files, k: Val)
    requires AllPresent(f) && k in UserIds(f.users.value)
    ensures k in RestoreSpec(t, f).users
    ensures var u := f.users.value[LastUser(f.users.value, k)];
      && RestoreSpec(t, f).users[k] == UserRowOf(u)
      && (!Truthy(u.gems) ==> RestoreSpec(t, f).users[k].gems == Num(0.0))
      && (!Truthy(u.crimson) ==> RestoreSpec(t, f).users[k].crimson == Num(0.0))
  {
    var afterWaifus := t.(waifus := WaifuStage(t.waifus, f.waifus.value));
    UserStageAt(afterWaifus, f.users.value, k);
  }

  /** Running the restore twice with the same files leaves the same tables as running it once. */
  lemma RestoreIdempotent(t: Tables, f: Files)
    ensures RestoreSpec(RestoreSpec(t, f), f) == RestoreSpec(t, f)
  {
    if AllPresent(f) {
      var once := RestoreSpec(t, f);
      var twice := RestoreSpec(once, f);
      RestoreTables(t, f);
      RestoreTables(once, f);
      WaifuStageIdempotent(t.waifus, f.waifus.value);
      assert twice.waifus == once.waifus;
      var w1 := t.(waifus := WaifuStage(t.waifus, f.waifus.value));
      var w2 := once.(waifus := WaifuStage(once.waifus, f.waifus.value));
      assert once.users == UserStage(w1, f.users.value).users;
      assert twice.users == UserStage(w2, f.users.value).users;
      UserStageUsersStable(w1, w2, f.users.value);
      assert twice.users == once.users;
      assert twice.harem == once.harem;
      assert twice.roles == once.roles;
    }
  }


  /**
   A waifu restored into empty tables holds exactly its record's values; a
   second run whose file changes its price and its `created_at` updates the
   price and keeps the first `created_at`.
   */
  lemma AquaScenario()
    ensures
      var aqua := WaifuRecord(Str("w1"), Str("Aqua"), Null, Str("SSR"), Null, Num(100.0), Bool(false), Null, Str("t0"));
      var files := Files(Some([]), Some([aqua]), Some(BotData(None)));
      var once := RestoreSpec(Tables(map[], map[], {}, {}), files);
      var repriced := aqua.(price := Num(150.0), createdAt := Str("t1"));
      var twice := RestoreSpec(once, files.(waifus := Some([repriced])));
      && once.waifus == map[Str("w1") := WaifuRow(Str("Aqua"), Null, Str("SSR"), Null, Num(100.0), Bool(false), Null, Str("t0"))]
      && twice.waifus == map[Str("w1") := once.waifus[Str("w1")].(price := Num(150.0))]
  {
    var aqua := WaifuRecord(Str("w1"), Str("Aqua"), Null, Str("SSR"), Null, Num(100.0), Bool(false), Null, Str("t0"));
    var repriced := aqua.(price := Num(150.0), createdAt := Str("t1"));
    var empty := Tables(map[], map[], {}, {});
    var files := Files(Some([]), Some([aqua]), Some(BotData(None)));
    assert [aqua][..0] == [] && [repriced][..0] == [];
    var once := RestoreSpec(empty, files);
    RestoreTables(empty, files);
    assert WaifuStage(map[], [aqua]) == UpsertWaifuRow(WaifuStage(map[], []), aqua);
    assert once.waifus == map[Str("w1") := WaifuRow(Str("Aqua"), Null, Str("SSR"), Null, Num(100.0), Bool(false), Null, Str("t0"))];
    var twice := RestoreSpec(once, files.(waifus := Some([repriced])));
    RestoreTables(once, files.(waifus := Some([repriced])));
    assert WaifuStage(once.waifus, [repriced]) == UpsertWaifuRow(WaifuStage(once.waifus, []), repriced);
  }

}

/**
 `restoreAllData` as it runs: a database object whose four tables the
 script's loops update one statement at a time. Each method is proved to
 leave the tables its specification function in `Schema` or `Pipeline`
 describes, and to record in `log` exactly the statements it issued.
 */
module RestoreAllData {
  import opened Wrappers
  import opened Json
  import opened Schema
  import opened Pipeline
  import opened Statements

  class Database {
    var waifus: map<Val, WaifuRow>
    var users: map<Val, UserRow>
    var harem: set<(Val, Val)>
    var roles: set<(Val, Val)>
    /** Every statement issued against this database, oldest first. */
    ghost var log: seq<Stmt>

    function Snapshot(): Tables
      reads this
    {
      Tables(waifus, users, harem, roles)
    }

    constructor (initial: Tables)
      ensures Snapshot() == initial && log == []
    {
      waifus, users, harem, roles := initial.waifus, initial.users, initial.harem, initial.roles;
      log := [];
    }

    /** The waifu upsert: on a conflict every column but `created_at` is overwritten. */
    method UpsertWaifu(w: WaifuRecord)
      modifies this
      ensures waifus == UpsertWaifuRow(old(waifus), w)
      ensures w.waifuId in old(waifus) ==> waifus[w.waifuId].createdAt == old(waifus)[w.waifuId].createdAt
      ensures users == old(users) && harem == old(harem) && roles == old(roles)
      ensures log == old(log) + [UpsertWaifuStmt(w)]
    {
      if w.waifuId in waifus {
        var stored := waifus[w.waifuId];
        waifus := waifus[w.waifuId := stored.(name := w.name, anime := w.anime, rarity := w.rarity,
                                              imageFileId := w.imageFileId, price := w.price,
                                              isLocked := w.isLocked, uploadedBy := w.uploadedBy)];
      } else {
        waifus := waifus[w.waifuId := WaifuRow(w.name, w.anime, w.rarity, w.imageFileId, w.price,
                                               w.isLocked, w.uploadedBy, w.createdAt)];
      }
      log := log + [UpsertWaifuStmt(w)];
    }

    /** The user upsert: insert or overwrite all ten columns, `gems` and `crimson` defaulting to 0. */
    method UpsertUser(u: UserRecord)
      modifies this
      ensures users == UpsertUserRow(old(users), u)
      ensures users[u.userId].gems == OrZero(u.gems) && users[u.userId].crimson == OrZero(u.crimson)
      ensures waifus == old(waifus) && harem == old(harem) && roles == old(roles)
      ensures log == old(log) + [UpsertUserStmt(u)]
    {
      users := users[u.userId := UserRowOf(u)];
      log := log + [UpsertUserStmt(u)];
    }

    /** `INSERT INTO harem ... ON CONFLICT DO NOTHING`. */
    method InsertHarem(userId: Val, waifuId: Val)
      modifies this
      ensures harem == old(harem) + {(userId, waifuId)}
      ensures waifus == old(waifus) && users == old(users) && roles == old(roles)
      ensures log == old(log) + [InsertHaremStmt(userId, waifuId)]
    {
      if (userId, waifuId) !in harem {
        harem := harem + {(userId, waifuId)};
      }
      log := log + [InsertHaremStmt(userId, waifuId)];
    }

    /** `INSERT INTO roles ... ON CONFLICT DO NOTHING`. */
    method InsertRole(userId: Val, roleType: Val)
      modifies this
      ensures roles == old(roles) + {(userId, roleType)}
      ensures waifus == old(waifus) && users == old(users) && harem == old(harem)
      ensures log == old(log) + [InsertRoleStmt(userId, roleType)]
    {
      if (userId, roleType) !in roles {
        roles := roles + {(userId, roleType)};
      }
      log := log + [InsertRoleStmt(userId, roleType)];
    }

    /** The waifu loop. */
    method RestoreWaifus(recs: seq<WaifuRecord>)
      modifies this
      ensures waifus == WaifuStage(old(waifus), recs)
      ensures users == old(users) && harem == old(harem) && roles == old(roles)
      ensures log == old(log) + WaifuStmts(recs)
    {
      for i := 0 to |recs|
        invariant waifus == WaifuStage(old(waifus), recs[..i])
        invariant users == old(users) && harem == old(harem) && roles == old(roles)
        invariant log == old(log) + WaifuStmts(recs[..i])
      {
        assert recs[..i + 1][..i] == recs[..i];
        AppendAssoc(old(log), WaifuStmts(recs[..i]), [UpsertWaifuStmt(recs[i])]);
        UpsertWaifu(recs[i]);
      }
      assert recs[..|recs|] == recs;
    }

    /** The harem loop of one user, entered only when the list is present and non-empty. */
    method RestoreHarem(userId: Val, harem': Option<seq<Val>>)
      modifies this
      ensures harem == InsertPairs(old(harem), userId, Entries(harem'))
      ensures waifus == old(waifus) && users == old(users) && roles == old(roles)
      ensures log == old(log) + HaremStmts(userId, Entries(harem'))
    {
      if harem'.Some? && |harem'.value| > 0 {
        var entries := harem'.value;
        for j := 0 to |entries|
          invariant harem == InsertPairs(old(harem), userId, entries[..j])
          invariant waifus == old(waifus) && users == old(users) && roles == old(roles)
          invariant log == old(log) + HaremStmts(userId, entries[..j])
        {
          assert entries[..j + 1][..j] == entries[..j];
          AppendAssoc(old(log), HaremStmts(userId, entries[..j]), [InsertHaremStmt(userId, entries[j])]);
          InsertHarem(userId, entries[j]);
        }
        assert entries[..|entries|] == entries;
      }
    }

    /** The role loop of one user, entered only when the list is present and non-empty. */
    method RestoreUserRoles(userId: Val, roles': Option<seq<Val>>)
      modifies this
      ensures roles == InsertPairs(old(roles), userId, Entries(roles'))
      ensures waifus == old(waifus) && users == old(users) && harem == old(harem)
      ensures log == old(log) + RoleStmts(userId, Entries(roles'))
    {
      if roles'.Some? && |roles'.value| > 0 {
        var roleTypes := roles'.value;
        for j := 0 to |roleTypes|
          invariant roles == InsertPairs(old(roles), userId, roleTypes[..j])
          invariant waifus == old(waifus) && users == old(users) && harem == old(harem)
          invariant log == old(log) + RoleStmts(userId, roleTypes[..j])
        {
          assert roleTypes[..j + 1][..j] == roleTypes[..j];
          AppendAssoc(old(log), RoleStmts(userId, roleTypes[..j]), [InsertRoleStmt(userId, roleTypes[j])]);
          InsertRole(userId, roleTypes[j]);
        }
        assert roleTypes[..|roleTypes|] == roleTypes;
      }
    }

    /** One iteration of the user loop: the user's upsert, then its harem links, then its roles. */
    method RestoreUser(user: UserRecord)
      modifies this
      ensures Snapshot() == UserStep(old(Snapshot()), user)
      ensures log == old(log) + UserStmts(user)
    {
      ghost var links := HaremStmts(user.userId, Entries(user.harem));
      ghost var grants := RoleStmts(user.userId, Entries(user.roles));
      AppendAssoc(old(log), [UpsertUserStmt(user)], links);
      AppendAssoc(old(log), [UpsertUserStmt(user)] + links, grants);
      UpsertUser(user);
      RestoreHarem(user.userId, user.harem);
      RestoreUserRoles(user.userId, user.roles);
    }

    /** The user loop. */
    method RestoreUsers(list: seq<UserRecord>)
      modifies this
      ensures Snapshot() == UserStage(old(Snapshot()), list)
      ensures log == old(log) + UsersStmts(list)
    {
      ghost var start := Snapshot();
      for i := 0 to |list|
        invariant Snapshot() == UserStage(start, list[..i])
        invariant log == old(log) + UsersStmts(list[..i])
      {
        assert list[..i + 1][..i] == list[..i];
        AppendAssoc(old(log), UsersStmts(list[..i]), UserStmts(list[i]));
        RestoreUser(list[i]);
      }
      assert list[..|list|] == list;
    }

    /**
     One loop of the bot-data backfill, granting `tag` to each entry. With
     `checked`, an entry whose user_id is falsy is skipped, as the sudo and
     uploader loops do; the developer loop has no such check.
     */
    method GrantAll(ids: seq<Val>, tag: string, checked: bool)
      modifies this
      ensures roles == GrantRoles(old(roles), ids, tag, checked)
      ensures waifus == old(waifus) && users == old(users) && harem == old(harem)
      ensures log == old(log) + GrantStmts(ids, tag, checked)
    {
      for i := 0 to |ids|
        invariant roles == GrantRoles(old(roles), ids[..i], tag, checked)
        invariant waifus == old(waifus) && users == old(users) && harem == old(harem)
        invariant log == old(log) + GrantStmts(ids[..i], tag, checked)
      {
        assert ids[..i + 1][..i] == ids[..i];
        AppendAssoc(old(log), GrantStmts(ids[..i], tag, checked), [InsertRoleStmt(ids[i], Str(tag))]);
        if !checked || Truthy(ids[i]) {
          InsertRole(ids[i], Str(tag));
        }
      }
      assert ids[..|ids|] == ids;
    }

    /** The bot-data backfill, skipped when the document has no `roles` object. */
    method RestoreBotRoles(admin: Option<AdminRoles>)
      modifies this
      ensures roles == Backfill(old(roles), admin)
      ensures waifus == old(waifus) && users == old(users) && harem == old(harem)
      ensures log == old(log) + BackfillStmts(admin)
    {
      if admin.Some? {
        var a := admin.value;
        ghost var devs := GrantStmts(Entries(a.developers), "dev", false);
        ghost var sudos := GrantStmts(Entries(a.sudos), "sudo", true);
        AppendAssoc(old(log), devs, sudos);
        AppendAssoc(old(log), devs + sudos, GrantStmts(Entries(a.uploaders), "uploader", true));
        GrantAll(Entries(a.developers), "dev", false);
        GrantAll(Entries(a.sudos), "sudo", true);
        GrantAll(Entries(a.uploaders), "uploader", true);
      }
    }

    /**
     `restoreAllData`: nothing is written unless all three files exist; then
     waifus, then users with their links and roles, then the backfill.
     */
    method Restore(files: Files)
      modifies this
      ensures Snapshot() == RestoreSpec(old(Snapshot()), files)
      ensures log == old(log) + Trace(files)
      ensures !AllPresent(files) ==> Snapshot() == old(Snapshot()) && log == old(log)
    {
      if files.users.None? || files.waifus.None? || files.bot.None? {
        return;
      }
      ghost var ws := WaifuStmts(files.waifus.value);
      ghost var us := UsersStmts(files.users.value);
      AppendAssoc(old(log), ws, us);
      AppendAssoc(old(log), ws + us, BackfillStmts(files.bot.value.roles));
      RestoreWaifus(files.waifus.value);
      RestoreUsers(files.users.value);
      RestoreBotRoles(files.bot.value.roles);
    }
  }

}

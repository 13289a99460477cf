/**
 The SQL statements `restoreAllData` issues, in the order it issues them,
 and their effect one at a time. `Run(t, Trace(f))` is a second, statement
 by statement, definition of the restore; `RunTrace` proves it equal to the
 stage-level `RestoreSpec`, and the ordering lemmas say which statements
 come before which.
 */
module Statements {
  import opened Wrappers
  import opened Json
  import opened Schema
  import opened Pipeline

  datatype Stmt =
    | UpsertWaifuStmt(waifu: WaifuRecord)
    | UpsertUserStmt(user: UserRecord)
    | InsertHaremStmt(userId: Val, waifuId: Val)
    | InsertRoleStmt(userId: Val, roleType: Val)

  /** The effect of one statement on the tables. */
  function Apply(t: Tables, s: Stmt): Tables
  {
    match s
    case UpsertWaifuStmt(w) => t.(waifus := UpsertWaifuRow(t.waifus, w))
    case UpsertUserStmt(u) => t.(users := UpsertUserRow(t.users, u))
    case InsertHaremStmt(u, w) => t.(harem := t.harem + {(u, w)})
    case InsertRoleStmt(u, r) => t.(roles := t.roles + {(u, r)})
  }

  /** The effect of a sequence of statements issued one after another. */
  function Run(t: Tables, ss: seq<Stmt>): Tables
  {
    if ss == [] then t else Apply(Run(t, ss[..|ss| - 1]), ss[|ss| - 1])
  }

  function WaifuStmts(recs: seq<WaifuRecord>): seq<Stmt>
  {
    if recs == [] then [] else WaifuStmts(recs[..|recs| - 1]) + [UpsertWaifuStmt(recs[|recs| - 1])]
  }

  function HaremStmts(userId: Val, waifuIds: seq<Val>): seq<Stmt>
  {
    if waifuIds == [] then []
    else HaremStmts(userId, waifuIds[..|waifuIds| - 1]) + [InsertHaremStmt(userId, waifuIds[|waifuIds| - 1])]
  }

  function RoleStmts(userId: Val, roleTypes: seq<Val>): seq<Stmt>
  {
    if roleTypes == [] then []
    else RoleStmts(userId, roleTypes[..|roleTypes| - 1]) + [InsertRoleStmt(userId, roleTypes[|roleTypes| - 1])]
  }

  /** The statements of one iteration of the user loop. */
  function UserStmts(u: UserRecord): seq<Stmt>
  {
    [UpsertUserStmt(u)] + HaremStmts(u.userId, Entries(u.harem)) + RoleStmts(u.userId, Entries(u.roles))
  }

  function UsersStmts(users: seq<UserRecord>): seq<Stmt>
  {
    if users == [] then [] else UsersStmts(users[..|users| - 1]) + UserStmts(users[|users| - 1])
  }

  /** The statements of one loop over an administrative list: none for an entry that is not admitted. */
  function GrantStmts(ids: seq<Val>, tag: string, checked: bool): seq<Stmt>
  {
    if ids == [] then []
    else
      var id := ids[|ids| - 1];
      GrantStmts(ids[..|ids| - 1], tag, checked) + (if Admitted(id, checked) then [InsertRoleStmt(id, Str(tag))] else [])
  }

  function BackfillStmts(admin: Option<AdminRoles>): seq<Stmt>
  {
    match admin
    case None => []
    case Some(a) =>
      GrantStmts(Entries(a.developers), "dev", false)
      + GrantStmts(Entries(a.sudos), "sudo", true)
      + GrantStmts(Entries(a.uploaders), "uploader", true)
  }

  /** Every statement one run issues: none when a file is missing. */
  function Trace(f: Files): seq<Stmt>
  {
    if !AllPresent(f) then []
    else WaifuStmts(f.waifus.value) + UsersStmts(f.users.value) + BackfillStmts(f.bot.value.roles)
  }

  // ------------------------------------------------------------ semantics

  /** Regrouping a log; stated once so that the methods extending a log need not rediscover it. */
  lemma AppendAssoc(a: seq<Stmt>, b: seq<Stmt>, c: seq<Stmt>)
    ensures a + b + c == a + (b + c)
  {
  }

  lemma {:induction false} RunAppend(t: Tables, a: seq<Stmt>, b: seq<Stmt>)
    ensures Run(t, a + b) == Run(Run(t, a), b)
  {
    if b != [] {
      var n := |b| - 1;
      RunAppend(t, a, b[..n]);
      assert (a + b)[..|a + b| - 1] == a + b[..n];
    } else {
      assert a + b == a;
    }
  }

  lemma {:induction false} RunWaifuStmts(t: Tables, recs: seq<WaifuRecord>)
    ensures Run(t, WaifuStmts(recs)) == t.(waifus := WaifuStage(t.waifus, recs))
  {
    if recs != [] {
      var n := |recs| - 1;
      RunWaifuStmts(t, recs[..n]);
      RunAppend(t, WaifuStmts(recs[..n]), [UpsertWaifuStmt(recs[n])]);
    }
  }

  lemma {:induction false} RunHaremStmts(t: Tables, userId: Val, waifuIds: seq<Val>)
    ensures Run(t, HaremStmts(userId, waifuIds)) == t.(harem := InsertPairs(t.harem, userId, waifuIds))
  {
    if waifuIds != [] {
      var n := |waifuIds| - 1;
      RunHaremStmts(t, userId, waifuIds[..n]);
      RunAppend(t, HaremStmts(userId, waifuIds[..n]), [InsertHaremStmt(userId, waifuIds[n])]);
    }
  }

  lemma {:induction false} RunRoleStmts(t: Tables, userId: Val, roleTypes: seq<Val>)
    ensures Run(t, RoleStmts(userId, roleTypes)) == t.(roles := InsertPairs(t.roles, userId, roleTypes))
  {
    if roleTypes != [] {
      var n := |roleTypes| - 1;
      RunRoleStmts(t, userId, roleTypes[..n]);
      RunAppend(t, RoleStmts(userId, roleTypes[..n]), [InsertRoleStmt(userId, roleTypes[n])]);
    }
  }

  lemma RunUserStmts(t: Tables, u: UserRecord)
    ensures Run(t, UserStmts(u)) == UserStep(t, u)
  {
    var head := [UpsertUserStmt(u)];
    var links := HaremStmts(u.userId, Entries(u.harem));
    var grants := RoleStmts(u.userId, Entries(u.roles));
    RunAppend(t, head + links, grants);
    RunAppend(t, head, links);
    assert Run(t, head) == t.(users := UpsertUserRow(t.users, u)) by {
      assert head[..0] == [];
    }
    RunHaremStmts(Run(t, head), u.userId, Entries(u.harem));
    RunRoleStmts(Run(t, head + links), u.userId, Entries(u.roles));
  }

  lemma {:induction false} RunUsersStmts(t: Tables, users: seq<UserRecord>)
    ensures Run(t, UsersStmts(users)) == UserStage(t, users)
  {
    if users != [] {
      var n := |users| - 1;
      RunUsersStmts(t, users[..n]);
      RunAppend(t, UsersStmts(users[..n]), UserStmts(users[n]));
      RunUserStmts(UserStage(t, users[..n]), users[n]);
    }
  }

  lemma {:induction false} RunGrantStmts(t: Tables, ids: seq<Val>, tag: string, checked: bool)
    ensures Run(t, GrantStmts(ids, tag, checked)) == t.(roles := GrantRoles(t.roles, ids, tag, checked))
  {
    if ids != [] {
      var n := |ids| - 1;
      var id := ids[n];
      RunGrantStmts(t, ids[..n], tag, checked);
      var last := if Admitted(id, checked) then [InsertRoleStmt(id, Str(tag))] else [];
      RunAppend(t, GrantStmts(ids[..n], tag, checked), last);
      assert last != [] ==> last[..0] == [];
    }
  }

  lemma RunBackfillStmts(t: Tables, admin: Option<AdminRoles>)
    ensures Run(t, BackfillStmts(admin)) == t.(roles := Backfill(t.roles, admin))
  {
    if admin.Some? {
      var a := admin.value;
      var devs := GrantStmts(Entries(a.developers), "dev", false);
      var sudos := GrantStmts(Entries(a.sudos), "sudo", true);
      var uploaders := GrantStmts(Entries(a.uploaders), "uploader", true);
      RunAppend(t, devs + sudos, uploaders);
      RunAppend(t, devs, sudos);
      RunGrantStmts(t, Entries(a.developers), "dev", false);
      RunGrantStmts(Run(t, devs), Entries(a.sudos), "sudo", true);
      RunGrantStmts(Run(t, devs + sudos), Entries(a.uploaders), "uploader", true);
    }
  }

  /** Issuing the statements of `Trace(f)` one by one leaves the tables `RestoreSpec` describes. */
  lemma RunTrace(t: Tables, f: Files)
    ensures Run(t, Trace(f)) == RestoreSpec(t, f)
  {
    if AllPresent(f) {
      var ws := WaifuStmts(f.waifus.value);
      var us := UsersStmts(f.users.value);
      var bs := BackfillStmts(f.bot.value.roles);
      RunAppend(t, ws + us, bs);
      RunAppend(t, ws, us);
      RunWaifuStmts(t, f.waifus.value);
      RunUsersStmts(Run(t, ws), f.users.value);
      RunBackfillStmts(Run(t, ws + us), f.bot.value.roles);
    }
  }

  // ------------------------------------------------------------- ordering

  lemma {:induction false} WaifuStmtsAreUpserts(recs: seq<WaifuRecord>)
    ensures |WaifuStmts(recs)| == |recs|
    ensures forall i :: 0 <= i < |recs| ==> WaifuStmts(recs)[i] == UpsertWaifuStmt(recs[i])
  {
    if recs != [] {
      WaifuStmtsAreUpserts(recs[..|recs| - 1]);
    }
  }

  lemma {:induction false} HaremStmtsAt(userId: Val, waifuIds: seq<Val>)
    ensures |HaremStmts(userId, waifuIds)| == |waifuIds|
    ensures forall i :: 0 <= i < |waifuIds| ==> HaremStmts(userId, waifuIds)[i] == InsertHaremStmt(userId, waifuIds[i])
  {
    if waifuIds != [] {
      HaremStmtsAt(userId, waifuIds[..|waifuIds| - 1]);
    }
  }

  lemma {:induction false} RoleStmtsAt(userId: Val, roleTypes: seq<Val>)
    ensures |RoleStmts(userId, roleTypes)| == |roleTypes|
    ensures forall i :: 0 <= i < |roleTypes| ==> RoleStmts(userId, roleTypes)[i] == InsertRoleStmt(userId, roleTypes[i])
  {
    if roleTypes != [] {
      RoleStmtsAt(userId, roleTypes[..|roleTypes| - 1]);
    }
  }

  /** Whether statement `i` of `ss` upserts the user whose id statement `j` uses. */
  predicate UpsertsUserOf(ss: seq<Stmt>, i: nat, j: nat)
    requires i < |ss| && j < |ss| && ss[j].InsertHaremStmt?
  {
    ss[i].UpsertUserStmt? && ss[i].user.userId == ss[j].userId
  }

  /**
   In the user loop's statements no waifu is upserted, and every harem
   insert comes after an upsert of the user it links.
   */
  lemma {:induction false} UsersStmtsOrder(users: seq<UserRecord>)
    ensures forall j :: 0 <= j < |UsersStmts(users)| ==> !UsersStmts(users)[j].UpsertWaifuStmt?
    ensures forall j :: 0 <= j < |UsersStmts(users)| && UsersStmts(users)[j].InsertHaremStmt? ==>
      exists i :: 0 <= i < j && UpsertsUserOf(UsersStmts(users), i, j)
  {
    if users != [] {
      var n := |users| - 1;
      var front, u := users[..n], users[n];
      UsersStmtsOrder(front);
      HaremStmtsAt(u.userId, Entries(u.harem));
      RoleStmtsAt(u.userId, Entries(u.roles));
      var before, mine := UsersStmts(front), UserStmts(u);
      var all := UsersStmts(users);
      assert all == before + mine;
      var links := HaremStmts(u.userId, Entries(u.harem));
      var grants := RoleStmts(u.userId, Entries(u.roles));
      assert mine == [UpsertUserStmt(u)] + links + grants;
      forall j | 0 <= j < |all| ensures !all[j].UpsertWaifuStmt? {
        if j >= |before| {
          var k := j - |before|;
          assert all[j] == mine[k];
        }
      }
      forall j | 0 <= j < |all| && all[j].InsertHaremStmt?
        ensures exists i :: 0 <= i < j && UpsertsUserOf(all, i, j)
      {
        if j < |before| {
          assert all[j] == before[j];
          var i :| 0 <= i < j && UpsertsUserOf(before, i, j);
          assert all[i] == before[i];
          assert UpsertsUserOf(all, i, j);
        } else {
          var k := j - |before|;
          assert all[j] == mine[k];
          assert all[|before|] == mine[0];
          assert mine[k] == links[k - 1];
          assert UpsertsUserOf(all, |before|, j);
        }
      }
    }
  }

  lemma {:induction false} GrantStmtsAreRoles(ids: seq<Val>, tag: string, checked: bool)
    ensures forall j :: 0 <= j < |GrantStmts(ids, tag, checked)| ==> GrantStmts(ids, tag, checked)[j].InsertRoleStmt?
  {
    if ids != [] {
      GrantStmtsAreRoles(ids[..|ids| - 1], tag, checked);
    }
  }

  /**
   Every waifu upsert of a run precedes every harem insert, and every harem
   insert follows an upsert of the user it links.
   */
  lemma TraceOrder(f: Files)
    ensures forall i, j ::
      (0 <= i < |Trace(f)| && 0 <= j < |Trace(f)| &&
       Trace(f)[i].UpsertWaifuStmt? && Trace(f)[j].InsertHaremStmt?) ==> i < j
    ensures forall j :: 0 <= j < |Trace(f)| && Trace(f)[j].InsertHaremStmt? ==>
      exists i :: 0 <= i < j && UpsertsUserOf(Trace(f), i, j)
  {
    if AllPresent(f) {
      var ws := WaifuStmts(f.waifus.value);
      var us := UsersStmts(f.users.value);
      var bs := BackfillStmts(f.bot.value.roles);
      var tr := Trace(f);
      assert tr == ws + us + bs;
      WaifuStmtsAreUpserts(f.waifus.value);
      UsersStmtsOrder(f.users.value);
      assert forall j :: 0 <= j < |bs| ==> bs[j].InsertRoleStmt? by {
        if f.bot.value.roles.Some? {
          var a := f.bot.value.roles.value;
          GrantStmtsAreRoles(Entries(a.developers), "dev", false);
          GrantStmtsAreRoles(Entries(a.sudos), "sudo", true);
          GrantStmtsAreRoles(Entries(a.uploaders), "uploader", true);
        }
      }
      forall j | 0 <= j < |tr| && tr[j].InsertHaremStmt?
        ensures |ws| <= j < |ws| + |us|
        ensures exists i :: 0 <= i < j && UpsertsUserOf(tr, i, j)
      {
        var k := j - |ws|;
        assert tr[j] == us[k];
        var i :| 0 <= i < k && UpsertsUserOf(us, i, k);
        assert tr[|ws| + i] == us[i];
        assert UpsertsUserOf(tr, |ws| + i, j);
      }
      assert forall i :: 0 <= i < |tr| && tr[i].UpsertWaifuStmt? ==> i < |ws|;
    }
  }
}

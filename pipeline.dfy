/**
 The three stages of `restoreAllData` as functions on `Tables`, each a fold
 over its input list in the order the script's loops visit it, and the whole
 pipeline `RestoreSpec`, guarded by the check that all three files exist.
 */
module Pipeline {
  import opened Wrappers
  import opened Json
  import opened Schema

  /**
   An optional list as the script iterates it: `list || []` for the
   administrative lists, and `if (list && list.length > 0)` around the
   harem and role loops, both of which visit nothing when it is absent.
   */
  function Entries(list: Option<seq<Val>>): seq<Val>
  {
    match list
    case None => []
    case Some(s) => s
  }

  /** The waifu loop: one upsert per record, in order. */
  function WaifuStage(waifus: map<Val, WaifuRow>, recs: seq<WaifuRecord>): map<Val, WaifuRow>
  {
    if recs == [] then waifus
    else UpsertWaifuRow(WaifuStage(waifus, recs[..|recs| - 1]), recs[|recs| - 1])
  }

  /** `INSERT ... VALUES (key, x) ON CONFLICT DO NOTHING` for each `x` of `xs`, in order. */
  function InsertPairs(s: set<(Val, Val)>, key: Val, xs: seq<Val>): set<(Val, Val)>
  {
    if xs == [] then s
    else InsertPairs(s, key, xs[..|xs| - 1]) + {(key, xs[|xs| - 1])}
  }

  /** One iteration of the user loop: the user upsert, then its harem links, then its roles. */
  function UserStep(t: Tables, u: UserRecord): Tables
  {
    t.(users := UpsertUserRow(t.users, u),
       harem := InsertPairs(t.harem, u.userId, Entries(u.harem)),
       roles := InsertPairs(t.roles, u.userId, Entries(u.roles)))
  }

  /** The user loop. */
  function UserStage(t: Tables, users: seq<UserRecord>): Tables
  {
    if users == [] then t
    else UserStep(UserStage(t, users[..|users| - 1]), users[|users| - 1])
  }

  /** Whether an administrative entry with this `user_id` gets its role: developers always, the other lists only when the id is truthy. */
  predicate Admitted(id: Val, checked: bool)
  {
    !checked || Truthy(id)
  }

  /** One loop over an administrative list, granting `tag` to each admitted entry. */
  function GrantRoles(roles: set<(Val, Val)>, ids: seq<Val>, tag: string, checked: bool): set<(Val, Val)>
  {
    if ids == [] then roles
    else
      var before := GrantRoles(roles, ids[..|ids| - 1], tag, checked);
      var id := ids[|ids| - 1];
      if Admitted(id, checked) then before + {(id, Str(tag))} else before
  }

  /** The bot-data backfill: skipped without a `roles` object; developers unchecked, sudos and uploaders checked. */
  function Backfill(roles: set<(Val, Val)>, admin: Option<AdminRoles>): set<(Val, Val)>
  {
    match admin
    case None => roles
    case Some(a) =>
      var afterDevs := GrantRoles(roles, Entries(a.developers), "dev", false);
      var afterSudos := GrantRoles(afterDevs, Entries(a.sudos), "sudo", true);
      GrantRoles(afterSudos, Entries(a.uploaders), "uploader", true)
  }

  /** The existence check on the three files. */
  predicate AllPresent(f: Files)
  {
    f.users.Some? && f.waifus.Some? && f.bot.Some?
  }

  /** `restoreAllData` as a function of the tables it starts from. */
  function RestoreSpec(t: Tables, f: Files): Tables
  {
    if !AllPresent(f) then t
    else
      var afterWaifus := t.(waifus := WaifuStage(t.waifus, f.waifus.value));
      var afterUsers := UserStage(afterWaifus, f.users.value);
      afterUsers.(roles := Backfill(afterUsers.roles, f.bot.value.roles))
  }

}

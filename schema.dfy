/**
 The four tables the restore script writes, the records it reads from its
 three JSON documents, and the effect of each kind of SQL statement it issues
 on the tables. Ids, timestamps and prices are opaque values: only equality
 of keys matters.
 */
module Schema {
  import opened Wrappers
  import opened Json

  /** One element of the `waifus` list of the waifu document. */
  datatype WaifuRecord = WaifuRecord(
    waifuId: Val, name: Val, anime: Val, rarity: Val, imageFileId: Val,
    price: Val, isLocked: Val, uploadedBy: Val, createdAt: Val)

  /** A row of the `waifus` table without its key `waifu_id`. */
  datatype WaifuRow = WaifuRow(
    name: Val, anime: Val, rarity: Val, imageFileId: Val,
    price: Val, isLocked: Val, uploadedBy: Val, createdAt: Val)

  /**
   One element of the `users` list of the user document. `harem` holds the
   `waifu_id` of each entry of the optional `harem` list, `roles` the optional
   list of role names.
   */
  datatype UserRecord = UserRecord(
    userId: Val, username: Val, firstName: Val, berries: Val, gems: Val,
    crimson: Val, dailyStreak: Val, weeklyStreak: Val, lastDailyClaim: Val,
    lastWeeklyClaim: Val, favoriteWaifuId: Val,
    harem: Option<seq<Val>>, roles: Option<seq<Val>>)

  /** A row of the `users` table without its key `user_id`: ten columns. */
  datatype UserRow = UserRow(
    username: Val, firstName: Val, berries: Val, gems: Val, crimson: Val,
    dailyStreak: Val, weeklyStreak: Val, lastDailyClaim: Val,
    lastWeeklyClaim: Val, favoriteWaifuId: Val)

  /** The `roles` object of the bot document; each list holds the `user_id` of its entries. */
  datatype AdminRoles = AdminRoles(
    developers: Option<seq<Val>>, sudos: Option<seq<Val>>, uploaders: Option<seq<Val>>)

  /** The bot document, whose `roles` object may be absent. */
  datatype BotData = BotData(roles: Option<AdminRoles>)

  /** The three input documents, each `None` when its file does not exist. */
  datatype Files = Files(
    users: Option<seq<UserRecord>>, waifus: Option<seq<WaifuRecord>>, bot: Option<BotData>)

  /**
   The database: `waifus` and `users` keyed by their primary keys, `harem`
   and `roles` as sets of (user_id, waifu_id) and (user_id, role_type) pairs.
   */
  datatype Tables = Tables(
    waifus: map<Val, WaifuRow>, users: map<Val, UserRow>,
    harem: set<(Val, Val)>, roles: set<(Val, Val)>)

  /** The seven columns that the waifu upsert's DO UPDATE clause sets hold the record's values. */
  predicate Carries(row: WaifuRow, w: WaifuRecord)
  {
    && row.name == w.name && row.anime == w.anime && row.rarity == w.rarity
    && row.imageFileId == w.imageFileId && row.price == w.price
    && row.isLocked == w.isLocked && row.uploadedBy == w.uploadedBy
  }

  /**
   `INSERT INTO waifus (...nine columns...) VALUES (...) ON CONFLICT (waifu_id)
   DO UPDATE SET` every column but `waifu_id` and `created_at`.
   */
  function UpsertWaifuRow(waifus: map<Val, WaifuRow>, w: WaifuRecord): (r: map<Val, WaifuRow>)
    ensures r.Keys == waifus.Keys + {w.waifuId}
    ensures Carries(r[w.waifuId], w)
    ensures w.waifuId in waifus ==> r[w.waifuId].createdAt == waifus[w.waifuId].createdAt
    ensures w.waifuId !in waifus ==> r[w.waifuId].createdAt == w.createdAt
    ensures forall k :: k in waifus && k != w.waifuId ==> r[k] == waifus[k]
  {
    var row :=
      if w.waifuId in waifus then
        waifus[w.waifuId].(name := w.name, anime := w.anime, rarity := w.rarity,
                           imageFileId := w.imageFileId, price := w.price,
                           isLocked := w.isLocked, uploadedBy := w.uploadedBy)
      else
        WaifuRow(w.name, w.anime, w.rarity, w.imageFileId, w.price,
                 w.isLocked, w.uploadedBy, w.createdAt);
    waifus[w.waifuId := row]
  }

  /**
   The ten non-key values the user upsert passes, with `gems` and `crimson`
   written as `user.gems || 0` and `user.crimson || 0`.
   */
  function UserRowOf(u: UserRecord): (r: UserRow)
    ensures r.gems == OrZero(u.gems) && r.crimson == OrZero(u.crimson)
    ensures r.username == u.username && r.firstName == u.firstName && r.berries == u.berries
    ensures r.dailyStreak == u.dailyStreak && r.weeklyStreak == u.weeklyStreak
    ensures r.lastDailyClaim == u.lastDailyClaim && r.lastWeeklyClaim == u.lastWeeklyClaim
    ensures r.favoriteWaifuId == u.favoriteWaifuId
  {
    UserRow(u.username, u.firstName, u.berries, OrZero(u.gems), OrZero(u.crimson),
            u.dailyStreak, u.weeklyStreak, u.lastDailyClaim, u.lastWeeklyClaim,
            u.favoriteWaifuId)
  }

  /**
   `INSERT INTO users (...eleven columns...) VALUES (...) ON CONFLICT (user_id)
   DO UPDATE SET` all ten non-key columns: the stored row is the incoming one
   whether or not the key existed.
   */
  function UpsertUserRow(users: map<Val, UserRow>, u: UserRecord): (r: map<Val, UserRow>)
    ensures r.Keys == users.Keys + {u.userId}
    ensures r[u.userId] == UserRowOf(u)
    ensures forall k :: k in users && k != u.userId ==> r[k] == users[k]
  {
    users[u.userId := UserRowOf(u)]
  }

}

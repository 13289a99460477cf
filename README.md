# restoreAllData, modelled in Dafny

`restore_all_data.js` restores a collectible-card bot's data from three JSON
exports into four PostgreSQL tables. It first checks that the user, waifu and
bot-data files exist and stops without writing if any is missing. Then it
runs three loops of SQL statements, one statement at a time:

1. one `INSERT ... ON CONFLICT (waifu_id) DO UPDATE` per waifu. On a conflict
   it overwrites every column except `created_at`;
2. per user, one `INSERT ... ON CONFLICT (user_id) DO UPDATE` that overwrites
   all ten columns, with `gems` and `crimson` written as `x || 0`. Then one
   `INSERT ... ON CONFLICT DO NOTHING` into `harem` per entry of the user's
   optional `harem` list, and one into `roles` per entry of the optional
   `roles` list;
3. if the bot document has a `roles` object, one role insert per entry of
   its `developers`, `sudos` and `uploaders` lists. A missing list counts as
   empty. Sudo and uploader entries with a falsy `user_id` are skipped.
   Developer entries are inserted without that check.

The model:

- `Json` — the scalar values the script passes as query parameters, with
  JavaScript truthiness and `v || 0`.
- `Schema` — the input records, the table rows, the database as a `Tables`
  value, and the effect of each upsert on its table.
- `Pipeline` — the three loops as folds over their input lists, and
  `RestoreSpec`, the whole function guarded by the file check.
- `Properties` — what each stage leaves in each table, stated without the
  folds: which keys exist, which record's values a row holds, which pairs
  are added. Built on these: `created_at` survives conflicts, nothing is
  removed, and a second run with the same files changes nothing.
- `Statements` — the statements a run issues, in order (`Trace`), with their
  one-at-a-time semantics `Run`. `RunTrace` proves `Run(t, Trace(f))` equal to
  `RestoreSpec(t, f)`. The ordering lemmas say that every waifu upsert
  precedes every harem insert, and that every harem insert follows the upsert
  of its user.
- `RestoreAllData.Database` — the script as imperative code: a class holding
  the four tables as `map` and `set` fields. It has one method per statement
  kind and one method per loop, with loop invariants. A ghost `log` records
  every statement issued. `Restore` is proved to leave `RestoreSpec` of the
  old tables and to log exactly `Trace(files)`.

Only the `sudos` and `uploaders` loops check `user_id`; the `developers`
loop inserts an entry whatever its `user_id` (`Properties.BackfillChecks`).

## Model

| member | source | states |
|---|---|---|
| `Json.Truthy` | restore_all_data.js:64 | definition: JavaScript truthiness of a JSON scalar, used by `x \|\| 0` (:64) and by the `user_id` checks (:100, :108). `Json.OrZero` and `Properties.BackfillChecks` are stated with it |
| `Pipeline.AllPresent` | restore_all_data.js:19-26 | definition: all three data files exist. `Properties.RestoreGrows` and `RestoreAllData.Database.Restore` state that nothing is written without it |
| `Pipeline.WaifuStage` | restore_all_data.js:40-51 | definition: the waifu loop as a fold ending at the last record. Described by `Properties.WaifuStageKeys`, `WaifuStageCarries`, `WaifuStageCreatedAt`, `WaifuStageUntouched` and `WaifuStageIdempotent` |
| `Pipeline.InsertPairs` | restore_all_data.js:69-86 | definition: a run of `ON CONFLICT DO NOTHING` inserts of (key, x) pairs. Described by `Properties.InsertPairsUnion` |
| `Pipeline.UserStep` | restore_all_data.js:57-86 | definition: one iteration of the user loop (upsert, harem links, roles). Described by `Statements.RunUserStmts` and, through `UserStage`, by `Properties.UserStageAt` and `UserStagePairs` |
| `Pipeline.UserStage` | restore_all_data.js:56-87 | definition: the user loop as a fold of `UserStep`. Described by `Properties.UserStageKeys`, `UserStagePairs`, `UserStageAt` and `UserStageUsersStable` |
| `Pipeline.Admitted` | restore_all_data.js:100 | definition: an entry passes the `if (x.user_id)` check, which only the sudo and uploader loops apply (:100, :108). `Properties.BackfillChecks` states its effect |
| `Pipeline.GrantRoles` | restore_all_data.js:93-114 | definition: one administrative loop as a fold over its ids. Described by `Properties.GrantRolesUnion` |
| `Pipeline.Backfill` | restore_all_data.js:92-115 | definition: the developer, sudo and uploader loops in order, skipped without a `roles` object. Described by `Properties.BackfillUnion` and `BackfillChecks` |
| `Pipeline.RestoreSpec` | restore_all_data.js:19-115 | definition: the whole script on the tables: nothing without all files, otherwise waifus, then users, then the backfill. Described by `Properties.RestoreTables`, `RestoreGrows`, `RestoreKeepsCreatedAt`, `RestoreUserRow` and `RestoreIdempotent` |
| `Statements.Apply` | restore_all_data.js:41-50 | definition: the effect of one statement: a waifu upsert (:41-50), a user upsert (:57-66), or a harem (:71-74) or role (:81-84) insert. `Statements.RunTrace` ties it to `Pipeline.RestoreSpec` |
| `Statements.Trace` | restore_all_data.js:19-115 | definition: the statements a run issues, in source order. Described by `Statements.RunTrace` and `Statements.TraceOrder` |
| `Json.OrZero` | restore_all_data.js:64 | `v \|\| 0`: a truthy value is kept, a falsy one (absent, null, false, 0, "") becomes 0, and the result is 0 exactly when the input was falsy |
| `Schema.UpsertWaifuRow` | restore_all_data.js:41-50 | the upserted key is added to the keys; its seven updatable columns hold the record's values; `created_at` keeps the stored value on conflict and takes the record's on insert; every other row is unchanged |
| `Schema.UserRowOf` | restore_all_data.js:57-66 | the user row written has `gems` and `crimson` as `x \|\| 0`, and each of the other eight non-key columns (username, first_name, berries, both streaks, both claim times, favorite_waifu_id) as given |
| `Schema.UpsertUserRow` | restore_all_data.js:57-66 | the upserted user id is added to the keys and holds the incoming row whether or not it existed; every other user row is unchanged |
| `Properties.LastWaifu` | restore_all_data.js:40-50 | the position of the last record with a given waifu_id: it carries that id and no later record does |
| `Properties.FirstWaifu` | restore_all_data.js:40-50 | the position of the first record with a given waifu_id: it carries that id and no earlier record does |
| `Properties.WaifuStageKeys` | restore_all_data.js:40-51 | after the waifu loop the keys are exactly the old keys plus every input waifu_id |
| `Properties.WaifuStageUntouched` | restore_all_data.js:40-51 | a stored waifu that no record names is left as it was |
| `Properties.WaifuStageCarries` | restore_all_data.js:42-46 | a waifu named by some record holds the last such record's name, anime, rarity, image_file_id, price, is_locked and uploaded_by |
| `Properties.WaifuStageCreatedAt` | restore_all_data.js:42-46 | a waifu named by some record keeps its stored `created_at` if it existed before the loop, and otherwise gets the first such record's |
| `Properties.WaifuStageAt` | restore_all_data.js:40-51 | the three facts above combined for one key: membership iff old key or input id, content from the last record, `created_at` from the old row or the first record |
| `Properties.WaifuStageIdempotent` | restore_all_data.js:40-51 | running the waifu loop a second time over the same records leaves the table unchanged |
| `Properties.LastUser` | restore_all_data.js:56-66 | the position of the last record with a given user_id: it carries that id and no later record does |
| `Properties.InsertPairsUnion` | restore_all_data.js:69-86 | a run of `ON CONFLICT DO NOTHING` inserts yields the old set plus exactly the (user_id, x) pairs of the list: duplicates collapse and nothing is removed |
| `Properties.UserStageKeys` | restore_all_data.js:56-87 | the user loop leaves `waifus` unchanged, and its user keys are exactly the old keys plus every input user_id |
| `Properties.UserStagePairs` | restore_all_data.js:68-86 | the user loop adds to `harem` and to `roles` exactly the pairs the user document lists, and removes none |
| `Properties.UserStageAt` | restore_all_data.js:56-66 | after the user loop, a listed user holds the row of its last record; an unlisted stored user is unchanged |
| `Properties.UserStageUsersStable` | restore_all_data.js:57-62 | re-running the user loop on a `users` table it already produced leaves `users` unchanged |
| `Properties.GrantRolesUnion` | restore_all_data.js:93-114 | one administrative loop adds exactly the (user_id, tag) pairs of its admitted entries |
| `Properties.BackfillUnion` | restore_all_data.js:92-115 | the backfill adds exactly the developer, sudo and uploader grants of the bot document, and nothing when its `roles` object is absent |
| `Properties.BackfillChecks` | restore_all_data.js:93-112 | a falsy user_id never gains a `sudo` or `uploader` role from the backfill, while every developer entry gains `dev`, falsy id or not |
| `Properties.RestoreTables` | restore_all_data.js:40-115 | with all files present, one run leaves: the waifu keys plus input ids; the user keys plus input ids; the old harem plus the listed links; the old roles plus the user-listed and bot-granted roles |
| `Properties.RestoreGrows` | restore_all_data.js:19-115 | no key or pair is ever removed, and a run with a missing file changes nothing |
| `Properties.RestoreKeepsCreatedAt` | restore_all_data.js:42-46 | a waifu stored before the run keeps its `created_at` through the run |
| `Properties.RestoreUserRow` | restore_all_data.js:57-66 | after a run a listed user holds its last record's row, with falsy `gems` or `crimson` stored as 0 |
| `Properties.RestoreIdempotent` | restore_all_data.js:40-115 | running the restore twice with the same files gives the same tables as running it once |
| `Properties.AquaScenario` | restore_all_data.js:40-50 | a waifu restored into empty tables holds its record's values; re-running with a new price and a new `created_at` changes only the price |
| `Statements.RunWaifuStmts` | restore_all_data.js:40-51 | issuing the waifu upserts one by one gives the waifu stage |
| `Statements.RunHaremStmts` | restore_all_data.js:69-76 | issuing a user's harem inserts one by one adds that user's pairs |
| `Statements.RunRoleStmts` | restore_all_data.js:79-86 | issuing a user's role inserts one by one adds that user's pairs |
| `Statements.RunUserStmts` | restore_all_data.js:56-87 | one iteration's statements (user upsert, harem inserts, role inserts) give one step of the user stage |
| `Statements.RunUsersStmts` | restore_all_data.js:56-87 | issuing all statements of the user loop gives the user stage |
| `Statements.RunGrantStmts` | restore_all_data.js:93-114 | issuing the role inserts of one administrative loop gives that loop's grants |
| `Statements.RunBackfillStmts` | restore_all_data.js:92-115 | issuing the backfill's statements gives the backfill |
| `Statements.RunTrace` | restore_all_data.js:19-115 | the statements of a run, applied one at a time, give exactly `RestoreSpec` |
| `Statements.UsersStmtsOrder` | restore_all_data.js:56-87 | the user loop issues no waifu upsert, and each harem insert follows an upsert of the user it links |
| `Statements.TraceOrder` | restore_all_data.js:40-115 | in a run every waifu upsert precedes every harem insert, and every harem insert follows an upsert of its user |
| `RestoreAllData.Database.UpsertWaifu` | restore_all_data.js:41-50 | the waifus table becomes `UpsertWaifuRow` of the old one, a stored `created_at` is kept, the other tables are unchanged, and the statement is logged |
| `RestoreAllData.Database.UpsertUser` | restore_all_data.js:57-66 | the users table becomes `UpsertUserRow` of the old one, with `gems` and `crimson` as `x \|\| 0`; the other tables are unchanged |
| `RestoreAllData.Database.InsertHarem` | restore_all_data.js:71-74 | the harem set gains exactly the one pair (nothing on conflict); the other tables are unchanged |
| `RestoreAllData.Database.InsertRole` | restore_all_data.js:81-84 | the roles set gains exactly the one pair (nothing on conflict); the other tables are unchanged |
| `RestoreAllData.Database.RestoreWaifus` | restore_all_data.js:40-51 | the waifu loop leaves the waifu stage of the old table and logs one upsert per record |
| `RestoreAllData.Database.RestoreHarem` | restore_all_data.js:69-76 | a user's harem loop, skipped for an absent or empty list, adds that user's pairs |
| `RestoreAllData.Database.RestoreUserRoles` | restore_all_data.js:79-86 | a user's role loop, skipped for an absent or empty list, adds that user's pairs |
| `RestoreAllData.Database.RestoreUser` | restore_all_data.js:57-86 | one iteration of the user loop performs one step of the user stage and logs its statements |
| `RestoreAllData.Database.RestoreUsers` | restore_all_data.js:56-87 | the user loop leaves the user stage of the old tables |
| `RestoreAllData.Database.GrantAll` | restore_all_data.js:93-114 | one administrative loop grants its tag to each entry, skipping falsy ids only when checked |
| `RestoreAllData.Database.RestoreBotRoles` | restore_all_data.js:92-115 | the backfill runs the developer, sudo and uploader loops in that order, and nothing without a `roles` object |
| `RestoreAllData.Database.Restore` | restore_all_data.js:19-115 | the whole script leaves `RestoreSpec` of the old tables and issues exactly `Trace(files)`; with a file missing, nothing is written |

## Left out

- File access and reading (`fs.access`, `fs.readFile`) and JSON parsing are I/O. Each document is an input value, `None` when its file is missing.
- The `pg` pool, the `DATABASE_URL` connection string and async sequencing are plumbing. Each query is modelled only by its effect on the four abstract tables.
- The catch block and `process.exit(0)` / `process.exit(1)` are process-level error handling. A statement that fails mid-run, leaving earlier writes committed, is not modelled: every statement is taken to succeed.
- PostgreSQL constraints are not modelled: NOT NULL, foreign keys, and type coercion of timestamps, prices and ids. For example, a developer entry without `user_id` is modelled as inserting a pair with a null id, where the real database may reject it and end the run.
- A present document whose `waifus` or `users` property is missing makes the script throw. The model's document types always carry the list.
- A null element in a user's `harem` list, or in the bot document's `developers`, `sudos` or `uploaders` list, makes the script throw when it reads the entry's id. So does a bot document that is JSON `null`, when the script reads its `roles`. Each failure ends the run after the earlier writes have committed. The model carries only the extracted ids and a present-or-absent bot document, so these aborts mid-run are not modelled.
- A null element of the top-level `waifus` or `users` list makes the script throw when it reads `waifu.waifu_id` or `user.user_id`, ending the run after the earlier writes have committed. The model's record types cannot express a null record.
- A `waifus` or `users` value that is neither an array nor a string makes its `for ... of` loop throw, and so does a truthy `developers`, `sudos` or `uploaders` value of that kind. The run ends after the earlier writes have committed, and the model does not express such a value. A falsy bot list counts as empty (`Pipeline.Entries`). A string is iterated character by character, and each character's id reads as undefined, which the driver sends as NULL. The model expresses that as records or ids whose fields are `Null`.
- The `total_users` / `total_waifus` counts and all console output only echo the input.
- JSON values are modelled as scalars (null, boolean, number, string). Objects and arrays in column positions are not modelled, and neither is a `harem` or `roles` property that is not an array. Numbers are reals, so `-0` and `0` are the same value.

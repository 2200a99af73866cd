// The twin config routes of backend/src/routes/twin.ts: GET /twin/:address reads the
// owner's row, PUT /twin/:address writes it and mirrors `enabled` into the owner's user
// row. The request clock is a parameter.
module TwinRoutes {
  import opened Wrappers
  import opened Types
  import opened Db

  /** The reply of GET /twin/:address. */
  datatype TwinReply =
    | TwinNotFound(error: string)   // 404
    | TwinFound(config: TwinConfig)

  const NotFoundError: string := "Twin config not found"

  /** The stored row as JSON: every column passes through, the two flags as booleans; it
      carries `maxSwapSizeEth` and no cap. */
  function RowJson(row: TwinConfigRow): (c: TwinConfig)
    ensures c.autonomousCapUsd.None? && c.maxSwapSizeEth == Some(row.maxSwapSizeEth)
    ensures c.ownerAddress == row.ownerAddress && c.enabled == row.enabled
    ensures c.personality == row.personality && c.interests == row.interests
    ensures c.responseStyle == row.responseStyle && c.autoSummarize == row.autoSummarize
    ensures c.createdAt == row.createdAt && c.updatedAt == row.updatedAt
  {
    TwinConfig(row.ownerAddress, row.enabled, row.personality, row.interests, row.responseStyle,
               None, Some(row.maxSwapSizeEth), row.autoSummarize, row.createdAt, row.updatedAt)
  }

  /** GET /twin/:address: 404 exactly when the owner has no row, the row otherwise. */
  function GetTwin(configs: map<string, TwinConfigRow>, address: string): (r: TwinReply)
    ensures r.TwinNotFound? <==> address !in configs
    ensures r.TwinNotFound? ==> r.error == NotFoundError
    ensures r.TwinFound? ==> var row := configs[address];
      && r.config.ownerAddress == row.ownerAddress && r.config.enabled == row.enabled
      && r.config.personality == row.personality && r.config.interests == row.interests
      && r.config.responseStyle == row.responseStyle && r.config.autoSummarize == row.autoSummarize
      && r.config.createdAt == row.createdAt && r.config.updatedAt == row.updatedAt
      && r.config.maxSwapSizeEth == Some(row.maxSwapSizeEth) && r.config.autonomousCapUsd.None?
  {
    if address in configs then TwinFound(RowJson(configs[address])) else TwinNotFound(NotFoundError)
  }

  /** The fields of a PUT body the route reads; each may be missing. */
  datatype TwinBody = TwinBody(
    enabled: Option<bool>,
    personality: Option<string>,
    interests: Option<string>,
    responseStyle: Option<string>,
    autonomousCapUsd: Option<real>,
    autoSummarize: Option<bool>)

  const DefaultCapUsd: real := 100.0

  /** The settings a PUT writes: the body's fields with `??` defaults, stamped `now`. */
  datatype TwinSettings = TwinSettings(
    ownerAddress: string,
    enabled: bool,
    personality: string,
    interests: string,
    responseStyle: string,
    autonomousCapUsd: real,
    autoSummarize: bool,
    updatedAt: string)

  function SettingsOf(address: string, body: TwinBody, now: string): (d: TwinSettings)
    ensures d.ownerAddress == address && d.updatedAt == now
    ensures body.enabled.None? ==> !d.enabled
    ensures body.autoSummarize.None? ==> d.autoSummarize
    ensures body.autonomousCapUsd.None? ==> d.autonomousCapUsd == DefaultCapUsd
    ensures body.personality.None? ==> d.personality == ""
    ensures body.personality.Some? ==> d.personality == body.personality.value
  {
    TwinSettings(address, body.enabled.GetOr(false), body.personality.GetOr(""), body.interests.GetOr(""),
                 body.responseStyle.GetOr(""), body.autonomousCapUsd.GetOr(DefaultCapUsd),
                 body.autoSummarize.GetOr(true), now)
  }

  /** The row after the write. An update sets the settings' columns and keeps `createdAt` and
      `maxSwapSizeEth`; an insert takes `createdAt` from the clock and the column default
      for `maxSwapSizeEth`. The cap has no column and is not stored. */
  function StoredRow(existing: Option<TwinConfigRow>, d: TwinSettings, now: string): (row: TwinConfigRow)
    ensures row.ownerAddress == d.ownerAddress && row.enabled == d.enabled && row.personality == d.personality
    ensures row.interests == d.interests && row.responseStyle == d.responseStyle
    ensures row.autoSummarize == d.autoSummarize && row.updatedAt == d.updatedAt
    ensures existing.Some? ==> row.createdAt == existing.value.createdAt && row.maxSwapSizeEth == existing.value.maxSwapSizeEth
    ensures existing.None? ==> row.createdAt == now && row.maxSwapSizeEth == DefaultMaxSwapSizeEth
  {
    match existing
    case Some(old_) =>
      old_.(ownerAddress := d.ownerAddress, enabled := d.enabled, personality := d.personality,
            interests := d.interests, responseStyle := d.responseStyle, autoSummarize := d.autoSummarize,
            updatedAt := d.updatedAt)
    case None =>
      TwinConfigRow(d.ownerAddress, d.enabled, d.personality, d.interests, d.responseStyle,
                    DefaultMaxSwapSizeEth, d.autoSummarize, now, d.updatedAt)
  }

  /** The JSON the PUT answers with: the settings, the cap included, and the row's creation
      time; no `maxSwapSizeEth`. */
  function PutReply(d: TwinSettings, createdAt: string): (c: TwinConfig)
    ensures c.autonomousCapUsd == Some(d.autonomousCapUsd) && c.maxSwapSizeEth.None?
  {
    TwinConfig(d.ownerAddress, d.enabled, d.personality, d.interests, d.responseStyle,
               Some(d.autonomousCapUsd), None, d.autoSummarize, createdAt, d.updatedAt)
  }

  function Existing(configs: map<string, TwinConfigRow>, address: string): Option<TwinConfigRow> {
    if address in configs then Some(configs[address]) else None
  }

  /** PUT /twin/:address. */
  method PutTwin(db: Database, address: string, body: TwinBody, now: string) returns (reply: TwinConfig)
    requires db.Valid()
    modifies db`twinConfigs, db`users
    ensures db.Valid()
    ensures var d := SettingsOf(address, body, now);
      var existing := Existing(old(db.twinConfigs), address);
      && db.twinConfigs == old(db.twinConfigs)[address := StoredRow(existing, d, now)]
      && db.users == (if address in old(db.users) then old(db.users)[address := old(db.users)[address].(twinEnabled := d.enabled)]
                      else old(db.users))
      && reply == PutReply(d, if existing.Some? then existing.value.createdAt else now)
  {
    var d := SettingsOf(address, body, now);
    var existing := Existing(db.twinConfigs, address);
    db.twinConfigs := db.twinConfigs[address := StoredRow(existing, d, now)];
    if address in db.users {
      db.users := db.users[address := db.users[address].(twinEnabled := d.enabled)];
    }
    reply := PutReply(d, if existing.Some? then existing.value.createdAt else now);
  }

  /** What a GET answers after a PUT: the submitted settings with their defaults, the first
      creation time, and the swap limit the row already had (0.1 for a new row); the cap the
      PUT acknowledged is not read back. Other owners' configs are untouched. */
  lemma PutThenGet(configs: map<string, TwinConfigRow>, address: string, body: TwinBody, now: string, other: string)
    requires other != address
    ensures var d := SettingsOf(address, body, now);
      var after := configs[address := StoredRow(Existing(configs, address), d, now)];
      var r := GetTwin(after, address);
      && r.TwinFound?
      && r.config.enabled == body.enabled.GetOr(false)
      && r.config.personality == body.personality.GetOr("")
      && r.config.interests == body.interests.GetOr("")
      && r.config.responseStyle == body.responseStyle.GetOr("")
      && r.config.autoSummarize == body.autoSummarize.GetOr(true)
      && r.config.updatedAt == now
      && r.config.createdAt == (if address in configs then configs[address].createdAt else now)
      && r.config.maxSwapSizeEth == Some(if address in configs then configs[address].maxSwapSizeEth else DefaultMaxSwapSizeEth)
      && r.config.autonomousCapUsd.None?
      && GetTwin(after, other) == GetTwin(configs, other)
  {
  }

  /** The PUT's reply and the following GET agree on every setting the table stores. */
  lemma PutReplyMatchesGet(configs: map<string, TwinConfigRow>, address: string, body: TwinBody, now: string)
    ensures var d := SettingsOf(address, body, now);
      var existing := Existing(configs, address);
      var reply := PutReply(d, if existing.Some? then existing.value.createdAt else now);
      var r := GetTwin(configs[address := StoredRow(existing, d, now)], address);
      && r.TwinFound?
      && r.config.(autonomousCapUsd := None, maxSwapSizeEth := None) == reply.(autonomousCapUsd := None)
  {
  }
}

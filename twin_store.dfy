// The web client's twin settings store (web/src/lib/stores/twin.svelte.ts): the config
// being edited, the last saved copy, the twin's live status and the loading/saving flags.
// The two HTTP calls are parameters: the config GET /twin answered with (None when the
// call threw) and the config PUT /twin answered with (None when it threw).
module TwinStore {
  import opened Wrappers
  import opened Types
  import TwinRoutes

  /** The client's default cap, in dollars. */
  const DefaultCapUsd: real := 100.0

  /** The config `load` falls back to when the owner has none yet. */
  function DefaultConfig(address: string, now: string): (c: TwinConfig)
    ensures c.ownerAddress == address && !c.enabled && c.autoSummarize
    ensures c.personality == "" && c.interests == "" && c.responseStyle == ""
    ensures c.autonomousCapUsd == Some(DefaultCapUsd) && c.createdAt == now && c.updatedAt == now
  {
    TwinConfig(address, false, "", "", "", Some(DefaultCapUsd), None, true, now, now)
  }

  /** The edits `hasChanges` looks at: personality, interests, style and cap. */
  predicate Differs(a: TwinConfig, b: TwinConfig) {
    || a.personality != b.personality
    || a.interests != b.interests
    || a.responseStyle != b.responseStyle
    || a.autonomousCapUsd != b.autonomousCapUsd
  }

  /** A key of the config and the value `updateField` writes under it. */
  datatype FieldUpdate =
    | SetOwnerAddress(ownerAddress: string)
    | SetEnabled(enabled: bool)
    | SetPersonality(personality: string)
    | SetInterests(interests: string)
    | SetResponseStyle(responseStyle: string)
    | SetAutonomousCapUsd(capUsd: real)
    | SetMaxSwapSizeEth(maxSwapSizeEth: real)
    | SetAutoSummarize(autoSummarize: bool)
    | SetCreatedAt(createdAt: string)
    | SetUpdatedAt(updatedAt: string)

  /** `{ ...config, [key]: value, updatedAt: now }`: the spread writes the field, then the
      clock overwrites `updatedAt`, even when that was the key. */
  function WithField(c: TwinConfig, f: FieldUpdate, now: string): (r: TwinConfig)
    ensures r.updatedAt == now
  {
    var written := match f
      case SetOwnerAddress(v) => c.(ownerAddress := v)
      case SetEnabled(v) => c.(enabled := v)
      case SetPersonality(v) => c.(personality := v)
      case SetInterests(v) => c.(interests := v)
      case SetResponseStyle(v) => c.(responseStyle := v)
      case SetAutonomousCapUsd(v) => c.(autonomousCapUsd := Some(v))
      case SetMaxSwapSizeEth(v) => c.(maxSwapSizeEth := Some(v))
      case SetAutoSummarize(v) => c.(autoSummarize := v)
      case SetCreatedAt(v) => c.(createdAt := v)
      case SetUpdatedAt(v) => c;
    written.(updatedAt := now)
  }

  /** Starting from a config with no unsaved edits, one `updateField` leaves unsaved edits
      exactly when it gives one of the four watched fields a new value. */
  lemma EditShowsAsChange(c: TwinConfig, saved: TwinConfig, f: FieldUpdate, now: string)
    requires !Differs(c, saved)
    ensures Differs(WithField(c, f, now), saved) <==>
      || (f.SetPersonality? && f.personality != saved.personality)
      || (f.SetInterests? && f.interests != saved.interests)
      || (f.SetResponseStyle? && f.responseStyle != saved.responseStyle)
      || (f.SetAutonomousCapUsd? && Some(f.capUsd) != saved.autonomousCapUsd)
  {
  }

  /** Writing a field twice is writing it once, and a write agrees everywhere else. */
  lemma WithFieldIdempotent(c: TwinConfig, f: FieldUpdate, now: string)
    ensures WithField(WithField(c, f, now), f, now) == WithField(c, f, now)
    ensures !f.SetOwnerAddress? ==> WithField(c, f, now).ownerAddress == c.ownerAddress
    ensures !f.SetPersonality? ==> WithField(c, f, now).personality == c.personality
    ensures !f.SetEnabled? ==> WithField(c, f, now).enabled == c.enabled
    ensures !f.SetCreatedAt? ==> WithField(c, f, now).createdAt == c.createdAt
  {
  }

  /** The body `save` sends: `JSON.stringify` drops an undefined cap. */
  function BodyOf(c: TwinConfig): (b: TwinRoutes.TwinBody)
    ensures b.autonomousCapUsd == c.autonomousCapUsd
  {
    TwinRoutes.TwinBody(Some(c.enabled), Some(c.personality), Some(c.interests), Some(c.responseStyle),
                        c.autonomousCapUsd, Some(c.autoSummarize))
  }

  /** Saving a config gets the edits back: the server's reply carries the same settings, and
      a cap the client never had comes back as the server's default of 100. */
  lemma SaveEchoesSettings(c: TwinConfig, address: string, now: string, createdAt: string)
    ensures var reply := TwinRoutes.PutReply(TwinRoutes.SettingsOf(address, BodyOf(c), now), createdAt);
      && reply.enabled == c.enabled && reply.autoSummarize == c.autoSummarize
      && !Differs(reply, c.(autonomousCapUsd := Some(c.autonomousCapUsd.GetOr(TwinRoutes.DefaultCapUsd))))
      && reply.updatedAt == now && reply.maxSwapSizeEth.None?
  {
  }

  class Store {
    var config: Option<TwinConfig>
    var savedConfig: Option<TwinConfig>
    var status: Option<TwinStatus>
    var loading: bool
    var saving: bool
    var socketBound: bool

    constructor ()
      ensures config.None? && savedConfig.None? && status.None?
      ensures !loading && !saving && !socketBound
    {
      config, savedConfig, status := None, None, None;
      loading, saving, socketBound := false, false, false;
    }

    /** The `enabled` getter: `config?.enabled ?? false`. */
    predicate Enabled()
      reads this
      ensures config.None? ==> !Enabled()
      ensures config.Some? ==> (Enabled() <==> config.value.enabled)
    {
      config.Some? && config.value.enabled
    }

    /** The `hasChanges` getter. */
    predicate HasChanges()
      reads this
      ensures HasChanges() ==> config.Some? && savedConfig.Some?
      ensures config == savedConfig ==> !HasChanges()
    {
      config.Some? && savedConfig.Some? && Differs(config.value, savedConfig.value)
    }

    /** `load(address)`: the fetched config, or the defaults when the fetch threw; either
        way the saved copy matches it and nothing is pending. */
    method Load(address: string, fetched: Option<TwinConfig>, now: string)
      modifies this`config, this`savedConfig, this`loading
      ensures config == Some(if fetched.Some? then fetched.value else DefaultConfig(address, now))
      ensures savedConfig == config && !loading
      ensures !HasChanges()
    {
      loading := true;
      if fetched.Some? {
        config := fetched;
      } else {
        config := Some(DefaultConfig(address, now));
      }
      savedConfig := config;
      loading := false;
    }

    /** `save(address)`: with no config nothing happens; otherwise the reply replaces both
        copies, a failed request leaves them as they were, and `saving` ends false. */
    method Save(address: string, reply: Option<TwinConfig>) returns (threw: bool)
      modifies this`config, this`savedConfig, this`saving
      ensures old(config).None? ==> && !threw && config == old(config) && savedConfig == old(savedConfig)
                                    && saving == old(saving)
      ensures old(config).Some? ==> && !saving && threw == reply.None?
                                    && (reply.Some? ==> config == reply && savedConfig == reply && !HasChanges())
                                    && (reply.None? ==> config == old(config) && savedConfig == old(savedConfig))
    {
      threw := false;
      if config.None? {
        return;
      }
      saving := true;
      if reply.Some? {
        config := reply;
        savedConfig := config;
      } else {
        threw := true;
      }
      saving := false;
    }

    /** `updateField(key, value)`: ignored with no config. */
    method UpdateField(f: FieldUpdate, now: string)
      modifies this`config
      ensures config == if old(config).None? then None else Some(WithField(old(config).value, f, now))
    {
      if config.Some? {
        config := Some(WithField(config.value, f, now));
      }
    }

    /** `bindSocket()`: subscribes once. */
    method BindSocket()
      modifies this`socketBound
      ensures socketBound
    {
      socketBound := true;
    }

    /** A `twin:status` event: recorded once the store is subscribed. */
    method ReceiveStatus(s: TwinStatus)
      modifies this`status
      ensures status == if socketBound then Some(s) else old(status)
    {
      if socketBound {
        status := Some(s);
      }
    }
  }
}

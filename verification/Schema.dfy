/**
 Columns, cells and rows.  One enumeration names the columns of every table the
 eager loaders touch; a row is a partial map in which an absent column, like a
 Null cell, stands for SQL NULL.
 */
module Schema {
  import opened Wrappers

  datatype Column =
    | ID | CreatedAt | UpdatedAt | DeletedAt | Name | Notes | Platform | Type
    | Credentials | Extra | ProxyID | ProxyFallbackOriginID | Concurrency
    | LoadFactor | Priority | RateMultiplier | Status | ErrorMessage | LastUsedAt
    | ExpiresAt | AutoPauseOnExpired | Schedulable | RateLimitedAt
    | RateLimitResetAt | OverloadUntil | TempUnschedulableUntil
    | TempUnschedulableReason | SessionWindowStart | SessionWindowEnd
    | SessionWindowStatus | ParentAccountID | QuotaDimension
    // the junction table
    | AccountID | GroupID
    // any other name; the columns only groups or proxies have are among them
    | Other(name: string)

  // Times count from the zero time.Time, so T(0) is Go's zero value.
  datatype Cell =
    | Null
    | I(i: int)
    | S(s: string)
    | T(t: int)
    | F(f: real)
    | B(b: bool)
    | J(json: string)

  type Row = map<Column, Cell>

  // account.ValidColumn
  predicate ValidAccountColumn(c: Column) {
    !c.AccountID? && !c.GroupID? && !c.Other?
  }

  // accountgroup.ValidColumn
  predicate ValidJunctionColumn(c: Column) {
    c.AccountID? || c.GroupID? || c.Priority? || c.CreatedAt?
  }

  // group.ValidColumn
  predicate ValidGroupColumn(c: Column) {
    match c
    case Other(name) =>
      name in [
        "description", "peak_rate_enabled", "peak_start", "peak_end", "peak_rate_multiplier", "is_exclusive",
        "duplicate_operation_id", "subscription_type", "daily_limit_usd", "weekly_limit_usd",
        "monthly_limit_usd", "default_validity_days", "allow_image_generation", "allow_batch_image_generation",
        "image_rate_independent", "image_rate_multiplier", "image_price_1k", "image_price_2k",
        "image_price_4k", "batch_image_discount_multiplier", "batch_image_hold_multiplier",
        "video_rate_independent", "video_rate_multiplier", "video_price_480p", "video_price_720p",
        "video_price_1080p", "video_model_prices", "web_search_price_per_call", "search_price_per_1k",
        "audio_realtime_price_per_min", "audio_tts_price_per_million_chars", "audio_stt_price_per_hour",
        "long_context_pricing_enabled", "model_pricing", "claude_code_only", "fallback_group_id",
        "fallback_group_id_on_invalid_request", "model_routing", "model_routing_enabled", "mcp_xml_inject",
        "supported_model_scopes", "sort_order", "allow_messages_dispatch", "allow_live", "force_openai_fast",
        "free_openai_fast", "require_oauth_only", "require_privacy_set", "default_mapped_model",
        "messages_dispatch_model_config", "model_allowlist", "codex_models_manifest_config", "rpm_limit",
        "max_reasoning_effort", "max_reasoning_effort_over_limit", "reasoning_effort_mappings",
        "kiro_cache_emulation_enabled", "kiro_auto_sticky_enabled", "kiro_sticky_session_ttl_seconds",
        "kiro_cache_emulation_ratio", "kiro_cache_emulation_mode", "kiro_cache_creation_emulation_ratio",
        "kiro_cache_read_emulation_ratio", "kiro_endpoint_mode", "profit_control_enabled", "profit_min_margin",
        "profit_safety_buffer"]
    case _ =>
      c.ID? || c.CreatedAt? || c.UpdatedAt? || c.DeletedAt? || c.Name? || c.RateMultiplier? || c.Status? || c.Platform?
  }

  // proxy.ValidColumn
  predicate ValidProxyColumn(c: Column) {
    match c
    case Other(name) =>
      name in [
        "protocol", "host", "port", "username", "password", "fallback_mode", "backup_proxy_id",
        "expiry_warn_days"]
    case _ =>
      c.ID? || c.CreatedAt? || c.UpdatedAt? || c.DeletedAt? || c.Name? || c.Status? || c.ExpiresAt?
  }

  function CellAt(r: Row, c: Column): Cell {
    if c in r then r[c] else Null
  }

  // The integer in a key column, None when it is NULL.
  function Key(r: Row, c: Column): Option<int> {
    if CellAt(r, c).I? then Some(CellAt(r, c).i) else None
  }

  function KeyList(rows: seq<Row>, c: Column): seq<Option<int>> {
    seq(|rows|, i requires 0 <= i < |rows| => Key(rows[i], c))
  }
}

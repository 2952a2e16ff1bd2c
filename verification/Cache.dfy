/**
 The two-layer cache: its rows, its lifetime tiers, and the repository object
 whose tables and tallies every operation updates.
 */
module Cache {
  import opened Wrappers
  import opened Domain

  datatype CacheSettings = CacheSettings(over180: int, from30To180: int, from7To30: int, under7: int)

  /** The lifetime of an entry, by whole days left until departure. */
  function ResolveTtl(departureDate: int, asOf: int, settings: CacheSettings): int {
    var days := departureDate - asOf;
    MINUTE * if days > 180 then settings.over180
             else if days >= 30 then settings.from30To180
             else if days >= 7 then settings.from7To30
             else settings.under7
  }

  /** If settings keep entries longer the farther departure is, then so do resolved lifetimes;
      the tiers change exactly at 7, at 30, and after 180 days. */
  lemma TtlGrowsWithDistance(near: int, far: int, asOf: int, settings: CacheSettings)
    requires near <= far && settings.under7 <= settings.from7To30 <= settings.from30To180 <= settings.over180
    ensures ResolveTtl(near, asOf, settings) <= ResolveTtl(far, asOf, settings)
    ensures ResolveTtl(asOf + 6, asOf, settings) == settings.under7 * MINUTE == ResolveTtl(asOf - 1, asOf, settings)
    ensures ResolveTtl(asOf + 7, asOf, settings) == settings.from7To30 * MINUTE == ResolveTtl(asOf + 29, asOf, settings)
    ensures ResolveTtl(asOf + 30, asOf, settings) == settings.from30To180 * MINUTE == ResolveTtl(asOf + 180, asOf, settings)
    ensures ResolveTtl(asOf + 181, asOf, settings) == settings.over180 * MINUTE
  {
  }

  /** A stored row; `expiresAt` is `None` when the stored text is not an instant. */
  datatype Row = Row(payload: Json, retrievedAt: int, expiresAt: Option<int>, createdAt: int)

  type Table = map<string, Row>

  predicate Live(row: Row, now: int) {
    row.expiresAt.Some? && now < row.expiresAt.value
  }

  predicate Corrupt(table: Table, key: string) {
    key in table && table[key].expiresAt.None?
  }

  /** What a lookup may serve: the payload of a row that is still live. */
  function Served(table: Table, key: string, now: int): Option<Json> {
    if key in table && Live(table[key], now) then Some(table[key].payload) else None
  }

  /** A lookup removes exactly one kind of row: one whose expiry cannot be read. */
  function AfterLookup(table: Table, key: string): Table {
    if Corrupt(table, key) then table - {key} else table
  }

  /** Insert, or overwrite everything but the first insertion time. */
  function Upsert(table: Table, key: string, payload: Json, now: int, ttl: int): Table {
    var created := if key in table then table[key].createdAt else now;
    table[key := Row(payload, now, Some(now + ttl), created)]
  }

  /** A write is served until its lifetime is over, and touches no other key; the row remembers when the key
      was first written, however often it is written again. */
  lemma UpsertKeeps(table: Table, key: string, payload: Json, now: int, ttl: int, other: string, at: int)
    ensures var after := Upsert(table, key, payload, now, ttl);
            && (Served(after, key, at) == if at < now + ttl then Some(payload) else None)
            && after[key].retrievedAt == now
            && (key in table ==> after[key].createdAt == table[key].createdAt)
            && (key !in table ==> after[key].createdAt == now)
            && (other != key ==> (other in after <==> other in table))
            && (other != key && other in table ==> after[other] == table[other])
  {
  }

  datatype Counters = Counters(hits: nat, misses: nat, writes: nat)

  class CacheRepository {
    var raw: Table
    var normalized: Table
    var rawCounters: Counters
    var normalizedCounters: Counters

    constructor (raw: Table, normalized: Table)
      ensures this.raw == raw && this.normalized == normalized
      ensures rawCounters == Counters(0, 0, 0) && normalizedCounters == Counters(0, 0, 0)
    {
      this.raw, this.normalized := raw, normalized;
      rawCounters, normalizedCounters := Counters(0, 0, 0), Counters(0, 0, 0);
    }

    method GetRaw(key: string, now: int) returns (payload: Option<Json>)
      modifies this`raw, this`rawCounters
      ensures payload == Served(old(raw), key, now)
      ensures raw == AfterLookup(old(raw), key)
      ensures rawCounters == if payload.Some?
                             then old(rawCounters).(hits := old(rawCounters).hits + 1)
                             else old(rawCounters).(misses := old(rawCounters).misses + 1)
    {
      if key in raw {
        var row := raw[key];
        if row.expiresAt.Some? && now < row.expiresAt.value {
          rawCounters := rawCounters.(hits := rawCounters.hits + 1);
          return Some(row.payload);
        }
        if row.expiresAt.None? {
          raw := raw - {key};
        }
      }
      rawCounters := rawCounters.(misses := rawCounters.misses + 1);
      return None;
    }

    method PutRaw(key: string, payload: Json, now: int, ttl: int)
      modifies this`raw, this`rawCounters
      ensures raw == Upsert(old(raw), key, payload, now, ttl)
      ensures rawCounters == old(rawCounters).(writes := old(rawCounters).writes + 1)
    {
      var created := if key in raw then raw[key].createdAt else now;
      raw := raw[key := Row(payload, now, Some(now + ttl), created)];
      rawCounters := rawCounters.(writes := rawCounters.writes + 1);
    }

    method GetNormalized(key: string, now: int) returns (payload: Option<Json>)
      modifies this`normalized, this`normalizedCounters
      ensures payload == Served(old(normalized), key, now)
      ensures normalized == AfterLookup(old(normalized), key)
      ensures normalizedCounters == if payload.Some?
                                    then old(normalizedCounters).(hits := old(normalizedCounters).hits + 1)
                                    else old(normalizedCounters).(misses := old(normalizedCounters).misses + 1)
    {
      if key in normalized {
        var row := normalized[key];
        if row.expiresAt.Some? && now < row.expiresAt.value {
          normalizedCounters := normalizedCounters.(hits := normalizedCounters.hits + 1);
          return Some(row.payload);
        }
        if row.expiresAt.None? {
          normalized := normalized - {key};
        }
      }
      normalizedCounters := normalizedCounters.(misses := normalizedCounters.misses + 1);
      return None;
    }

    method PutNormalized(key: string, payload: Json, now: int, ttl: int)
      modifies this`normalized, this`normalizedCounters
      ensures normalized == Upsert(old(normalized), key, payload, now, ttl)
      ensures normalizedCounters == old(normalizedCounters).(writes := old(normalizedCounters).writes + 1)
    {
      var created := if key in normalized then normalized[key].createdAt else now;
      normalized := normalized[key := Row(payload, now, Some(now + ttl), created)];
      normalizedCounters := normalizedCounters.(writes := normalizedCounters.writes + 1);
    }
  }
}

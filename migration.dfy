/**
 * The v1 to v2 upgrade of models/data_manager.py (`_migrate_data_v1_to_v2`)
 * and the version dispatch at load time.  A v1 period stores one free-text
 * string per goal id; v2 stores an item list and a cached total.
 */
module Migration {
  import opened Wrappers
  import opened Achievements
  import opened Periods

  /** A v1 period; `createdAt` may be missing, and then the migration time is used. */
  datatype LegacyPeriod = LegacyPeriod(goals: seq<Goal>, achievements: map<GoalId, string>, createdAt: Option<string>)

  /** A v1 document (its `version` was missing or "1.0"). */
  datatype LegacyDocument = LegacyDocument(periods: map<string, LegacyPeriod>, currentPeriod: Option<string>, settings: map<string, string>)

  /** The characters Python's `str.strip()` removes. */
  predicate IsSpace(c: char)
  {
    c == ' ' || '\U{9}' <= c <= '\U{D}' || '\U{1C}' <= c <= '\U{1F}'
    || c == '\U{85}' || c == '\U{A0}' || c == '\U{1680}'
    || '\U{2000}' <= c <= '\U{200A}' || c == '\U{2028}' || c == '\U{2029}'
    || c == '\U{202F}' || c == '\U{205F}' || c == '\U{3000}'
  }

  /** `not (text and text.strip())`: empty, or whitespace only. */
  predicate IsBlank(text: string)
  {
    forall k :: 0 <= k < |text| ==> IsSpace(text[k])
  }

  /** One v1 text becomes one v2 entry: a single 100% item, or nothing. */
  function MigrateEntry(text: string, itemId: ItemId, now: string): Achievement
  {
    if IsBlank(text) then Achievement([], 0.0)
    else Achievement([Item(itemId, text, 100.0, now, None)], 100.0)
  }

  /** The v2 achievement map of one period: one entry per v1 entry, keyed by the same goal id. */
  function MigrateAchievements(name: string, legacy: map<GoalId, string>, now: string, mintId: (string, GoalId) -> ItemId): map<GoalId, Achievement>
  {
    map id | id in legacy :: MigrateEntry(legacy[id], mintId(name, id), now)
  }

  function MigratePeriod(name: string, lp: LegacyPeriod, now: string, mintId: (string, GoalId) -> ItemId): Period
  {
    Period(
      lp.goals,
      MigrateAchievements(name, lp.achievements, now, mintId),
      if lp.createdAt.Some? then lp.createdAt.value else now)
  }

  /** The whole upgraded document: periods migrated one by one, `current_period` and settings carried over. */
  function Migrated(legacy: LegacyDocument, now: string, mintId: (string, GoalId) -> ItemId): (r: Document)
    ensures r.version == "2.0" && r.currentPeriod == legacy.currentPeriod && r.settings == legacy.settings
    ensures r.periods.Keys == legacy.periods.Keys
    ensures forall name :: name in legacy.periods ==>
      r.periods[name].goals == legacy.periods[name].goals
      && r.periods[name].achievements.Keys == legacy.periods[name].achievements.Keys
  {
    Document(
      map name | name in legacy.periods :: MigratePeriod(name, legacy.periods[name], now, mintId),
      legacy.currentPeriod,
      legacy.settings,
      "2.0")
  }

  /**
   * `_migrate_data_v1_to_v2`: the loop over periods.  The item ids, which the
   * source draws from `uuid.uuid4()`, come from `mintId`; `now` stands for the
   * clock.
   */
  method MigrateV1ToV2(legacy: LegacyDocument, now: string, mintId: (string, GoalId) -> ItemId) returns (doc: Document)
    ensures doc == Migrated(legacy, now, mintId)
  {
    var periods: map<string, Period> := map[];
    var pending := legacy.periods.Keys;
    while pending != {}
      invariant pending <= legacy.periods.Keys
      invariant periods == map name | name in legacy.periods.Keys - pending :: MigratePeriod(name, legacy.periods[name], now, mintId)
      decreases |pending|
    {
      var name :| name in pending;
      var lp := legacy.periods[name];
      var achievements := MigratePeriodAchievements(name, lp.achievements, now, mintId);
      var createdAt := if lp.createdAt.Some? then lp.createdAt.value else now;
      periods := periods[name := Period(lp.goals, achievements, createdAt)];
      pending := pending - {name};
    }
    doc := Document(periods, legacy.currentPeriod, legacy.settings, "2.0");
  }

  /** The inner loop of `_migrate_data_v1_to_v2`, over one period's v1 achievement map. */
  method MigratePeriodAchievements(name: string, legacy: map<GoalId, string>, now: string, mintId: (string, GoalId) -> ItemId)
    returns (achievements: map<GoalId, Achievement>)
    ensures achievements == MigrateAchievements(name, legacy, now, mintId)
  {
    achievements := map[];
    var entries := legacy.Keys;
    while entries != {}
      invariant entries <= legacy.Keys
      invariant achievements == map id | id in legacy.Keys - entries :: MigrateEntry(legacy[id], mintId(name, id), now)
      decreases |entries|
    {
      var id :| id in entries;
      var text := legacy[id];
      if !IsBlank(text) {
        achievements := achievements[id := Achievement([Item(mintId(name, id), text, 100.0, now, None)], 100.0)];
      } else {
        achievements := achievements[id := Achievement([], 0.0)];
      }
      entries := entries - {id};
    }
    assert legacy.Keys - entries == legacy.Keys;
  }

  /**
   * Each v1 entry with non-blank text becomes exactly one item holding that
   * text at 100% with total 100; a blank entry becomes no items with total 0.
   * Goal lists, period names, `current_period` and the settings carry over.
   */
  lemma MigratedShape(legacy: LegacyDocument, now: string, mintId: (string, GoalId) -> ItemId, name: string, id: GoalId)
    requires name in legacy.periods && id in legacy.periods[name].achievements
    ensures var doc := Migrated(legacy, now, mintId);
      var text := legacy.periods[name].achievements[id];
      && (!IsBlank(text) ==>
            |doc.periods[name].achievements[id].items| == 1
            && doc.periods[name].achievements[id].items[0].content == text
            && doc.periods[name].achievements[id].items[0].percentage == 100.0
            && doc.periods[name].achievements[id].totalPercentage == 100.0)
      && (IsBlank(text) ==>
            doc.periods[name].achievements[id].items == []
            && doc.periods[name].achievements[id].totalPercentage == 0.0)
  {
  }

  /** The upgraded document satisfies the cached-total invariant. */
  lemma MigratedValid(legacy: LegacyDocument, now: string, mintId: (string, GoalId) -> ItemId)
    ensures DocumentValid(Migrated(legacy, now, mintId))
  {
    var doc := Migrated(legacy, now, mintId);
    forall name, id | name in doc.periods && id in doc.periods[name].achievements
      ensures Consistent(doc.periods[name].achievements[id])
    {
      var a := doc.periods[name].achievements[id];
      if a.items != [] {
        assert SumPercentages(a.items) == 100.0 + SumPercentages(a.items[1..]);
        assert a.items[1..] == [];
      }
    }
  }

  /** A v1 goal whose text reads "Shipped v1" becomes one 100% item; an empty text becomes no items. */
  lemma MigrateExample(itemId: ItemId, now: string)
    ensures MigrateEntry("Shipped v1", itemId, now) == Achievement([Item(itemId, "Shipped v1", 100.0, now, None)], 100.0)
    ensures MigrateEntry("", itemId, now) == Achievement([], 0.0)
  {
    assert !IsSpace("Shipped v1"[0]);
  }

  /** What the data file held when the repository was constructed. */
  datatype StoredFile = NoFile | Unparseable | Legacy(legacy: LegacyDocument) | Current(doc: Document)

  /**
   * `load_data()`: a missing or unparseable file gives the default document,
   * a v1 document is migrated, a v2 document is used as it is.
   */
  function Loaded(stored: StoredFile, now: string, mintId: (string, GoalId) -> ItemId): (doc: Document)
    ensures stored.Legacy? ==> doc == Migrated(stored.legacy, now, mintId)
    ensures stored.Legacy? ==> doc.version == "2.0" && doc.periods.Keys == stored.legacy.periods.Keys
    ensures (stored.NoFile? || stored.Unparseable?) ==> doc == DefaultDocument()
    ensures (stored.NoFile? || stored.Unparseable?) ==> doc.periods == map[] && doc.currentPeriod.None?
    ensures stored.Current? ==> doc == stored.doc
  {
    match stored
    case NoFile => DefaultDocument()
    case Unparseable => DefaultDocument()
    case Legacy(legacy) => Migrated(legacy, now, mintId)
    case Current(doc) => doc
  }
}

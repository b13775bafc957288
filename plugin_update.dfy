/**
 * keepalive.Plugin's `updateProperties()`: the rewrite of an older property store at start-up.
 * Its 0.2 branch goes through the plugin's URI store, so it sits above both.
 */
module PluginUpdate {
  import opened Wrappers
  import opened JavaText
  import opened FreenetKeys
  import opened PropertiesKeys
  import opened PluginBaseModel
  import opened PluginModel
  import opened UriValuesDao

  /** The version the "RW" fork of the plugin wrote. */
  const RW_VERSION: string := "0.3.3.11-RW"

  /** The per-URI "boost_<id>" property of version 0.2. */
  function BoostName(id: int): string {
    "boost_" + IntToString(id)
  }

  /** No per-URI property of the current store is a boost property. */
  lemma BoostIsNoPerIdName(k: PropertiesKey, id: int, x: int)
    ensures PerIdName(k, id) != BoostName(x)
  {
    NameEndsInLetter(k);
    var s := PerIdName(k, id);
    assert |Name(k)| >= 2;
    assert s[0] == Name(k)[0] && s[1] == Name(k)[1];
    assert BoostName(x)[..2] == "bo";
  }

  /** `update` neither writes nor removes a boost property. */
  lemma UpdatedPropsKeepBoost(prop: map<string, string>, rec: Record, x: int)
    requires rec.uri.Some?
    ensures var bc := if rec.blocksSize > 0 then rec.blocksSize else rec.blockCount;
      var after := UpdatedProps(prop, rec.uriId, rec.uri.value, bc, rec.successSegments, rec.success,
                                rec.history, rec.segment);
      (BoostName(x) in after <==> BoostName(x) in prop)
  {
    BoostIsNoPerIdName(Uri, rec.uriId, x);
    BoostIsNoPerIdName(Blocks, rec.uriId, x);
    BoostIsNoPerIdName(SuccessSegments, rec.uriId, x);
    BoostIsNoPerIdName(Success, rec.uriId, x);
    BoostIsNoPerIdName(History, rec.uriId, x);
    BoostIsNoPerIdName(Segment, rec.uriId, x);
  }

  /** A successful `update` writes the record's properties as `UpdatedProps` says. */
  lemma UpdateDoneWrites(prop: map<string, string>, rec: Record)
    requires UpdateOutcome(prop, rec).0 == Done
    ensures rec.uri.Some?
    ensures UpdateOutcome(prop, rec).1 ==
      UpdatedProps(prop, rec.uriId, rec.uri.value, if rec.blocksSize > 0 then rec.blocksSize else rec.blockCount,
                   rec.successSegments, rec.success, rec.history, rec.segment)
  {
  }

  /** The URI store's `update` as a function of the properties and the record it is given. */
  type Updater = (map<string, string>, Record) -> (Status, map<string, string>)

  /**
   * The 0.2 migration over `recs` in order: each record loses its boost property, then is
   * given to `update` with block count -1; the first refused update ends the migration with
   * its fault, that record's boost property already gone.
   */
  function Migrate(prop: map<string, string>, recs: seq<Record>, update: Updater): (Status, map<string, string>)
    decreases |recs|
  {
    if |recs| == 0 then (Done, prop)
    else
      var first := update(prop - {BoostName(recs[0].uriId)}, recs[0].(blockCount := -1));
      if first.0.Failed? then first else Migrate(first.1, recs[1..], update)
  }

  /** An update that neither writes nor removes a boost property when it succeeds. */
  ghost predicate KeepsBoosts(update: Updater) {
    forall prop, rec, x :: update(prop, rec).0 == Done ==>
      (BoostName(x) in update(prop, rec).1 <==> BoostName(x) in prop)
  }

  /** The store's `update` writes only the six per-id properties, none of them a boost property. */
  lemma UpdateKeepsBoosts()
    ensures KeepsBoosts(UpdateOutcome)
  {
    forall prop, rec, x | UpdateOutcome(prop, rec).0 == Done
      ensures BoostName(x) in UpdateOutcome(prop, rec).1 <==> BoostName(x) in prop
    {
      UpdateDoneWrites(prop, rec);
      UpdatedPropsKeepBoost(prop, rec, x);
    }
  }

  /** A migration that runs to the end adds no boost property. */
  lemma {:induction false} MigrationAddsNoBoost(prop: map<string, string>, recs: seq<Record>, update: Updater, x: int)
    requires KeepsBoosts(update)
    requires Migrate(prop, recs, update).0 == Done && BoostName(x) !in prop
    ensures BoostName(x) !in Migrate(prop, recs, update).1
    decreases |recs|
  {
    if |recs| > 0 {
      var removed := prop - {BoostName(recs[0].uriId)};
      var first := update(removed, recs[0].(blockCount := -1));
      assert BoostName(x) !in removed;
      MigrationAddsNoBoost(first.1, recs[1..], update, x);
    }
  }

  /** A migration that runs to the end leaves no boost property of a migrated record. */
  lemma {:induction false} MigrationDropsBoosts(prop: map<string, string>, recs: seq<Record>, update: Updater, k: int)
    requires KeepsBoosts(update)
    requires Migrate(prop, recs, update).0 == Done && 0 <= k < |recs|
    ensures BoostName(recs[k].uriId) !in Migrate(prop, recs, update).1
    decreases |recs|
  {
    var removed := prop - {BoostName(recs[0].uriId)};
    var first := update(removed, recs[0].(blockCount := -1));
    if k == 0 {
      assert BoostName(recs[0].uriId) !in removed;
      MigrationAddsNoBoost(first.1, recs[1..], update, recs[0].uriId);
    } else {
      assert recs[1..][k - 1] == recs[k];
      MigrationDropsBoosts(first.1, recs[1..], update, k - 1);
    }
  }

  /** The plugin's migration with the store's own `update`: no boost property of a migrated record survives. */
  lemma StoreMigrationDropsBoosts(prop: map<string, string>, recs: seq<Record>, k: int)
    requires Migrate(prop, recs, UpdateOutcome).0 == Done && 0 <= k < |recs|
    ensures BoostName(recs[k].uriId) !in Migrate(prop, recs, UpdateOutcome).1
  {
    UpdateKeepsBoosts();
    MigrationDropsBoosts(prop, recs, UpdateOutcome, k);
  }

  /**
   * The loop of the 0.2 branch over `getAll()`'s records: remove the record's boost property,
   * set its block count to -1 and update it; a refused update propagates.
   */
  method MigrateRecords(dao: PropertiesUriValuesDao, recs: seq<Record>, now: int) returns (st: Status)
    modifies dao.plugin.base`prop, dao.plugin`propSavingTimestamp, dao.plugin`savedProps
    ensures (st, dao.plugin.base.prop) == Migrate(old(dao.plugin.base.prop), recs, UpdateOutcome)
  {
    var i := 0;
    while i < |recs|
      invariant 0 <= i <= |recs|
      invariant Migrate(old(dao.plugin.base.prop), recs, UpdateOutcome) == Migrate(dao.plugin.base.prop, recs[i..], UpdateOutcome)
    {
      assert recs[i..][1..] == recs[i + 1..];
      dao.plugin.base.RemovePropNamed(Some(BoostName(recs[i].uriId)));
      st := dao.UpdateRecord(recs[i].(blockCount := -1), now);
      if st.Failed? {
        return;
      }
      i := i + 1;
    }
    return Done;
  }

  /** The stored versions `updateProperties()` rewrites: none, a 0.2 version and the "RW" version. */
  predicate Rewrites(v: Option<string>) {
    v.None? || (|v.value| >= 3 && (v.value[..3] == "0.2" || v.value == RW_VERSION))
  }

  /**
   * `updateProperties()`: a 0.2 store has its records migrated and then gets the current
   * version; the "RW" version gets database version 199 and a fresh install database version
   * 206, both then the current version; each of these ends in a forced save. A stored version
   * shorter than three characters makes the prefix test throw, and a failure of `getAll` or
   * of an update propagates.
   */
  method UpdateProperties(dao: PropertiesUriValuesDao, blockFiles: int -> Option<seq<string>>,
                          parseUri: string -> Option<FreenetUri>, now: int)
    returns (st: Status)
    modifies dao.plugin.base`prop, dao.plugin`propSavingTimestamp, dao.plugin`savedProps
    ensures var prop := old(dao.plugin.base.prop);
      var v := Lookup(prop, Name(Version));
      if v.None? then
        st == Done && dao.plugin.base.prop == prop[Name(DbVersion) := "206"][Name(Version) := VERSION]
      else if |v.value| < 3 then
        st.Failed? && dao.plugin.base.prop == prop
      else if v.value[..3] == "0.2" then
        var all := old(dao.GetAll(blockFiles, parseUri));
        if all.Err? then st == Failed(all.fault) && dao.plugin.base.prop == prop
        else
          var m := Migrate(prop, all.value, UpdateOutcome);
          if m.0.Failed? then st == m.0 && dao.plugin.base.prop == m.1
          else st == Done && dao.plugin.base.prop == m.1[Name(Version) := VERSION]
      else if v.value == RW_VERSION then
        st == Done && dao.plugin.base.prop == prop[Name(DbVersion) := "199"][Name(Version) := VERSION]
      else
        st == Done && dao.plugin.base.prop == prop
    ensures st == Done && Rewrites(old(Lookup(dao.plugin.base.prop, Name(Version)))) ==>
      dao.plugin.propSavingTimestamp == now && |dao.plugin.savedProps| > 0 &&
      dao.plugin.savedProps[|dao.plugin.savedProps| - 1] == dao.plugin.base.prop
    ensures !Rewrites(old(Lookup(dao.plugin.base.prop, Name(Version)))) ==>
      dao.plugin.propSavingTimestamp == old(dao.plugin.propSavingTimestamp) &&
      dao.plugin.savedProps == old(dao.plugin.savedProps)
  {
    var base := dao.plugin.base;
    var v := base.GetProp(Some(Version));
    if v.Some? {
      if |v.value| < 3 {
        return Failed(STRING_INDEX_OUT_OF_BOUNDS);
      }
      if v.value[..3] == "0.2" {
        var all := dao.GetAll(blockFiles, parseUri);
        if all.Err? {
          return Failed(all.fault);
        }
        st := MigrateRecords(dao, all.value, now);
        if st.Failed? {
          return;
        }
        base.SetProp(Some(Version), Some(VERSION));
        var _ := dao.plugin.SaveProp(true, now);
      }
    }
    if base.GetProp(Some(Version)) == Some(RW_VERSION) {
      base.SetProp(Some(DbVersion), Some("199"));
      base.SetProp(Some(Version), Some(VERSION));
      var _ := dao.plugin.SaveProp(true, now);
      return Done;
    }
    if base.GetProp(Some(Version)).None? {
      base.SetProp(Some(DbVersion), Some("206"));
      base.SetProp(Some(Version), Some(VERSION));
      var _ := dao.plugin.SaveProp(true, now);
    }
    return Done;
  }
}

/** How the broker plugin and the dashboard see the same topics: the command
    the dashboard publishes is never logged, the measurement topics the
    dashboard displays are the ones the plugin stores, and the two classifiers
    differ on deeper temperature topics. */
module Interplay {
  import opened Options
  import opened Text
  import opened Topic
  import Plugin
  import Dashboard

  /** The toggle command the dashboard publishes contains the marker
      "command", so the plugin drops it and the database is untouched. */
  lemma ToggleNeverLogged(st: Plugin.Store, plug: string, replies: Plugin.Replies)
    ensures var cmd := Dashboard.ToggleRelay(plug);
            Plugin.CallbackLog(st, cmd.topic, cmd.payload, replies) == Plugin.Step(st, Plugin.Ignored)
  {
    var levels := ["shellies", plug, "relay", "0", "command"];
    assert OccursAt("command", "command", 0);
    LevelOccursInJoin("command", levels, 4);
    assert Plugin.IgnoreMarkers[3] == "command";
  }

  /** The measurement kind the plugin stores for the topic that feeds each
      dashboard field; the overtemperature field has none. */
  function KindOf(f: Dashboard.Field): Option<Plugin.Kind>
  {
    match f
    case PowerField => Some(Plugin.Power)
    case EnergyField => Some(Plugin.Consumption)
    case TemperatureField => Some(Plugin.Temperature)
    case OvertemperatureField => None
    case StatusField => Some(Plugin.Status)
  }

  /** For a plug id free of ignore markers, every topic the dashboard displays
      is stored by the plugin in the matching table, under the same plug id
      the dashboard reads; the overtemperature topic is dropped by the plugin. */
  lemma PluginStoresWhatDashboardShows(st: Plugin.Store, id: string, f: Dashboard.Field, payload: string)
    requires IsLevel(id) && !Plugin.IsIgnored(id)
    ensures var r := Plugin.CallbackLog(st, Dashboard.FieldTopic(id, f), payload, Plugin.Replies(true, true));
            && r.outcome == (match KindOf(f) case Some(k) => Plugin.Stored(k) case None => Plugin.Ignored)
            && (KindOf(f).Some? ==> Plugin.Rows(r.store, KindOf(f).value)
                                    == Plugin.Rows(st, KindOf(f).value) + [Plugin.Record(id, payload)])
            && DeviceId(Dashboard.FieldTopic(id, f)) == Some(id)
  {
    Dashboard.FieldTopicLevels(id, f);
    if KindOf(f).Some? {
      var k := KindOf(f).value;
      SameTopic(id, f, k);
      Plugin.PlugOneLevelsPass();
      Plugin.ShellyTopicStored(st, "shellies", id, k, payload, Plugin.Replies(true, true));
    } else {
      OvertemperatureIgnored(st, id, payload, Plugin.Replies(true, true));
    }
  }

  /** The dashboard's field topics are the plugin's measurement topics under
      the root `shellies`. */
  lemma SameTopic(id: string, f: Dashboard.Field, k: Plugin.Kind)
    requires KindOf(f) == Some(k)
    ensures Dashboard.FieldTopic(id, f) == Plugin.ShellyTopic("shellies", id, k)
  {
    assert Dashboard.FieldLevels(f) == Plugin.KindLevels(k);
  }

  /** The overtemperature topic carries an ignore marker. */
  lemma OvertemperatureIgnored(st: Plugin.Store, id: string, payload: string, replies: Plugin.Replies)
    ensures Plugin.CallbackLog(st, Dashboard.FieldTopic(id, Dashboard.OvertemperatureField), payload, replies)
            == Plugin.Step(st, Plugin.Ignored)
  {
    var levels := ["shellies", id, "overtemperature"];
    assert ["shellies", id] + Dashboard.FieldLevels(Dashboard.OvertemperatureField) == levels;
    assert OccursAt("overtemperature", "overtemperature", 0);
    LevelOccursInJoin("overtemperature", levels, 2);
    assert Occurs(Plugin.IgnoreMarkers[2], Join(levels));
  }

  /** On `shellies/<id>/temperature/<extra>` the two classifiers part ways:
      the plugin matches level 2 for any number of levels and stores a
      temperature row, while the dashboard compares whole topics and updates
      nothing. */
  lemma DeeperTemperatureDiverges(st: Plugin.Store, plugs: seq<string>, id: string, extra: string, payload: string)
    requires IsLevel(id) && !Plugin.IsIgnored(id)
    requires IsLevel(extra) && !Plugin.IsIgnored(extra)
    ensures var topic := Join(["shellies", id, "temperature", extra]);
            && Plugin.CallbackLog(st, topic, payload, Plugin.Replies(true, true)).outcome == Plugin.Stored(Plugin.Temperature)
            && Dashboard.OnMessage(plugs, topic, payload) == Dashboard.Handled(Dashboard.ManagePlugs(plugs, id), None)
  {
    var levels := ["shellies", id, "temperature", extra];
    DeeperTemperatureLevels(id, extra);
    assert Plugin.Classify(levels) == Plugin.Classified(Plugin.Temperature);
    assert DeviceId(Join(levels)) == Some(id);
    NoFieldIsDeeperTemperature(id, extra);
  }

  lemma DeeperTemperatureLevels(id: string, extra: string)
    requires IsLevel(id) && !Plugin.IsIgnored(id)
    requires IsLevel(extra) && !Plugin.IsIgnored(extra)
    ensures Split(Join(["shellies", id, "temperature", extra])) == ["shellies", id, "temperature", extra]
    ensures !Plugin.IsIgnored(Join(["shellies", id, "temperature", extra]))
  {
    var levels := ["shellies", id, "temperature", extra];
    Plugin.PlugOneLevelsPass();
    Plugin.ShellyLevelsPass();
    assert AllLevels(levels) && forall j :: 0 <= j < |levels| ==> !Plugin.IsIgnored(levels[j]);
    SplitJoin(levels);
    Plugin.IgnoredIffSomeLevel(levels);
  }

  lemma NoFieldIsDeeperTemperature(id: string, extra: string)
    requires IsLevel(id) && IsLevel(extra)
    ensures forall f :: Join(["shellies", id, "temperature", extra]) != Dashboard.FieldTopic(id, f)
  {
    var levels := ["shellies", id, "temperature", extra];
    assert AllLevels(levels);
    SplitJoin(levels);
    forall f: Dashboard.Field
      ensures Join(levels) != Dashboard.FieldTopic(id, f)
    {
      Dashboard.FieldTopicLevels(id, f);
      FieldLevelsNotTemperature(f, extra);
      assert levels != ["shellies", id] + Dashboard.FieldLevels(f);
    }
  }

  lemma FieldLevelsNotTemperature(f: Dashboard.Field, extra: string)
    ensures Dashboard.FieldLevels(f) != ["temperature", extra]
  {
    if f == Dashboard.StatusField {
      assert Dashboard.FieldLevels(f)[0] == "relay";
    }
  }
}

/** The Mosquitto broker plugin that logs Shelly plug telemetry into an SQLite
    database. The database is an abstract value: the `plugs` table and the four
    measurement tables, each a sequence of rows in insertion order. Whether a
    statement against the database succeeds is an input (`Replies`), since the
    database engine is not part of this model. */
module Plugin {
  import opened Options
  import opened Text
  import opened Topic
  import opened Seqs

  /* ---------------------------------------------------------------------
     Topic filter
     --------------------------------------------------------------------- */

  /** Markers whose presence anywhere in a topic makes the plugin skip it. */
  const IgnoreMarkers: seq<string> :=
    ["online", "temperature_f", "overtemperature", "command", "info", "announce"]

  /** Some of the first `n` entries of `subs` occurs in `s`. */
  predicate ContainsAny(s: string, subs: seq<string>, n: nat)
    requires n <= |subs|
  {
    exists i :: 0 <= i < n && Occurs(subs[i], s)
  }

  /** `containsString`: scans the first `n` substrings in order and reports
      whether any of them occurs in `s`; with no substrings it reports false. */
  method ContainsString(s: string, subs: seq<string>, n: nat) returns (found: bool)
    requires n <= |subs|
    ensures found <==> ContainsAny(s, subs, n)
    ensures n == 0 ==> !found
  {
    var i := 0;
    while i < n
      invariant 0 <= i <= n
      invariant forall j :: 0 <= j < i ==> !Occurs(subs[j], s)
    {
      if Occurs(subs[i], s) {
        return true;
      }
      i := i + 1;
    }
    return false;
  }

  /** The filter applied to every incoming topic. */
  predicate IsIgnored(topic: string)
  {
    ContainsAny(topic, IgnoreMarkers, |IgnoreMarkers|)
  }

  /** Ignoring is the same as some marker occurring in the topic. */
  lemma IgnoredIff(topic: string)
    ensures IsIgnored(topic) <==> exists m :: m in IgnoreMarkers && Occurs(m, topic)
  {
    if exists m :: m in IgnoreMarkers && Occurs(m, topic) {
      var m :| m in IgnoreMarkers && Occurs(m, topic);
      var i :| 0 <= i < |IgnoreMarkers| && IgnoreMarkers[i] == m;
    }
  }

  lemma MarkersAreLevels()
    ensures forall m :: m in IgnoreMarkers ==> IsLevel(m)
  {
  }

  /** No marker holds a separator, so an ignored topic has a marker inside one
      of its levels: the filter never matches across levels. */
  lemma IgnoredHasMarkedLevel(topic: string)
    requires IsIgnored(topic)
    ensures exists m, k :: m in IgnoreMarkers && 0 <= k < |Split(topic)| && Occurs(m, Split(topic)[k])
  {
    var levels := Split(topic);
    IgnoredIff(topic);
    var m :| m in IgnoreMarkers && Occurs(m, topic);
    MarkersAreLevels();
    OccursInJoin(m, levels);
    var k :| 0 <= k < |levels| && Occurs(m, levels[k]);
  }

  /** Conversely a marker inside any level makes the whole topic ignored. */
  lemma MarkedLevelIsIgnored(topic: string, m: string, k: int)
    requires m in IgnoreMarkers && 0 <= k < |Split(topic)| && Occurs(m, Split(topic)[k])
    ensures IsIgnored(topic)
  {
    MarkersAreLevels();
    OccursInJoin(m, Split(topic));
    IgnoredIff(topic);
  }

  /** For a topic built from levels: it passes the filter exactly when every
      level does. */
  lemma {:induction false} IgnoredIffSomeLevel(levels: seq<string>)
    requires |levels| >= 1 && AllLevels(levels)
    ensures IsIgnored(Join(levels)) <==> exists k :: 0 <= k < |levels| && IsIgnored(levels[k])
  {
    var topic := Join(levels);
    SplitJoin(levels);
    if IsIgnored(topic) {
      IgnoredHasMarkedLevel(topic);
      var m, k :| m in IgnoreMarkers && 0 <= k < |levels| && Occurs(m, levels[k]);
      IgnoredIff(levels[k]);
    }
    if exists k :: 0 <= k < |levels| && IsIgnored(levels[k]) {
      var k :| 0 <= k < |levels| && IsIgnored(levels[k]);
      IgnoredIff(levels[k]);
      var m :| m in IgnoreMarkers && Occurs(m, levels[k]);
      MarkedLevelIsIgnored(topic, m, k);
    }
  }

  /* ---------------------------------------------------------------------
     Database state
     --------------------------------------------------------------------- */

  datatype Kind = Temperature | Status | Power | Consumption

  /** A measurement row: the plug's name and the payload stored verbatim. */
  datatype Record = Record(plugName: string, value: string)

  datatype Store = Store(
    plugs: seq<string>,
    temperature: seq<Record>,
    status: seq<Record>,
    power: seq<Record>,
    consumption: seq<Record>)

  const EmptyStore: Store := Store([], [], [], [], [])

  /** The measurement table a kind is written to. */
  function Rows(st: Store, k: Kind): seq<Record>
  {
    match k
    case Temperature => st.temperature
    case Status => st.status
    case Power => st.power
    case Consumption => st.consumption
  }

  /** One executed `INSERT INTO plug_<kind>`: the row lands at the end of its
      table; the registry and the other tables are untouched. */
  function AppendRow(st: Store, k: Kind, rec: Record): (r: Store)
    ensures Rows(r, k) == Rows(st, k) + [rec]
    ensures forall k' :: k' != k ==> Rows(r, k') == Rows(st, k')
    ensures r.plugs == st.plugs
  {
    match k
    case Temperature => st.(temperature := st.temperature + [rec])
    case Status => st.(status := st.status + [rec])
    case Power => st.(power := st.power + [rec])
    case Consumption => st.(consumption := st.consumption + [rec])
  }

  /** Every measurement row names a registered plug. */
  ghost predicate Referenced(st: Store)
  {
    forall k, i :: 0 <= i < |Rows(st, k)| ==> Rows(st, k)[i].plugName in st.plugs
  }

  /** The two invariants of the database: the registry is duplicate-free and
      no measurement row is orphaned. */
  ghost predicate Consistent(st: Store)
  {
    NoDuplicates(st.plugs) && Referenced(st)
  }

  /* ---------------------------------------------------------------------
     Device registry
     --------------------------------------------------------------------- */

  /** `checkIfPlugInDB`: a SELECT for the name; a row found means return, no
      row means INSERT. `storeOk` is false when the statements fail, in which
      case the failure is logged and the registry stays as it was. */
  function RegisterPlug(plugs: seq<string>, name: string, storeOk: bool): (r: seq<string>)
    ensures name in plugs ==> r == plugs
    ensures name !in plugs && storeOk ==> r == plugs + [name]
    ensures !storeOk ==> r == plugs
    ensures storeOk ==> name in r
    ensures forall x :: x in r <==> x in plugs || (storeOk && x == name)
    ensures NoDuplicates(plugs) ==> NoDuplicates(r)
  {
    if name in plugs || !storeOk then plugs else plugs + [name]
  }

  /** Registering twice is registering once. */
  lemma RegisterIdempotent(plugs: seq<string>, name: string)
    ensures RegisterPlug(RegisterPlug(plugs, name, true), name, true) == RegisterPlug(plugs, name, true)
  {
  }

  /** Whatever sequence of names is registered, the registry never holds a
      name twice and holds exactly the names whose registration succeeded. */
  lemma {:induction false} RegisterAllNoDuplicates(plugs: seq<string>, names: seq<string>)
    requires NoDuplicates(plugs)
    ensures NoDuplicates(RegisterAll(plugs, names))
    ensures forall x :: x in RegisterAll(plugs, names) <==> x in plugs || x in names
    decreases |names|
  {
    if |names| > 0 {
      var next := RegisterPlug(plugs, names[0], true);
      RegisterAllNoDuplicates(next, names[1..]);
      forall x
        ensures x in RegisterAll(plugs, names) <==> x in plugs || x in names
      {
        assert x in names <==> x == names[0] || x in names[1..];
      }
    }
  }

  /** Successful registration of each name in turn. */
  function RegisterAll(plugs: seq<string>, names: seq<string>): seq<string>
    decreases |names|
  {
    if |names| == 0 then plugs else RegisterAll(RegisterPlug(plugs, names[0], true), names[1..])
  }

  /* ---------------------------------------------------------------------
     Classification
     --------------------------------------------------------------------- */

  /** A classification rule: the topic has `levelCount` levels (any number
      when None) and level `level` equals `literal`. */
  datatype Rule = Rule(levelCount: Option<nat>, level: nat, literal: string, kind: Kind)

  /** The plugin's rules in the order it tries them. */
  const Rules: seq<Rule> := [
    Rule(None, 2, "temperature", Temperature),
    Rule(Some(4), 3, "0", Status),
    Rule(Some(5), 4, "power", Power),
    Rule(Some(5), 4, "energy", Consumption)
  ]

  predicate Matches(rule: Rule, levels: seq<string>)
  {
    && (rule.levelCount.None? || |levels| == rule.levelCount.value)
    && rule.level < |levels|
    && levels[rule.level] == rule.literal
  }

  /** Rule `i` is the first of `Rules` that matches. */
  ghost predicate FirstMatch(i: int, levels: seq<string>)
  {
    && 0 <= i < |Rules|
    && Matches(Rules[i], levels)
    && forall j :: 0 <= j < i ==> !Matches(Rules[j], levels)
  }

  /** Outcome of classification. `Malformed` is a topic too short to read
      level 2; `Unclassified` is one that no rule matches. */
  datatype Classification = Classified(kind: Kind) | Unclassified | Malformed

  /** The measurement table a topic's levels select, first matching rule wins. */
  function Classify(levels: seq<string>): (r: Classification)
    ensures r.Malformed? <==> |levels| < 3
    ensures r.Classified? <==> |levels| >= 3 && exists i :: FirstMatch(i, levels)
    ensures r.Classified? ==> exists i :: FirstMatch(i, levels) && Rules[i].kind == r.kind
    ensures r.Unclassified? <==> |levels| >= 3 && forall i :: 0 <= i < |Rules| ==> !Matches(Rules[i], levels)
  {
    if |levels| < 3 then Malformed
    else if levels[2] == "temperature" then
      assert FirstMatch(0, levels);
      Classified(Temperature)
    else if |levels| == 4 && levels[3] == "0" then
      assert FirstMatch(1, levels);
      Classified(Status)
    else if |levels| == 5 && levels[4] == "power" then
      assert FirstMatch(2, levels);
      Classified(Power)
    else if |levels| == 5 && levels[4] == "energy" then
      assert FirstMatch(3, levels);
      Classified(Consumption)
    else Unclassified
  }

  /** The shape each kind demands of a topic, read off the rules. The four
      shapes exclude each other in this order. */
  lemma ClassifiedShapes(levels: seq<string>)
    ensures Classify(levels) == Classified(Temperature) <==> |levels| >= 3 && levels[2] == "temperature"
    ensures Classify(levels) == Classified(Status) <==>
            |levels| == 4 && levels[2] != "temperature" && levels[3] == "0"
    ensures Classify(levels) == Classified(Power) <==>
            |levels| == 5 && levels[2] != "temperature" && levels[4] == "power"
    ensures Classify(levels) == Classified(Consumption) <==>
            |levels| == 5 && levels[2] != "temperature" && levels[4] == "energy"
  {
    var r := Classify(levels);
    if r.Classified? {
      var i :| FirstMatch(i, levels) && Rules[i].kind == r.kind;
      assert !Matches(Rules[0], levels) ==> levels[2] != "temperature";
    }
  }

  /* ---------------------------------------------------------------------
     The message callback
     --------------------------------------------------------------------- */

  /** Whether the database statements succeed: the registration statements of
      `checkIfPlugInDB`, and the prepare/bind/step of the measurement insert. */
  datatype Replies = Replies(registration: bool, write: bool)

  datatype Outcome =
    | Ignored
    | Stored(kind: Kind)
    | WriteFailed(kind: Kind)
    | Rejected(reason: Classification)

  datatype ReturnCode = ErrSuccess | ErrUnknown

  /** The code the callback hands back to the broker: success for a dropped
      topic and for a stored row, an error for every failure. */
  function Code(o: Outcome): (r: ReturnCode)
    ensures r == ErrSuccess <==> o.Ignored? || o.Stored?
  {
    match o
    case Ignored => ErrSuccess
    case Stored(_) => ErrSuccess
    case _ => ErrUnknown
  }

  datatype Step = Step(store: Store, outcome: Outcome)

  /** What `callback_log` does with the levels of a topic that passed the
      filter: take level 1 as the device id, register it, classify, then
      write (device id, payload) to the chosen table. */
  function Ingest(st: Store, levels: seq<string>, payload: string, replies: Replies): (r: Step)
    ensures r.outcome.Stored? <==> Classify(levels).Classified? && replies.write
    ensures r.outcome.Stored? ==> Classify(levels) == Classified(r.outcome.kind)
    ensures r.outcome.Stored? ==>
            && Rows(r.store, r.outcome.kind) == Rows(st, r.outcome.kind) + [Record(levels[1], payload)]
            && forall k :: k != r.outcome.kind ==> Rows(r.store, k) == Rows(st, k)
    ensures !r.outcome.Stored? ==> r.store == st.(plugs := r.store.plugs)
    ensures r.outcome.Rejected? ==> r.outcome.reason == Classify(levels)
    ensures !r.outcome.Ignored?
    ensures r.store.plugs ==
            if |levels| < 2 then st.plugs else RegisterPlug(st.plugs, levels[1], replies.registration)
  {
    if |levels| < 2 then Step(st, Rejected(Malformed))
    else
      var id := levels[1];
      var registered := st.(plugs := RegisterPlug(st.plugs, id, replies.registration));
      match Classify(levels)
      case Classified(k) =>
        if replies.write then Step(AppendRow(registered, k, Record(id, payload)), Stored(k))
        else Step(registered, WriteFailed(k))
      case other => Step(registered, Rejected(other))
  }

  /** `callback_log`: topics carrying an ignore marker are dropped before
      anything else; every other topic is split and ingested. */
  function CallbackLog(st: Store, topic: string, payload: string, replies: Replies): (r: Step)
    ensures IsIgnored(topic) ==> r == Step(st, Ignored)
    ensures r.outcome.Stored? <==>
            !IsIgnored(topic) && Classify(Split(topic)).Classified? && replies.write
    ensures r.outcome.Stored? ==> Classify(Split(topic)) == Classified(r.outcome.kind)
    ensures r.outcome.Stored? ==>
            && Rows(r.store, r.outcome.kind) == Rows(st, r.outcome.kind) + [Record(Split(topic)[1], payload)]
            && forall k :: k != r.outcome.kind ==> Rows(r.store, k) == Rows(st, k)
    ensures !r.outcome.Stored? ==> r.store == st.(plugs := r.store.plugs)
    ensures r.outcome.Rejected? ==> r.outcome.reason == Classify(Split(topic))
    ensures r.store.plugs ==
            if IsIgnored(topic) || DeviceId(topic).None? then st.plugs
            else RegisterPlug(st.plugs, DeviceId(topic).value, replies.registration)
    ensures r.outcome.Stored? && replies.registration ==> Split(topic)[1] in r.store.plugs
  {
    if IsIgnored(topic) then Step(st, Ignored)
    else Ingest(st, Split(topic), payload, replies)
  }

  /** The callback reports success exactly for a topic it drops and for a
      row it stores; a rejected topic and a failed write report an error. */
  lemma CallbackCodeIff(st: Store, topic: string, payload: string, replies: Replies)
    ensures Code(CallbackLog(st, topic, payload, replies).outcome) == ErrSuccess <==>
            IsIgnored(topic) || (Classify(Split(topic)).Classified? && replies.write)
  {
  }

  /** With registration working, the callback keeps the database consistent:
      the device is registered before its measurement is written, so no row is
      orphaned, and the registry stays duplicate-free. */
  lemma CallbackKeepsConsistent(st: Store, topic: string, payload: string, replies: Replies)
    requires Consistent(st)
    requires replies.registration
    ensures Consistent(CallbackLog(st, topic, payload, replies).store)
  {
    var r := CallbackLog(st, topic, payload, replies);
    if !IsIgnored(topic) && DeviceId(topic).Some? {
      var id := DeviceId(topic).value;
      var registered := st.(plugs := RegisterPlug(st.plugs, id, true));
      GrowingRegistryKeepsReferences(st, registered);
      if r.outcome.Stored? {
        AppendKeepsReferences(registered, r.outcome.kind, Record(id, payload));
      } else {
        assert r.store == registered;
      }
    }
  }

  /** Adding plugs to the registry orphans no row. */
  lemma GrowingRegistryKeepsReferences(st: Store, st': Store)
    requires Referenced(st)
    requires forall x :: x in st.plugs ==> x in st'.plugs
    requires forall k :: Rows(st', k) == Rows(st, k)
    ensures Referenced(st')
  {
  }

  /** Appending a row for a registered plug orphans no row. */
  lemma AppendKeepsReferences(st: Store, k: Kind, rec: Record)
    requires Referenced(st)
    requires rec.plugName in st.plugs
    ensures Referenced(AppendRow(st, k, rec))
  {
    var r := AppendRow(st, k, rec);
    forall k', i | 0 <= i < |Rows(r, k')|
      ensures Rows(r, k')[i].plugName in r.plugs
    {
      if k' == k && i < |Rows(st, k)| {
        assert Rows(r, k)[i] == Rows(st, k)[i];
      }
    }
  }

  /** Delivering the same event again leaves the registry as one delivery
      did: registration is idempotent across events. */
  lemma RedeliveryKeepsRegistry(st: Store, topic: string, payload: string, replies: Replies)
    requires replies.registration
    ensures var once := CallbackLog(st, topic, payload, replies).store;
            CallbackLog(once, topic, payload, replies).store.plugs == once.plugs
  {
  }

  /** A topic lacking, for every marker, one of that marker's letters passes
      the filter. `letters[i]` is the witness for `IgnoreMarkers[i]`. */
  lemma NotIgnoredLetters(topic: string, letters: seq<char>)
    requires |letters| == |IgnoreMarkers|
    requires forall i :: 0 <= i < |letters| ==> letters[i] in IgnoreMarkers[i] && letters[i] !in topic
    ensures !IsIgnored(topic)
  {
    forall i | 0 <= i < |IgnoreMarkers|
      ensures !Occurs(IgnoreMarkers[i], topic)
    {
      AbsentChar(IgnoreMarkers[i], topic, letters[i]);
    }
  }

  /** The levels after the device id in the topic a Shelly plug publishes
      each measurement on. */
  function KindLevels(k: Kind): seq<string>
  {
    match k
    case Temperature => ["temperature"]
    case Status => ["relay", "0"]
    case Power => ["relay", "0", "power"]
    case Consumption => ["relay", "0", "energy"]
  }

  /** `<root>/<id>/temperature`, `<root>/<id>/relay/0` and so on. */
  function ShellyTopic(root: string, id: string, k: Kind): string
  {
    Join([root, id] + KindLevels(k))
  }

  /** A level without `i`, `_`, `v` and `c` passes the filter: each marker
      holds one of these letters. */
  lemma WithoutMarkerLetters(level: string)
    requires 'i' !in level && '_' !in level && 'v' !in level && 'c' !in level
    ensures !IsIgnored(level)
  {
    NotIgnoredLetters(level, ['i', '_', 'v', 'c', 'i', 'c']);
  }

  /** The fixed levels of the measurement topics carry no marker. */
  lemma ShellyLevelsPass()
    ensures !IsIgnored("temperature") && !IsIgnored("relay") && !IsIgnored("0")
    ensures !IsIgnored("power") && !IsIgnored("energy")
  {
    WithoutMarkerLetters("temperature");
    WithoutMarkerLetters("relay");
    WithoutMarkerLetters("0");
    WithoutMarkerLetters("power");
    WithoutMarkerLetters("energy");
  }

  /** A measurement topic splits back into its levels and passes the filter
      when its root and id hold no marker. */
  lemma {:induction false} ShellyTopicLevels(root: string, id: string, k: Kind)
    requires IsLevel(root) && IsLevel(id)
    requires !IsIgnored(root) && !IsIgnored(id)
    ensures Split(ShellyTopic(root, id, k)) == [root, id] + KindLevels(k)
    ensures !IsIgnored(ShellyTopic(root, id, k))
    ensures Classify(Split(ShellyTopic(root, id, k))) == Classified(k)
  {
    var levels := [root, id] + KindLevels(k);
    KindLevelsPass(k);
    assert AllLevels(levels) && forall j :: 0 <= j < |levels| ==> !IsIgnored(levels[j]) by {
      forall j | 2 <= j < |levels|
        ensures IsLevel(levels[j]) && !IsIgnored(levels[j])
      {
        assert levels[j] == KindLevels(k)[j - 2];
      }
    }
    SplitJoin(levels);
    IgnoredIffSomeLevel(levels);
    KindLevelsClassify(root, id, k);
  }

  lemma KindLevelsPass(k: Kind)
    ensures AllLevels(KindLevels(k))
    ensures forall j :: 0 <= j < |KindLevels(k)| ==> !IsIgnored(KindLevels(k)[j])
  {
    ShellyLevelsPass();
  }

  /** Each kind's topic shape is classified as that kind. */
  lemma KindLevelsClassify(root: string, id: string, k: Kind)
    ensures Classify([root, id] + KindLevels(k)) == Classified(k)
  {
  }

  /** Each measurement topic of a plug whose root and id hold no ignore marker
      writes exactly one row, (id, payload verbatim), to that measurement's
      table and to no other. */
  lemma ShellyTopicStored(st: Store, root: string, id: string, k: Kind, payload: string, replies: Replies)
    requires IsLevel(root) && IsLevel(id)
    requires !IsIgnored(root) && !IsIgnored(id)
    requires replies.write
    ensures var r := CallbackLog(st, ShellyTopic(root, id, k), payload, replies);
            && r.outcome == Stored(k)
            && Code(r.outcome) == ErrSuccess
            && Rows(r.store, k) == Rows(st, k) + [Record(id, payload)]
            && (forall k' :: k' != k ==> Rows(r.store, k') == Rows(st, k'))
            && (replies.registration ==> id in r.store.plugs)
  {
    ShellyTopicLevels(root, id, k);
    StoredWhenClassified(st, ShellyTopic(root, id, k), id, k, payload, replies);
  }

  /** The callback's contract, specialised to a topic known to pass the filter
      and to classify as `k`. */
  lemma StoredWhenClassified(st: Store, topic: string, id: string, k: Kind, payload: string, replies: Replies)
    requires !IsIgnored(topic) && Classify(Split(topic)) == Classified(k) && Split(topic)[1] == id
    requires replies.write
    ensures var r := CallbackLog(st, topic, payload, replies);
            && r.outcome == Stored(k)
            && Code(r.outcome) == ErrSuccess
            && Rows(r.store, k) == Rows(st, k) + [Record(id, payload)]
            && (forall k' :: k' != k ==> Rows(r.store, k') == Rows(st, k'))
            && (replies.registration ==> id in r.store.plugs)
  {
  }

  /** A topic without a measurement rule is rejected, and the registry is the
      only thing it may change. */
  lemma NothingStoredUnlessClassified(st: Store, topic: string, payload: string, replies: Replies)
    requires !Classify(Split(topic)).Classified?
    ensures var r := CallbackLog(st, topic, payload, replies);
            && (r.outcome == Ignored || r.outcome == Rejected(Classify(Split(topic))))
            && r.store == st.(plugs := r.store.plugs)
  {
  }

  /** Registration failing does not stop the measurement write, so a row can
      name a plug that the registry lacks: `shellies/plug1/temperature` with
      the registration statements failing leaves a temperature row for `plug1`
      and an empty registry. */
  lemma OrphanWhenRegistrationFails()
    ensures var r := CallbackLog(EmptyStore, ShellyTopic("shellies", "plug1", Temperature), "21.5", Replies(false, true));
            r.outcome == Stored(Temperature) && !Consistent(r.store)
  {
    PlugOneLevelsPass();
    ShellyTopicStored(EmptyStore, "shellies", "plug1", Temperature, "21.5", Replies(false, true));
    var r := CallbackLog(EmptyStore, ShellyTopic("shellies", "plug1", Temperature), "21.5", Replies(false, true));
    assert Rows(r.store, Temperature)[0].plugName == "plug1";
  }

  lemma PlugOneLevelsPass()
    ensures !IsIgnored("shellies") && !IsIgnored("plug1")
  {
    NotIgnoredLetters("shellies", ['o', 't', 'v', 'c', 'n', 'a']);
    NotIgnoredLetters("plug1", ['o', 'f', 'v', 'c', 'o', 'a']);
  }

  /** Power reading `42.5` on `shellies/plug1/relay/0/power` for a new plug:
      one Power row (`plug1`, `42.5`) and `plug1` registered exactly once. */
  lemma PowerExample()
    ensures var r := CallbackLog(EmptyStore, ShellyTopic("shellies", "plug1", Power), "42.5", Replies(true, true));
            && r.outcome == Stored(Power)
            && r.store == EmptyStore.(plugs := ["plug1"], power := [Record("plug1", "42.5")])
  {
    PlugOneLevelsPass();
    ShellyTopicStored(EmptyStore, "shellies", "plug1", Power, "42.5", Replies(true, true));
  }

  /** The connection announcement of a plug writes nothing. */
  lemma OnlineExample()
    ensures CallbackLog(EmptyStore, "shellies/plug1/online", "true", Replies(true, true))
            == Step(EmptyStore, Ignored)
  {
    OccursInConcat("shellies/plug1/", "online", "");
    assert "shellies/plug1/" + "online" + "" == "shellies/plug1/online";
    assert Occurs(IgnoreMarkers[0], "shellies/plug1/online");
  }

  /* ---------------------------------------------------------------------
     The callback as written
     --------------------------------------------------------------------- */

  /** What the C callback holds in `query` when it reaches the prepare call,
      or the level it reads past the end of the tokenised topic before that. */
  datatype QueryAtPrepare = Bound(kind: Kind) | Unset | ReadPastEnd(level: nat)

  /** The if/else-if chain as written: level 1 and level 2 are read with no
      count check, and no branch assigns `query` when nothing matches. */
  function QueryAsWritten(levels: seq<string>): (r: QueryAtPrepare)
    ensures r.ReadPastEnd? ==> r.level >= |levels|
    ensures r.Bound? ==> Classify(levels) == Classified(r.kind)
  {
    if |levels| < 2 then ReadPastEnd(1)
    else if |levels| < 3 then ReadPastEnd(2)
    else if levels[2] == "temperature" then Bound(Temperature)
    else if |levels| == 4 && levels[3] == "0" then Bound(Status)
    else if |levels| == 5 && levels[4] == "power" then Bound(Power)
    else if |levels| == 5 && levels[4] == "energy" then Bound(Consumption)
    else Unset
  }

  /** The corrected classification agrees with the written chain wherever the
      chain is defined, and turns each undefined case into an explicit
      rejection. */
  lemma {:induction false} CorrectedAgreesWithWritten(levels: seq<string>)
    ensures QueryAsWritten(levels).Bound? <==> Classify(levels).Classified?
    ensures QueryAsWritten(levels).Unset? <==> Classify(levels) == Unclassified
    ensures QueryAsWritten(levels).ReadPastEnd? <==> Classify(levels) == Malformed
  {
    ClassifiedShapes(levels);
  }

  /** `<root>/<id>/relay` passes the filter (for root and id free of markers)
      and reaches the prepare call with `query` never assigned; the corrected
      callback registers the plug, rejects the topic and writes nothing. */
  lemma UnsetQueryReachable(st: Store, root: string, id: string, payload: string)
    requires IsLevel(root) && IsLevel(id)
    requires !IsIgnored(root) && !IsIgnored(id)
    ensures var topic := Join([root, id, "relay"]);
            && !IsIgnored(topic)
            && QueryAsWritten(Split(topic)) == Unset
            && CallbackLog(st, topic, payload, Replies(true, true))
               == Step(st.(plugs := RegisterPlug(st.plugs, id, true)), Rejected(Unclassified))
  {
    var levels := [root, id, "relay"];
    RelayTopicLevels(root, id);
    assert Classify(levels) == Unclassified;
    var topic := Join(levels);
    assert DeviceId(topic) == Some(id);
  }

  lemma RelayTopicLevels(root: string, id: string)
    requires IsLevel(root) && IsLevel(id)
    requires !IsIgnored(root) && !IsIgnored(id)
    ensures Split(Join([root, id, "relay"])) == [root, id, "relay"]
    ensures !IsIgnored(Join([root, id, "relay"]))
  {
    var levels := [root, id, "relay"];
    ShellyLevelsPass();
    assert AllLevels(levels) && forall j :: 0 <= j < |levels| ==> !IsIgnored(levels[j]);
    SplitJoin(levels);
    IgnoredIffSomeLevel(levels);
  }

  /** A single-level topic that passes the filter makes the C code read
      `topics[1]` of a one-element array, and a two-level one makes it read
      `topics[2]` of a two-element array. The corrected callback rejects both
      as malformed; the one-level topic changes nothing, and the two-level
      topic registers its id first, as the code does. */
  lemma ReadPastEndReachable()
    ensures var topic := "plug1";
            && !IsIgnored(topic)
            && QueryAsWritten(Split(topic)) == ReadPastEnd(1)
            && CallbackLog(EmptyStore, topic, "on", Replies(true, true)) == Step(EmptyStore, Rejected(Malformed))
    ensures var topic := Join(["shellies", "plug1"]);
            && !IsIgnored(topic)
            && QueryAsWritten(Split(topic)) == ReadPastEnd(2)
            && CallbackLog(EmptyStore, topic, "on", Replies(true, true))
               == Step(EmptyStore.(plugs := ["plug1"]), Rejected(Malformed))
  {
    SplitJoin(["plug1"]);
    PlugOneLevelsPass();
    TwoLevelTopic();
  }

  lemma TwoLevelTopic()
    ensures Split(Join(["shellies", "plug1"])) == ["shellies", "plug1"]
    ensures !IsIgnored(Join(["shellies", "plug1"]))
  {
    var levels := ["shellies", "plug1"];
    PlugOneLevelsPass();
    SplitJoin(levels);
    IgnoredIffSomeLevel(levels);
  }

  /* ---------------------------------------------------------------------
     Plugin version negotiation
     --------------------------------------------------------------------- */

  /** `mosquitto_plugin_version`: scans the broker's offered versions and
      answers 5 when version 5 is among the first `n`, and -1 otherwise. */
  method PluginVersion(n: int, v: seq<int>) returns (r: int)
    requires n <= |v|
    ensures r == 5 <==> exists i :: 0 <= i < n && v[i] == 5
    ensures r == 5 || r == -1
  {
    var i := 0;
    while i < n && v[i] != 5
      invariant 0 <= i
      invariant n >= 0 ==> i <= n
      invariant forall j :: 0 <= j < i ==> j < |v| && v[j] != 5
    {
      i := i + 1;
    }
    r := if i < n then 5 else -1;
  }
}

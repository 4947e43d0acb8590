# Shelly smart-plug logger and dashboard, modelled in Dafny

The system has two parts:

- A Mosquitto broker plugin receives every MQTT message published by Shelly
  smart plugs. It drops topics that carry an ignore marker and takes the plug
  id from the second topic level. It registers the plug in a `plugs` table if
  the plug is new. It then writes the payload to the temperature, status,
  power or consumption table, depending on the topic's shape.
- A browser dashboard subscribes to the same topics. It keeps the list of
  known plugs, writes each measurement into the label of the field its topic
  names, and publishes a `toggle` command to flip a plug's relay. It finds a
  label with `querySelector("#<id>-<name>")`, which works only when the plug
  id is *plain* (`Dashboard.PlainId`). A plain id makes `<id>-<name>` a CSS
  identifier: it is made of letters, digits, `-`, `_` and non-ASCII
  characters, and does not start with a digit or with `-` and a digit.

The model is split into seven modules:

- `Options`: the option type.
- `Seqs`: duplicate-free lists.
- `Text`: substring search, which is what `strstr` and `includes` do.
- `Topic`: splitting a topic at `/` and joining it back, following section
  4.7.1.1 of MQTT 3.1.1, plus the device id on level 1.
- `Plugin`: the broker plugin.
- `Dashboard`: the dashboard script.
- `Interplay`: facts that relate the plugin and the dashboard.

The database is an abstract value. It has the `plugs` list and four
measurement tables, each a sequence of rows in insertion order. Whether a
database statement succeeds is an input (`Plugin.Replies`):

- `registration` covers the statements of `checkIfPlugInDB`;
- `write` covers the prepare, bind and step of the measurement insert.

The broker event, the clock and the database engine are not modelled.

In two places the model keeps the code's behaviour where a hardened logger
would differ:

- A failed registration does not stop the measurement write, so a row can
  name an unregistered plug (`Plugin.OrphanWhenRegistrationFails`).
- The filter matches a marker anywhere in the topic, not as a whole level.
  For example, a plug named `command1` is never logged.

The C code has three undefined cases:

1. No rule matches, so `query` is never assigned.
2. The topic has fewer than three levels, so the code reads past the end of
   the level array.
3. A level the code reads is empty. The tokeniser stores an empty level as
   NULL, which then reaches `strcmp` or `strlen`.

The model turns the first two into explicit rejections, and "## Findings"
relates them to the code as written. The third is listed under
"## Left out". A two-level topic registers its id before it is rejected,
because the code registers the plug (line 120) before it reads level 2
(line 125).

## Model

| member | source | states |
|---|---|---|
| Text.FindFrom | mosquitto-plugin.c:90 | the result is the first offset at which the substring occurs, and None means it occurs nowhere, which is `strstr` returning NULL or the address of the first match |
| Text.OccursIff | mosquitto-plugin.c:90 | a substring is found exactly when some offset matches it |
| Text.EmptyOccurs | mosquitto-plugin.c:90 | the empty string is found in every string, as `strstr(s, "")` is non-NULL |
| Topic.Split | mosquitto-plugin.c:109 | splitting gives at least one level, no level holds `/`, and joining the levels with `/` gives the topic back |
| Topic.SplitJoin | smartPlug.js:52 | splitting levels joined with `/` gives exactly those levels back, so split and join are inverses |
| Topic.OccursInJoin | mosquitto-plugin.c:111 | text without a `/` occurs in a topic exactly when it occurs in one of the topic's levels |
| Topic.DeviceId | mosquitto-plugin.c:116-117 | the device id, when there is one, is a single level: it holds no `/` |
| Topic.DeviceIdIff | smartPlug.js:52 | a topic has a level-1 device id exactly when it contains a `/` |
| Topic.DeviceIdOfJoin | mosquitto-plugin.c:116-117 | the device id of a topic built from two or more levels is its second level |
| Plugin.ContainsString | mosquitto-plugin.c:88-95 | the scan returns true exactly when one of the first n substrings occurs in the string, and false when n is 0 |
| Plugin.IgnoredIff | mosquitto-plugin.c:23 | a topic is ignored exactly when one of the six markers (online, temperature_f, overtemperature, command, info, announce) occurs in it |
| Plugin.IgnoredIffSomeLevel | mosquitto-plugin.c:111-114 | a topic built from levels is ignored exactly when one of its levels is ignored, because no marker can straddle a `/` |
| Plugin.RegisterPlug | mosquitto-plugin.c:29-79 | a known name leaves the registry alone; an unknown name is appended when the statements succeed; a failure changes nothing; membership changes only by that name; no duplicate is ever introduced |
| Plugin.RegisterIdempotent | mosquitto-plugin.c:45-49 | registering a name twice is the same as registering it once |
| Plugin.RegisterAllNoDuplicates | mosquitto-plugin.c:29-79 | after any sequence of successful registrations the registry has no duplicates and holds exactly the earlier names plus the registered ones |
| Plugin.Classify | mosquitto-plugin.c:124-142 | Malformed exactly when there are fewer than 3 levels; Classified exactly when some rule matches, with the kind of the first matching rule in source order; Unclassified exactly when no rule matches |
| Plugin.ClassifiedShapes | mosquitto-plugin.c:124-142 | each table is chosen exactly for its shape: level 2 `temperature` at any depth; otherwise 4 levels ending in `0` for status, 5 ending in `power` for power, 5 ending in `energy` for consumption |
| Plugin.AppendRow | mosquitto-plugin.c:124-177 | an executed insert puts the row at the end of its kind's table; the registry and the other three tables are unchanged |
| Plugin.Code | mosquitto-plugin.c:111-177 | the callback's code is success exactly for a dropped topic and for a stored row, and an error otherwise |
| Plugin.CallbackCodeIff | mosquitto-plugin.c:111-177 | the callback reports success exactly when the topic is ignored, or when it is classified and the write succeeds |
| Plugin.Ingest | mosquitto-plugin.c:116-177 | given the levels of a topic that passed the filter: a row (level-1 id, payload) is appended to the classified table, and to no other table, exactly when classification succeeds and the write succeeds; otherwise the registry is the only thing that may change; the registry changes only as registration of level 1 does |
| Plugin.CallbackLog | mosquitto-plugin.c:100-178 | an ignored topic changes nothing; every other topic stores a row exactly when it is classified and the write succeeds; the row is (level-1 id, payload) in the chosen table only; a rejection carries the classification; the registry changes only by registering the device id |
| Plugin.CallbackKeepsConsistent | mosquitto-plugin.c:117-120 | while registration succeeds, the callback keeps the registry duplicate-free and every stored row names a registered plug |
| Plugin.RedeliveryKeepsRegistry | mosquitto-plugin.c:45-49 | delivering the same message again does not change the registry any further |
| Plugin.ShellyTopicStored | mosquitto-plugin.c:124-177 | each Shelly measurement topic `<root>/<id>/temperature`, `.../relay/0`, `.../relay/0/power`, `.../relay/0/energy` stores exactly one row (id, payload) in its own table, returns success, and registers the id when registration succeeds |
| Plugin.ShellyTopicLevels | mosquitto-plugin.c:109-142 | a Shelly measurement topic splits back into its levels, passes the filter and is classified as its measurement |
| Plugin.NothingStoredUnlessClassified | mosquitto-plugin.c:124-148 | a topic no rule classifies stores no row; only the registry may change |
| Plugin.OrphanWhenRegistrationFails | mosquitto-plugin.c:117-127 | when registration fails but the write succeeds, a temperature row is stored for a plug the registry lacks |
| Plugin.PowerExample | mosquitto-plugin.c:134-138 | `shellies/plug1/relay/0/power` with payload `42.5` on an empty database gives one power row (plug1, 42.5) and registry [plug1] |
| Plugin.OnlineExample | mosquitto-plugin.c:21-23 | `shellies/plug1/online` is ignored and the database is unchanged |
| Plugin.QueryAsWritten | mosquitto-plugin.c:102-142 | the chain as written: a read past the end names a level at or beyond the level count; a bound query agrees with the corrected classification |
| Plugin.CorrectedAgreesWithWritten | mosquitto-plugin.c:117-142 | the corrected classification binds a table exactly where the written chain does; it is Unclassified exactly where `query` is left unset and Malformed exactly where the code reads past the end |
| Plugin.UnsetQueryReachable | mosquitto-plugin.c:102-145 | `<root>/<id>/relay` passes the filter and reaches the prepare call with `query` unset; the corrected callback registers the id, rejects the topic and writes nothing |
| Plugin.ReadPastEndReachable | mosquitto-plugin.c:117-125 | the one-level topic `plug1` passes the filter and makes the code read `topics[1]`, and `shellies/plug1` makes it read `topics[2]`; the corrected callback rejects both as malformed, changing nothing for the first and only registering `plug1` for the second |
| Plugin.PluginVersion | mosquitto-plugin.c:180-185 | the answer is 5 exactly when 5 is among the first n offered versions, and -1 otherwise |
| Dashboard.ManagePlugsScan | smartPlug.js:118-133 | a known id leaves the list alone; an unknown id containing `announce` leaves it alone; any other id is appended |
| Dashboard.ManagePlugsKeepsList | smartPlug.js:118-133 | the list stays duplicate-free, earlier entries keep their positions, and it grows by one exactly when the id is new and holds no `announce` |
| Dashboard.ManagePlugsIdempotent | smartPlug.js:119-124 | managing the same id twice is the same as managing it once |
| Dashboard.ManageAllKeepsList | smartPlug.js:57 | over any stream of messages the list stays duplicate-free and holds exactly the ids seen that do not contain `announce` |
| Dashboard.FieldTopicLevels | smartPlug.js:54 | each field topic splits back into `shellies`, the id and the field's levels |
| Dashboard.FieldTopicInjective | smartPlug.js:64-76 | two field topics are equal only for the same plug and the same field |
| Dashboard.Route | smartPlug.js:64-83 | a routed topic equals the topic built for that field, and no field is chosen exactly when the topic equals none of the five field topics |
| Dashboard.RouteIff | smartPlug.js:64-83 | the topic is routed to a field exactly when it is that field's topic, whatever the order of the comparisons |
| Dashboard.OvertemperatureFlag | smartPlug.js:75 | the overtemperature label reads false exactly for the message `0` |
| Dashboard.ButtonLabel | smartPlug.js:81 | the button reads `Turn plug off` exactly for the message `on`, and `Turn plug on` for every other message |
| Dashboard.ButtonOffersOpposite | smartPlug.js:79-81 | the button always offers the state opposite to the reported one |
| Dashboard.SelectableIff | smartPlug.js:65-80 | the selector `#<id>-<name>` is a valid id selector exactly when the plug id is plain, whichever label or button is looked up |
| Dashboard.OnMessage | smartPlug.js:50-84 | the handler throws before any change exactly when the topic has no second level. Otherwise the plug list is managed with the level-1 id. A topic that is no field topic updates nothing. A field topic fails its lookup, with no label changed, exactly when the plug is not in the list or its id is not plain. Any update is the label of the received field, for a listed plain id, with that field's text, and the button text appears exactly for the status field |
| Dashboard.FieldMessageUpdatesField | smartPlug.js:50-83 | a message on a plug's field topic manages that plug, then rewrites exactly that field's label when the plug is listed and its id is plain; otherwise the lookup fails and no label changes |
| Dashboard.DigitIdLookupFails | smartPlug.js:70-72 | `shellies/1abc/temperature` with message `20` adds `1abc` to the list, but the label lookup throws and no label changes |
| Dashboard.ToggleRelay | smartPlug.js:107-112 | the command always carries the payload `toggle` |
| Dashboard.ToggleRelayLevels | smartPlug.js:108 | for a plug id without `/`, the command topic splits into `shellies`, the id, `relay`, `0` and `command`, so its device id is the plug |
| Interplay.ToggleNeverLogged | smartPlug.js:108 | the toggle command the dashboard publishes is ignored by the plugin, which leaves the database unchanged |
| Interplay.PluginStoresWhatDashboardShows | mosquitto-plugin.c:124-142 | for every dashboard field, the plugin stores the topic's payload under the same plug id in the matching table, except for overtemperature, which it ignores |
| Interplay.DeeperTemperatureDiverges | mosquitto-plugin.c:125 | on `shellies/<id>/temperature/<extra>` the plugin stores a temperature row but the dashboard updates no label |

## Left out

- The database engine: SQL text, statement preparation, binding and
  finalisation are abstracted to the two success flags in `Plugin.Replies`.
  What `checkIfPlugInDB` does after a failed prepare (it steps a statement it
  could not build) is folded into `registration` being false.
- Plugin initialisation and cleanup (`mosquitto_plugin_init`,
  `mosquitto_plugin_cleanup`, mosquitto-plugin.c:187-217): opening and closing
  the database file and registering the callback are I/O with no logic of
  their own.
- Log messages (`mosquitto_log_printf`, `console.log`): they have no effect on
  state.
- The topic array from `mosquitto_sub_topic_tokenise` is never freed, so each
  message leaks memory. Memory is not modelled.
- The tokeniser library is not part of this model. Topic levels are split at
  every `/` with empty levels kept as empty strings. The library stores such
  levels as NULL, which the C code would then pass to `strcmp`. The model
  treats them as empty text.
- The payload is an uninterpreted string. The byte length the C code passes
  to the bind call is not modelled.
- Return codes are the abstract `ErrSuccess` and `ErrUnknown`. Their numeric
  values live in a broker header that is not part of this model.
- The broker's concurrency and event dispatch are left out, and so is the
  dashboard's MQTT client: connection, random client id, options, reconnect,
  subscription to `shellies/+/#`, and publishing.
- The page itself is left out: `insertPlugIntoHTML`, element creation,
  styling and the button click handler. A label update is modelled as the text
  written and the button text set. The page is assumed to hold a plug's labels
  exactly when the plug is in the list, since each push is followed by
  `insertPlugIntoHTML`.
- Dashboard.OnMessage: CSS identifiers are decided without escapes, so any
  id holding `\` counts as not plain. An escape changes which element id the
  selector names, so the lookup misses the plug's own label anyway. An id
  whose selector is valid CSS of another shape (with `.`, a space or `,`) is
  also treated as a failed lookup. That is what happens unless the selector
  happens to match some other element of the page, which the model does not
  track.
- The dashboard's `toString` on a missing second level throws. That is
  modelled as `Threw`.
- `Plugin.PluginVersion` states the answer, not that the scan stops at the
  first 5. The stop shows only in its loop.
- `Plugin.CallbackLog` returns a `Rejected` outcome where the C code has
  undefined behaviour: an unset `query` or a read past the end of the topic
  array. The written behaviour is described by `Plugin.QueryAsWritten`, and
  the defect is shown under Findings.
- Plugin.CallbackLog: an empty level is the empty string, not NULL, so the
  model is defined where the C code dereferences NULL. On
  `shellies//temperature` (empty level 1), the C code registers a NULL name
  and then calls `strlen` on it (line 152). The model instead stores a
  row whose plug name is empty. On `shellies/plug1/` (empty level 2), the C code
  passes NULL to `strcmp` (line 125), while the model rejects the topic as
  unclassified.

## Findings

| source | as written | input that shows it | evidently intended | confidence | as-written member | corrected member |
|---|---|---|---|---|---|---|
| mosquitto-plugin.c:102-145 | `query` is assigned only inside the four branches and then passed to `sqlite3_prepare_v2` and `strlen` | `shellies/plug1/relay` (any topic of 3 or more levels that passes the filter and matches no rule): no branch assigns `query` | reject the topic without preparing a statement and return an error | high, not executed | Plugin.UnsetQueryReachable | Plugin.CorrectedAgreesWithWritten |
| mosquitto-plugin.c:117-125 | `topics[1]` and `topics[2]` are read without checking `topic_count` | `plug1` (one level) reads `topics[1]`; `shellies/plug1` (two levels) reads `topics[2]` | reject topics with fewer than three levels | high, not executed | Plugin.ReadPastEndReachable | Plugin.Classify |

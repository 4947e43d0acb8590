/** The browser dashboard: it keeps the list of known plugs and routes each
    incoming message to the display field its topic names. The page itself
    (element creation, styling) is not modelled; a field update is the label
    text the handler writes, and the button text for the status field. */
module Dashboard {
  import opened Options
  import opened Text
  import opened Topic
  import opened Seqs

  /* ---------------------------------------------------------------------
     Known plugs
     --------------------------------------------------------------------- */

  /** `managePlugs`, as a value: a known id changes nothing; an unknown id is
      appended unless it contains "announce". */
  function ManagePlugs(plugs: seq<string>, id: string): (r: seq<string>)
  {
    if id in plugs || Occurs("announce", id) then plugs else plugs + [id]
  }

  /** `managePlugs` as smartPlug.js writes it: a linear scan that returns on
      the first equal entry, then the "announce" check and the push. */
  method ManagePlugsScan(plugs: seq<string>, id: string) returns (r: seq<string>)
    ensures id in plugs ==> r == plugs
    ensures id !in plugs && Occurs("announce", id) ==> r == plugs
    ensures id !in plugs && !Occurs("announce", id) ==> r == plugs + [id]
    ensures r == ManagePlugs(plugs, id)
  {
    var index := 0;
    while index < |plugs|
      invariant 0 <= index <= |plugs|
      invariant forall j :: 0 <= j < index ==> plugs[j] != id
    {
      if plugs[index] == id {
        return plugs;
      }
      index := index + 1;
    }
    if !Occurs("announce", id) {
      r := plugs + [id];
    } else {
      r := plugs;
    }
  }

  /** The list stays duplicate-free, earlier entries keep their positions,
      and an added id is added exactly once, at the end. */
  lemma ManagePlugsKeepsList(plugs: seq<string>, id: string)
    requires NoDuplicates(plugs)
    ensures var r := ManagePlugs(plugs, id);
            && NoDuplicates(r)
            && r[..|plugs|] == plugs
            && |r| <= |plugs| + 1
            && (|r| == |plugs| + 1 <==> id !in plugs && !Occurs("announce", id))
            && (forall x :: x in r <==> x in plugs || (x == id && !Occurs("announce", id)))
  {
  }

  /** Managing the same id twice is managing it once. */
  lemma ManagePlugsIdempotent(plugs: seq<string>, id: string)
    ensures ManagePlugs(ManagePlugs(plugs, id), id) == ManagePlugs(plugs, id)
  {
  }

  /** Any stream of messages leaves the list duplicate-free, and the list
      holds exactly the ids seen that do not contain "announce". */
  lemma {:induction false} ManageAllKeepsList(plugs: seq<string>, ids: seq<string>)
    requires NoDuplicates(plugs)
    requires forall x :: x in plugs ==> !Occurs("announce", x)
    ensures NoDuplicates(ManageAll(plugs, ids))
    ensures forall x :: x in ManageAll(plugs, ids) <==> x in plugs || (x in ids && !Occurs("announce", x))
    decreases |ids|
  {
    if |ids| > 0 {
      var next := ManagePlugs(plugs, ids[0]);
      ManagePlugsKeepsList(plugs, ids[0]);
      ManageAllKeepsList(next, ids[1..]);
      forall x
        ensures x in ManageAll(plugs, ids) <==> x in plugs || (x in ids && !Occurs("announce", x))
      {
        assert x in ids <==> x == ids[0] || x in ids[1..];
      }
    }
  }

  /** `managePlugs` applied to each id in turn. */
  function ManageAll(plugs: seq<string>, ids: seq<string>): seq<string>
    decreases |ids|
  {
    if |ids| == 0 then plugs else ManageAll(ManagePlugs(plugs, ids[0]), ids[1..])
  }

  /* ---------------------------------------------------------------------
     Topic dispatch
     --------------------------------------------------------------------- */

  datatype Field = PowerField | EnergyField | TemperatureField | OvertemperatureField | StatusField

  /** The levels after the plug id of the topic that feeds each field. */
  function FieldLevels(f: Field): seq<string>
  {
    match f
    case PowerField => ["relay", "0", "power"]
    case EnergyField => ["relay", "0", "energy"]
    case TemperatureField => ["temperature"]
    case OvertemperatureField => ["overtemperature"]
    case StatusField => ["relay", "0"]
  }

  /** `shellies/<id>/relay/0/power`, `shellies/<id>/relay/0/energy`,
      `shellies/<id>/temperature`, `shellies/<id>/overtemperature` and
      `shellies/<id>/relay/0` (the main topic). */
  function FieldTopic(id: string, f: Field): string
  {
    Join(["shellies", id] + FieldLevels(f))
  }

  lemma FieldLevelsAreLevels(f: Field)
    ensures AllLevels(FieldLevels(f))
  {
  }

  /** A field topic splits back into `shellies`, the id and the field's levels. */
  lemma FieldTopicLevels(id: string, f: Field)
    requires IsLevel(id)
    ensures Split(FieldTopic(id, f)) == ["shellies", id] + FieldLevels(f)
  {
    var levels := ["shellies", id] + FieldLevels(f);
    FieldLevelsAreLevels(f);
    assert AllLevels(levels) by {
      forall j | 2 <= j < |levels|
        ensures IsLevel(levels[j])
      {
        assert levels[j] == FieldLevels(f)[j - 2];
      }
    }
    SplitJoin(levels);
  }

  /** Different (id, field) pairs give different topics, so a topic names at
      most one field of at most one plug. */
  lemma FieldTopicInjective(id: string, f: Field, id': string, g: Field)
    requires IsLevel(id) && IsLevel(id')
    requires FieldTopic(id, f) == FieldTopic(id', g)
    ensures id == id' && f == g
  {
    FieldTopicLevels(id, f);
    FieldTopicLevels(id', g);
    var a := ["shellies", id] + FieldLevels(f);
    var b := ["shellies", id'] + FieldLevels(g);
    assert a[1] == b[1];
    assert a[2..] == FieldLevels(f) && b[2..] == FieldLevels(g);
  }

  /** The if/else-if chain of the message handler: exact string comparison
      against the five topics built from the id, in the order smartPlug.js
      tries them. */
  function Route(topic: string, id: string): (r: Option<Field>)
    ensures r.Some? ==> topic == FieldTopic(id, r.value)
    ensures r.None? <==> forall f :: topic != FieldTopic(id, f)
  {
    if topic == FieldTopic(id, PowerField) then Some(PowerField)
    else if topic == FieldTopic(id, EnergyField) then Some(EnergyField)
    else if topic == FieldTopic(id, TemperatureField) then Some(TemperatureField)
    else if topic == FieldTopic(id, OvertemperatureField) then Some(OvertemperatureField)
    else if topic == FieldTopic(id, StatusField) then Some(StatusField)
    else None
  }

  /** Routing is exactly the inverse of building a field topic: the order of
      the comparisons does not matter, since the five topics differ. */
  lemma RouteIff(topic: string, id: string, f: Field)
    requires IsLevel(id)
    ensures Route(topic, id) == Some(f) <==> topic == FieldTopic(id, f)
  {
    if topic == FieldTopic(id, f) {
      var r := Route(topic, id);
      FieldTopicInjective(id, f, id, r.value);
    }
  }

  /* ---------------------------------------------------------------------
     Label text
     --------------------------------------------------------------------- */

  /** The overtemperature label: "false" exactly for the message "0". */
  function OvertemperatureFlag(message: string): (r: string)
    ensures r == "false" <==> message == "0"
    ensures r == "true" <==> message != "0"
  {
    if message == "0" then "false" else "true"
  }

  /** The relay state a status message reports: "on" is on, anything else is
      taken as off. */
  function IsOn(message: string): bool
  {
    message == "on"
  }

  /** The word the button shows for the state the relay would switch to. */
  function StateWord(on: bool): string
  {
    if on then "on" else "off"
  }

  /** The toggle button's text. */
  function ButtonLabel(message: string): (r: string)
    ensures r == "Turn plug off" <==> message == "on"
    ensures r == "Turn plug on" <==> message != "on"
  {
    "Turn plug " + (if message == "on" then "off" else "on")
  }

  /** The button always offers the state opposite to the reported one. */
  lemma ButtonOffersOpposite(message: string)
    ensures ButtonLabel(message) == "Turn plug " + StateWord(!IsOn(message))
  {
  }

  /** The text written into each field's label. */
  function FieldText(f: Field, message: string): string
  {
    match f
    case PowerField => "Power: " + message + " W"
    case EnergyField => "Energy: " + message + " Wmin"
    case TemperatureField => "Temperature: " + message + " C"
    case OvertemperatureField => "Overtemperature: " + OvertemperatureFlag(message)
    case StatusField => "Status: " + message
  }

  /* ---------------------------------------------------------------------
     Label lookup
     --------------------------------------------------------------------- */

  /** The characters that may start a CSS identifier: a letter, `_`, or any
      non-ASCII character (the ident-start code points of CSS Syntax Module
      Level 3). */
  predicate IsNameStart(c: char)
  {
    ('a' <= c <= 'z') || ('A' <= c <= 'Z') || c == '_' || c >= '\U{80}'
  }

  /** The characters that may continue a CSS identifier: a name-start
      character, a digit or `-` (the ident code points). */
  predicate IsNameChar(c: char)
  {
    IsNameStart(c) || ('0' <= c <= '9') || c == '-'
  }

  /** A CSS identifier written without escapes: it starts with a name-start
      character, with `-` and a name-start character, or with `--`, and every
      character is a name character. */
  predicate IsIdentifier(s: string)
  {
    && |s| >= 1
    && (IsNameStart(s[0]) || (s[0] == '-' && |s| >= 2 && (IsNameStart(s[1]) || s[1] == '-')))
    && forall i :: 0 <= i < |s| ==> IsNameChar(s[i])
  }

  /** The element id of one of a plug's labels, or of its button. */
  function ElementId(id: string, name: string): string
  {
    id + "-" + name
  }

  /** `document.querySelector("#<id>-<name>")` reads its argument as an id
      selector exactly when the element id is an identifier; otherwise the
      selector is invalid and the call throws. */
  predicate Selectable(id: string, name: string)
  {
    IsIdentifier(ElementId(id, name))
  }

  /** The element names the handler looks up: lower-case words. */
  predicate IsElementName(name: string)
  {
    |name| >= 1 && forall i :: 0 <= i < |name| ==> 'a' <= name[i] <= 'z'
  }

  /** The plug ids whose elements can be looked up, described on the id
      alone: empty, or starting like an identifier, and made of name
      characters. */
  predicate PlainId(id: string)
  {
    && (|id| == 0 || IsNameStart(id[0]) || (id[0] == '-' && (|id| == 1 || IsNameStart(id[1]) || id[1] == '-')))
    && forall i :: 0 <= i < |id| ==> IsNameChar(id[i])
  }

  /** Whether a lookup succeeds does not depend on which element is looked
      up: it is decided by the plug id alone. */
  lemma {:induction false} SelectableIff(id: string, name: string)
    requires IsElementName(name)
    ensures Selectable(id, name) <==> PlainId(id)
  {
    var s := ElementId(id, name);
    assert forall i :: 0 <= i < |id| ==> s[i] == id[i];
    assert s[|id|] == '-';
    assert forall i :: 0 <= i < |name| ==> s[|id| + 1 + i] == name[i];
    assert IsNameStart(name[0]);
    if |id| == 0 {
      assert s[1] == name[0];
    } else if |id| == 1 {
      assert s[0] == id[0] && s[1] == '-';
    } else {
      assert s[0] == id[0] && s[1] == id[1];
    }
    if PlainId(id) {
      forall i | 0 <= i < |s|
        ensures IsNameChar(s[i])
      {
        if i > |id| {
          assert s[i] == name[i - |id| - 1];
        }
      }
    }
  }

  /** The label each field writes to: `#<id>-<name>`. */
  function LabelName(f: Field): (r: string)
    ensures IsElementName(r)
  {
    match f
    case PowerField => "power"
    case EnergyField => "energy"
    case TemperatureField => "temperature"
    case OvertemperatureField => "overtemperature"
    case StatusField => "status"
  }

  /** The toggle button's element name. */
  const ButtonName: string := "button"

  /** Every lookup the handler makes for field `f`: the field's label and,
      for the status field, the button. */
  predicate LabelsFound(id: string, f: Field)
  {
    Selectable(id, LabelName(f)) && (f != StatusField || Selectable(id, ButtonName))
  }

  lemma LookupIff(id: string, f: Field)
    ensures LabelsFound(id, f) <==> PlainId(id)
  {
    SelectableIff(id, LabelName(f));
    SelectableIff(id, ButtonName);
  }

  /* ---------------------------------------------------------------------
     The message handler
     --------------------------------------------------------------------- */

  /** One label update: the plug and field whose label is rewritten, its new
      text, and the new button text when the status field is updated. */
  datatype Update = Update(plug: string, field: Field, text: string, button: Option<string>)

  /** How one message ends.
      - `Threw`: the topic has no second level, so `split("/")[1]` is
        undefined and calling `toString` on it throws before anything
        changes.
      - `LookupFailed`: the plug list was managed, but the label of the
        matched field cannot be found. Either its selector is invalid, or
        there is no element because the plug was never added to the page.
        The handler throws there, and no label changes.
      - `Handled`: the list was managed and at most one label was updated. */
  datatype Handled =
    | Threw
    | LookupFailed(plugs: seq<string>)
    | Handled(plugs: seq<string>, update: Option<Update>)

  /** The `message` callback: id from level 1, `managePlugs`, then at most one
      label update chosen by exact topic comparison. The page holds a plug's
      labels and button exactly when the plug is in the list, because
      `insertPlugIntoHTML` runs right after each push. */
  function OnMessage(plugs: seq<string>, topic: string, message: string): (r: Handled)
    ensures r.Threw? <==> DeviceId(topic).None?
    ensures !r.Threw? ==> r.plugs == ManagePlugs(plugs, DeviceId(topic).value)
    ensures r.Handled? && r.update.Some? ==>
            && r.update.value.plug == DeviceId(topic).value
            && r.update.value.plug in r.plugs
            && PlainId(r.update.value.plug)
            && topic == FieldTopic(r.update.value.plug, r.update.value.field)
            && r.update.value.text == FieldText(r.update.value.field, message)
            && (r.update.value.button.Some? <==> r.update.value.field == StatusField)
            && (r.update.value.button.Some? ==> r.update.value.button.value == ButtonLabel(message))
    ensures DeviceId(topic).Some? ==>
            && (r.Handled? && r.update.None? <==> forall f :: topic != FieldTopic(DeviceId(topic).value, f))
            && (r.LookupFailed? <==>
                && (exists f :: topic == FieldTopic(DeviceId(topic).value, f))
                && !(DeviceId(topic).value in ManagePlugs(plugs, DeviceId(topic).value) && PlainId(DeviceId(topic).value)))
  {
    match DeviceId(topic)
    case None => Threw
    case Some(id) =>
      var known := ManagePlugs(plugs, id);
      match Route(topic, id)
      case None => Handled(known, None)
      case Some(f) =>
        LookupIff(id, f);
        if id in known && LabelsFound(id, f) then
          var button := if f == StatusField then Some(ButtonLabel(message)) else None;
          Handled(known, Some(Update(id, f, FieldText(f, message), button)))
        else LookupFailed(known)
  }

  /** A message on a plug's field topic manages the plug. It then rewrites
      exactly that field's label when the plug is in the list and its id can
      be looked up; otherwise the lookup fails and no label changes. */
  lemma FieldMessageUpdatesField(plugs: seq<string>, id: string, f: Field, message: string)
    requires IsLevel(id)
    ensures var r := OnMessage(plugs, FieldTopic(id, f), message);
            var known := ManagePlugs(plugs, id);
            r == if id in known && PlainId(id)
                 then Handled(known, Some(Update(id, f, FieldText(f, message),
                                                 if f == StatusField then Some(ButtonLabel(message)) else None)))
                 else LookupFailed(known)
  {
    FieldTopicLevels(id, f);
    RouteIff(FieldTopic(id, f), id, f);
  }

  /** A plug id that starts with a digit is kept in the list, but the lookup
      of its label throws: `shellies/1abc/temperature` with message `20`
      leaves the list as [1abc] and no label changed. */
  lemma DigitIdLookupFails()
    ensures OnMessage([], FieldTopic("1abc", TemperatureField), "20") == LookupFailed(["1abc"])
  {
    AbsentChar("announce", "1abc", 'n');
    assert !PlainId("1abc") by {
      assert "1abc"[0] == '1';
    }
    FieldMessageUpdatesField([], "1abc", TemperatureField, "20");
  }

  /* ---------------------------------------------------------------------
     Toggle command
     --------------------------------------------------------------------- */

  /** A message the dashboard publishes. */
  datatype Publish = Publish(topic: string, payload: string)

  /** `toggleRelay`: the command to flip a plug's relay. */
  function ToggleRelay(plug: string): (r: Publish)
    ensures r.payload == "toggle"
  {
    Publish(Join(["shellies", plug, "relay", "0", "command"]), "toggle")
  }

  /** For a plug id without separators, the command topic splits into
      `shellies`, the id, `relay`, `0` and `command`, so its device id is the
      plug. */
  lemma ToggleRelayLevels(plug: string)
    requires IsLevel(plug)
    ensures Split(ToggleRelay(plug).topic) == ["shellies", plug, "relay", "0", "command"]
    ensures DeviceId(ToggleRelay(plug).topic) == Some(plug)
  {
    var levels := ["shellies", plug, "relay", "0", "command"];
    assert AllLevels(levels);
    SplitJoin(levels);
  }
}

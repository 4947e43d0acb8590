/** Topic levels. A topic is split into levels at every topic level separator
    '/', as section 4.7.1.1 of MQTT 3.1.1 defines it; empty levels are kept, so a
    topic with k separators has k + 1 levels. Both the broker plugin
    (through `mosquitto_sub_topic_tokenise`) and the dashboard (through
    `topic.split("/")`) look at topics this way. */
module Topic {
  import opened Options
  import opened Text

  const Separator: char := '/'

  /** A single level: no separator inside. */
  predicate IsLevel(level: string)
  {
    Separator !in level
  }

  predicate AllLevels(levels: seq<string>)
  {
    forall k :: 0 <= k < |levels| ==> IsLevel(levels[k])
  }

  /** Offset of the first `c` in `s`, or `|s|` when `c` does not occur. */
  function IndexOfChar(s: string, c: char): (r: nat)
    ensures r <= |s|
    ensures r < |s| ==> s[r] == c
    ensures forall j :: 0 <= j < r ==> s[j] != c
    ensures r == |s| <==> c !in s
  {
    if |s| == 0 then 0
    else if s[0] == c then 0
    else 1 + IndexOfChar(s[1..], c)
  }

  /** Levels joined back with separators. */
  function Join(levels: seq<string>): (r: string)
    requires |levels| >= 1
    decreases |levels|
  {
    if |levels| == 1 then levels[0]
    else levels[0] + [Separator] + Join(levels[1..])
  }

  /** Splits a topic into its levels. The result is never empty, no level
      holds a separator, and joining the levels gives the topic back. */
  function Split(topic: string): (r: seq<string>)
    ensures |r| >= 1
    ensures AllLevels(r)
    ensures Join(r) == topic
    decreases |topic|
  {
    var i := IndexOfChar(topic, Separator);
    if i == |topic| then [topic]
    else
      var rest := Split(topic[i + 1..]);
      assert topic == topic[..i] + [Separator] + topic[i + 1..];
      [topic[..i]] + rest
  }

  /** The converse round trip: splitting joined levels gives the levels back. */
  lemma {:induction false} SplitJoin(levels: seq<string>)
    requires |levels| >= 1
    requires AllLevels(levels)
    ensures Split(Join(levels)) == levels
    decreases |levels|
  {
    var first := levels[0];
    assert IsLevel(first);
    if |levels| == 1 {
      assert IndexOfChar(first, Separator) == |first|;
    } else {
      var rest := levels[1..];
      assert AllLevels(rest) by {
        forall k | 0 <= k < |rest| ensures IsLevel(rest[k]) {
          assert rest[k] == levels[k + 1];
        }
      }
      SplitCons(first, Join(rest));
      SplitJoin(rest);
      assert levels == [first] + rest;
    }
  }

  /** Splitting text that starts with a level and a separator yields that level
      first and the split of the remainder after it. */
  lemma SplitCons(first: string, rest: string)
    requires IsLevel(first)
    ensures Split(first + [Separator] + rest) == [first] + Split(rest)
  {
    var s := first + [Separator] + rest;
    var i := IndexOfChar(s, Separator);
    assert s[|first|] == Separator;
    assert i == |first|;
    assert s[..i] == first;
    assert s[i + 1..] == rest;
  }

  /** Text without a separator cannot straddle one: it occurs in `a/b`
      exactly when it occurs in `a` or in `b`. */
  lemma OccursAcrossSeparator(sub: string, a: string, b: string)
    requires IsLevel(sub)
    ensures Occurs(sub, a + [Separator] + b) <==> Occurs(sub, a) || Occurs(sub, b)
  {
    if Occurs(sub, a + [Separator] + b) {
      OccursOnOneSide(sub, a, b);
    }
    if Occurs(sub, a) {
      OccursInPrefix(sub, a, [Separator] + b);
      assert a + [Separator] + b == a + ([Separator] + b);
    }
    if Occurs(sub, b) {
      OccursInSuffix(sub, a + [Separator], b);
    }
  }

  lemma OccursOnOneSide(sub: string, a: string, b: string)
    requires IsLevel(sub)
    requires Occurs(sub, a + [Separator] + b)
    ensures Occurs(sub, a) || Occurs(sub, b)
  {
    var s := a + [Separator] + b;
    var i := FindFrom(s, sub, 0).value;
    if i + |sub| <= |a| {
      assert a[i..i + |sub|] == s[i..i + |sub|];
      OccursFromWitness(sub, a, i);
    } else if i > |a| {
      assert b[i - |a| - 1..i - |a| - 1 + |sub|] == s[i..i + |sub|];
      OccursFromWitness(sub, b, i - |a| - 1);
    } else {
      WindowChar(sub, s, i, |a| - i);
      assert false;
    }
  }

  lemma OccursInPrefix(sub: string, a: string, c: string)
    requires Occurs(sub, a)
    ensures Occurs(sub, a + c)
  {
    var i := FindFrom(a, sub, 0).value;
    assert (a + c)[i..i + |sub|] == a[i..i + |sub|];
    OccursFromWitness(sub, a + c, i);
  }

  lemma OccursInSuffix(sub: string, c: string, b: string)
    requires Occurs(sub, b)
    ensures Occurs(sub, c + b)
  {
    var i := FindFrom(b, sub, 0).value;
    var j := |c| + i;
    assert (c + b)[j..j + |sub|] == b[i..i + |sub|];
    OccursFromWitness(sub, c + b, j);
  }

  /** Each character of an occurrence is the character of the text below it. */
  lemma WindowChar(sub: string, s: string, i: int, k: int)
    requires OccursAt(sub, s, i)
    requires 0 <= k < |sub|
    ensures sub[k] == s[i + k]
  {
    assert s[i..i + |sub|][k] == s[i + k];
  }

  /** Hence text without a separator occurs in a topic exactly when it occurs
      in one of the topic's levels. */
  lemma {:induction false} OccursInJoin(sub: string, levels: seq<string>)
    requires IsLevel(sub)
    requires |levels| >= 1
    ensures Occurs(sub, Join(levels)) <==> exists k :: 0 <= k < |levels| && Occurs(sub, levels[k])
    decreases |levels|
  {
    if |levels| > 1 {
      var rest := levels[1..];
      OccursAcrossSeparator(sub, levels[0], Join(rest));
      OccursInJoin(sub, rest);
      if exists k :: 0 <= k < |rest| && Occurs(sub, rest[k]) {
        var k :| 0 <= k < |rest| && Occurs(sub, rest[k]);
        assert levels[k + 1] == rest[k];
      }
      if exists k :: 0 <= k < |levels| && Occurs(sub, levels[k]) {
        var k :| 0 <= k < |levels| && Occurs(sub, levels[k]);
        if k > 0 {
          assert rest[k - 1] == levels[k];
        }
      }
    }
  }

  /** Shelly topics carry the device id on level 1 (the second level). */
  function DeviceId(topic: string): (r: Option<string>)
    ensures r.Some? ==> IsLevel(r.value)
  {
    var levels := Split(topic);
    if |levels| >= 2 then Some(levels[1]) else None
  }

  /** A topic has a device id exactly when it holds a separator. */
  lemma DeviceIdIff(topic: string)
    ensures DeviceId(topic).Some? <==> Separator in topic
  {
    var i := IndexOfChar(topic, Separator);
    if i < |topic| {
      assert |Split(topic)| == 1 + |Split(topic[i + 1..])|;
    }
  }

  /** The device id of a topic built from levels is its second level. */
  lemma DeviceIdOfJoin(levels: seq<string>)
    requires |levels| >= 2 && AllLevels(levels)
    ensures DeviceId(Join(levels)) == Some(levels[1])
  {
    SplitJoin(levels);
  }

  /** Text inside any level occurs in the topic, whatever the levels hold. */
  lemma {:induction false} LevelOccursInJoin(sub: string, levels: seq<string>, k: int)
    requires 0 <= k < |levels|
    requires Occurs(sub, levels[k])
    ensures Occurs(sub, Join(levels))
    decreases |levels|
  {
    if |levels| > 1 {
      var rest := Join(levels[1..]);
      if k == 0 {
        OccursInPrefix(sub, levels[0], [Separator] + rest);
        assert levels[0] + [Separator] + rest == levels[0] + ([Separator] + rest);
      } else {
        LevelOccursInJoin(sub, levels[1..], k - 1);
        OccursInSuffix(sub, levels[0] + [Separator], rest);
      }
    }
  }
}

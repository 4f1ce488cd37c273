/** Environment lists, and the environment that RunParallel gives to a job. */
module KeyValues {

  datatype KeyValuePair = KeyValuePair(name: string, value: string)

  type KeyValuePairs = seq<KeyValuePair>

  predicate HasKey(kvps: KeyValuePairs, key: string) {
    exists i :: 0 <= i < |kvps| && kvps[i].name == key
  }

  // The first match wins; the empty string when there is none.
  function GetVal(kvps: KeyValuePairs, key: string): string {
    if kvps == [] then ""
    else if kvps[0].name == key then kvps[0].value
    else GetVal(kvps[1..], key)
  }

  // The first match is rewritten; without one a pair is added at the end.
  function WithVal(kvps: KeyValuePairs, key: string, val: string): KeyValuePairs {
    if kvps == [] then [KeyValuePair(key, val)]
    else if kvps[0].name == key then [KeyValuePair(key, val)] + kvps[1..]
    else [kvps[0]] + WithVal(kvps[1..], key, val)
  }

  function Merged(kvps: KeyValuePairs, more: KeyValuePairs): KeyValuePairs
    decreases |more|
  {
    if more == [] then kvps
    else Merged(WithVal(kvps, more[0].name, more[0].value), more[1..])
  }

  lemma {:induction false} FirstMatchIsRewritten(kvps: KeyValuePairs, i: nat, key: string, val: string)
    requires i <= |kvps| && forall j | 0 <= j < i :: kvps[j].name != key
    requires i < |kvps| ==> kvps[i].name == key
    ensures WithVal(kvps, key, val)
         == if i < |kvps| then kvps[i := KeyValuePair(key, val)] else kvps + [KeyValuePair(key, val)]
  {
    if i == 0 {
    } else {
      FirstMatchIsRewritten(kvps[1..], i - 1, key, val);
    }
  }

  // A list of pairs that SetVal and Merge update through their receiver.
  class Environment {
    var pairs: KeyValuePairs

    constructor (pairs: KeyValuePairs)
      ensures this.pairs == pairs
    {
      this.pairs := pairs;
    }

    method SetVal(key: string, val: string)
      modifies this
      ensures pairs == WithVal(old(pairs), key, val)
    {
      for i := 0 to |pairs|
        invariant pairs == old(pairs)
        invariant forall j | 0 <= j < i :: pairs[j].name != key
      {
        if pairs[i].name == key {
          FirstMatchIsRewritten(pairs, i, key, val);
          pairs := pairs[i := pairs[i].(value := val)];
          return;
        }
      }
      FirstMatchIsRewritten(pairs, |pairs|, key, val);
      pairs := pairs + [KeyValuePair(key, val)];
    }

    method Merge(more: KeyValuePairs)
      modifies this
      ensures pairs == Merged(old(pairs), more)
    {
      for i := 0 to |more|
        invariant Merged(pairs, more[i..]) == Merged(old(pairs), more)
      {
        assert more[i..][1..] == more[i + 1..];
        SetVal(more[i].name, more[i].value);
      }
    }
  }

  lemma {:induction false} GetAfterSet(kvps: KeyValuePairs, key: string, val: string, other: string)
    ensures GetVal(WithVal(kvps, key, val), other) == if other == key then val else GetVal(kvps, other)
  {
    if kvps != [] && kvps[0].name != key {
      GetAfterSet(kvps[1..], key, val, other);
    }
  }

  // The last pair for the key in a list that is merged in order.
  function LastVal(kvps: KeyValuePairs, key: string, default: string): string {
    if kvps == [] then default
    else LastVal(kvps[1..], key, if kvps[0].name == key then kvps[0].value else default)
  }

  // Pair i is the last one for the key, or the first.
  ghost predicate IsLastWith(kvps: KeyValuePairs, i: nat, key: string) {
    i < |kvps| && kvps[i].name == key && forall j | i < j < |kvps| :: kvps[j].name != key
  }

  ghost predicate IsFirstWith(kvps: KeyValuePairs, i: nat, key: string) {
    i < |kvps| && kvps[i].name == key && forall j | 0 <= j < i :: kvps[j].name != key
  }

  lemma {:induction false} LastValIsLast(kvps: KeyValuePairs, i: nat, key: string, default: string)
    requires IsLastWith(kvps, i, key)
    ensures LastVal(kvps, key, default) == kvps[i].value
  {
    var given := if kvps[0].name == key then kvps[0].value else default;
    if i == 0 {
      assert !HasKey(kvps[1..], key);
      LastValWithout(kvps[1..], key, given);
    } else {
      LastValIsLast(kvps[1..], i - 1, key, given);
    }
  }

  lemma {:induction false} GetValIsFirst(kvps: KeyValuePairs, i: nat, key: string)
    requires IsFirstWith(kvps, i, key)
    ensures GetVal(kvps, key) == kvps[i].value
  {
    if i == 0 {
    } else {
      GetValIsFirst(kvps[1..], i - 1, key);
    }
  }

  lemma {:induction false} GetAfterMerge(kvps: KeyValuePairs, more: KeyValuePairs, key: string)
    ensures GetVal(Merged(kvps, more), key) == LastVal(more, key, GetVal(kvps, key))
    decreases |more|
  {
    if more == [] {
    } else {
      GetAfterSet(kvps, more[0].name, more[0].value, key);
      GetAfterMerge(WithVal(kvps, more[0].name, more[0].value), more[1..], key);
    }
  }

  lemma {:induction false} LastValWithout(kvps: KeyValuePairs, key: string, default: string)
    requires !HasKey(kvps, key)
    ensures LastVal(kvps, key, default) == default
  {
    if kvps == [] {
    } else {
      assert kvps[0].name != key;
      assert forall i | 0 <= i < |kvps[1..]| :: kvps[1..][i] == kvps[i + 1];
      LastValWithout(kvps[1..], key, default);
    }
  }

  lemma {:induction false} GetInConcat(a: KeyValuePairs, b: KeyValuePairs, key: string)
    ensures GetVal(a + b, key) == if HasKey(a, key) then GetVal(a, key) else GetVal(b, key)
  {
    if a == [] {
      assert a + b == b;
    } else {
      assert (a + b)[1..] == a[1..] + b;
      GetInConcat(a[1..], b, key);
      if a[0].name != key {
        assert HasKey(a[1..], key) <==> HasKey(a, key) by {
          assert forall i | 0 <= i < |a[1..]| :: a[1..][i] == a[i + 1];
          if i :| 0 <= i < |a| && a[i].name == key {
            assert a[1..][i - 1].name == key;
          }
        }
      }
    }
  }

  // -------- the environment of a job --------

  const CC_EVENT_IDENTIFIER := "CC_EVENT_IDENTIFIER"
  const CC_EVENT_NUMBER := "CC_EVENT_NUMBER"
  const CC_PAYLOAD_ID := "CC_PAYLOAD_ID"
  const CC_MANIFEST_ID := "CC_MANIFEST_ID"
  const CC_PLUGIN_DEFINITION := "CC_PLUGIN_DEFINITION"

  // Everything up to the identifier check.
  function WithIds(manifestEnv: KeyValuePairs, payloadId: string, manifestId: string): KeyValuePairs {
    manifestEnv + [KeyValuePair(CC_PAYLOAD_ID, payloadId), KeyValuePair(CC_MANIFEST_ID, manifestId)]
  }

  function WithIdentifier(env: KeyValuePairs, identifier: string): KeyValuePairs {
    if HasKey(env, CC_EVENT_IDENTIFIER) then env
    else env + [KeyValuePair(CC_EVENT_IDENTIFIER, identifier), KeyValuePair(CC_EVENT_NUMBER, identifier)]
  }

  function JobEnvironment(manifestEnv: KeyValuePairs, payloadId: string, manifestId: string,
                          identifier: string, plugin: string, additional: KeyValuePairs): KeyValuePairs
  {
    var env := WithIdentifier(WithIds(manifestEnv, payloadId, manifestId), identifier);
    var withManifest := if HasKey(env, CC_MANIFEST_ID) then env else env + [KeyValuePair(CC_MANIFEST_ID, manifestId)];
    Merged(withManifest + [KeyValuePair(CC_PLUGIN_DEFINITION, plugin)], additional)
  }

  lemma KeysDiffer()
    ensures CC_EVENT_IDENTIFIER != CC_EVENT_NUMBER && CC_EVENT_IDENTIFIER != CC_PAYLOAD_ID
    ensures CC_EVENT_IDENTIFIER != CC_MANIFEST_ID && CC_EVENT_IDENTIFIER != CC_PLUGIN_DEFINITION
    ensures CC_EVENT_NUMBER != CC_PAYLOAD_ID && CC_EVENT_NUMBER != CC_MANIFEST_ID
    ensures CC_EVENT_NUMBER != CC_PLUGIN_DEFINITION && CC_PAYLOAD_ID != CC_MANIFEST_ID
    ensures CC_PAYLOAD_ID != CC_PLUGIN_DEFINITION && CC_MANIFEST_ID != CC_PLUGIN_DEFINITION
  {
    assert CC_EVENT_IDENTIFIER[3] == CC_EVENT_NUMBER[3] == 'E' && CC_MANIFEST_ID[3] == 'M';
    assert CC_PAYLOAD_ID[3] == CC_PLUGIN_DEFINITION[3] == 'P' && CC_PAYLOAD_ID[4] == 'A';
    assert CC_PLUGIN_DEFINITION[4] == 'L' && CC_EVENT_IDENTIFIER[9] == 'I' && CC_EVENT_NUMBER[9] == 'N';
  }

  // What a name is worth before the event's own variables: a preset of the manifest
  // comes before anything the driver adds, and with a preset identifier the driver
  // adds no event number either.
  function BaseVal(manifestEnv: KeyValuePairs, payloadId: string, manifestId: string,
                   identifier: string, plugin: string, key: string): string
  {
    if HasKey(manifestEnv, key) then GetVal(manifestEnv, key)
    else if key == CC_PAYLOAD_ID then payloadId
    else if key == CC_MANIFEST_ID then manifestId
    else if key == CC_PLUGIN_DEFINITION then plugin
    else if key == CC_EVENT_IDENTIFIER then identifier
    else if key == CC_EVENT_NUMBER && !HasKey(manifestEnv, CC_EVENT_IDENTIFIER) then identifier
    else ""
  }

  lemma HasInConcat(a: KeyValuePairs, b: KeyValuePairs, key: string)
    ensures HasKey(a + b, key) <==> HasKey(a, key) || HasKey(b, key)
  {
    if i :| 0 <= i < |a| && a[i].name == key {
      assert (a + b)[i].name == key;
    }
    if i :| 0 <= i < |b| && b[i].name == key {
      assert (a + b)[|a| + i].name == key;
    }
  }

  // The first of two pairs, or the second.
  lemma InPair(p: KeyValuePair, q: KeyValuePair, key: string)
    ensures HasKey([p, q], key) <==> p.name == key || q.name == key
    ensures GetVal([p, q], key) == if p.name == key then p.value else if q.name == key then q.value else ""
  {
    assert [p, q][1..] == [q] && [q][1..] == [];
    assert GetVal([q], key) == if q.name == key then q.value else "";
    if p.name == key || q.name == key {
      assert [p, q][if p.name == key then 0 else 1].name == key;
    }
  }

  lemma IdsRead(manifestEnv: KeyValuePairs, payloadId: string, manifestId: string, key: string)
    ensures var env := WithIds(manifestEnv, payloadId, manifestId);
            && (HasKey(env, key) <==> HasKey(manifestEnv, key) || key == CC_PAYLOAD_ID || key == CC_MANIFEST_ID)
            && (HasKey(env, key) ==>
                  GetVal(env, key) == if HasKey(manifestEnv, key) then GetVal(manifestEnv, key)
                                      else if key == CC_PAYLOAD_ID then payloadId else manifestId)
  {
    var p, q := KeyValuePair(CC_PAYLOAD_ID, payloadId), KeyValuePair(CC_MANIFEST_ID, manifestId);
    HasInConcat(manifestEnv, [p, q], key);
    GetInConcat(manifestEnv, [p, q], key);
    InPair(p, q, key);
  }

  lemma PluginRead(env: KeyValuePairs, plugin: string, key: string)
    ensures GetVal(env + [KeyValuePair(CC_PLUGIN_DEFINITION, plugin)], key) ==
            if HasKey(env, key) then GetVal(env, key) else if key == CC_PLUGIN_DEFINITION then plugin else ""
  {
    GetInConcat(env, [KeyValuePair(CC_PLUGIN_DEFINITION, plugin)], key);
  }

  // Everything up to the merge, name by name.
  lemma BaseRead(manifestEnv: KeyValuePairs, payloadId: string, manifestId: string,
                 identifier: string, plugin: string, key: string)
    ensures var env := WithIdentifier(WithIds(manifestEnv, payloadId, manifestId), identifier);
            && HasKey(env, CC_MANIFEST_ID)
            && GetVal(env + [KeyValuePair(CC_PLUGIN_DEFINITION, plugin)], key)
               == BaseVal(manifestEnv, payloadId, manifestId, identifier, plugin, key)
  {
    KeysDiffer();
    var ids := WithIds(manifestEnv, payloadId, manifestId);
    var env := WithIdentifier(ids, identifier);
    IdsRead(manifestEnv, payloadId, manifestId, key);
    IdsRead(manifestEnv, payloadId, manifestId, CC_EVENT_IDENTIFIER);
    IdsRead(manifestEnv, payloadId, manifestId, CC_MANIFEST_ID);
    if !HasKey(ids, CC_EVENT_IDENTIFIER) {
      var p, q := KeyValuePair(CC_EVENT_IDENTIFIER, identifier), KeyValuePair(CC_EVENT_NUMBER, identifier);
      HasInConcat(ids, [p, q], key);
      HasInConcat(ids, [p, q], CC_MANIFEST_ID);
      GetInConcat(ids, [p, q], key);
      InPair(p, q, key);
    }
    PluginRead(env, plugin, key);
  }

  /**
   Any name in the environment of a job: the last value among the event's own
   variables, else what it was worth before them.
   */
  lemma EnvironmentReads(manifestEnv: KeyValuePairs, payloadId: string, manifestId: string,
                         identifier: string, plugin: string, additional: KeyValuePairs, key: string)
    ensures GetVal(JobEnvironment(manifestEnv, payloadId, manifestId, identifier, plugin, additional), key)
         == LastVal(additional, key, BaseVal(manifestEnv, payloadId, manifestId, identifier, plugin, key))
  {
    BaseRead(manifestEnv, payloadId, manifestId, identifier, plugin, key);
    var env := WithIdentifier(WithIds(manifestEnv, payloadId, manifestId), identifier);
    GetAfterMerge(env + [KeyValuePair(CC_PLUGIN_DEFINITION, plugin)], additional, key);
  }

  // The part of RunParallel that builds the environment of one job.
  method BuildEnvironment(manifestEnv: KeyValuePairs, payloadId: string, manifestId: string,
                          identifier: string, plugin: string, additional: KeyValuePairs) returns (env: Environment)
    ensures forall key ::
              GetVal(env.pairs, key)
              == LastVal(additional, key, BaseVal(manifestEnv, payloadId, manifestId, identifier, plugin, key))
    ensures forall key, i: nat | IsLastWith(additional, i, key) :: GetVal(env.pairs, key) == additional[i].value
    ensures forall key, i: nat | !HasKey(additional, key) && IsFirstWith(manifestEnv, i, key) ::
              GetVal(env.pairs, key) == manifestEnv[i].value
    ensures forall key | !HasKey(additional, key) && !HasKey(manifestEnv, key) ::
              && (key == CC_PAYLOAD_ID ==> GetVal(env.pairs, key) == payloadId)
              && (key == CC_MANIFEST_ID ==> GetVal(env.pairs, key) == manifestId)
              && (key == CC_PLUGIN_DEFINITION ==> GetVal(env.pairs, key) == plugin)
              && (key == CC_EVENT_IDENTIFIER ==> GetVal(env.pairs, key) == identifier)
              && (key == CC_EVENT_NUMBER ==>
                    GetVal(env.pairs, key) == if HasKey(manifestEnv, CC_EVENT_IDENTIFIER) then "" else identifier)
  {
    env := new Environment(
      manifestEnv + [KeyValuePair(CC_PAYLOAD_ID, payloadId), KeyValuePair(CC_MANIFEST_ID, manifestId)]);
    if !HasKey(env.pairs, CC_EVENT_IDENTIFIER) {
      env.pairs := env.pairs + [KeyValuePair(CC_EVENT_IDENTIFIER, identifier)];
      assert env.pairs + [KeyValuePair(CC_EVENT_NUMBER, identifier)]
          == WithIdentifier(WithIds(manifestEnv, payloadId, manifestId), identifier);
      env.pairs := env.pairs + [KeyValuePair(CC_EVENT_NUMBER, identifier)];
    }
    if !HasKey(env.pairs, CC_MANIFEST_ID) {
      env.pairs := env.pairs + [KeyValuePair(CC_MANIFEST_ID, manifestId)];
    }
    env.pairs := env.pairs + [KeyValuePair(CC_PLUGIN_DEFINITION, plugin)];
    env.Merge(additional);
    forall key
      ensures GetVal(env.pairs, key)
           == LastVal(additional, key, BaseVal(manifestEnv, payloadId, manifestId, identifier, plugin, key))
    {
      EnvironmentReads(manifestEnv, payloadId, manifestId, identifier, plugin, additional, key);
    }
    forall key, i: nat | IsLastWith(additional, i, key)
      ensures GetVal(env.pairs, key) == additional[i].value
    {
      LastValIsLast(additional, i, key, BaseVal(manifestEnv, payloadId, manifestId, identifier, plugin, key));
    }
    forall key | !HasKey(additional, key)
      ensures GetVal(env.pairs, key) == BaseVal(manifestEnv, payloadId, manifestId, identifier, plugin, key)
    {
      LastValWithout(additional, key, BaseVal(manifestEnv, payloadId, manifestId, identifier, plugin, key));
    }
    forall key, i: nat | !HasKey(additional, key) && IsFirstWith(manifestEnv, i, key)
      ensures GetVal(env.pairs, key) == manifestEnv[i].value
    {
      GetValIsFirst(manifestEnv, i, key);
    }
    KeysDiffer();
  }

  /**
   What a provider reads back as the event identifier: the last per-event override,
   else the manifest's own preset, else the identifier of the event.
   */
  lemma IdentifierSeen(manifestEnv: KeyValuePairs, payloadId: string, manifestId: string,
                       identifier: string, plugin: string, additional: KeyValuePairs)
    ensures GetVal(JobEnvironment(manifestEnv, payloadId, manifestId, identifier, plugin, additional),
                   CC_EVENT_IDENTIFIER)
         == LastVal(additional, CC_EVENT_IDENTIFIER,
                    if HasKey(manifestEnv, CC_EVENT_IDENTIFIER) then GetVal(manifestEnv, CC_EVENT_IDENTIFIER)
                    else identifier)
  {
    KeysDiffer();
    EnvironmentReads(manifestEnv, payloadId, manifestId, identifier, plugin, additional, CC_EVENT_IDENTIFIER);
  }
}

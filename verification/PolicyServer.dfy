/**
 The mock policy server's hold on `product.overrides.json`: wiring points every policy
 endpoint at the server, unwiring takes that back, from a backup if there is one.
 */
module PolicyServer {
  /** A JSON value, told by the text it is written as. */
  type Json = string
  type Agent = map<string, Json>

  /** `defaultChatAgent`, and all other top-level overrides. */
  datatype Setting = Missing | Null | Set(agent: Agent)
  datatype Overrides = Overrides(setting: Setting, rest: map<string, Json>)

  /** A file that is JSON is an object; its layout is what parsing forgets. */
  datatype File = Absent | Unparseable(text: string) | Parsed(overrides: Overrides, layout: string)

  const TABS := "\t"

  datatype Endpoint = Endpoint(productKey: string, url: Json)
  datatype Product = Product(agent: Agent, endpoints: seq<Endpoint>)
  datatype Disk = Disk(file: File, backup: File)

  /** Where each product key points; a later endpoint wins. */
  function Urls(endpoints: seq<Endpoint>): (r: Agent)
    ensures forall k :: k in r <==> exists i :: 0 <= i < |endpoints| && endpoints[i].productKey == k
  {
    if endpoints == [] then map[] else
    var n := |endpoints| - 1;
    Urls(endpoints[..n])[endpoints[n].productKey := endpoints[n].url]
  }

  /** The endpoint with this key that counts: no later one has it. */
  predicate LastWith(endpoints: seq<Endpoint>, k: string, i: nat) {
    && i < |endpoints| && endpoints[i].productKey == k
    && forall j :: i < j < |endpoints| ==> endpoints[j].productKey != k
  }

  /** Every key points at the url of the last endpoint that has it. */
  lemma {:induction false} UrlIsOfLast(endpoints: seq<Endpoint>, k: string, i: nat)
    requires LastWith(endpoints, k, i)
    ensures k in Urls(endpoints) && Urls(endpoints)[k] == endpoints[i].url
  {
    var n := |endpoints| - 1;
    if i < n {
      assert endpoints[n].productKey != k;
      UrlIsOfLast(endpoints[..n], k, i);
    }
  }

  lemma {:induction false} SomeIsLast(endpoints: seq<Endpoint>, k: string) returns (i: nat)
    requires k in Urls(endpoints)
    ensures LastWith(endpoints, k, i)
  {
    var n := |endpoints| - 1;
    if endpoints[n].productKey == k {
      i := n;
    } else {
      i := SomeIsLast(endpoints[..n], k);
    }
  }

  // ----- the operations -----

  function Current(file: File): Overrides {
    if file.Parsed? then file.overrides else Overrides(Missing, map[])
  }

  function Wire(p: Product, d: Disk): Disk {
    var current := Current(d.file);
    var existing := if current.setting.Set? then current.setting.agent else p.agent;
    var wired := current.(setting := Set(p.agent + existing + Urls(p.endpoints)));
    Disk(Parsed(wired, TABS), if d.file.Absent? then d.backup else d.file)
  }

  predicate PointsAt(agent: Agent, urls: Agent) {
    forall k :: k in urls ==> k in agent && agent[k] == urls[k]
  }

  predicate IsWired(p: Product, file: File) {
    && file.Parsed? && file.overrides.setting.Set?
    && PointsAt(file.overrides.setting.agent, Urls(p.endpoints))
  }

  /** Wired means that the agent in the file has, for every endpoint whose key no later one has,
      that endpoint's url. */
  lemma IsWiredIff(p: Product, file: File)
    ensures IsWired(p, file) <==>
              && file.Parsed? && file.overrides.setting.Set?
              && forall k, i: nat :: LastWith(p.endpoints, k, i) ==>
                   && k in file.overrides.setting.agent
                   && file.overrides.setting.agent[k] == p.endpoints[i].url
  {
    if file.Parsed? && file.overrides.setting.Set? {
      var agent := file.overrides.setting.agent;
      forall k, i: nat | LastWith(p.endpoints, k, i)
        ensures k in Urls(p.endpoints) && Urls(p.endpoints)[k] == p.endpoints[i].url
      {
        UrlIsOfLast(p.endpoints, k, i);
      }
      forall k | k in Urls(p.endpoints) ensures exists i: nat :: LastWith(p.endpoints, k, i) {
        var i := SomeIsLast(p.endpoints, k);
      }
    }
  }

  /** The given keys of `agent` set back to what the product says. */
  function Reverted(base: Agent, keys: set<string>, agent: Agent): Agent {
    map k | k in agent.Keys + base.Keys && (if k in keys then k in base else k in agent) ::
      if k in keys then base[k] else agent[k]
  }

  function Unwire(p: Product, d: Disk): Disk {
    if !d.backup.Absent? then Disk(d.backup, Absent)
    else if !d.file.Parsed? || !d.file.overrides.setting.Set? then d
    else
      var agent := Reverted(p.agent, Urls(p.endpoints).Keys, d.file.overrides.setting.agent);
      var left := d.file.overrides.(setting := if agent == p.agent then Missing else Set(agent));
      Disk(if left == Overrides(Missing, map[]) then Absent else Parsed(left, TABS), Absent)
  }

  // ----- what any run keeps -----

  /** What the overrides say besides the endpoints: an absent file counts as empty. */
  datatype Meaning = Meaning(agent: Agent, rest: map<string, Json>)

  function MeaningOf(p: Product, file: File): Meaning {
    var o := Current(file);
    var agent := if o.setting.Set? then o.setting.agent else map[];
    Meaning(p.agent + agent - Urls(p.endpoints).Keys, o.rest)
  }

  predicate Says(p: Product, d: Disk, m: Meaning) {
    && !d.file.Unparseable? && !d.backup.Unparseable?
    && MeaningOf(p, d.file) == m
    && (d.backup.Absent? || MeaningOf(p, d.backup) == m)
  }

  lemma OverlaidTwice(a: Agent, b: Agent, u: Agent)
    ensures a + (a + b + u) + u == a + b + u
  {
  }

  lemma OverlaidOutside(a: Agent, b: Agent, u: Agent)
    ensures a + (a + b + u) - u.Keys == a + b - u.Keys
  {
  }

  lemma OverlaidBySelf(a: Agent)
    ensures a + a == a + map[]
  {
  }

  lemma RevertedOutside(base: Agent, keys: set<string>, agent: Agent, k: string)
    requires k !in keys
    ensures k in Reverted(base, keys, agent) <==> k in agent
    ensures k in agent ==> Reverted(base, keys, agent)[k] == agent[k]
  {
  }

  lemma SameOutside(a: Agent, b: Agent, c: Agent, keys: set<string>)
    requires forall k :: k !in keys ==> (k in b <==> k in c) && (k in b ==> b[k] == c[k])
    ensures a + b - keys == a + c - keys
  {
  }

  lemma RevertingKeepsRest(base: Agent, keys: set<string>, agent: Agent)
    ensures base + Reverted(base, keys, agent) - keys == base + agent - keys
  {
    var after := Reverted(base, keys, agent);
    forall k | k !in keys ensures (k in after <==> k in agent) && (k in after ==> after[k] == agent[k]) {
      RevertedOutside(base, keys, agent, k);
    }
    SameOutside(base, after, agent, keys);
  }

  lemma WireKeepsMeaning(p: Product, d: Disk, m: Meaning)
    requires Says(p, d, m)
    ensures Says(p, Wire(p, d), m)
  {
    var setting := Current(d.file).setting;
    OverlaidOutside(p.agent, if setting.Set? then setting.agent else p.agent, Urls(p.endpoints));
    OverlaidBySelf(p.agent);
  }

  lemma UnwireKeepsMeaning(p: Product, d: Disk, m: Meaning)
    requires Says(p, d, m)
    ensures Says(p, Unwire(p, d), m)
  {
    if d.backup.Absent? && d.file.Parsed? && d.file.overrides.setting.Set? {
      RevertingKeepsRest(p.agent, Urls(p.endpoints).Keys, d.file.overrides.setting.agent);
      OverlaidBySelf(p.agent);
    }
  }

  datatype Op = DoWire | DoUnwire

  function Run(p: Product, d: Disk, ops: seq<Op>): Disk
    decreases |ops|
  {
    if ops == [] then d else Run(p, if ops[0].DoWire? then Wire(p, d) else Unwire(p, d), ops[1..])
  }

  /** Whatever is wired and unwired, from a file that parses or is absent and no backup:
      the other overrides, and the agent's keys that are no endpoint, stay as they were. */
  lemma {:induction false} RunKeepsMeaning(p: Product, d: Disk, ops: seq<Op>, m: Meaning)
    requires Says(p, d, m)
    ensures Says(p, Run(p, d, ops), m)
    decreases |ops|
  {
    if ops != [] {
      WireKeepsMeaning(p, d, m);
      UnwireKeepsMeaning(p, d, m);
      RunKeepsMeaning(p, if ops[0].DoWire? then Wire(p, d) else Unwire(p, d), ops[1..], m);
    }
  }

  lemma RunFromNoBackup(p: Product, file: File, ops: seq<Op>)
    requires !file.Unparseable?
    ensures MeaningOf(p, Run(p, Disk(file, Absent), ops).file) == MeaningOf(p, file)
  {
    RunKeepsMeaning(p, Disk(file, Absent), ops, MeaningOf(p, file));
  }

  // ----- wiring and unwiring -----

  lemma WiringTwice(p: Product, d: Disk)
    ensures IsWired(p, Wire(p, d).file)
    ensures Wire(p, Wire(p, d)).file == Wire(p, d).file
  {
    var setting := Current(d.file).setting;
    OverlaidTwice(p.agent, if setting.Set? then setting.agent else p.agent, Urls(p.endpoints));
  }

  lemma RevertsWiring(p: Product)
    ensures Reverted(p.agent, Urls(p.endpoints).Keys, p.agent + p.agent + Urls(p.endpoints)) == p.agent
  {
  }

  /** Wiring and then unwiring gives the file or its absence back, exactly unless there was
      a backup and no file. */
  lemma UnwiringUndoesWiring(p: Product, d: Disk)
    ensures Unwire(p, Wire(p, d)).file == d.file <==> (d.file.Absent? ==> d.backup.Absent?)
    ensures Unwire(p, Wire(p, d)).backup.Absent?
  {
    if d.file.Absent? && d.backup.Absent? {
      RevertsWiring(p);
    }
  }

  /** Wiring twice backs the wired file up, so unwiring leaves it wired; and unwiring
      again finds no backup. */
  lemma SecondWiringLosesBackup(p: Product, d: Disk)
    ensures var after := Unwire(p, Wire(p, Wire(p, d)));
            after == Disk(Wire(p, d).file, Absent) && IsWired(p, after.file)
  {
    WiringTwice(p, d);
  }

  /** Overrides replace the product's whole agent, so this is what is in force. */
  function InForce(p: Product, file: File): Agent {
    match Current(file).setting
    case Missing => p.agent
    case Null => map[]
    case Set(agent) => agent
  }

  /** What wiring puts in force, key by key: the url of the key's last endpoint; else what the
      overrides had, if they had an agent; else what the product has. Everything else in the
      overrides stays, and of overrides that do not parse nothing. */
  lemma WiredByKey(p: Product, d: Disk, k: string)
    ensures var o, after := Current(d.file), Wire(p, d).file;
            && after.Parsed? && after.layout == "\t" && after.overrides.rest == o.rest
            && (d.file.Unparseable? ==> o.rest == map[])
            && var agent := InForce(p, after);
               if k in Urls(p.endpoints) then
                 k in agent && exists i: nat :: LastWith(p.endpoints, k, i) && agent[k] == p.endpoints[i].url
               else if o.setting.Set? && k in o.setting.agent then k in agent && agent[k] == o.setting.agent[k]
               else (k in agent <==> k in p.agent) && (k in agent ==> agent[k] == p.agent[k])
  {
    if k in Urls(p.endpoints) {
      var i := SomeIsLast(p.endpoints, k);
      UrlIsOfLast(p.endpoints, k, i);
    }
  }

  /** Without a backup, unwiring keeps all other keys in force, and all other overrides. */
  lemma UnwiringKeepsTheRest(p: Product, d: Disk)
    requires d.backup.Absent?
    ensures var keys, after := Urls(p.endpoints).Keys, Unwire(p, d).file;
            && InForce(p, after) - keys == InForce(p, d.file) - keys
            && Current(after).rest == Current(d.file).rest
  {
    if d.file.Parsed? && d.file.overrides.setting.Set? {
      var keys, agent := Urls(p.endpoints).Keys, d.file.overrides.setting.agent;
      assert Reverted(p.agent, keys, agent) - keys == agent - keys;
    }
  }

  /** Without a backup, what it leaves is as small as can be: no agent that is the product's,
      and no file without overrides. A file without an agent of its own is not touched. */
  lemma UnwiringCleansUp(p: Product, d: Disk)
    requires d.backup.Absent?
    ensures var after := Unwire(p, d);
            if d.file.Parsed? && d.file.overrides.setting.Set? then
              && !after.file.Unparseable? && after.backup.Absent?
              && (after.file.Parsed? ==>
                    && after.file.layout == "\t" && after.file.overrides != Overrides(Missing, map[])
                    && !after.file.overrides.setting.Null?
                    && after.file.overrides.setting != Set(p.agent))
            else after == d
  {
  }

  /** Unwiring without a backup puts every endpoint back to what the product says. */
  lemma UnwiringRestoresEndpoints(p: Product, d: Disk, k: string)
    requires d.backup.Absent? && d.file.Parsed? && d.file.overrides.setting.Set? && k in Urls(p.endpoints)
    ensures var after := InForce(p, Unwire(p, d).file);
            && (k in after <==> k in p.agent)
            && (k in after ==> after[k] == p.agent[k])
  {
    var agent := Reverted(p.agent, Urls(p.endpoints).Keys, d.file.overrides.setting.agent);
    assert k in agent <==> k in p.agent;
  }

  /** Wiring keeps what is in force besides the endpoints exactly if what was in force
      had every other key of the product's agent: the missing ones come back. */
  lemma WiringKeepsWhatIsInForceIff(p: Product, d: Disk)
    ensures var keys := Urls(p.endpoints).Keys;
            (InForce(p, Wire(p, d).file) - keys == InForce(p, d.file) - keys) ==
            (p.agent.Keys - keys <= InForce(p, d.file).Keys)
  {
    var keys := Urls(p.endpoints).Keys;
    var before, after := InForce(p, d.file), InForce(p, Wire(p, d).file);
    assert p.agent.Keys <= after.Keys;
    if after - keys == before - keys {
      forall k | k in p.agent.Keys - keys ensures k in before.Keys {
        assert k in (after - keys).Keys;
      }
    }
  }

  // ----- the server -----

  /** Two agents compared key by key, by the texts of their values. */
  method ShallowEqual(a: Agent, b: Agent) returns (r: bool)
    ensures r <==> a == b
  {
    if |a.Keys| != |b.Keys| {
      return false;
    }
    var left := a.Keys;
    while left != {}
      invariant left <= a.Keys && forall k :: k in a && k !in left ==> k in b && a[k] == b[k]
      decreases |left|
    {
      var k :| k in left;
      if k !in b || a[k] != b[k] {
        return false;
      }
      left := left - {k};
    }
    SameKeys(a.Keys, b.Keys);
    assert a == b;
    return true;
  }

  lemma SameKeys(a: set<string>, b: set<string>)
    requires a <= b && |a| == |b|
    ensures a == b
  {
    assert |b - a| == 0;
  }

  lemma RevertOne(base: Agent, keys: set<string>, agent: Agent, key: string)
    ensures var before := Reverted(base, keys, agent);
            Reverted(base, keys + {key}, agent) == if key in base then before[key := base[key]] else before - {key}
  {
  }

  class Server {
    const product: Product
    var file: File
    var backup: File

    ghost function View(): Disk
      reads this
    {
      Disk(file, backup)
    }

    constructor (product: Product, file: File, backup: File)
      ensures this.product == product && View() == Disk(file, backup)
    {
      this.product, this.file, this.backup := product, file, backup;
    }

    method OverrideUrls() returns (urls: Agent)
      ensures urls == Urls(product.endpoints)
    {
      urls := map[];
      var endpoints := product.endpoints;
      for i := 0 to |endpoints|
        invariant urls == Urls(endpoints[..i])
      {
        assert endpoints[..i + 1][..i] == endpoints[..i];
        urls := urls[endpoints[i].productKey := endpoints[i].url];
      }
      assert endpoints[..|endpoints|] == endpoints;
    }

    method Wired() returns (r: bool)
      ensures r == IsWired(product, file)
    {
      if !file.Parsed? || !file.overrides.setting.Set? {
        return false;
      }
      var agent := file.overrides.setting.agent;
      var urls := OverrideUrls();
      var left := urls.Keys;
      while left != {}
        invariant left <= urls.Keys && forall k :: k in urls && k !in left ==> k in agent && agent[k] == urls[k]
        decreases |left|
      {
        var k :| k in left;
        if k !in agent || agent[k] != urls[k] {
          return false;
        }
        left := left - {k};
      }
      return true;
    }

    method WireOverrides()
      modifies this
      ensures View() == Wire(product, old(View()))
    {
      if !file.Absent? {
        backup := file;
      }
      var overrides := if file.Parsed? then file.overrides else Overrides(Missing, map[]);
      var existingAgent := if overrides.setting.Set? then overrides.setting.agent else product.agent;
      var urls := OverrideUrls();
      overrides := overrides.(setting := Set(product.agent + existingAgent + urls));
      file := Parsed(overrides, TABS);
    }

    /** Every endpoint's key set back, one by one. */
    method Revert(agent: Agent) returns (r: Agent)
      ensures r == Reverted(product.agent, Urls(product.endpoints).Keys, agent)
    {
      r := agent;
      var endpoints := product.endpoints;
      for i := 0 to |endpoints|
        invariant r == Reverted(product.agent, Urls(endpoints[..i]).Keys, agent)
      {
        var key := endpoints[i].productKey;
        RevertOne(product.agent, Urls(endpoints[..i]).Keys, agent, key);
        assert endpoints[..i + 1][..i] == endpoints[..i];
        assert Urls(endpoints[..i + 1]).Keys == Urls(endpoints[..i]).Keys + {key};
        if key !in product.agent {
          r := r - {key};
        } else {
          r := r[key := product.agent[key]];
        }
      }
      assert endpoints[..|endpoints|] == endpoints;
    }

    method UnwireOverrides()
      modifies this
      ensures View() == Unwire(product, old(View()))
    {
      if !backup.Absent? {
        file := backup;
        backup := Absent;
        return;
      }
      if !file.Parsed? || !file.overrides.setting.Set? {
        return;
      }
      var overrides := file.overrides;
      var agent := Revert(overrides.setting.agent);
      var same := ShallowEqual(agent, product.agent);
      overrides := overrides.(setting := if same then Missing else Set(agent));
      file := if overrides.setting.Missing? && |overrides.rest| == 0 then Absent else Parsed(overrides, TABS);
    }
  }
}

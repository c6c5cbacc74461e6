/** The factory that connects every configured adapter or none. */
module ConnectionFactory {
  import opened Wrappers

  /** How far one adapter gets: connected, its class not found, or its `connect` raising after acquiring some resources. */
  datatype Outcome = Connects | ResolveFails | ConnectFails

  datatype ConfigurationError = DuplicateNames

  function FirstFailure(outcomes: seq<Outcome>): (k: nat)
    ensures k <= |outcomes|
    ensures forall i :: 0 <= i < k ==> outcomes[i].Connects?
    ensures k < |outcomes| ==> !outcomes[k].Connects?
  {
    if outcomes == [] || !outcomes[0].Connects? then 0 else 1 + FirstFailure(outcomes[1..])
  }

  predicate Distinct(names: seq<string>) {
    forall i, j :: 0 <= i < j < |names| ==> names[i] != names[j]
  }

  /** `m` once the adapters made for `names` are in it, numbered from `first` on. */
  function Connected(m: map<string, nat>, names: seq<string>, first: nat): map<string, nat> {
    if names == [] then m else
    var n := |names| - 1;
    Connected(m, names[..n], first)[names[n] := first + n]
  }

  lemma {:induction false} ConnectedAt(m: map<string, nat>, names: seq<string>, first: nat)
    ensures var r := Connected(m, names, first);
      && (forall name :: name in r <==> name in m || name in names)
      && (forall name :: name in m && name !in names ==> r[name] == m[name])
      && (forall name :: name in names ==> first <= r[name] < first + |names|)
  {
    if names != [] {
      var n := |names| - 1;
      ConnectedAt(m, names[..n], first);
      assert names == names[..n] + [names[n]];
    }
  }

  ghost predicate Injective(m: map<string, nat>) {
    forall a, b :: a in m && b in m && m[a] == m[b] ==> a == b
  }

  predicate Below(m: map<string, nat>, id: nat) { forall a :: a in m ==> m[a] < id }

  /** Adapters that are new and distinct stay so. */
  lemma {:induction false} ConnectedInjective(m: map<string, nat>, names: seq<string>, first: nat)
    requires Injective(m) && Below(m, first)
    ensures Injective(Connected(m, names, first)) && Below(Connected(m, names, first), first + |names|)
  {
    if names != [] {
      var n := |names| - 1;
      ConnectedInjective(m, names[..n], first);
      NewestIsNew(Connected(m, names[..n], first), names[n], first + n);
    }
  }

  lemma {:induction false} ConnectedInOrder(m: map<string, nat>, names: seq<string>, first: nat, i: nat)
    requires Distinct(names) && i < |names|
    ensures names[i] in Connected(m, names, first) && Connected(m, names, first)[names[i]] == first + i
  {
    var n := |names| - 1;
    if i < n {
      ConnectedInOrder(m, names[..n], first, i);
      assert names[i] != names[n];
    }
  }

  lemma {:induction false} NewestIsNew(m: map<string, nat>, name: string, id: nat)
    requires Injective(m) && Below(m, id)
    ensures Injective(m[name := id]) && Below(m[name := id], id + 1)
  {
  }

  class DatabaseFactory {
    const configs: seq<string>
    var adapters: map<string, nat>
    var created: nat      // adapters made so far; the next one's identity
    var live: set<nat>    // those that hold resources: connected, or connecting, and not disconnected since

    ghost predicate Valid()
      reads this
    {
      Consistent(adapters, live, configs, created)
    }

    constructor (configs: seq<string>)
      requires Distinct(configs)
      ensures Valid() && this.configs == configs && adapters == map[] && live == {}
    {
      this.configs, adapters, created, live := configs, map[], 0, {};
    }

    /** The constructor with its check. */
    static method Create(configs: seq<string>) returns (r: Result<DatabaseFactory, ConfigurationError>)
      ensures r.Ok? <==> Distinct(configs)
      ensures r.Ok? ==> fresh(r.value) && r.value.Valid() && r.value.configs == configs && r.value.adapters == map[]
    {
      if exists i, j :: 0 <= i < j < |configs| && configs[i] == configs[j] {
        return Err(DuplicateNames);
      }
      var factory := new DatabaseFactory(configs);
      return Ok(factory);
    }

    /** `raising` are the adapters whose `disconnect` raises: that is logged, and what they hold stays live. */
    method DisconnectAll(raising: set<nat>)
      requires Valid()
      modifies this
      ensures Valid() && adapters == map[] && created == old(created)
      ensures live == old(live) - (old(adapters).Values - raising)
    {
      var names := adapters.Keys;
      while names != {}
        invariant names <= adapters.Keys && adapters == old(adapters) && created == old(created)
        invariant live == old(live) - ((set name | name in adapters && name !in names :: adapters[name]) - raising)
      {
        var name :| name in names;
        if adapters[name] !in raising {
          live := live - {adapters[name]};
        }
        names := names - {name};
      }
      adapters := map[];
    }

    /** All or none: on success every configured adapter is connected; on a failure none stays in the factory, and of
        the adapters made on the way exactly those stay live whose disconnect raises. Adapters the factory held before
        stay live out of its reach if their names were connected again. */
    method ConnectAll(outcomes: seq<Outcome>, raising: set<nat>) returns (ok: bool)
      requires Valid() && |outcomes| == |configs|
      modifies this
      ensures Valid() && (ok <==> FirstFailure(outcomes) == |configs|)
      ensures ok ==> forall name :: name in adapters <==> name in configs
      ensures ok ==> live == old(live) + adapters.Values && old(live) !! adapters.Values
      ensures !ok ==> adapters == map[]
      ensures !ok ==> forall id :: id !in old(live) ==> (id in live <==> old(created) <= id < created && id in raising)
      ensures !ok ==> forall name :: name in old(adapters) ==>
        (old(adapters)[name] in live <==> name in configs[..FirstFailure(outcomes)] || old(adapters)[name] in raising)
      ensures !ok ==> forall id :: id in old(live) && id !in old(adapters).Values ==> id in live
    {
      ghost var first := created;
      var n := ConnectEach(outcomes);
      ConnectingKeeps(old(adapters), old(live), configs, n, first);
      if n == |configs| {
        assert configs[..n] == configs;
        AllConnected(old(adapters), old(live), configs, first);
        return true;
      }
      if outcomes[n].ConnectFails? {
        ConnectInVain(raising);
      }
      Unwound(old(adapters), old(live), configs, n, first, raising);
      DisconnectAll(raising);
      return false;
    }

    /** The loop over the configurations, up to the first that does not connect. */
    method ConnectEach(outcomes: seq<Outcome>) returns (n: nat)
      requires Valid() && |outcomes| == |configs|
      modifies this
      ensures n == FirstFailure(outcomes)
      ensures adapters == Connected(old(adapters), configs[..n], old(created))
      ensures created == old(created) + n && live == old(live) + NewAdapters(old(created), n)
    {
      ghost var first := created;
      n := 0;
      while n < |configs| && outcomes[n].Connects?
        invariant 0 <= n <= FirstFailure(outcomes)
        invariant adapters == Connected(old(adapters), configs[..n], first)
        invariant created == first + n && live == old(live) + NewAdapters(first, n)
      {
        var name, adapter := configs[n], created;
        created := created + 1;
        live := live + {adapter};
        adapters := adapters[name := adapter];
        assert configs[..n + 1][..n] == configs[..n];
        n := n + 1;
      }
    }

    /** An adapter whose `connect` raises is disconnected at once. */
    method ConnectInVain(raising: set<nat>)
      requires Valid()
      modifies this
      ensures Valid() && adapters == old(adapters) && created == old(created) + 1
      ensures live == old(live) + if old(created) in raising then {old(created)} else {}
    {
      var adapter := created;
      created := created + 1;
      live := live + {adapter};
      if adapter !in raising {
        live := live - {adapter};
      }
    }
  }

  function NewAdapters(first: nat, n: nat): (r: set<nat>)
    ensures forall id :: id in r <==> first <= id < first + n
  {
    if n == 0 then {} else NewAdapters(first, n - 1) + {first + n - 1}
  }

  /** The factory's own adapters: of configured names, live, one for each name. */
  ghost predicate Consistent(m: map<string, nat>, live: set<nat>, configs: seq<string>, first: nat) {
    && Distinct(configs)
    && (forall name :: name in m ==> name in configs && m[name] in live)
    && Injective(m)
    && (forall id :: id in live ==> id < first)
  }

  lemma {:induction false} ConnectingKeeps(m: map<string, nat>, live: set<nat>, configs: seq<string>, n: nat, first: nat)
    requires n <= |configs| && Consistent(m, live, configs, first)
    ensures Consistent(Connected(m, configs[..n], first), live + NewAdapters(first, n), configs, first + n)
    ensures forall id :: id in NewAdapters(first, n) ==> id in Connected(m, configs[..n], first).Values
  {
    var r, names := Connected(m, configs[..n], first), configs[..n];
    ConnectedAt(m, names, first);
    ConnectedInjective(m, names, first);
    assert Distinct(names);
    forall id | id in NewAdapters(first, n) ensures id in r.Values {
      ConnectedInOrder(m, names, first, id - first);
    }
  }

  /** When every name is connected, the factory holds the new adapters and no others. */
  lemma {:induction false} AllConnected(m: map<string, nat>, live: set<nat>, configs: seq<string>, first: nat)
    requires Consistent(m, live, configs, first)
    ensures var r := Connected(m, configs, first);
      && (forall name :: name in r <==> name in configs)
      && live + NewAdapters(first, |configs|) == live + r.Values && live !! r.Values
  {
    ConnectedAt(m, configs, first);
    assert configs[..|configs|] == configs;
    ConnectingKeeps(m, live, configs, |configs|, first);
  }

  /** When the factory is emptied after `n` connections, what it held before stays live exactly under those names, or
      if its disconnect raises; a new adapter stays live only then. */
  lemma {:induction false} Unwound(m: map<string, nat>, live: set<nat>, configs: seq<string>, n: nat, first: nat, raising: set<nat>)
    requires n <= |configs| && Consistent(m, live, configs, first)
    ensures var gone := Connected(m, configs[..n], first).Values - raising;
      var left := live + NewAdapters(first, n) - gone;
      && (forall id :: id !in live ==> (id in left <==> id in NewAdapters(first, n) && id in raising))
      && (forall name :: name in m ==> (m[name] in left <==> name in configs[..n] || m[name] in raising))
      && (forall id :: id in live && id !in m.Values ==> id in left)
      && (forall id :: id in gone ==> id < first + n)
  {
    var r := Connected(m, configs[..n], first);
    ConnectedAt(m, configs[..n], first);
    ConnectingKeeps(m, live, configs, n, first);
    forall name | name in m && name !in configs[..n] ensures m[name] in r.Values {
      assert name in r && r[name] == m[name];
    }
  }
}

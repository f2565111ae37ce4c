/** Building the two inventories: the compute listing (`listAllInstances`,
    main.go:152-187) and the agent listing joined against it
    (`listManagedInstances`, main.go:189-223). The SDK calls are not modelled:
    the compute response arrives as its list of reservations and the agent
    pages arrive already concatenated. */
module Inventory {
  import opened GoStrings
  import opened Instances

  datatype Tag = Tag(Key: String, Value: String)

  /** One element of a DescribeInstances reservation. */
  datatype RawCompute = RawCompute(
    InstanceId: String,
    Tags: seq<Tag>,
    StateName: String,
    PublicIpAddress: Option<String>)

  type Reservation = seq<RawCompute>

  /** One element of a DescribeInstanceInformation page. */
  datatype RawAgent = RawAgent(
    InstanceId: String,
    PingStatus: String,
    ComputerName: String,
    IPAddress: String,
    PlatformType: String,
    PlatformName: String,
    PlatformVersion: String)

  const Unnamed := "unnamed"
  const NoAddress := "N/A"
  const Online := "Online"

  // ---------------------------------------------------------------------
  // Compute listing
  // ---------------------------------------------------------------------

  /** States whose instances are dropped from the compute listing. */
  predicate IsTerminal(state: String) {
    state == "terminated" || state == "shutting-down"
  }

  /** The value of the last tag keyed "Name", scanning left to right and
      starting from "unnamed". */
  function NameFromTags(tags: seq<Tag>): String
    decreases |tags|
  {
    if tags == [] then Unnamed
    else if tags[|tags| - 1].Key == "Name" then tags[|tags| - 1].Value
    else NameFromTags(tags[..|tags| - 1])
  }

  /** Index `i` holds the last "Name" tag. */
  predicate LastNameTagAt(tags: seq<Tag>, i: int) {
    0 <= i < |tags| && tags[i].Key == "Name" &&
    forall j :: i < j < |tags| ==> tags[j].Key != "Name"
  }

  lemma {:induction false} NameFromTagsIsLastNameTag(tags: seq<Tag>)
    ensures (forall i :: 0 <= i < |tags| ==> tags[i].Key != "Name") ==> NameFromTags(tags) == Unnamed
    ensures forall i :: LastNameTagAt(tags, i) ==> NameFromTags(tags) == tags[i].Value
    decreases |tags|
  {
    if tags != [] {
      var init := tags[..|tags| - 1];
      NameFromTagsIsLastNameTag(init);
      forall i | LastNameTagAt(tags, i) && tags[|tags| - 1].Key != "Name"
        ensures LastNameTagAt(init, i)
      {
      }
    }
  }

  /** The record built for one compute descriptor (main.go:163-177). */
  function ComputeRecord(raw: RawCompute): Instance {
    Blank.(
      Name := NameFromTags(raw.Tags),
      InstanceID := raw.InstanceId,
      InstanceState := raw.StateName,
      PublicIPAddress := if raw.PublicIpAddress.Some? then raw.PublicIpAddress.value else NoAddress)
  }

  lemma ComputeRecordFields(raw: RawCompute)
    ensures var e := ComputeRecord(raw);
      && e.InstanceID == raw.InstanceId
      && e.InstanceState == raw.StateName
      && ((forall i :: 0 <= i < |raw.Tags| ==> raw.Tags[i].Key != "Name") ==> e.Name == Unnamed)
      && (forall i :: LastNameTagAt(raw.Tags, i) ==> e.Name == raw.Tags[i].Value)
      && (raw.PublicIpAddress.Some? ==> e.PublicIPAddress == raw.PublicIpAddress.value)
      && (raw.PublicIpAddress.None? ==> e.PublicIPAddress == NoAddress && e.PublicIPAddress != "None")
      && e.ComputerName == e.PrivateIPAddress == e.AgentState == e.PlatformType == e.PlatformName == ""
  {
    NameFromTagsIsLastNameTag(raw.Tags);
  }

  /** All descriptors of all reservations, in response order. */
  function Flatten(rs: seq<Reservation>): seq<RawCompute>
    decreases |rs|
  {
    if rs == [] then [] else Flatten(rs[..|rs| - 1]) + rs[|rs| - 1]
  }

  /** The compute listing: one record per non-terminal descriptor, in order. */
  function KeepLive(raws: seq<RawCompute>): (r: seq<Instance>)
    ensures |r| <= |raws|
    decreases |raws|
  {
    if raws == [] then []
    else
      var last := raws[|raws| - 1];
      KeepLive(raws[..|raws| - 1]) + (if IsTerminal(last.StateName) then [] else [ComputeRecord(last)])
  }

  /** The compute listing never holds a terminated or shutting-down
      instance. */
  lemma {:induction false} KeepLiveNeverTerminal(raws: seq<RawCompute>)
    ensures forall k :: 0 <= k < |KeepLive(raws)| ==> !IsTerminal(KeepLive(raws)[k].InstanceState)
    decreases |raws|
  {
    if raws != [] {
      KeepLiveNeverTerminal(raws[..|raws| - 1]);
    }
  }

  lemma {:induction false} KeepLiveMembers(raws: seq<RawCompute>, x: Instance)
    ensures x in KeepLive(raws) <==>
      exists i :: 0 <= i < |raws| && !IsTerminal(raws[i].StateName) && ComputeRecord(raws[i]) == x
    decreases |raws|
  {
    if raws != [] {
      var init, last := raws[..|raws| - 1], raws[|raws| - 1];
      KeepLiveMembers(init, x);
      assert raws == init + [last];
      KeepLiveSnoc(init, last);
      if x in KeepLive(init) {
        var i :| 0 <= i < |init| && !IsTerminal(init[i].StateName) && ComputeRecord(init[i]) == x;
        assert raws[i] == init[i];
      }
      if exists i :: 0 <= i < |raws| && !IsTerminal(raws[i].StateName) && ComputeRecord(raws[i]) == x {
        var i :| 0 <= i < |raws| && !IsTerminal(raws[i].StateName) && ComputeRecord(raws[i]) == x;
        if i < |init| {
          assert init[i] == raws[i];
        }
      }
    }
  }

  /** The filter works entry by entry: the listing of a concatenation is the
      concatenation of the listings, so output order is input order. */
  lemma {:induction false} KeepLiveAppend(a: seq<RawCompute>, b: seq<RawCompute>)
    ensures KeepLive(a + b) == KeepLive(a) + KeepLive(b)
    decreases |b|
  {
    if b == [] {
      assert a + b == a;
    } else {
      var init := b[..|b| - 1];
      KeepLiveAppend(a, init);
      assert (a + b)[..|a + b| - 1] == a + init;
    }
  }

  lemma FlattenSnoc(rs: seq<Reservation>, r: int)
    requires 0 <= r < |rs|
    ensures Flatten(rs[..r + 1]) == Flatten(rs[..r]) + rs[r]
  {
    assert rs[..r + 1][..r] == rs[..r];
  }

  lemma SnocPrefix<T>(before: seq<T>, s: seq<T>, j: int)
    requires 0 <= j < |s|
    ensures before + s[..j + 1] == (before + s[..j]) + [s[j]]
  {
    assert s[..j + 1] == s[..j] + [s[j]];
  }

  lemma KeepLiveSnoc(raws: seq<RawCompute>, raw: RawCompute)
    ensures KeepLive(raws + [raw]) ==
      KeepLive(raws) + (if IsTerminal(raw.StateName) then [] else [ComputeRecord(raw)])
  {
    assert (raws + [raw])[..|raws|] == raws;
  }

  /** The body of the inner loop of `listAllInstances` up to the state
      switch (main.go:163-177). */
  method BuildComputeRecord(i: RawCompute) returns (e: Instance)
    ensures e == ComputeRecord(i)
  {
    e := Blank;
    e := e.(Name := Unnamed);
    var t := 0;
    while t < |i.Tags|
      invariant 0 <= t <= |i.Tags|
      invariant e == Blank.(Name := NameFromTags(i.Tags[..t]))
    {
      if i.Tags[t].Key == "Name" {
        e := e.(Name := i.Tags[t].Value);
      }
      assert i.Tags[..t + 1][..t] == i.Tags[..t];
      t := t + 1;
    }
    assert i.Tags[..t] == i.Tags;
    e := e.(InstanceID := i.InstanceId, InstanceState := i.StateName);
    e := e.(PublicIPAddress := "None");
    if i.PublicIpAddress.Some? {
      e := e.(PublicIPAddress := i.PublicIpAddress.value);
    } else {
      e := e.(PublicIPAddress := NoAddress);
    }
  }

  /** The inner loop of `listAllInstances` (main.go:162-185): the records of
      one reservation's live descriptors appended to the listing so far. */
  method AppendReservation(instances: seq<Instance>, ghost before: seq<RawCompute>, reservation: Reservation)
    returns (out: seq<Instance>)
    requires instances == KeepLive(before)
    ensures out == KeepLive(before + reservation)
  {
    out := instances;
    assert before + reservation[..0] == before;
    for j := 0 to |reservation|
      invariant out == KeepLive(before + reservation[..j])
    {
      var i := reservation[j];
      var e := BuildComputeRecord(i);
      if !IsTerminal(i.StateName) {
        out := out + [e];
      }
      SnocPrefix(before, reservation, j);
      KeepLiveSnoc(before + reservation[..j], i);
    }
    assert reservation[..|reservation|] == reservation;
  }

  /** `listAllInstances` after the DescribeInstances call (main.go:160-186). */
  method ListAllInstances(reservations: seq<Reservation>) returns (instances: seq<Instance>)
    ensures instances == KeepLive(Flatten(reservations))
  {
    instances := [];
    for r := 0 to |reservations|
      invariant instances == KeepLive(Flatten(reservations[..r]))
    {
      instances := AppendReservation(instances, Flatten(reservations[..r]), reservations[r]);
      FlattenSnoc(reservations, r);
    }
    assert reservations[..|reservations|] == reservations;
  }

  // ---------------------------------------------------------------------
  // Agent listing joined with the compute listing
  // ---------------------------------------------------------------------

  /** Index `i` holds the last record of `all` with the given id. */
  predicate LastWithId(all: seq<Instance>, id: String, i: int) {
    0 <= i < |all| && all[i].InstanceID == id &&
    forall j :: i < j < |all| ==> all[j].InstanceID != id
  }

  /** What the nested lookup loop ends up holding: the last compute record
      with the given id, if there is one. */
  function LastMatch(all: seq<Instance>, id: String): (m: Option<Instance>)
    ensures m.None? <==> forall i :: 0 <= i < |all| ==> all[i].InstanceID != id
    ensures m.Some? ==> exists i :: LastWithId(all, id, i) && m.value == all[i]
    decreases |all|
  {
    if all == [] then None
    else if all[|all| - 1].InstanceID == id then
      assert LastWithId(all, id, |all| - 1);
      Some(all[|all| - 1])
    else
      LastWithIdExtends(all, id);
      LastMatch(all[..|all| - 1], id)
  }

  /** Appending a record with another id keeps the last match where it was. */
  lemma LastWithIdExtends(all: seq<Instance>, id: String)
    requires all != [] && all[|all| - 1].InstanceID != id
    ensures forall i :: 0 <= i < |all| - 1 ==> all[..|all| - 1][i] == all[i]
    ensures forall i :: LastWithId(all[..|all| - 1], id, i) ==> LastWithId(all, id, i)
  {
  }

  lemma LastMatchSnoc(all: seq<Instance>, t: int, id: String)
    requires 0 <= t < |all|
    ensures LastMatch(all[..t + 1], id) ==
      if all[t].InstanceID == id then Some(all[t]) else LastMatch(all[..t], id)
  {
    assert all[..t + 1][..t] == all[..t];
  }

  /** The agent-side part of a joined record (main.go:199-207): the detail
      fields are copied only for an "Online" agent. */
  function AgentBase(a: RawAgent): Instance {
    var e := Blank.(InstanceID := a.InstanceId, AgentState := a.PingStatus);
    if a.PingStatus == Online then
      e.(ComputerName := a.ComputerName,
         PrivateIPAddress := a.IPAddress,
         PlatformType := a.PlatformType,
         PlatformName := a.PlatformName + " " + a.PlatformVersion)
    else e
  }

  /** The compute-side overwrite of main.go:208-214, applied for a match. */
  function Enrich(e: Instance, m: Option<Instance>): Instance {
    if m.Some? then
      e.(Name := m.value.Name, PublicIPAddress := m.value.PublicIPAddress, InstanceState := m.value.InstanceState)
    else e
  }

  /** The record built for one agent entry, enriched from the compute
      listing `all` (main.go:199-214). */
  function AgentRecord(a: RawAgent, all: seq<Instance>): Instance {
    Enrich(AgentBase(a), LastMatch(all, a.InstanceId))
  }

  /** The joined record carries the raw ping status, the agent's details
      only when it is "Online", and Name, PublicIPAddress and InstanceState
      of the last compute record with the same id, or empty ones when there
      is none. */
  lemma AgentRecordFields(a: RawAgent, all: seq<Instance>)
    ensures var e := AgentRecord(a, all);
      && e.InstanceID == a.InstanceId && e.AgentState == a.PingStatus
      && (a.PingStatus == Online ==>
        && e.ComputerName == a.ComputerName
        && e.PrivateIPAddress == a.IPAddress
        && e.PlatformType == a.PlatformType
        && e.PlatformName == a.PlatformName + " " + a.PlatformVersion)
      && (a.PingStatus != Online ==>
        e.ComputerName == e.PrivateIPAddress == e.PlatformType == e.PlatformName == "")
      && (forall i :: LastWithId(all, a.InstanceId, i) ==>
        e.Name == all[i].Name && e.PublicIPAddress == all[i].PublicIPAddress &&
        e.InstanceState == all[i].InstanceState)
      && ((forall i :: 0 <= i < |all| ==> all[i].InstanceID != a.InstanceId) ==>
        e.Name == e.PublicIPAddress == e.InstanceState == "")
  {
    var m := LastMatch(all, a.InstanceId);
    forall i | LastWithId(all, a.InstanceId, i)
      ensures m == Some(all[i])
    {
      var l :| LastWithId(all, a.InstanceId, l) && m.value == all[l];
      assert i == l;
    }
  }

  /** One pass of the outer loop of the join (main.go:199-215). */
  method BuildAgentRecord(i: RawAgent, allInstances: seq<Instance>) returns (e: Instance)
    ensures e == AgentRecord(i, allInstances)
  {
    e := Blank;
    e := e.(InstanceID := i.InstanceId, AgentState := i.PingStatus);
    if i.PingStatus == Online {
      e := e.(
        ComputerName := i.ComputerName,
        PrivateIPAddress := i.IPAddress,
        PlatformType := i.PlatformType,
        PlatformName := i.PlatformName + " " + i.PlatformVersion);
    }
    ghost var base := e;
    assert base == AgentBase(i);
    for t := 0 to |allInstances|
      invariant e == Enrich(base, LastMatch(allInstances[..t], i.InstanceId))
    {
      var j := allInstances[t];
      LastMatchSnoc(allInstances, t, i.InstanceId);
      if i.InstanceId == j.InstanceID {
        e := e.(Name := j.Name, PublicIPAddress := j.PublicIPAddress, InstanceState := j.InstanceState);
      }
    }
    assert allInstances[..|allInstances|] == allInstances;
  }

  /** The per-entry join of `listManagedInstances` (main.go:198-216), with the
      package-level `allInstances` passed in: one record per agent entry, in
      agent order. */
  method ListManagedInstances(agents: seq<RawAgent>, allInstances: seq<Instance>)
    returns (instances: seq<Instance>)
    ensures |instances| == |agents|
    ensures forall k :: 0 <= k < |agents| ==> instances[k] == AgentRecord(agents[k], allInstances)
  {
    instances := [];
    for n := 0 to |agents|
      invariant |instances| == n
      invariant forall k :: 0 <= k < n ==> instances[k] == AgentRecord(agents[k], allInstances)
    {
      var e := BuildAgentRecord(agents[n], allInstances);
      instances := instances + [e];
    }
  }

  /** The compute-side fields of `e` are those of live descriptor `j`, which
      has the agent's id. */
  predicate EnrichedFrom(e: Instance, id: String, raws: seq<RawCompute>, j: int) {
    0 <= j < |raws| && raws[j].InstanceId == id && !IsTerminal(raws[j].StateName) &&
    e.Name == ComputeRecord(raws[j]).Name &&
    e.PublicIPAddress == ComputeRecord(raws[j]).PublicIPAddress &&
    e.InstanceState == ComputeRecord(raws[j]).InstanceState
  }

  /** Terminal descriptors are filtered before the join, so a joined record
      never carries a terminal state, and whatever compute-side fields it
      has come from a live descriptor with its id. */
  lemma EnrichmentNeverTerminal(a: RawAgent, reservations: seq<Reservation>)
    ensures var raws := Flatten(reservations);
      var e := AgentRecord(a, KeepLive(raws));
      && !IsTerminal(e.InstanceState)
      && (e.Name != "" || e.PublicIPAddress != "" || e.InstanceState != "" ==>
        exists j :: EnrichedFrom(e, a.InstanceId, raws, j))
  {
    var raws := Flatten(reservations);
    var all := KeepLive(raws);
    KeepLiveNeverTerminal(raws);
    var m := LastMatch(all, a.InstanceId);
    if m.Some? {
      var l :| LastWithId(all, a.InstanceId, l) && m.value == all[l];
      KeepLiveMembers(raws, all[l]);
      var j :| 0 <= j < |raws| && !IsTerminal(raws[j].StateName) && ComputeRecord(raws[j]) == all[l];
      assert EnrichedFrom(AgentRecord(a, all), a.InstanceId, raws, j);
    }
  }

  /** An agent entry whose id only terminated or shutting-down descriptors
      carry gets nothing from them: Name, PublicIPAddress and InstanceState
      stay empty, as if the id were absent. */
  lemma TerminalOnlyGivesNoEnrichment(a: RawAgent, reservations: seq<Reservation>)
    requires forall raw :: raw in Flatten(reservations) && raw.InstanceId == a.InstanceId ==> IsTerminal(raw.StateName)
    ensures var e := AgentRecord(a, KeepLive(Flatten(reservations)));
      e.Name == "" && e.PublicIPAddress == "" && e.InstanceState == ""
  {
    var raws := Flatten(reservations);
    var all := KeepLive(raws);
    forall i | 0 <= i < |all|
      ensures all[i].InstanceID != a.InstanceId
    {
      KeepLiveMembers(raws, all[i]);
    }
    AgentRecordFields(a, all);
  }

  /** An agent entry absent from the compute listing keeps an empty Name
      (the code does not apply the "unnamed" default on this path). */
  lemma UnmatchedAgentHasEmptyName(a: RawAgent, reservations: seq<Reservation>)
    requires forall raw :: raw in Flatten(reservations) ==> raw.InstanceId != a.InstanceId
    ensures AgentRecord(a, KeepLive(Flatten(reservations))).Name == ""
  {
    TerminalOnlyGivesNoEnrichment(a, reservations);
  }

  /** Three concrete inputs to the pipeline. An agent entry reporting anything
      but "Online" keeps its raw status and, without a compute match, an
      empty Name; a listing of terminated instances only is empty. */
  lemma JoinExamples()
    ensures var all := KeepLive(Flatten([[RawCompute("i-1", [Tag("Name", "web")], "running", None)]]));
      var e := AgentRecord(RawAgent("i-1", "Online", "web-host", "10.0.0.1", "Linux", "Ubuntu", "22.04"), all);
      e.Name == "web" && e.AgentState == "Online" && e.InstanceState == "running" &&
      e.PublicIPAddress == NoAddress && e.PlatformName == "Ubuntu 22.04"
    ensures var e := AgentRecord(RawAgent("i-2", "Connecting", "h", "10.0.0.2", "Linux", "Ubuntu", "22.04"), []);
      e.Name == "" && e.AgentState == "Connecting" && e.ComputerName == ""
    ensures KeepLive(Flatten([[RawCompute("i-3", [], "terminated", None)]])) == []
  {
    var raw := RawCompute("i-1", [Tag("Name", "web")], "running", None);
    assert Flatten([[raw]]) == [raw] by {
      assert [[raw]][..0] == [];
    }
    assert KeepLive([raw]) == [ComputeRecord(raw)] by {
      assert [raw][..0] == [];
    }
    assert NameFromTags(raw.Tags) == "web" by {
      assert LastNameTagAt(raw.Tags, 0);
      NameFromTagsIsLastNameTag(raw.Tags);
    }
    assert LastWithId([ComputeRecord(raw)], "i-1", 0);
    var dead := RawCompute("i-3", [], "terminated", None);
    assert Flatten([[dead]]) == [dead] by {
      assert [[dead]][..0] == [];
    }
    assert [dead][..0] == [];
  }
}

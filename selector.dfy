/** The logic around the two pickers: the search predicates handed to the
    prompts (main.go:127-133 and 237-243), the summary counters shown in the
    instance prompt's label (main.go:245-258), the mapping of the chosen
    index back to an unpadded record (main.go:268-273), and what `main` does
    with the result (main.go:81-92). */
module Selector {
  import opened GoStrings
  import opened Instances
  import Presenter

  /** The text the instance searcher matches against: all nine fields
      concatenated in this order, lowercased, spaces removed. */
  function SearchKey(x: Instance): String {
    Normalize(x.InstanceID + x.ComputerName + x.PrivateIPAddress + x.PublicIPAddress +
              x.Name + x.InstanceState + x.AgentState + x.PlatformType + x.PlatformName)
  }

  /** The instance prompt's searcher: substring containment after folding
      both sides. */
  predicate InstanceMatches(input: String, x: Instance) {
    Contains(SearchKey(x), Normalize(input))
  }

  /** The searcher accepts exactly the queries whose folded form occurs
      somewhere in the record's key. */
  lemma InstanceMatchesIff(input: String, x: Instance)
    ensures InstanceMatches(input, x) <==> exists i :: OccursAt(SearchKey(x), Normalize(input), i)
  {
    ContainsIffOccurs(SearchKey(x), Normalize(input));
  }

  /** Every stretch of a record's key is a query that finds it; in particular
      the empty query finds every record. */
  lemma SubstringOfKeyMatches(x: Instance, i: int, j: int)
    requires 0 <= i <= j <= |SearchKey(x)|
    ensures InstanceMatches(SearchKey(x)[i..j], x)
  {
    var key := SearchKey(x);
    var q := key[i..j];
    NormalizeOfNormal(q);
    assert OccursAt(key, q, i);
    ContainsIffOccurs(key, q);
  }

  lemma EmptyQueryMatchesEveryInstance(x: Instance)
    ensures InstanceMatches("", x)
  {
    SubstringOfKeyMatches(x, 0, 0);
  }

  /** Case and spaces in the query make no difference. */
  lemma QueryFoldingIrrelevant(input: String, x: Instance)
    ensures InstanceMatches(input, x) == InstanceMatches(Normalize(input), x)
  {
    NormalizeIdempotent(input);
  }

  /** The profile prompt's searcher: lowercased containment, spaces kept. */
  predicate ProfileMatches(input: String, profile: String) {
    Contains(ToLower(profile), ToLower(input))
  }

  lemma ProfileMatchesIff(input: String, profile: String)
    ensures ProfileMatches(input, profile) <==> exists i :: OccursAt(ToLower(profile), ToLower(input), i)
  {
    ContainsIffOccurs(ToLower(profile), ToLower(input));
  }

  /** Every stretch of a lowercased profile name finds it, whatever the case
      the query is typed in. */
  lemma SubstringOfProfileMatches(profile: String, i: int, j: int)
    requires 0 <= i <= j <= |profile|
    ensures ProfileMatches(ToLower(profile)[i..j], profile)
  {
    var lower := ToLower(profile);
    var q := lower[i..j];
    assert ToLower(q) == q;
    assert OccursAt(lower, q, i);
    ContainsIffOccurs(lower, q);
  }

  // ---------------------------------------------------------------------
  // Summary counters
  // ---------------------------------------------------------------------

  /** How many records have field `f` equal to `v`. */
  function Count(xs: seq<Instance>, f: Field, v: String): (n: nat)
    ensures n <= |xs|
    decreases |xs|
  {
    if xs == [] then 0
    else Count(xs[..|xs| - 1], f, v) + (if Get(xs[|xs| - 1], f) == v then 1 else 0)
  }

  /** The count is the multiplicity of `v` in the field's column. */
  lemma {:induction false} CountIsMultiplicity(xs: seq<Instance>, f: Field, v: String)
    ensures Count(xs, f, v) == multiset(Column(xs, f))[v]
    decreases |xs|
  {
    if xs != [] {
      var init := xs[..|xs| - 1];
      CountIsMultiplicity(init, f, v);
      assert Column(xs, f) == Column(init, f) + [Get(xs[|xs| - 1], f)];
    }
  }

  lemma CountSnoc(xs: seq<Instance>, n: int, f: Field, v: String)
    requires 0 <= n < |xs|
    ensures Count(xs[..n + 1], f, v) == Count(xs[..n], f, v) + if Get(xs[n], f) == v then 1 else 0
  {
    assert xs[..n + 1][..n] == xs[..n];
  }

  /** The counters of the instance prompt's label: running instances across
      the whole compute listing, online and offline across the managed
      list. */
  method SummaryCounters(allInstances: seq<Instance>, managedInstances: seq<Instance>)
    returns (countRunning: int, countOnline: int, countOffline: int)
    ensures countRunning == Count(allInstances, InstanceStateField, "running")
    ensures countOnline == Count(managedInstances, AgentStateField, "Online")
    ensures countOffline == |managedInstances| - countOnline
    ensures 0 <= countOnline && 0 <= countOffline
    ensures countOnline + countOffline == |managedInstances|
  {
    countRunning, countOnline := 0, 0;
    for n := 0 to |allInstances|
      invariant countRunning == Count(allInstances[..n], InstanceStateField, "running")
    {
      CountSnoc(allInstances, n, InstanceStateField, "running");
      if allInstances[n].InstanceState == "running" {
        countRunning := countRunning + 1;
      }
    }
    assert allInstances[..|allInstances|] == allInstances;
    for n := 0 to |managedInstances|
      invariant countOnline == Count(managedInstances[..n], AgentStateField, "Online")
    {
      CountSnoc(managedInstances, n, AgentStateField, "Online");
      if managedInstances[n].AgentState == "Online" {
        countOnline := countOnline + 1;
      }
    }
    assert managedInstances[..|managedInstances|] == managedInstances;
    countOffline := |managedInstances| - countOnline;
  }

  // ---------------------------------------------------------------------
  // Selection and what main does with it
  // ---------------------------------------------------------------------

  /** The instance prompt's outcome: `choice` is the index picked in the
      padded list, or None when the prompt returns an error (escape,
      Ctrl-C). The id handed on is the unpadded one; the displayed row
      carries it followed by padding only. */
  function SelectedInstance(managedInstances: seq<Instance>, choice: Option<nat>): (id: String)
    requires choice.Some? ==> choice.value < |managedInstances|
    ensures choice.None? ==> id == ""
    ensures choice.Some? ==>
      var shown := Presenter.Formatted(managedInstances)[choice.value].InstanceID;
      && id == managedInstances[choice.value].InstanceID
      && shown == Presenter.Pad(id, Presenter.Width(managedInstances, InstanceIDField))
      && shown[..|id|] == id
  {
    match choice
    case None => ""
    case Some(k) =>
      Presenter.PadSpec(managedInstances[k].InstanceID, Presenter.Width(managedInstances, InstanceIDField));
      managedInstances[k].InstanceID
  }

  datatype Outcome =
    | Connect(target: String)  // startSSH with this instance id
    | NoAvailableInstance      // log.Fatal("No available instance")
    | Quit                     // nothing chosen: main returns

  /** `main` after the session is created (main.go:81-92): a direct `-i`
      instance wins; otherwise an empty managed list is fatal, and a
      non-empty one goes through the picker. */
  function Dispatch(instanceFlag: String, managedInstances: seq<Instance>, choice: Option<nat>): (o: Outcome)
    requires choice.Some? ==> choice.value < |managedInstances|
    ensures instanceFlag != "" ==> o == Connect(instanceFlag)
    ensures instanceFlag == "" && managedInstances == [] ==> o == NoAvailableInstance
    ensures instanceFlag == "" && o.Connect? ==>
      exists k :: 0 <= k < |managedInstances| && managedInstances[k].InstanceID == o.target != ""
    ensures instanceFlag == "" && choice.None? ==> o.NoAvailableInstance? || o == Quit
    ensures instanceFlag == "" && managedInstances != [] && choice.None? ==> o == Quit
    ensures instanceFlag == "" && managedInstances != [] && choice.Some? ==>
      var picked := managedInstances[choice.value].InstanceID;
      o == if picked != "" then Connect(picked) else Quit
  {
    if instanceFlag != "" then Connect(instanceFlag)
    else if |managedInstances| == 0 then NoAvailableInstance
    else
      var selected := SelectedInstance(managedInstances, choice);
      if selected != "" then Connect(selected) else Quit
  }
}

/** Column alignment for the picker: `addSpaces` (main.go:333-338) and
    `getFormattedInstancesList` (main.go:299-331). */
module Presenter {
  import opened GoStrings
  import opened Instances

  function Spaces(n: nat): (r: String)
    ensures |r| == n && forall i :: 0 <= i < n ==> r[i] == ' '
  {
    seq(n, _ => ' ')
  }

  /** `text` right-padded with spaces to at least `size` characters. */
  function Pad(text: String, size: int): (r: String)
    ensures |r| == if size > |text| then size else |text|
  {
    if size > |text| then text + Spaces(size - |text|) else text
  }

  /** Padding keeps the text as a prefix, adds spaces only, and leaves text
      that is already long enough alone. */
  lemma PadSpec(text: String, size: int)
    ensures Pad(text, size)[..|text|] == text
    ensures forall i :: |text| <= i < |Pad(text, size)| ==> Pad(text, size)[i] == ' '
    ensures size <= |text| ==> Pad(text, size) == text
  {
  }

  /** addSpaces: append one space at a time while the text is shorter than
      `size`. */
  method AddSpaces(text: String, size: int) returns (r: String)
    ensures r == Pad(text, size)
  {
    r := text;
    while size - |r| > 0
      invariant |text| <= |r| && r[..|text|] == text
      invariant forall i :: |text| <= i < |r| ==> r[i] == ' '
      invariant |r| <= if size > |text| then size else |text|
      decreases size - |r|
    {
      r := r + " ";
    }
    PadSpec(text, size);
    assert r == Pad(text, size);
  }

  /** The four columns the picker aligns; the other five are copied. */
  predicate IsPadded(f: Field) {
    f == NameField || f == ComputerNameField || f == InstanceIDField || f == PrivateIPField
  }

  /** The widest value of one field across the whole list (0 when empty). */
  function Width(xs: seq<Instance>, f: Field): (w: nat)
    ensures forall k :: 0 <= k < |xs| ==> |Get(xs[k], f)| <= w
    ensures xs == [] ==> w == 0
    decreases |xs|
  {
    if xs == [] then 0
    else
      var init := xs[..|xs| - 1];
      var w := Width(init, f);
      var n := |Get(xs[|xs| - 1], f)|;
      assert forall k :: 0 <= k < |init| ==> init[k] == xs[k];
      if n > w then n else w
  }

  /** The width of a non-empty list is the length of one of its values, so
      no column is padded wider than it needs to be. */
  lemma {:induction false} WidthAttained(xs: seq<Instance>, f: Field) returns (k: int)
    requires xs != []
    ensures 0 <= k < |xs| && |Get(xs[k], f)| == Width(xs, f)
    decreases |xs|
  {
    var init := xs[..|xs| - 1];
    if init == [] || |Get(xs[|xs| - 1], f)| > Width(init, f) {
      k := |xs| - 1;
    } else {
      k := WidthAttained(init, f);
      assert init[k] == xs[k];
    }
  }

  /** One record as the formatter emits it, given the four column widths. */
  function PadRow(x: Instance, nameW: int, computerW: int, idW: int, privateW: int): Instance {
    Instance(
      InstanceID := Pad(x.InstanceID, idW),
      ComputerName := Pad(x.ComputerName, computerW),
      PrivateIPAddress := Pad(x.PrivateIPAddress, privateW),
      PublicIPAddress := x.PublicIPAddress,
      Name := Pad(x.Name, nameW),
      InstanceState := x.InstanceState,
      AgentState := x.AgentState,
      PlatformType := x.PlatformType,
      PlatformName := x.PlatformName)
  }

  lemma WidthSnoc(xs: seq<Instance>, n: int, f: Field)
    requires 0 <= n < |xs|
    ensures Width(xs[..n + 1], f) ==
      if |Get(xs[n], f)| > Width(xs[..n], f) then |Get(xs[n], f)| else Width(xs[..n], f)
  {
    assert xs[..n + 1][..n] == xs[..n];
  }

  /** The first loop of getFormattedInstancesList (main.go:300-314): the
      running maxima `size1`..`size4`. */
  method ColumnWidths(xs: seq<Instance>) returns (size1: int, size2: int, size3: int, size4: int)
    ensures size1 == Width(xs, NameField) && size2 == Width(xs, ComputerNameField)
    ensures size3 == Width(xs, InstanceIDField) && size4 == Width(xs, PrivateIPField)
  {
    size1, size2, size3, size4 := 0, 0, 0, 0;
    for n := 0 to |xs|
      invariant size1 == Width(xs[..n], NameField)
      invariant size2 == Width(xs[..n], ComputerNameField)
      invariant size3 == Width(xs[..n], InstanceIDField)
      invariant size4 == Width(xs[..n], PrivateIPField)
    {
      var i := xs[n];
      WidthSnoc(xs, n, NameField);
      WidthSnoc(xs, n, ComputerNameField);
      WidthSnoc(xs, n, InstanceIDField);
      WidthSnoc(xs, n, PrivateIPField);
      if |i.Name| > size1 {
        size1 := |i.Name|;
      }
      if |i.ComputerName| > size2 {
        size2 := |i.ComputerName|;
      }
      if |i.InstanceID| > size3 {
        size3 := |i.InstanceID|;
      }
      if |i.PrivateIPAddress| > size4 {
        size4 := |i.PrivateIPAddress|;
      }
    }
    assert xs[..|xs|] == xs;
  }

  /** What getFormattedInstancesList returns: every row padded to the
      widths of the whole list. */
  function Formatted(xs: seq<Instance>): (r: seq<Instance>)
    ensures |r| == |xs|
  {
    var nameW, computerW := Width(xs, NameField), Width(xs, ComputerNameField);
    var idW, privateW := Width(xs, InstanceIDField), Width(xs, PrivateIPField);
    seq(|xs|, k requires 0 <= k < |xs| => PadRow(xs[k], nameW, computerW, idW, privateW))
  }

  /** Formatting keeps length and order, aligns each of the four padded
      columns to its widest value (each padded value starting with its
      original and continuing with spaces only), and copies the other five
      fields. */
  lemma FormattedAligned(xs: seq<Instance>, k: int, f: Field)
    requires 0 <= k < |xs|
    ensures var cell, orig := Get(Formatted(xs)[k], f), Get(xs[k], f);
      && (IsPadded(f) ==>
        && |cell| == Width(xs, f)
        && cell[..|orig|] == orig
        && (forall i :: |orig| <= i < |cell| ==> cell[i] == ' '))
      && (!IsPadded(f) ==> cell == orig)
  {
    assert |Get(xs[k], f)| <= Width(xs, f);
    PadSpec(Get(xs[k], f), Width(xs, f));
  }

  /** The body of the second loop of getFormattedInstancesList
      (main.go:318-327). */
  method PadInstance(i: Instance, size1: int, size2: int, size3: int, size4: int) returns (fi: Instance)
    ensures fi == PadRow(i, size1, size2, size3, size4)
  {
    var name := AddSpaces(i.Name, size1);
    var computerName := AddSpaces(i.ComputerName, size2);
    var instanceID := AddSpaces(i.InstanceID, size3);
    var privateIP := AddSpaces(i.PrivateIPAddress, size4);
    fi := Instance(
      InstanceID := instanceID,
      ComputerName := computerName,
      PrivateIPAddress := privateIP,
      PublicIPAddress := i.PublicIPAddress,
      Name := name,
      InstanceState := i.InstanceState,
      AgentState := i.AgentState,
      PlatformType := i.PlatformType,
      PlatformName := i.PlatformName);
  }

  /** getFormattedInstancesList (main.go:299-331). */
  method FormatInstances(managedInstances: seq<Instance>) returns (formatted: seq<Instance>)
    ensures formatted == Formatted(managedInstances)
  {
    var xs := managedInstances;
    var size1, size2, size3, size4 := ColumnWidths(xs);
    formatted := [];
    for n := 0 to |xs|
      invariant |formatted| == n
      invariant forall k :: 0 <= k < n ==> formatted[k] == PadRow(xs[k], size1, size2, size3, size4)
    {
      var fi := PadInstance(xs[n], size1, size2, size3, size4);
      ghost var done := formatted;
      formatted := formatted + [fi];
      forall k | 0 <= k < n + 1
        ensures formatted[k] == PadRow(xs[k], size1, size2, size3, size4)
      {
        if k < n {
          assert formatted[k] == done[k];
        }
      }
    }
  }
}

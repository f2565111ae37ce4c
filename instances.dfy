/** The launcher's one record type, `instance` (main.go:26-36), and the
    vocabulary shared by the other modules. */
module Instances {
  import opened GoStrings

  datatype Option<+T> = None | Some(value: T)

  /** One row of the picker: compute-side fields (Name, PublicIPAddress,
      InstanceState) and agent-side fields (ComputerName, PrivateIPAddress,
      AgentState, PlatformType, PlatformName) under one InstanceID. */
  datatype Instance = Instance(
    InstanceID: String,
    ComputerName: String,
    PrivateIPAddress: String,
    PublicIPAddress: String,
    Name: String,
    InstanceState: String,
    AgentState: String,
    PlatformType: String,
    PlatformName: String)

  /** Go's zero value of the struct: every field the empty string. */
  const Blank := Instance("", "", "", "", "", "", "", "", "")

  /** The nine fields, in declaration order, so that properties can speak of
      "a column" without repeating themselves per field. */
  datatype Field =
    | InstanceIDField | ComputerNameField | PrivateIPField | PublicIPField
    | NameField | InstanceStateField | AgentStateField | PlatformTypeField
    | PlatformNameField

  function Get(x: Instance, f: Field): String {
    match f
    case InstanceIDField => x.InstanceID
    case ComputerNameField => x.ComputerName
    case PrivateIPField => x.PrivateIPAddress
    case PublicIPField => x.PublicIPAddress
    case NameField => x.Name
    case InstanceStateField => x.InstanceState
    case AgentStateField => x.AgentState
    case PlatformTypeField => x.PlatformType
    case PlatformNameField => x.PlatformName
  }

  /** The values of one field across a list of records. */
  function Column(xs: seq<Instance>, f: Field): (col: seq<String>)
    ensures |col| == |xs|
    ensures forall k :: 0 <= k < |xs| ==> col[k] == Get(xs[k], f)
  {
    seq(|xs|, k requires 0 <= k < |xs| => Get(xs[k], f))
  }
}

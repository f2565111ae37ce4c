/** The session request `startSSH` sends to the broker (main.go:276-282):
    shell by default, port forwarding when both port flags are given and no
    source path is. */
module Session {
  import opened GoStrings
  import opened Instances

  const PortForwardingDocument := "AWS-StartPortForwardingSession"

  /** ssm.StartSessionInput as far as the launcher fills it in; an unset
      document name is None and an unset parameter map is empty. */
  datatype StartSessionInput = StartSessionInput(
    Target: String,
    DocumentName: Option<String>,
    Parameters: map<String, seq<String>>)

  predicate IsPortForward(input: StartSessionInput) {
    input.DocumentName == Some(PortForwardingDocument)
  }

  /** The request built for `instanceID` from the `-pn` and `-lpn` flags and
      the first positional argument. */
  function SessionInput(instanceID: String, portNumber: String, localPortNumber: String, source: String)
    : (input: StartSessionInput)
    ensures input.Target == instanceID
    ensures IsPortForward(input) <==> portNumber != "" && localPortNumber != "" && source == ""
    ensures IsPortForward(input) ==>
      && input.Parameters.Keys == {"portNumber", "localPortNumber"}
      && input.Parameters["portNumber"] == [portNumber]
      && input.Parameters["localPortNumber"] == [localPortNumber]
    ensures !IsPortForward(input) ==> input.DocumentName.None? && input.Parameters == map[]
  {
    var input := StartSessionInput(instanceID, None, map[]);
    if portNumber != "" && localPortNumber != "" && source == "" then
      input.(
        DocumentName := Some(PortForwardingDocument),
        Parameters := map["portNumber" := [portNumber], "localPortNumber" := [localPortNumber]])
    else input
  }
}

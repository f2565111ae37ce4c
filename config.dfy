/** Choosing the credential profile and the region (main.go:52-71) and
    reading profile names out of the lines of `~/.aws/config`
    (`listProfiles`, main.go:95-118). The environment is a map from variable
    name to value; a variable that is absent reads as "", as os.Getenv does. */
module Config {
  import opened GoStrings
  import opened Instances

  const ProfileHeader := "[profile "
  const DefaultRegion := "eu-west-1"

  // ---------------------------------------------------------------------
  // listProfiles
  // ---------------------------------------------------------------------

  /** One line of the config file: a profile name when the line starts with
      "[profile ", the rest of the line with one trailing "]" dropped. (The
      pattern has no capture group, so its "${1}" replacement is empty and
      only the header goes.) */
  function ProfileOfLine(line: String): Option<String> {
    if HasPrefix(line, ProfileHeader) then Some(TrimSuffix(line[|ProfileHeader|..], "]")) else None
  }

  /** A line yields a profile exactly when it starts with the header, and
      the line is then the header, the name and possibly one "]". */
  lemma ProfileOfLineSpec(line: String)
    ensures ProfileOfLine(line).Some? <==> HasPrefix(line, ProfileHeader)
    ensures ProfileOfLine(line).Some? ==>
      line == ProfileHeader + ProfileOfLine(line).value + if HasSuffix(line, "]") then "]" else ""
  {
    if HasPrefix(line, ProfileHeader) {
      HeaderLineSuffix(line);
    }
  }

  /** The header ends in a space, so a header line ends in "]" exactly when
      the text after the header does. */
  lemma HeaderLineSuffix(line: String)
    requires HasPrefix(line, ProfileHeader)
    ensures line == ProfileHeader + line[|ProfileHeader|..]
    ensures HasSuffix(line, "]") <==> HasSuffix(line[|ProfileHeader|..], "]")
  {
    var rest := line[|ProfileHeader|..];
    if rest == [] {
      assert line[|line| - 1] == ' ';
    } else {
      assert line[|line| - 1..] == rest[|rest| - 1..];
    }
  }

  /** Writing a profile header and reading it back gives the name. */
  lemma ProfileHeaderRoundTrip(name: String)
    ensures ProfileOfLine(ProfileHeader + name + "]") == Some(name)
  {
    var line := ProfileHeader + name + "]";
    assert line[..|ProfileHeader|] == ProfileHeader;
    assert line[|ProfileHeader|..] == name + "]";
  }

  /** The profile names of a config file, in line order. */
  function ProfilesIn(lines: seq<String>): (ps: seq<String>)
    ensures |ps| <= |lines|
    decreases |lines|
  {
    if lines == [] then []
    else
      var p := ProfileOfLine(lines[|lines| - 1]);
      ProfilesIn(lines[..|lines| - 1]) + if p.Some? then [p.value] else []
  }

  lemma ProfilesInSnoc(lines: seq<String>, n: int)
    requires 0 <= n < |lines|
    ensures ProfilesIn(lines[..n + 1]) ==
      ProfilesIn(lines[..n]) + if ProfileOfLine(lines[n]).Some? then [ProfileOfLine(lines[n]).value] else []
  {
    assert lines[..n + 1][..n] == lines[..n];
  }

  /** The scanning loop of listProfiles (main.go:103-111). */
  method ListProfiles(lines: seq<String>) returns (profiles: seq<String>)
    ensures profiles == ProfilesIn(lines)
  {
    profiles := [];
    for n := 0 to |lines|
      invariant profiles == ProfilesIn(lines[..n])
    {
      ProfilesInSnoc(lines, n);
      var text := lines[n];
      if HasPrefix(text, ProfileHeader) {
        var s := TrimSuffix(text[|ProfileHeader|..], "]");
        profiles := profiles + [s];
      }
    }
    assert lines[..|lines|] == lines;
  }

  /** Line `i` is the header of profile `p`. */
  predicate DeclaresAt(lines: seq<String>, i: int, p: String) {
    0 <= i < |lines| && ProfileOfLine(lines[i]) == Some(p)
  }

  /** A name is listed exactly when some line is its profile header. */
  lemma {:induction false} ProfilesInMembers(lines: seq<String>, p: String)
    ensures p in ProfilesIn(lines) <==> exists i :: DeclaresAt(lines, i, p)
    decreases |lines|
  {
    if lines != [] {
      var n := |lines| - 1;
      var init := lines[..n];
      ProfilesInMembers(init, p);
      assert (p in ProfilesIn(lines)) == (p in ProfilesIn(init) || DeclaresAt(lines, n, p));
      assert (exists i :: DeclaresAt(lines, i, p)) == ((exists i :: DeclaresAt(init, i, p)) || DeclaresAt(lines, n, p)) by {
        forall i | 0 <= i < n
          ensures DeclaresAt(init, i, p) == DeclaresAt(lines, i, p)
        {
          assert init[i] == lines[i];
        }
      }
    }
  }

  /** Lines are handled one by one, so profiles come out in line order. */
  lemma {:induction false} ProfilesInAppend(a: seq<String>, b: seq<String>)
    ensures ProfilesIn(a + b) == ProfilesIn(a) + ProfilesIn(b)
    decreases |b|
  {
    if b == [] {
      assert a + b == a;
    } else {
      ProfilesInAppend(a, b[..|b| - 1]);
      assert (a + b)[..|a + b| - 1] == a + b[..|b| - 1];
    }
  }

  /** A typical file: the default section and settings lines are skipped. */
  lemma ProfilesInExample()
    ensures ProfilesIn(["[default]", "region = eu-west-1", "[profile dev]", "[profile prod]"]) == ["dev", "prod"]
  {
    var lines := ["[default]", "region = eu-west-1", "[profile dev]", "[profile prod]"];
    assert lines[0][1] != ProfileHeader[1];
    assert lines[1][0] != ProfileHeader[0];
    assert lines[2] == ProfileHeader + "dev" + "]";
    assert lines[3] == ProfileHeader + "prod" + "]";
    ProfileHeaderRoundTrip("dev");
    ProfileHeaderRoundTrip("prod");
    assert lines == lines[..1] + lines[1..2] + lines[2..3] + lines[3..];
    ProfilesInAppend(lines[..1] + lines[1..2] + lines[2..3], lines[3..]);
    ProfilesInAppend(lines[..1] + lines[1..2], lines[2..3]);
    ProfilesInAppend(lines[..1], lines[1..2]);
  }

  // ---------------------------------------------------------------------
  // Profile and region fallback
  // ---------------------------------------------------------------------

  function Getenv(env: map<String, String>, key: String): String {
    if key in env then env[key] else ""
  }

  /** Index `i` holds the first non-empty candidate. */
  predicate FirstNonEmptyAt(candidates: seq<String>, i: int) {
    0 <= i < |candidates| && candidates[i] != "" &&
    forall j :: 0 <= j < i ==> candidates[j] == ""
  }

  /** The first non-empty candidate, else the fallback. */
  function FirstNonEmpty(candidates: seq<String>, fallback: String): (r: String)
    ensures (forall j :: 0 <= j < |candidates| ==> candidates[j] == "") ==> r == fallback
    ensures forall i :: FirstNonEmptyAt(candidates, i) ==> r == candidates[i]
    decreases |candidates|
  {
    if candidates == [] then fallback
    else if candidates[0] != "" then candidates[0]
    else
      var rest := candidates[1..];
      assert forall i :: FirstNonEmptyAt(candidates, i) ==> FirstNonEmptyAt(rest, i - 1);
      FirstNonEmpty(rest, fallback)
  }

  /** The profile: the `-p` flag, else AWS_PROFILE, else AWS_DEFAULT_PROFILE,
      else the name `picked` from the interactive profile picker. */
  function ResolveProfile(flagProfile: String, env: map<String, String>, picked: String): String {
    if flagProfile != "" then flagProfile
    else if Getenv(env, "AWS_PROFILE") != "" then Getenv(env, "AWS_PROFILE")
    else if Getenv(env, "AWS_DEFAULT_PROFILE") != "" then Getenv(env, "AWS_DEFAULT_PROFILE")
    else picked
  }

  lemma ResolveProfileIsFirstNonEmpty(flagProfile: String, env: map<String, String>, picked: String)
    ensures ResolveProfile(flagProfile, env, picked) ==
      FirstNonEmpty([flagProfile, Getenv(env, "AWS_PROFILE"), Getenv(env, "AWS_DEFAULT_PROFILE")], picked)
  {
    var cs := [flagProfile, Getenv(env, "AWS_PROFILE"), Getenv(env, "AWS_DEFAULT_PROFILE")];
    if flagProfile != "" {
      assert FirstNonEmptyAt(cs, 0);
    } else if cs[1] != "" {
      assert FirstNonEmptyAt(cs, 1);
    } else if cs[2] != "" {
      assert FirstNonEmptyAt(cs, 2);
    }
  }

  /** The region as main.go:63-71 computes it: the `-r` flag, else, when
      AWS_REGION is set, the value of AWS_PROFILE, else, when
      AWS_DEFAULT_REGION is set, the value of AWS_DEFAULT_PROFILE, else
      eu-west-1. The region variables only steer the choice; their values
      never reach the result. */
  function ResolveRegion(flagRegion: String, env: map<String, String>): (r: String)
    ensures r in {flagRegion, Getenv(env, "AWS_PROFILE"), Getenv(env, "AWS_DEFAULT_PROFILE"), DefaultRegion}
    ensures flagRegion != "" ==> r == flagRegion
    ensures flagRegion == "" && Getenv(env, "AWS_REGION") == "" && Getenv(env, "AWS_DEFAULT_REGION") == "" ==>
      r == DefaultRegion
  {
    if flagRegion != "" then flagRegion
    else if Getenv(env, "AWS_REGION") != "" then Getenv(env, "AWS_PROFILE")
    else if Getenv(env, "AWS_DEFAULT_REGION") != "" then Getenv(env, "AWS_DEFAULT_PROFILE")
    else DefaultRegion
  }

  /** With AWS_REGION set and AWS_PROFILE unset, the region comes out empty;
      with AWS_PROFILE set, it is the profile name. */
  lemma ResolveRegionUsesProfileValue()
    ensures ResolveRegion("", map["AWS_REGION" := "us-east-1"]) == ""
    ensures ResolveRegion("", map["AWS_REGION" := "us-east-1", "AWS_PROFILE" := "dev"]) == "dev"
  {
  }

  /** For every input, how the region as written relates to the intended
      chain: the two agree when the flag is given or neither region variable
      is set; otherwise the code returns the matching profile variable in
      place of the region variable that was set. */
  lemma ResolveRegionAgainstIntended(flagRegion: String, env: map<String, String>)
    ensures flagRegion != "" ==> ResolveRegion(flagRegion, env) == IntendedRegion(flagRegion, env) == flagRegion
    ensures flagRegion == "" && Getenv(env, "AWS_REGION") == "" && Getenv(env, "AWS_DEFAULT_REGION") == "" ==>
      ResolveRegion(flagRegion, env) == IntendedRegion(flagRegion, env) == DefaultRegion
    ensures flagRegion == "" && Getenv(env, "AWS_REGION") != "" ==>
      ResolveRegion(flagRegion, env) == Getenv(env, "AWS_PROFILE") &&
      IntendedRegion(flagRegion, env) == Getenv(env, "AWS_REGION")
    ensures flagRegion == "" && Getenv(env, "AWS_REGION") == "" && Getenv(env, "AWS_DEFAULT_REGION") != "" ==>
      ResolveRegion(flagRegion, env) == Getenv(env, "AWS_DEFAULT_PROFILE") &&
      IntendedRegion(flagRegion, env) == Getenv(env, "AWS_DEFAULT_REGION")
  {
    IntendedRegionHonoursVariables(flagRegion, env);
  }

  /** The evidently intended region chain: the flag, else AWS_REGION, else
      AWS_DEFAULT_REGION, else eu-west-1. */
  function IntendedRegion(flagRegion: String, env: map<String, String>): String {
    FirstNonEmpty([flagRegion, Getenv(env, "AWS_REGION"), Getenv(env, "AWS_DEFAULT_REGION")], DefaultRegion)
  }

  /** The intended chain never yields an empty region and honours each
      region variable in turn. */
  lemma IntendedRegionHonoursVariables(flagRegion: String, env: map<String, String>)
    ensures IntendedRegion(flagRegion, env) != ""
    ensures flagRegion != "" ==> IntendedRegion(flagRegion, env) == flagRegion
    ensures flagRegion == "" && Getenv(env, "AWS_REGION") != "" ==>
      IntendedRegion(flagRegion, env) == Getenv(env, "AWS_REGION")
    ensures flagRegion == "" && Getenv(env, "AWS_REGION") == "" && Getenv(env, "AWS_DEFAULT_REGION") != "" ==>
      IntendedRegion(flagRegion, env) == Getenv(env, "AWS_DEFAULT_REGION")
    ensures flagRegion == "" && Getenv(env, "AWS_REGION") == "" && Getenv(env, "AWS_DEFAULT_REGION") == "" ==>
      IntendedRegion(flagRegion, env) == DefaultRegion
  {
    var cs := [flagRegion, Getenv(env, "AWS_REGION"), Getenv(env, "AWS_DEFAULT_REGION")];
    if cs[0] != "" {
      assert FirstNonEmptyAt(cs, 0);
    } else if cs[1] != "" {
      assert FirstNonEmptyAt(cs, 1);
    } else if cs[2] != "" {
      assert FirstNonEmptyAt(cs, 2);
    }
  }
}

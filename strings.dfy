/** The few operations of Go's `strings` package that the launcher relies on,
    over character sequences. Lowercasing covers ASCII letters only. */
module GoStrings {

  type String = seq<char>

  predicate IsUpper(c: char) {
    'A' <= c <= 'Z'
  }

  const Lowercase := "abcdefghijklmnopqrstuvwxyz"

  function LowerChar(c: char): (d: char)
    ensures !IsUpper(d)
    ensures !IsUpper(c) ==> d == c
    ensures IsUpper(c) ==> d == Lowercase[c as int - 'A' as int]
  {
    if IsUpper(c) then (c as int + 32) as char else c
  }

  /** strings.ToLower, restricted to ASCII letters. */
  function ToLower(s: String): (r: String)
    ensures |r| == |s|
    ensures forall i :: 0 <= i < |r| ==> r[i] == LowerChar(s[i])
    ensures forall c :: c in r ==> !IsUpper(c)
  {
    seq(|s|, i requires 0 <= i < |s| => LowerChar(s[i]))
  }

  /** strings.Replace(s, " ", "", -1): every space removed. */
  function StripSpaces(s: String): (r: String)
    ensures |r| <= |s|
    ensures forall i :: 0 <= i < |r| ==> r[i] in s && r[i] != ' '
  {
    if s == [] then []
    else (if s[0] == ' ' then [] else [s[0]]) + StripSpaces(s[1..])
  }

  /** A string that lowercasing and space stripping leave alone. */
  predicate Normal(s: String) {
    forall i :: 0 <= i < |s| ==> !IsUpper(s[i]) && s[i] != ' '
  }

  /** Lowercase, then drop every space: how the instance searcher folds its
      key and its query. */
  function Normalize(s: String): (r: String)
    ensures Normal(r)
  {
    StripSpaces(ToLower(s))
  }

  predicate HasPrefix(s: String, p: String) {
    |p| <= |s| && s[..|p|] == p
  }

  predicate HasSuffix(s: String, p: String) {
    |p| <= |s| && s[|s| - |p|..] == p
  }

  /** strings.TrimSuffix: one occurrence of the suffix removed, if present. */
  function TrimSuffix(s: String, suffix: String): (r: String)
    ensures HasSuffix(s, suffix) ==> r + suffix == s
    ensures !HasSuffix(s, suffix) ==> r == s
  {
    if HasSuffix(s, suffix) then s[..|s| - |suffix|] else s
  }

  /** `sub` occurs in `s` starting at index `i`. */
  predicate OccursAt(s: String, sub: String, i: int) {
    0 <= i && i + |sub| <= |s| && s[i..i + |sub|] == sub
  }

  /** strings.Contains, as a scan from the left. */
  predicate Contains(s: String, sub: String)
    decreases |s|
  {
    HasPrefix(s, sub) || (s != [] && Contains(s[1..], sub))
  }

  lemma {:induction false} ContainsIffOccurs(s: String, sub: String)
    ensures Contains(s, sub) <==> exists i :: OccursAt(s, sub, i)
    decreases |s|
  {
    if HasPrefix(s, sub) {
      assert OccursAt(s, sub, 0);
    } else if s != [] {
      ContainsIffOccurs(s[1..], sub);
      if Contains(s[1..], sub) {
        var j :| OccursAt(s[1..], sub, j);
        assert s[1..][j..j + |sub|] == s[j + 1..j + 1 + |sub|];
        assert OccursAt(s, sub, j + 1);
      }
      if exists i :: OccursAt(s, sub, i) {
        var i :| OccursAt(s, sub, i);
        assert i != 0;
        assert s[1..][i - 1..i - 1 + |sub|] == s[i..i + |sub|];
        assert OccursAt(s[1..], sub, i - 1);
      }
    }
  }

  lemma {:induction false} StripSpacesOfNormal(s: String)
    requires forall i :: 0 <= i < |s| ==> s[i] != ' '
    ensures StripSpaces(s) == s
    decreases |s|
  {
    if s != [] {
      StripSpacesOfNormal(s[1..]);
    }
  }

  /** Folding is idempotent on strings it has already folded, in particular on
      every slice of a folded string. */
  lemma NormalizeOfNormal(s: String)
    requires Normal(s)
    ensures Normalize(s) == s
  {
    assert ToLower(s) == s;
    StripSpacesOfNormal(s);
  }

  lemma NormalizeIdempotent(s: String)
    ensures Normalize(Normalize(s)) == Normalize(s)
  {
    NormalizeOfNormal(Normalize(s));
  }

  /** Space removal works character by character. */
  lemma {:induction false} StripSpacesAppend(a: String, b: String)
    ensures StripSpaces(a + b) == StripSpaces(a) + StripSpaces(b)
    decreases |a|
  {
    if a == [] {
      assert a + b == b;
    } else {
      StripSpacesAppend(a[1..], b);
      assert (a + b)[1..] == a[1..] + b;
    }
  }

  /** Folding works character by character: the folded text is the input's
      non-space characters, lowercased, in their original order. */
  lemma NormalizeAppend(a: String, b: String)
    ensures Normalize(a + b) == Normalize(a) + Normalize(b)
  {
    assert ToLower(a + b) == ToLower(a) + ToLower(b);
    StripSpacesAppend(ToLower(a), ToLower(b));
  }

  /** A space folds to nothing, any other character to its lowercase. */
  lemma NormalizeChar(c: char)
    ensures Normalize([c]) == if c == ' ' then [] else [LowerChar(c)]
  {
    assert ToLower([c]) == [LowerChar(c)];
    assert [LowerChar(c)][1..] == [];
  }
}

/** String predicates the dashboard writer relies on: the `^\s*$` blank test
    of java.lang.String.matches, and the composite identity key. */
module Text {
  import opened Wrappers

  /** A member of Java's predefined regex class `\s`:
      space, tab, newline, vertical tab, form feed and carriage return. */
  predicate IsRegexSpace(c: char) {
    c == ' ' || c == '\t' || c == '\n' || c == '\U{B}' || c == '\U{C}' || c == '\r'
  }

  /** `s.matches("^\\s*$")`: String.matches must consume the whole string, so the
      string is blank exactly when every character is a `\s` character.
      The empty string is blank. */
  function Blank(s: string): (r: bool)
    ensures |s| == 0 ==> r
  {
    forall i :: 0 <= i < |s| ==> IsRegexSpace(s[i])
  }

  /** `\s*` matches a concatenation exactly when it matches both parts. */
  lemma {:induction false} BlankConcat(a: string, b: string)
    ensures Blank(a + b) <==> Blank(a) && Blank(b)
  {
    if Blank(a + b) {
      forall i | 0 <= i < |a| ensures IsRegexSpace(a[i]) { assert a[i] == (a + b)[i]; }
      forall i | 0 <= i < |b| ensures IsRegexSpace(b[i]) { assert b[i] == (a + b)[|a| + i]; }
    }
    if Blank(a) && Blank(b) {
      forall i | 0 <= i < |a + b| ensures IsRegexSpace((a + b)[i]) {
        if i < |a| { assert (a + b)[i] == a[i]; } else { assert (a + b)[i] == b[i - |a|]; }
      }
    }
  }

  /** The executable form of `Blank`: a matcher for `^\s*$` run left to right
      over the input, answering true exactly for the blank strings. The model's
      functions use `Blank` itself; this method shows that the test is decidable by
      one scan. */
  method MatchesBlankPattern(s: string) returns (b: bool)
    ensures b <==> Blank(s)
  {
    var i := 0;
    while i < |s|
      invariant 0 <= i <= |s|
      invariant forall j :: 0 <= j < i ==> IsRegexSpace(s[j])
    {
      if !IsRegexSpace(s[i]) {
        return false;
      }
      i := i + 1;
    }
    return true;
  }

  /** The separator the writer puts between environment and component. */
  const KeySeparator: char := '='

  /** The composite identity stored in the `envComp` column: `envName + '=' + compName`. */
  function KeyOf(envName: string, compName: string): (r: string)
    ensures |r| == |envName| + 1 + |compName|
    ensures r[..|envName|] == envName && r[|envName|] == KeySeparator && r[|envName| + 1..] == compName
  {
    envName + [KeySeparator] + compName
  }

  /** Position of the first occurrence of `c` in `s`, or `|s|` when there is none. */
  function FirstIndex(s: string, c: char): (i: nat)
    ensures i <= |s|
    ensures forall j :: 0 <= j < i ==> s[j] != c
    ensures i < |s| ==> s[i] == c
    ensures i == |s| <==> c !in s
  {
    if |s| == 0 then 0
    else if s[0] == c then 0
    else 1 + FirstIndex(s[1..], c)
  }

  /** Splits an `envComp` key at its first separator back into
      (environment, component); None when the key holds no separator. */
  function SplitKey(key: string): (r: Option<(string, string)>)
    ensures r.None? <==> KeySeparator !in key
    ensures r.Some? ==> KeySeparator !in r.value.0
    ensures r.Some? ==> KeyOf(r.value.0, r.value.1) == key
  {
    var i := FirstIndex(key, KeySeparator);
    if i == |key| then None
    else
      var env, comp := key[..i], key[i + 1..];
      assert key == env + [KeySeparator] + comp;
      Some((env, comp))
  }

  /** The key can be read back as long as the environment name holds no separator. */
  lemma {:induction false} SplitKeyOfKey(envName: string, compName: string)
    requires KeySeparator !in envName
    ensures SplitKey(KeyOf(envName, compName)) == Some((envName, compName))
  {
    var key := KeyOf(envName, compName);
    var i := FirstIndex(key, KeySeparator);
    assert key[|envName|] == KeySeparator;
    assert i == |envName|;
    assert key[..i] == envName;
    assert key[i + 1..] == compName;
  }

  /** Hence the key identifies the (environment, component) pair when neither
      environment name contains the separator. */
  lemma KeyInjective(env1: string, comp1: string, env2: string, comp2: string)
    requires KeySeparator !in env1 && KeySeparator !in env2
    requires KeyOf(env1, comp1) == KeyOf(env2, comp2)
    ensures env1 == env2 && comp1 == comp2
  {
    SplitKeyOfKey(env1, comp1);
    SplitKeyOfKey(env2, comp2);
  }

  /** Without that restriction two different identities share one key, so rows
      written for either of them carry the same `envComp` value and cannot be told
      apart by that column alone. */
  lemma KeyCollides()
    ensures KeyOf("a=b", "c") == KeyOf("a", "b=c")
    ensures ("a=b", "c") != ("a", "b=c")
  {
    assert ("a=b", "c").0 != ("a", "b=c").0 by { assert |"a=b"| != |"a"|; }
  }
}

/**
 * Quality profiles (internal/encoder/profile.go). In Go a Profile is a named
 * string type, so any string is a Profile value; the three constants are the
 * declared ones and ParseProfile only ever produces those.
 */
module Profiles {

  datatype Profile = Profile(name: string)

  const Low: Profile := Profile("low")
  const Med: Profile := Profile("med")
  const High: Profile := Profile("high")

  predicate IsDeclared(p: Profile) {
    p == Low || p == Med || p == High
  }

  /** The three declared profiles are distinct values. */
  lemma DeclaredDistinct()
    ensures Low != Med && Low != High && Med != High
  {
    assert Low.name[0] != Med.name[0];
  }

  /** "low" and "high" are recognised case-sensitively; every other token means Med. */
  function ParseProfile(s: string): (p: Profile)
    ensures IsDeclared(p)
    ensures p == Low <==> s == "low"
    ensures p == High <==> s == "high"
    ensures p == Med <==> s != "low" && s != "high"
  {
    if s == "low" then Low
    else if s == "high" then High
    else Med
  }

  /** Each declared profile parses back from its own name. */
  lemma ParseProfileRoundTrip(p: Profile)
    requires IsDeclared(p)
    ensures ParseProfile(p.name) == p
  {
  }

  /** Matching is case-sensitive and unknown tokens fall back to Med. */
  lemma ParseProfileDefaults()
    ensures ParseProfile("med") == Med
    ensures ParseProfile("") == Med
    ensures ParseProfile("LOW") == Med
    ensures ParseProfile("ultra") == Med
  {
  }
}

/**
 * ASCII case folding and the three matching policies the resources build
 * their lookups from: exact (equalsIgnoreCase), prefix (startsWith) and
 * substring (contains), each applied after upper-casing both sides.
 */
module CaseFold {

  /** Upper case of one character: 'a'..'z' become 'A'..'Z', all else is kept. */
  function UpperChar(c: char): char {
    if 'a' <= c <= 'z' then (c as int - 32) as char else c
  }

  /** String.toUpperCase, one character at a time. */
  function ToUpper(s: string): string {
    seq(|s|, i requires 0 <= i < |s| => UpperChar(s[i]))
  }

  /** String.equalsIgnoreCase. */
  predicate EqualsIgnoreCase(a: string, b: string) {
    ToUpper(a) == ToUpper(b)
  }

  /** String.startsWith. */
  predicate StartsWith(s: string, prefix: string) {
    |prefix| <= |s| && s[..|prefix|] == prefix
  }

  /** String.contains: some suffix of s starts with sub. */
  predicate Contains(s: string, sub: string)
    decreases |s|
  {
    StartsWith(s, sub) || (|s| > 0 && Contains(s[1..], sub))
  }

  /** The prefix policy: `field.toUpperCase().startsWith(query.toUpperCase())`. */
  predicate StartsWithIgnoreCase(field: string, query: string) {
    StartsWith(ToUpper(field), ToUpper(query))
  }

  /** The substring policy: `field.toUpperCase().contains(query.toUpperCase())`. */
  predicate ContainsIgnoreCase(field: string, query: string) {
    Contains(ToUpper(field), ToUpper(query))
  }

  /** A string starts with every string it extends. */
  lemma StartsWithExtended(prefix: string, rest: string)
    ensures StartsWith(prefix + rest, prefix)
  {
    assert (prefix + rest)[..|prefix|] == prefix;
  }

  /** Upper-casing never turns anything but that digit into a digit. */
  lemma UpperCharOfDigit(c: char, d: char)
    requires '0' <= d <= '9' && UpperChar(c) == d
    ensures c == d
  {
  }

  /** Upper-casing twice is upper-casing once. */
  lemma ToUpperIdempotent(s: string)
    ensures ToUpper(ToUpper(s)) == ToUpper(s)
  {
  }

  /** Contains means exactly: sub occurs at some offset of s. */
  lemma {:induction false} ContainsIffOccurs(s: string, sub: string)
    ensures Contains(s, sub) <==> exists k :: 0 <= k <= |s| - |sub| && StartsWith(s[k..], sub)
  {
    if Contains(s, sub) {
      if StartsWith(s, sub) {
        assert s[0..] == s;
      } else {
        ContainsIffOccurs(s[1..], sub);
        var k :| 0 <= k <= |s[1..]| - |sub| && StartsWith(s[1..][k..], sub);
        assert s[1..][k..] == s[k + 1..];
      }
    }
    if exists k :: 0 <= k <= |s| - |sub| && StartsWith(s[k..], sub) {
      var k :| 0 <= k <= |s| - |sub| && StartsWith(s[k..], sub);
      if k == 0 {
        assert s[0..] == s;
      } else {
        assert s[1..][k - 1..] == s[k..];
        ContainsIffOccurs(s[1..], sub);
      }
    }
  }

  /**
   * The three policies are nested: an exact match is a prefix match, and a
   * prefix match is a substring match.
   */
  lemma PoliciesNest(field: string, query: string)
    ensures EqualsIgnoreCase(field, query) ==> StartsWithIgnoreCase(field, query)
    ensures StartsWithIgnoreCase(field, query) ==> ContainsIgnoreCase(field, query)
  {
    if EqualsIgnoreCase(field, query) {
      assert ToUpper(field)[..|ToUpper(query)|] == ToUpper(field);
    }
  }

  /**
   * The policies depend on the query only up to case: two queries that are
   * equal ignoring case select the same fields.
   */
  lemma QueryCaseIrrelevant(field: string, q1: string, q2: string)
    requires EqualsIgnoreCase(q1, q2)
    ensures EqualsIgnoreCase(field, q1) == EqualsIgnoreCase(field, q2)
    ensures StartsWithIgnoreCase(field, q1) == StartsWithIgnoreCase(field, q2)
    ensures ContainsIgnoreCase(field, q1) == ContainsIgnoreCase(field, q2)
  {
  }

  /**
   * The last-name example: a prefix query "jaya" finds Jayasekara and
   * Jayaratna but not Wijaya.
   */
  lemma JayaPrefixExample()
    ensures StartsWithIgnoreCase("Jayasekara", "jaya")
    ensures StartsWithIgnoreCase("Jayaratna", "jaya")
    ensures !StartsWithIgnoreCase("Wijaya", "jaya")
  {
    assert ToUpper("jaya") == "JAYA";
    assert ToUpper("Jayasekara") == "JAYASEKARA";
    assert ToUpper("Jayaratna") == "JAYARATNA";
    assert ToUpper("Wijaya") == "WIJAYA";
    assert "WIJAYA"[..4][0] != "JAYA"[0];
  }

  /** A substring query "jaya" finds all three, Wijaya included. */
  lemma JayaSubstringExample()
    ensures ContainsIgnoreCase("Jayasekara", "jaya")
    ensures ContainsIgnoreCase("Jayaratna", "jaya")
    ensures ContainsIgnoreCase("Wijaya", "jaya")
  {
    JayaPrefixExample();
    PoliciesNest("Jayasekara", "jaya");
    PoliciesNest("Jayaratna", "jaya");
    assert ToUpper("jaya") == "JAYA";
    assert ToUpper("Wijaya") == "WIJAYA";
    assert "WIJAYA"[2..] == "JAYA";
    ContainsIffOccurs("WIJAYA", "JAYA");
  }
}

/** The pattern of the last part of a resource name. */
module ResourceIds {

  predicate NoSlash(s: string) { forall i :: 0 <= i < |s| ==> s[i] != '/' }

  predicate IdChar(ch: char) {
    'A' <= ch <= 'Z' || 'a' <= ch <= 'z' || '0' <= ch <= '9' || ch == '_' || ch == '-'
  }

  predicate MatchesId(s: string, max: nat) {
    1 <= |s| <= max && forall i :: 0 <= i < |s| ==> IdChar(s[i])
  }

  /** ASCII letters and digits, hyphen and underscore, by their codes. */
  predicate IdCode(code: int) { 48 <= code <= 57 || 65 <= code <= 90 || 97 <= code <= 122 || code == 45 || code == 95 }

  lemma IdHasNoSlash(s: string, max: nat)
    requires MatchesId(s, max)
    ensures NoSlash(s)
  {
  }

  /** What follows the last slash. */
  function LastPart(s: string): string {
    if s == [] || s[|s| - 1] == '/' then [] else LastPart(s[..|s| - 1]) + [s[|s| - 1]]
  }

  lemma {:induction false} LastPartOf(prefix: string, s: string)
    requires NoSlash(s)
    ensures LastPart(prefix + "/" + s) == s
  {
    var whole := prefix + "/" + s;
    if s == [] {
      assert whole[|whole| - 1] == '/';
    } else {
      assert whole[..|whole| - 1] == prefix + "/" + s[..|s| - 1];
      LastPartOf(prefix, s[..|s| - 1]);
    }
  }
}

/** The few JavaScript string semantics the orchestrator relies on: truthiness,
    `Array.prototype.join`, the two anchored regular expressions it strips with,
    and the expansion of `$` patterns in the replacement string of `String.prototype.replace`. */
module JsText {

  /** A string is truthy in JavaScript exactly when it is not empty. */
  predicate Truthy(s: string) {
    |s| > 0
  }

  /** The last character of `s` is `c` (`s[s.length-1] == c`; false for the empty string). */
  predicate EndsWith(s: string, c: char) {
    |s| > 0 && s[|s| - 1] == c
  }

  /** `parts.join(sep)`. */
  function Join(parts: seq<string>, sep: string): string
    decreases |parts|
  {
    if |parts| == 0 then ""
    else if |parts| == 1 then parts[0]
    else parts[0] + sep + Join(parts[1..], sep)
  }

  /** Joining three parts puts the separator between each neighbouring pair. */
  lemma JoinThree(a: string, b: string, c: string, sep: string)
    ensures Join([a, b, c], sep) == a + sep + b + sep + c
  {
    assert [b, c][1..] == [c];
    assert Join([b, c], sep) == b + sep + c;
    assert [a, b, c][1..] == [b, c];
  }

  /** `g[..k]` is the longest prefix of `g` that belongs to `alts`: what an anchored,
      greedy regular expression whose language is `alts` matches at the start of `g`. */
  ghost predicate LongestPrefixIn(g: string, k: nat, alts: set<string>) {
    && k <= |g|
    && g[..k] in alts
    && forall j | k < j <= |g| :: g[..j] !in alts
  }

  /** Some prefix of `g` belongs to `alts`. */
  ghost predicate SomePrefixIn(g: string, alts: set<string>) {
    exists j | 0 <= j <= |g| :: g[..j] in alts
  }

  /** The strings `/^\.?\/?/` can match: an optional dot, then an optional slash. */
  const OptionalDotSlash: set<string> := {"", ".", "/", "./"}

  /** The strings `/^\.?\//` can match: an optional dot, then a required slash. */
  const DotSlash: set<string> := {"/", "./"}

  /** Length of the match of `/^\.?\/?/` at the start of `g`; this pattern always matches. */
  function OptionalDotSlashLen(g: string): (k: nat)
    ensures LongestPrefixIn(g, k, OptionalDotSlash)
  {
    var d := if |g| > 0 && g[0] == '.' then 1 else 0;
    var k := if |g| > d && g[d] == '/' then d + 1 else d;
    assert g[..k] in OptionalDotSlash by {
      if k == 1 { assert g[..k] == [g[0]]; }
      if k == 2 { assert g[..k] == [g[0], g[1]]; }
    }
    assert forall j | k < j <= |g| :: g[..j] !in OptionalDotSlash by {
      forall j | k < j <= |g| ensures g[..j] !in OptionalDotSlash {
        if j == 1 { assert g[..j] == [g[0]]; }
        if j == 2 { assert g[..j] == [g[0], g[1]]; }
      }
    }
    k
  }

  /** Length of the match of `/^\.?\//` at the start of `g`, or 0 when it does not match. */
  function DotSlashLen(g: string): (k: nat)
    ensures SomePrefixIn(g, DotSlash) ==> LongestPrefixIn(g, k, DotSlash)
    ensures !SomePrefixIn(g, DotSlash) ==> k == 0
  {
    var k := if |g| >= 2 && g[0] == '.' && g[1] == '/' then 2
             else if |g| >= 1 && g[0] == '/' then 1
             else 0;
    assert g[..k] == [] || g[..k] == [g[0]] || g[..k] == [g[0], g[1]];
    assert forall j | 0 <= j <= |g| :: g[..j] in DotSlash ==> j <= k by {
      forall j | 0 <= j <= |g| && g[..j] in DotSlash ensures j <= k {
        if j == 1 { assert g[..j] == [g[0]]; }
        if j == 2 { assert g[..j] == [g[0], g[1]]; }
      }
    }
    k
  }

  /** No `$` occurs in `s`, so `s` holds no replacement pattern. */
  predicate NoDollar(s: string) {
    forall i | 0 <= i < |s| :: s[i] != '$'
  }

  /** The replacement text `String.prototype.replace` inserts for the replacement string
      `repl`, when a pattern without capture groups matched `matched` at position 0 of the
      subject and `tail` is the subject after the match (GetSubstitution in ECMA-262):
      `$$` is a dollar, `$&` the match, `` $` `` the (empty) text before it, `$'` the text after it;
      any other `$` (`$1` with no groups, `$<` with no named groups) stays literal. */
  function Substitute(repl: string, matched: string, tail: string): (r: string)
    ensures NoDollar(repl) ==> r == repl
    decreases |repl|
  {
    if |repl| == 0 then ""
    else if |repl| >= 2 && repl[0] == '$' && repl[1] == '$' then "$" + Substitute(repl[2..], matched, tail)
    else if |repl| >= 2 && repl[0] == '$' && repl[1] == '&' then matched + Substitute(repl[2..], matched, tail)
    else if |repl| >= 2 && repl[0] == '$' && repl[1] == '`' then Substitute(repl[2..], matched, tail)
    else if |repl| >= 2 && repl[0] == '$' && repl[1] == '\'' then tail + Substitute(repl[2..], matched, tail)
    else [repl[0]] + Substitute(repl[1..], matched, tail)
  }

  /** Two literal-free strings put together stay literal-free. */
  lemma NoDollarConcat(a: string, b: string)
    requires NoDollar(a) && NoDollar(b)
    ensures NoDollar(a + b)
  {
    forall i | 0 <= i < |a + b| ensures (a + b)[i] != '$' {
      if i < |a| { assert (a + b)[i] == a[i]; } else { assert (a + b)[i] == b[i - |a|]; }
    }
  }
}
